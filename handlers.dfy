/** The two request handlers, `get_questions` and `add_question`, over the
    store. Routing, JSON encoding and the reply types of the framework are
    not part of this model: a handler's result is what it would encode. */
module Handlers {
  import opened Results
  import opened UsizeParse
  import opened Errors
  import opened Paging
  import opened QuestionStore

  /** What a list request ends in: the questions to encode, a rejection with
      a pagination error, or a panic because the range does not fit the
      snapshot. */
  datatype ListOutcome = Listed(questions: seq<Question>) | Rejected(error: Error) | Panicked

  /** Rust's range slice `&s[start..end]`, which panics unless
      `start <= end <= |s|`. */
  function Slice(s: seq<Question>, p: Pagination): ListOutcome {
    if p.start <= p.end <= |s| then Listed(s[p.start..p.end]) else Panicked
  }

  /** The decision `get_questions` makes, given the query parameters and the
      snapshot of the store it would take. */
  function ListResponse(params: map<string, string>, snapshot: seq<Question>): ListOutcome {
    if |params| == 0 then Listed(snapshot)
    else
      match ExtractPagination(params)
      case Err(e) => Rejected(e)
      case Ok(p) => Slice(snapshot, p)
  }

  /** `get_questions`: with parameters, pagination is extracted first and a
      failure is returned before the store is read; otherwise the snapshot
      is taken and returned whole, or sliced to the requested range. */
  method GetQuestions(params: map<string, string>, store: Store)
    returns (outcome: ListOutcome, ghost order: seq<QuestionId>)
    ensures |params| > 0 && ExtractPagination(params).Err? ==>
              outcome == Rejected(ExtractPagination(params).error)
    ensures !(|params| > 0 && ExtractPagination(params).Err?) ==>
              IsEnumeration(store.questions, order) &&
              outcome == ListResponse(params, ValuesAlong(store.questions, order))
    ensures |params| == 0 ==>
              outcome.Listed? && |outcome.questions| == |store.questions| &&
              forall q :: q in outcome.questions <==> q in store.questions.Values
  {
    if |params| > 0 {
      var pagination := ExtractPagination(params);
      if pagination.Err? {
        return Rejected(pagination.error), [];
      }
      var res;
      res, order := store.Values();
      var p := pagination.value;
      if p.start <= p.end <= |res| {
        outcome := Listed(res[p.start..p.end]);
      } else {
        outcome := Panicked;
      }
    } else {
      var res;
      res, order := store.Values();
      outcome := Listed(res);
    }
  }

  const QUESTION_ADDED_TEXT := "Question added"

  /** `add_question`: stores the question under its id, replacing any earlier
      one, and answers 200 "Question added". */
  method AddQuestion(store: Store, question: Question) returns (reply: Reply)
    modifies store
    ensures store.questions == old(store.questions)[question.id := question]
    ensures reply == Reply(OK, QUESTION_ADDED_TEXT)
  {
    store.Add(question);
    reply := Reply(OK, QUESTION_ADDED_TEXT);
  }

  // ---------------------------------------------------------------------
  // Lemmas about the list decision

  /** Without parameters every stored question is listed, once per entry. */
  lemma ListAllReturnsEveryQuestion(m: map<QuestionId, Question>, order: seq<QuestionId>)
    requires IsEnumeration(m, order)
    ensures ListResponse(map[], ValuesAlong(m, order)).Listed?
    ensures |ListResponse(map[], ValuesAlong(m, order)).questions| == |m|
    ensures forall q :: q in ListResponse(map[], ValuesAlong(m, order)).questions <==> q in m.Values
  {
    SnapshotHoldsStoredValues(m, order);
  }

  /** A pagination error is returned as it is, and does not depend on the
      store: any two snapshots give the same outcome. */
  lemma PaginationErrorIgnoresStore(params: map<string, string>, s1: seq<Question>, s2: seq<Question>)
    requires |params| > 0 && ExtractPagination(params).Err?
    ensures ListResponse(params, s1) == ListResponse(params, s2) == Rejected(ExtractPagination(params).error)
  {
  }

  /** A well-formed range that fits yields the questions at positions
      `[start, end)` of the snapshot, `end - start` of them; any other range
      makes the handler panic. */
  lemma PaginatedListIsSlice(params: map<string, string>, snapshot: seq<Question>)
    requires |params| > 0 && ExtractPagination(params).Ok?
    ensures var p := ExtractPagination(params).value;
            var r := ListResponse(params, snapshot);
            (r.Listed? <==> p.start <= p.end <= |snapshot|) &&
            (r.Panicked? <==> !(p.start <= p.end <= |snapshot|)) &&
            (r.Listed? ==> |r.questions| == p.end - p.start &&
                           forall i :: 0 <= i < |r.questions| ==> r.questions[i] == snapshot[p.start + i])
  {
  }

  /** `start=1&end=3` over five questions lists the second and third entries
      of the snapshot. */
  lemma SecondAndThirdOfFive(snapshot: seq<Question>)
    requires |snapshot| == 5
    ensures ListResponse(map["start" := "1", "end" := "3"], snapshot) == Listed([snapshot[1], snapshot[2]])
  {
    assert ParseUsize("1") == Ok(1);
    assert ParseUsize("3") == Ok(3);
  }

  /** A list request whose pagination fails is answered 416 with the error's
      text by the recovery step. */
  lemma PaginationFailureAnswered416(params: map<string, string>, snapshot: seq<Question>,
                                     describe: IntErrorKind -> string)
    requires |params| > 0 && !ExtractPagination(params).Ok?
    ensures var r := ListResponse(params, snapshot);
            r.Rejected? &&
            ReturnError(Rejection(Some(r.error), None), describe) ==
              Reply(RANGE_NOT_SATISFIABLE, Message(r.error, describe))
  {
  }
}
