/** The question records and the in-memory store that holds them, keyed by
    question id. The store's lock only serialises access; here the store is a
    single-threaded object whose map field is updated in place. */
module QuestionStore {
  import opened Results

  datatype QuestionId = QuestionId(text: string)

  datatype Question = Question(
    id: QuestionId,
    title: string,
    content: string,
    tags: Option<seq<string>>)

  predicate Distinct<T(==)>(s: seq<T>) {
    forall i, j :: 0 <= i < j < |s| ==> s[i] != s[j]
  }

  /** `order` lists every key of `m` exactly once: one of the orders in which
      `HashMap::values()` may visit the entries. */
  ghost predicate IsEnumeration<K(!new), V>(m: map<K, V>, order: seq<K>) {
    Distinct(order) && forall k :: k in order <==> k in m
  }

  /** The values of `m` in the order the keys are listed. */
  function ValuesAlong<K, V>(m: map<K, V>, order: seq<K>): (vs: seq<V>)
    requires forall k :: k in order ==> k in m
    ensures |vs| == |order|
    ensures forall i :: 0 <= i < |order| ==> vs[i] == m[order[i]]
  {
    seq(|order|, i requires 0 <= i < |order| => m[order[i]])
  }

  /** Every stored question sits under its own id. `add_question` keeps this;
      the seed data is not checked for it. */
  ghost predicate KeysMatchIds(m: map<QuestionId, Question>) {
    forall id :: id in m ==> m[id].id == id
  }

  class Store {
    var questions: map<QuestionId, Question>

    /** `Store::new`: the map is the seed read at start-up (loading and
        decoding the seed file is not part of this model). */
    constructor (seed: map<QuestionId, Question>)
      ensures questions == seed
    {
      questions := seed;
    }

    /** The insertion done by `add_question`: the question replaces whatever
        was stored under its id, and no other entry changes. */
    method Add(q: Question)
      modifies this
      ensures questions == old(questions)[q.id := q]
      ensures q.id in questions && questions[q.id] == q
      ensures forall id :: id != q.id ==>
                (id in questions <==> id in old(questions)) &&
                (id in questions ==> questions[id] == old(questions)[id])
      ensures |questions| == if q.id in old(questions) then |old(questions)| else |old(questions)| + 1
      ensures KeysMatchIds(old(questions)) ==> KeysMatchIds(questions)
    {
      questions := questions[q.id := q];
    }

    /** `values().cloned().collect()`: visits every entry once, in an order
        the map does not define, and returns the values in that order. */
    method Values() returns (snapshot: seq<Question>, ghost order: seq<QuestionId>)
      ensures IsEnumeration(questions, order)
      ensures snapshot == ValuesAlong(questions, order)
      ensures |snapshot| == |questions|
      ensures forall q :: q in snapshot <==> q in questions.Values
    {
      snapshot, order := [], [];
      var remaining := questions.Keys;
      while remaining != {}
        invariant remaining <= questions.Keys
        invariant Distinct(order)
        invariant forall k :: k in order <==> k in questions && k !in remaining
        invariant snapshot == ValuesAlong(questions, order)
        decreases remaining
      {
        var k :| k in remaining;
        snapshot := snapshot + [questions[k]];
        order := order + [k];
        remaining := remaining - {k};
      }
      SnapshotHoldsStoredValues(questions, order);
    }
  }

  // ---------------------------------------------------------------------
  // Lemmas about the stored map

  /** Last writer wins: a second insertion under the same id leaves only the
      second question, as if the first had never happened. */
  lemma InsertSameIdTwice(m: map<QuestionId, Question>, first: Question, second: Question)
    requires first.id == second.id
    ensures m[first.id := first][second.id := second] == m[second.id := second]
  {
  }

  /** Insertions under distinct ids commute: neither is lost. */
  lemma InsertDistinctIdsCommute(m: map<QuestionId, Question>, a: Question, b: Question)
    requires a.id != b.id
    ensures m[a.id := a][b.id := b] == m[b.id := b][a.id := a]
    ensures a in m[a.id := a][b.id := b].Values && b in m[a.id := a][b.id := b].Values
  {
    var r := m[a.id := a][b.id := b];
    assert r[a.id] == a && r[b.id] == b;
  }

  /** An enumeration lists as many keys as the map has. */
  lemma {:induction false} EnumerationLength<K(!new), V>(m: map<K, V>, order: seq<K>)
    requires IsEnumeration(m, order)
    ensures |order| == |m|
    decreases |order|
  {
    if order != [] {
      var last := order[|order| - 1];
      var rest := order[..|order| - 1];
      var m' := m - {last};
      assert forall k :: k in rest <==> k in order && k != last;
      assert IsEnumeration(m', rest);
      EnumerationLength(m', rest);
    } else {
      assert m.Keys == {};
    }
  }

  /** A snapshot taken along an enumeration holds exactly the stored values,
      as many as there are entries. */
  lemma SnapshotHoldsStoredValues<K(!new), V>(m: map<K, V>, order: seq<K>)
    requires IsEnumeration(m, order)
    ensures |ValuesAlong(m, order)| == |m|
    ensures forall v :: v in ValuesAlong(m, order) <==> v in m.Values
  {
    EnumerationLength(m, order);
    var vs := ValuesAlong(m, order);
    forall v | v in m.Values
      ensures v in vs
    {
      var k :| k in m && m[k] == v;
      var i :| 0 <= i < |order| && order[i] == k;
      assert vs[i] == v;
    }
  }

  /** When every question sits under its own id, the snapshot holds each
      stored question once. */
  lemma {:induction false} SnapshotHasNoDuplicates(m: map<QuestionId, Question>, order: seq<QuestionId>)
    requires KeysMatchIds(m) && IsEnumeration(m, order)
    ensures Distinct(ValuesAlong(m, order))
  {
    var vs := ValuesAlong(m, order);
    forall i, j | 0 <= i < j < |vs|
      ensures vs[i] != vs[j]
    {
      assert vs[i].id == order[i] && vs[j].id == order[j];
    }
  }

  /** Listing an empty store yields an empty snapshot. */
  lemma EmptyStoreEmptySnapshot(m: map<QuestionId, Question>, order: seq<QuestionId>)
    requires |m| == 0 && IsEnumeration(m, order)
    ensures ValuesAlong(m, order) == []
  {
    EnumerationLength(m, order);
  }
}
