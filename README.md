# Question service core, modelled in Dafny

The service keeps questions in memory, keyed by question id, and answers two
requests: list the questions, optionally paginated by `start` and `end`
query parameters, and add a question. This project models the part of
`src/main.rs` that decides what those requests do:

- `results.dfy`: `Option` and `Result` wrappers.
- `usize_parse.dfy`: Rust's `str::parse::<usize>` on a 64-bit target (the
  parser behind pagination). It is given as a left-to-right scan
  (`ParseUsize`), a declarative reference (`Expected`, `IsUsizeLiteral`) and
  decimal rendering (`ToDecimal`), with lemmas that tie them together.
- `errors.dfy`: the `Error` enum, its `Display` text (`Message`), the
  rejection a request can end in, and `return_error` (`ReturnError`). The
  last one maps an error to a status code and a body.
- `paging.dfy`: `Pagination` and `extract_pagination` (`ExtractPagination`).
- `question_store.dfy`: `QuestionId`, `Question` and the `Store` class. The
  class holds a `map` field that `Add` updates in place. `Values` takes the
  snapshot that `values().cloned().collect()` builds, in a loop that visits
  the keys in an order the map does not define. A ghost enumeration of the
  keys records the order that was used.
- `handlers.dfy`: `get_questions` (`GetQuestions`, specified by
  `ListResponse`) and `add_question` (`AddQuestion`).

An out-of-range slice `&res[start..end]` panics in the service. The model
represents that panic as the distinct outcome `Panicked` and places no
precondition on the handler.

## Model

| member | source | states |
|---|---|---|
| UsizeParse.ParseUsizeMatchesExpected | src/main.rs:139 | the scanning parser equals the reference on every string: `Empty` only for "", `InvalidDigit` for a lone sign or a non-digit reached before any overflow, `PosOverflow` when the leading digits exceed 2^64-1, otherwise the decimal value |
| UsizeParse.AccumulateMatchesScan | src/main.rs:139 | scanning the digits with the value of a digit prefix already accumulated yields the reference outcome for the whole string |
| UsizeParse.ParseUsizeAccepts | src/main.rs:139 | parsing succeeds if and only if the string is an optional `+` followed by one or more digits whose value fits in a usize, and the result is that value |
| UsizeParse.ParseUsizeEmpty | src/main.rs:139 | the empty string is the only input that is reported as `Empty` |
| UsizeParse.ParseUsizeRoundTrip | src/main.rs:139 | every usize, written in decimal with or without a `+`, parses back to itself |
| UsizeParse.DigitRun | src/main.rs:139 | the digit run at the head of a string consists only of digits and ends at the first non-digit |
| UsizeParse.DecimalValueMonotone | src/main.rs:139 | appending digits never lowers the value, so an overflow in a prefix is an overflow of the whole number |
| UsizeParse.ToDecimalValue | src/main.rs:139 | the decimal rendering of n has value n |
| Errors.Message | src/main.rs:55-62 | `MissingParameters` displays as "Missing parameter"; a `ParseError` displays as "Cannot parse parameter: " followed by the text of the underlying parse error |
| Errors.MessageDeterminesError | src/main.rs:55-62 | if the parse-error texts are pairwise distinct, distinct errors display distinctly |
| Errors.ReturnError | src/main.rs:114-131 | 416 with the error's display text exactly when the rejection holds a service `Error`, even if a CORS refusal is also present; otherwise 403 with the CORS text when there is one; otherwise 404 "Route not found" |
| Errors.ReturnErrorIsClientError | src/main.rs:114-131 | recovery is total and always answers 403, 404 or 416 |
| Paging.MissingParametersIffKeyAbsent | src/main.rs:134-149 | the result is `MissingParameters` if and only if `start` or `end` is absent, whatever other keys are present |
| Paging.ExtractPaginationAccepts | src/main.rs:134-146 | the result is `Ok` if and only if both keys are present and both values are usize literals; it then holds exactly their decimal values |
| Paging.StartParsedBeforeEnd | src/main.rs:136-145 | a malformed `start` yields `ParseError` with `start`'s error kind, whatever `end` holds; with a valid `start`, a malformed `end` yields `ParseError` with `end`'s kind |
| Paging.OtherKeysIgnored | src/main.rs:134-146 | the outcome depends only on the `start` and `end` entries |
| Paging.AnyPairAccepted | src/main.rs:135-146 | any two usize values are accepted as given, including `start > end` and values up to 2^64-1, so there is no relational or bounds check |
| Paging.ExtractPaginationExamples | src/main.rs:133-150 | `{}`, `{start:0}` and `{foo:1}` give `MissingParameters`; `{start:a,end:5}` gives `ParseError(InvalidDigit)`; `{start:5,end:2}` gives `Ok(5,2)` |
| QuestionStore.Store.constructor | src/main.rs:22-31 | the store starts with the seed map |
| QuestionStore.Store.Add | src/main.rs:102-106 | the new map is the old one with `q.id` bound to `q`: that entry is replaced, no other key changes, the size grows by at most one, and "every question sits under its own id" is preserved |
| QuestionStore.Store.Values | src/main.rs:87-93 | the snapshot has one element per entry and its elements are exactly the stored values; it is the stored values along an enumeration that lists every key exactly once |
| QuestionStore.InsertSameIdTwice | src/main.rs:102-106 | two insertions under one id leave only the second question, so the last writer wins |
| QuestionStore.InsertDistinctIdsCommute | src/main.rs:102-106 | insertions under distinct ids commute and both questions remain stored |
| QuestionStore.EnumerationLength | src/main.rs:87-93 | an enumeration of the keys is as long as the map |
| QuestionStore.SnapshotHoldsStoredValues | src/main.rs:87-93 | a snapshot has one element per entry, and its elements are exactly the stored values |
| QuestionStore.SnapshotHasNoDuplicates | src/main.rs:87-93 | when every question is keyed by its own id, the snapshot lists each question once |
| QuestionStore.EmptyStoreEmptySnapshot | src/main.rs:87-93 | an empty store lists nothing |
| Handlers.GetQuestions | src/main.rs:70-96 | with no parameters, every stored value is listed, and the list is as long as the store; a pagination failure on non-empty parameters is returned before the store is read; otherwise the outcome is `ListResponse` over a snapshot taken along an enumeration of the store's keys |
| Handlers.AddQuestion | src/main.rs:98-112 | the store maps the question's id to the question, and the reply is 200 "Question added" |
| Handlers.ListAllReturnsEveryQuestion | src/main.rs:86-94 | with no parameters, every stored value is listed, and the list is as long as the store |
| Handlers.PaginationErrorIgnoresStore | src/main.rs:74-75 | a pagination error is the outcome whatever the store holds |
| Handlers.PaginatedListIsSlice | src/main.rs:76-85 | a valid pagination lists the `end - start` questions at positions `[start, end)` of the snapshot when `start <= end <= len`, and panics otherwise |
| Handlers.SecondAndThirdOfFive | src/main.rs:74-85 | `start=1&end=3` over five questions lists snapshot positions 1 and 2 |
| Handlers.PaginationFailureAnswered416 | src/main.rs:114-119 | a list request that fails pagination is answered 416 with the error's display text |

## Left out

- The `Arc<RwLock<…>>` and the `async` lock acquisition. The store is a single-threaded object, so concurrent requests are not modelled. The commutation of distinct-id insertions is the sequential counterpart of "no lost update".
- Loading the seed with `include_str!` and serde, and its `expect` panic. The seed map is a constructor parameter. A JSON object's keys need not equal the questions' ids, so "every question sits under its own id" is not assumed of the seed.
- JSON encoding and decoding of questions and replies, including the round trip of a `Question` through JSON. The list outcome carries the questions that would be encoded.
- Warp routing, query and body filters, CORS configuration, `warp::serve` and `main`.
- Errors.Message: the standard library's wording of a `ParseIntError` is not modelled. It is the `describe` parameter. The CORS refusal text is likewise carried as given.
- A panic does not produce a reply in this model. The runtime drops the connection, and that is outside the model.
- `ParseUsize` covers only the error kinds an unsigned decimal parse can produce: `Empty`, `InvalidDigit` and `PosOverflow`. Strings are sequences of characters, not UTF-8 bytes. Any non-ASCII character is a non-digit, so that affects nothing.
