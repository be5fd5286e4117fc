# The parser engine of solar, modelled in Dafny

This project models the generic engine of the Solidity parser in
`crates/parse/src/parser/mod.rs`. The engine has five parts:

- **Token cursor.** `bump`, `bump_with` and `look_ahead` move over the token
  list. A token with a dummy span takes the current token's span. End of
  input is reached once the list is exhausted.
- **Expectation tracker.** `check`, `eat`, `check_keyword` and the other
  probes record what would have been accepted. `expect` and `expect_one_of`
  consume a token or fail. `expected_one_of_not_found` builds the
  "expected X, found Y" diagnostic from that record: the list is filtered,
  sorted by rendering and deduplicated, and it is worded with `or_list`.
- **Sequence parser.** `parse_seq_to_before_tokens` is the loop under a
  `SeqSep` separator policy. It recovers when a separator is missing. Its
  wrappers add the delimiters.
- **Identifiers and paths.** A reserved word is reported and accepted when
  recovering. A stray comma before an identifier is skipped with a
  "remove this comma" note. A dotted path is read one segment per dot.
- **Context toggles.** `in_contract` and `in_yul` run a nested parse with
  the flag set and then restore its old value.

The model has two layers:

- **A value model.** Every operation is a function from one `State` (the
  parser's fields) to a result and the next `State`. The lemmas are proved
  about these functions. The modules are:
  - `Cursor`: cursor, spans well-formedness, diagnostic log;
  - `Tracker`: check/eat/expect and the not-found diagnostic;
  - `Expected`: expectation records and the filtered, sorted list;
  - `Sorting`: the stable sort by a string key and the removal of
    consecutive repeats that the list goes through;
  - `OrLists`: the "a, b, or c" text;
  - `SeqParser` and `SeqFacts`: the sequence loop and its properties;
  - `IdentParser` and `IdentFacts`: identifiers, paths and their properties;
  - `Toggles`: the context flags.
- **The `Parsing.Parser` class.** It holds the same fields and updates them
  in place. The sequence loop and the path loop are `while` loops. Most
  methods ensure `(result, St()) == F(old(St()), ...)`, where `F` is the
  function of the value model, so every lemma about `F` holds of the object.
  The exceptions:
  - `Load` overwrites every field with a given state.
  - `Unexpected` ensures `r.Err?` and that its error and fields are those
    of `Tracker.UnexpectedError`.
  - The loop-body steps (`MissingSeparator`, `Element`, `Separator` and
    `SeparatorThenElement`) return either `Stop(res)` or `Go(first, items)`.
    With `Stop(res)`, `res` and the fields are those of the matching
    `SeqParser` step function. With `Go`, the new state is well formed,
    and running `SeqParser.SeqLoop` from it gives the step function's
    outcome. Its advance measure is strictly smaller than before, except in
    `Element`, which bounds it by the tokens left on entry.

Other modelling choices:

- **Tokens not yet consumed.** These are the `tokens` field, a sequence the
  cursor takes from the front. This plays the role of the source's token
  iterator.
- **Diagnostics.** Emitting or cancelling a diagnostic appends an event to
  the `diags` log. Diagnostics are values: a message, a span, labels and
  help notes.
- **Element parser.** The `f` argument of the sequence functions is a
  function of the current token and the remaining tokens. It returns a
  value and the number of tokens it consumed (at least one, as the source's
  comments demand), or an error and the number of tokens it consumed.
- **The "called unexpected twice" panic.** `expect_one_of` panics when it
  reports the same non-end token twice. This becomes the precondition
  `Tracker.CanReport`.
- **Precondition for the loop.** For the sequence loop the precondition is
  the invariant `Cursor.WF`: the tokens not yet consumed have real, pairwise
  distinct spans, different from the current token's span and from the last
  reported span. `Cursor.BumpKeepsWF` shows that under `WF` every advance
  reaches a token that has not been reported. The whole loop therefore
  never reaches the panic.
- **Session.** The source map's multi-line test, the reserved-word table and
  the literal and type tests come from outside the engine. They are
  function-valued fields of `Session`.

## Model

| member | source | states |
|---|---|---|
| Cursor.BumpWith | crates/parse/src/parser/mod.rs:668-671 | the new token becomes current, the old current token becomes the previous one, the expectations are emptied, nothing else changes |
| Cursor.Bump | crates/parse/src/parser/mod.rs:652-659 | previous token := current; expectations emptied; next stream token becomes current, or end of input when none is left; a dummy-spanned next token gets the current span; a real-spanned one is taken as is; the advance measure does not grow and strictly falls before end of input |
| Cursor.New | crates/parse/src/parser/mod.rs:121-139 | for a comment-free token list, the parser starts on the first token (or end of input when empty) with the placeholder as previous token, no expectations, no report, no diagnostics and both flags off |
| Cursor.LookAhead | crates/parse/src/parser/mod.rs:677-683 | distance 0 is the current token, distance n in range is stream token n-1, beyond the stream it is the end-of-input token |
| Cursor.LookAheadPredictsBump | crates/parse/src/parser/mod.rs:652-683 | looking n+1 ahead gives the kind the cursor shows n ahead after one advance |
| Cursor.BumpKeepsWF | crates/parse/src/parser/mod.rs:243-247 | after an advance from a well-formed state, the current token has never been reported, so reporting it cannot reach the "called unexpected twice" panic |
| Cursor.BumpNKeepsWF | crates/parse/src/parser/mod.rs:590 | an element parser that consumed at least one token leaves a well-formed state at a token not yet reported |
| Cursor.ReportKeepsWF | crates/parse/src/parser/mod.rs:323 | remembering the reported span keeps the state well formed |
| Expected.KeepDropsOnlyTheFoundToken | crates/parse/src/parser/mod.rs:265-295 | the filter closure drops exactly the found token itself and, when an identifier was found, the keyword it spells |
| Expected.Render | crates/parse/src/parser/mod.rs:57-70 | the explicit tokens and keywords are shown quoted and the categories are not |
| Expected.KeywordRendersLikeItsIdent | crates/parse/src/parser/mod.rs:57-70 | a keyword and the identifier token that spells it are shown the same, though they are different expectations |
| Expected.EqKind | crates/parse/src/parser/mod.rs:77-82 | true iff the expectation is exactly the given token kind |
| Expected.Filter | crates/parse/src/parser/mod.rs:264-296 | the filter never grows the list |
| Expected.FilterMembers | crates/parse/src/parser/mod.rs:264-296 | the kept candidates are exactly those the closure accepts |
| Expected.FilterAppend | crates/parse/src/parser/mod.rs:264-296 | filtering distributes over concatenation, so the kept entries keep their order and their repeats |
| Expected.CandidateMembers | crates/parse/src/parser/mod.rs:259-298 | after filtering, sorting and deduplication, an entry is present iff it is an explicit or recorded expectation other than the found token and the keyword an identifier spells |
| Expected.ExpectedList | crates/parse/src/parser/mod.rs:259-298 | an entry is listed iff it is an edible or inedible token or a recorded expectation, and is neither the found token nor the keyword an identifier spells; the list is sorted by rendering with no adjacent repeats; among the entries shown alike it keeps the candidates' order, with only equal neighbours merged |
| Expected.ExpectedListDetermined | crates/parse/src/parser/mod.rs:297-298 | these properties fix the list: any list sorted by rendering with the same entries per rendering, in the same order, is the expectation list |
| Expected.ExpectedListKeepsSeparatedRepeats | crates/parse/src/parser/mod.rs:259-298 | a keyword recorded between two suggestions of the identifier that spells it is listed three times, because no two equal entries are neighbours |
| Expected.Exacts | crates/parse/src/parser/mod.rs:259-263 | the explicit tokens become token expectations one for one, in order |
| Sorting.InsertBy | crates/parse/src/parser/mod.rs:297 | inserting into a sorted list adds exactly that entry, keeps it sorted and places it first or after the old head |
| Sorting.SortBy | crates/parse/src/parser/mod.rs:297 | the result is a permutation of the input, sorted by key |
| Sorting.SortKeepsMembers | crates/parse/src/parser/mod.rs:297 | the sort keeps the length and exactly the members |
| Sorting.InsertIsStable | crates/parse/src/parser/mod.rs:297 | inserting adds the entry in front of the entries with the same key and leaves the other keys' entries as they were |
| Sorting.SortIsStable | crates/parse/src/parser/mod.rs:297 | for every key, the entries with that key appear in their input order (the sort is stable) |
| Sorting.SortedByKeysUnique | crates/parse/src/parser/mod.rs:297 | two sorted lists with the same entries, in the same order, under every key are equal |
| Sorting.Dedup | crates/parse/src/parser/mod.rs:298 | never grows and keeps the first entry |
| Sorting.DedupMembers | crates/parse/src/parser/mod.rs:298 | keeps exactly the same set of entries |
| Sorting.DedupAppend | crates/parse/src/parser/mod.rs:298 | deduplicating a concatenation merges at most the one pair of equal entries at the seam, so only adjacent repeats are removed |
| Sorting.DedupKeepsNonAdjacent | crates/parse/src/parser/mod.rs:298 | a list with no equal neighbours is left unchanged |
| Sorting.DedupFacts | crates/parse/src/parser/mod.rs:297-298 | the result has no equal neighbours, and a list sorted by key stays sorted |
| Sorting.DedupWithKey | crates/parse/src/parser/mod.rs:297-298 | on a sorted list, deduplication acts on each key's entries on their own |
| Sorting.SortDedupByKey | crates/parse/src/parser/mod.rs:297-298 | after sorting and deduplication, each key's entries are that key's input entries in order, with equal neighbours merged |
| OrLists.OrList | crates/parse/src/parser/mod.rs:847-864 | the loop's string equals the disjunction text: "" / the item / "a or b" / "a, b, or c" |
| OrLists.OrListTableShort | crates/parse/src/parser/mod.rs:873-875 | the test table's rows for zero, one and two items |
| OrLists.OrListTableThree | crates/parse/src/parser/mod.rs:876 | the test table's three-item row, with the serial comma |
| OrLists.OrListTableFour | crates/parse/src/parser/mod.rs:877 | the test table's four-item row; repeated items are kept |
| OrLists.OrListMentionsAll | crates/parse/src/parser/mod.rs:847-864 | every item occurs in the disjunction text |
| Tracker.CheckNoexpect | crates/parse/src/parser/mod.rs:361-363 | true iff the current token is `tok` |
| Tracker.Check | crates/parse/src/parser/mod.rs:353-359 | true iff the current kind is `tok`; never moves; appends the token expectation exactly when absent |
| Tracker.EatNoexpect | crates/parse/src/parser/mod.rs:369-375 | advances exactly when the token is there, never touching the expectations otherwise |
| Tracker.Eat | crates/parse/src/parser/mod.rs:378-384 | advances exactly when `check` is true (expectations then empty), else leaves what `check` left |
| Tracker.CheckKeyword | crates/parse/src/parser/mod.rs:388-391 | appends the keyword expectation whether or not it matches; true iff the current token is that keyword |
| Tracker.EatKeyword | crates/parse/src/parser/mod.rs:395-402 | consumes the keyword when present, otherwise only records it |
| Tracker.CheckOrExpected | crates/parse/src/parser/mod.rs:439-444 | returns the predicate and appends the category only when it is false |
| Tracker.ExpectAny | crates/parse/src/parser/mod.rs:545-547 | true iff the current kind is one of the kets; only the expectations change, gaining every ket when none matches; on a match, exactly the kets before the first matching one are recorded, in order |
| Tracker.ExpectedOneOfNotFound | crates/parse/src/parser/mod.rs:254-341 | always fails with the not-found diagnostic and records the current span as reported; nothing else changes |
| Tracker.NotFoundByCount | crates/parse/src/parser/mod.rs:303-317 | 0 entries: "unexpected token: Y"; 1: "expected X, found Y"; 2 or more: "expected one of ..., found Y" |
| Tracker.NotFoundLabelSummarises | crates/parse/src/parser/mod.rs:312-315 | past six entries the label says "N possible tokens", otherwise it lists them |
| Tracker.NotFoundDiag | crates/parse/src/parser/mod.rs:299-340 | the diagnostic is placed on the found token; its message is classified by the number of entries; it has no notes; it has one label, on the found token, exactly when the previous span is a dummy or the gap to the label anchor is on one line; otherwise the classified label is at the anchor (the previous token at end of input or with nothing expected, else just past it) and a second label says "unexpected token" at the found token |
| Tracker.UnexpectedWithDiag | crates/parse/src/parser/mod.rs:199-227 | on the found token, the message is "expected `t`, found ..." and there are no notes; the first label says "expected `t`"; it is the only label, on the found token, exactly when the gap from the anchor (the found token after a dummy previous span, the previous token at end of input, else just past it) is on one line; otherwise it sits at the anchor and a second label says "unexpected token" at the found token |
| Tracker.MessageMentionsEachExpectation | crates/parse/src/parser/mod.rs:299-317 | every remaining expectation is spelled out in the message |
| Tracker.NotFoundAtEofAnchorsOnPrevious | crates/parse/src/parser/mod.rs:318-321 | at end of input reached by advancing, every label of the not-found diagnostic points at the previous token |
| Tracker.UnexpectedAtEofAnchorsOnPrevious | crates/parse/src/parser/mod.rs:203-209 | the same for the diagnostic of `expect` with nothing recorded |
| Tracker.BumpToEofAnchorsOnPrevious | crates/parse/src/parser/mod.rs:652-659 | advancing past the last token gives an end token carrying the previous token's span |
| Tracker.ExpectOneOf | crates/parse/src/parser/mod.rs:233-251 | never Ok(true); Ok(false) iff the token is edible or inedible; edible advances, inedible stays; otherwise fails with the not-found diagnostic of these tokens, without moving, and records the reported span |
| Tracker.Expect | crates/parse/src/parser/mod.rs:186-198 | never Ok(true); succeeds iff the token is `tok` and then advances; with nothing recorded it fails with the "expected `tok`" diagnostic and changes nothing; otherwise it fails with the not-found diagnostic of `tok` and records the reported span |
| Tracker.UnexpectedError | crates/parse/src/parser/mod.rs:172-183 | the not-found diagnostic with no explicit tokens, with the span recorded |
| Tracker.ExpectSemi | crates/parse/src/parser/mod.rs:345-347 | succeeds iff the token is a semicolon; its error and fields are those of `expect(Semi)` |
| Tracker.ExpectKeyword | crates/parse/src/parser/mod.rs:407-413 | succeeds iff the keyword is there and consumes it; otherwise records the keyword and fails with the not-found diagnostic of that record, reporting the span, without moving |
| Tracker.KeywordErrorListsKeyword | crates/parse/src/parser/mod.rs:407-413 | a missing keyword is always an error whose expectation list names that keyword |
| SeqParser.TrailingEnforced | crates/parse/src/parser/mod.rs:96-98 | separator `t`, trailing separator required and allowed |
| SeqParser.TrailingAllowed | crates/parse/src/parser/mod.rs:101-103 | separator `t`, trailing separator allowed and not required |
| SeqParser.TrailingDisallowed | crates/parse/src/parser/mod.rs:106-108 | separator `t`, trailing separator neither allowed nor required |
| SeqParser.NoSeparator | crates/parse/src/parser/mod.rs:110-112 | no separator, no trailing separator |
| SeqParser.RunElem | crates/parse/src/parser/mod.rs:644-645 | the element's value or error, with the cursor past what it consumed; a success strictly advances and lands on an unreported token |
| SeqParser.SeqLoop | crates/parse/src/parser/mod.rs:564-648 | the loop (head): no diagnostic is lost, no recovery is ever reported, parsed items are kept, trailing only when allowed and right after a separator before a ket, and a normal end is at a ket, a closing delimiter, end of input or after emitting the separator error |
| SeqParser.SepStep | crates/parse/src/parser/mod.rs:569-637 | the separator part of the loop body keeps the same guarantees |
| SeqParser.MissingSepStep | crates/parse/src/parser/mod.rs:587-633 | the missing-separator arm keeps the same guarantees |
| SeqParser.ElemStep | crates/parse/src/parser/mod.rs:639-645 | the trailing check and element part keeps the same guarantees |
| SeqFacts.LoopStops | crates/parse/src/parser/mod.rs:564-567 | at a ket, any closing delimiter or end of input the loop returns what it has and changes only the expectations |
| SeqFacts.FirstElementHasNoSeparator | crates/parse/src/parser/mod.rs:569-573 | before the first element no separator is looked for |
| SeqFacts.MissingRequiredSeparatorFails | crates/parse/src/parser/mod.rs:582-585 | with a trailing separator required, a missing separator returns the separator error and nothing moves or is emitted |
| SeqFacts.MissingSeparatorTriesElement | crates/parse/src/parser/mod.rs:582-590 | otherwise the error is kept and the element is tried where the cursor stands |
| SeqFacts.MissingSeparatorKeepsElement | crates/parse/src/parser/mod.rs:590-609 | if the element parses, the separator error is emitted with the "missing `sep`" help and the element is kept |
| SeqFacts.MissingSeparatorGivesUp | crates/parse/src/parser/mod.rs:611-631 | if it fails, its notes move to the separator error and it is cancelled; the error is returned before a colon or in a parenthesised list, else emitted and the loop ends with its items |
| SeqFacts.TrailingSeparatorStops | crates/parse/src/parser/mod.rs:639-642 | a ket right after a separator ends the loop with trailing set, when allowed |
| SeqFacts.ElementErrorPropagates | crates/parse/src/parser/mod.rs:644 | an element error ends the loop with that error and no new diagnostic |
| SeqFacts.ParseOneName | crates/parse/src/parser/mod.rs:639-646 | at a name that is not a ket, one element is parsed and the loop resumes after it |
| SeqFacts.CommaNamePair | crates/parse/src/parser/mod.rs:569-646 | a `, name` pair is consumed with no diagnostic and the name appended |
| SeqFacts.CommaNamesLoop | crates/parse/src/parser/mod.rs:564-646 | a run of `, name` pairs before a ket yields those names appended in order, stopping at the ket, with no diagnostic |
| SeqFacts.CommaListParses | crates/parse/src/parser/mod.rs:553-649 | `x, y0, y1, ... ket` parses to exactly `[x, y0, y1, ...]` in order, stops on `ket` and emits nothing |
| SeqFacts.ParenCommaListParses | crates/parse/src/parser/mod.rs:450-455 | `( x, y0, y1, ... )` parses to exactly `[x, y0, y1, ...]`, consumes the closing parenthesis and emits nothing |
| SeqFacts.MissingCommaBeforeName | crates/parse/src/parser/mod.rs:574-609 | at a name where a comma was due, the separator error is emitted once at the name with the "missing `,`" help just past the previous token, the name is kept and the loop stops at `)` |
| SeqFacts.TrailingCommaBeforeClose | crates/parse/src/parser/mod.rs:574-644 | at `, )` with no trailing comma allowed, the comma is consumed and the element parser's error on `)` ends the loop with nothing emitted |
| SeqFacts.ParenListMissingComma | crates/parse/src/parser/mod.rs:450-649 | `( x y )` parses to `[x, y]`, consumes `)` and emits exactly one diagnostic: the missing comma at `y`, with its help just past `x` |
| SeqFacts.ParenListTrailingCommaFails | crates/parse/src/parser/mod.rs:450-649 | `( x , y , )` fails with the element parser's error on `)`, with nothing emitted |
| SeqFacts.SeqToEndEatsTerminator | crates/parse/src/parser/mod.rs:518-529 | a successful loop is never recovered, so `parse_seq_to_end` always tries to eat the ket |
| SeqFacts.UnspannedSeqNeedsOpening | crates/parse/src/parser/mod.rs:503-512 | without `bra` it fails without moving or emitting; with it, it consumes it and parses to the end |
| IdentParser.IdentOrErr | crates/parse/src/parser/mod.rs:807-812 | succeeds iff on an identifier, or recovering over a stray comma; an identifier is returned without moving; a failure moves nothing and carries the comma note exactly at a stray comma |
| IdentParser.ExpectedIdentFound | crates/parse/src/parser/mod.rs:815-839 | succeeds iff recovering at a comma followed by an identifier, then skips the comma, emits the annotated error and stands on that identifier; otherwise fails without moving |
| IdentParser.ParseIdentCommon | crates/parse/src/parser/mod.rs:791-803 | succeeds iff an identifier that is unreserved or accepted by recovery (or a recovered stray comma); success consumes it; failure moves nothing; without recovery nothing is emitted |
| IdentParser.ParseIdentAny | crates/parse/src/parser/mod.rs:774-778 | succeeds iff on an identifier or a stray comma, reserved or not, and consumes it; failure moves nothing |
| IdentParser.ParseIdentOpt | crates/parse/src/parser/mod.rs:782-788 | nothing and no move off an identifier; on one, that identifier, consumed |
| IdentParser.ParseSegment | crates/parse/src/parser/mod.rs:736-746 | the per-segment parser of `parse_path` or `parse_path_any`: on an identifier it reads that identifier and advances once |
| IdentParser.ParsePathWithF | crates/parse/src/parser/mod.rs:749-764 | with no dot ahead, the single-segment path and no move; a path always starts with `first` and ends before a non-dot |
| IdentParser.PathLoop | crates/parse/src/parser/mod.rs:760-763 | segments already read are kept, and the loop ends before a non-dot, whose absence is the last expectation recorded |
| IdentFacts.ReservedWordHandling | crates/parse/src/parser/mod.rs:791-803 | a reserved word is emitted as an error and consumed when recovering, and is an error with no move otherwise |
| IdentFacts.UnreservedIdentRead | crates/parse/src/parser/mod.rs:791-803 | an unreserved identifier is read and consumed with no diagnostic |
| IdentFacts.StrayCommaSkipped | crates/parse/src/parser/mod.rs:815-839 | recovering at `, ident` skips the comma, emits the annotated error and reads the identifier; without recovery the annotated error with no move |
| IdentFacts.DotNamesShift | crates/parse/src/parser/mod.rs:677-683 | after one advance, the dotted names seen k+1 ahead are seen k ahead |
| IdentFacts.PathStep | crates/parse/src/parser/mod.rs:760-762 | at `. name`, the loop reads that name as the next segment and continues after it |
| IdentFacts.PathLoopReads | crates/parse/src/parser/mod.rs:760-763 | over `. y0 . y1 ...` the loop appends exactly those names in order and stops at the token after them |
| IdentFacts.PathRoundTrip | crates/parse/src/parser/mod.rs:749-764 | `first . y0 . y1 ...` is read as the path `[first, y0, y1, ...]` for either segment rule, stopping at the following token |
| Toggles.InContract | crates/parse/src/parser/mod.rs:693-698 | the nested parse runs with the contract flag set; its result is returned and the old flag value restored, the rest of its state kept |
| Toggles.InYul | crates/parse/src/parser/mod.rs:701-706 | the same for the Yul flag |
| Toggles.NestedYulIsYul | crates/parse/src/parser/mod.rs:701-706 | a Yul context inside a Yul context is the same as one |
| Toggles.TogglesCommute | crates/parse/src/parser/mod.rs:693-706 | the two toggles can be nested in either order |
| Toggles.IdentInYul | crates/parse/src/parser/mod.rs:701-706 | inside `in_yul` an identifier is rejected exactly when reserved in Yul (without recovery) and the flag is restored afterwards |
| Parsing.Parser.constructor | crates/parse/src/parser/mod.rs:121-139 | the new object's fields are `Cursor.New` of the token list |
| Parsing.Parser.Bump | crates/parse/src/parser/mod.rs:652-659 | updates the fields as `Cursor.Bump` |
| Parsing.Parser.BumpWith | crates/parse/src/parser/mod.rs:662-671 | updates the fields as `Cursor.BumpWith` |
| Parsing.Parser.Check | crates/parse/src/parser/mod.rs:353-359 | result and fields as `Tracker.Check` |
| Parsing.Parser.EatNoexpect | crates/parse/src/parser/mod.rs:369-375 | result and fields as `Tracker.EatNoexpect` |
| Parsing.Parser.Eat | crates/parse/src/parser/mod.rs:378-384 | result and fields as `Tracker.Eat` |
| Parsing.Parser.CheckKeyword | crates/parse/src/parser/mod.rs:388-391 | result and fields as `Tracker.CheckKeyword` |
| Parsing.Parser.EatKeyword | crates/parse/src/parser/mod.rs:395-402 | result and fields as `Tracker.EatKeyword` |
| Parsing.Parser.CheckOrExpected | crates/parse/src/parser/mod.rs:439-444 | result and fields as `Tracker.CheckOrExpected` |
| Parsing.Parser.CheckIdent | crates/parse/src/parser/mod.rs:415-417 | `check_or_expected` on "is an identifier" with the identifier category |
| Parsing.Parser.CheckAnyIdent | crates/parse/src/parser/mod.rs:419-421 | the same on "is an identifier not reserved in the current mode" |
| Parsing.Parser.CheckPath | crates/parse/src/parser/mod.rs:423-425 | the same on "is an identifier" with the path category |
| Parsing.Parser.CheckLit | crates/parse/src/parser/mod.rs:427-429 | the same with the literal test and category |
| Parsing.Parser.CheckStrLit | crates/parse/src/parser/mod.rs:431-433 | the same with the string-literal test and category |
| Parsing.Parser.CheckElementaryType | crates/parse/src/parser/mod.rs:435-437 | the same with the elementary-type test and category |
| Parsing.Parser.ExpectAny | crates/parse/src/parser/mod.rs:545-547 | the loop over the kets leaves result and fields as `Tracker.ExpectAny` |
| Parsing.Parser.ExpectedOneOfNotFound | crates/parse/src/parser/mod.rs:254-341 | result and fields as `Tracker.ExpectedOneOfNotFound` |
| Parsing.Parser.ExpectOneOf | crates/parse/src/parser/mod.rs:233-251 | result and fields as `Tracker.ExpectOneOf`, under the no-double-report precondition |
| Parsing.Parser.Expect | crates/parse/src/parser/mod.rs:186-198 | result and fields as `Tracker.Expect` |
| Parsing.Parser.UnexpectedError | crates/parse/src/parser/mod.rs:172-183 | result and fields as `Tracker.UnexpectedError` |
| Parsing.Parser.Unexpected | crates/parse/src/parser/mod.rs:165-167 | always an error, the diagnostic and fields of `Tracker.UnexpectedError` |
| Parsing.Parser.ExpectSemi | crates/parse/src/parser/mod.rs:345-347 | result and fields as `Tracker.ExpectSemi` |
| Parsing.Parser.ExpectKeyword | crates/parse/src/parser/mod.rs:407-413 | result and fields as `Tracker.ExpectKeyword` |
| Parsing.Parser.RunElem | crates/parse/src/parser/mod.rs:644 | result and fields as `SeqParser.RunElem` |
| Parsing.Parser.MissingSeparator | crates/parse/src/parser/mod.rs:587-633 | either stops with the result and fields of `SeqParser.MissingSepStep`, or continues from a well-formed, strictly advanced state whose loop gives that same outcome |
| Parsing.Parser.Element | crates/parse/src/parser/mod.rs:639-645 | either stops as `SeqParser.ElemStep`, or continues, strictly advanced, from a state whose loop gives that outcome |
| Parsing.Parser.Separator | crates/parse/src/parser/mod.rs:574-634 | either stops as `SeqParser.SepStep` after an earlier element, or continues from a state whose loop gives that outcome |
| Parsing.Parser.SeparatorThenElement | crates/parse/src/parser/mod.rs:569-645 | one pass of the loop body after the head check: stops as `SeqParser.SepStep` or continues with the loop giving that outcome, the measure strictly smaller |
| Parsing.Parser.ParseSeqToBeforeTokens | crates/parse/src/parser/mod.rs:553-649 | the `while` loop leaves result and fields as `SeqParser.SeqToBeforeTokens` |
| Parsing.Parser.ParseSeqToBeforeEnd | crates/parse/src/parser/mod.rs:535-542 | result and fields as `SeqParser.SeqToBeforeEnd` |
| Parsing.Parser.ParseSeqToEnd | crates/parse/src/parser/mod.rs:518-529 | result and fields as `SeqParser.SeqToEnd` |
| Parsing.Parser.ParseUnspannedSeq | crates/parse/src/parser/mod.rs:503-512 | result and fields as `SeqParser.UnspannedSeq` |
| Parsing.Parser.ParseDelimSeq | crates/parse/src/parser/mod.rs:485-497 | result and fields as `SeqParser.DelimSeq` |
| Parsing.Parser.ParseDelimCommaSeq | crates/parse/src/parser/mod.rs:461-467 | result and fields as `SeqParser.DelimCommaSeq` |
| Parsing.Parser.ParseParenCommaSeq | crates/parse/src/parser/mod.rs:450-455 | result and fields as `SeqParser.ParenCommaSeq` |
| Parsing.Parser.ParseNodelimCommaSeq | crates/parse/src/parser/mod.rs:472-479 | result and fields as `SeqParser.NodelimCommaSeq` |
| Parsing.Parser.IdentOrErr | crates/parse/src/parser/mod.rs:807-812 | result and fields as `IdentParser.IdentOrErr` |
| Parsing.Parser.ExpectedIdentFound | crates/parse/src/parser/mod.rs:815-839 | result and fields as `IdentParser.ExpectedIdentFound` |
| Parsing.Parser.ParseIdentCommon | crates/parse/src/parser/mod.rs:791-803 | result and fields as `IdentParser.ParseIdentCommon` |
| Parsing.Parser.ParseIdent | crates/parse/src/parser/mod.rs:768-770 | result and fields as `IdentParser.ParseIdent`, recovery on |
| Parsing.Parser.ParseIdentAny | crates/parse/src/parser/mod.rs:774-778 | result and fields as `IdentParser.ParseIdentAny` |
| Parsing.Parser.ParseIdentOpt | crates/parse/src/parser/mod.rs:782-788 | result and fields as `IdentParser.ParseIdentOpt` |
| Parsing.Parser.ParseSegment | crates/parse/src/parser/mod.rs:736-746 | result and fields as `IdentParser.ParseSegment` |
| Parsing.Parser.ParsePathWithF | crates/parse/src/parser/mod.rs:749-764 | the `while` loop leaves result and fields as `IdentParser.ParsePathWithF` |
| Parsing.Parser.ParsePathWith | crates/parse/src/parser/mod.rs:736-739 | `parse_path_with_f` with the `parse_ident` segment rule |
| Parsing.Parser.ParsePath | crates/parse/src/parser/mod.rs:729-733 | result and fields as `IdentParser.ParsePath` |
| Parsing.Parser.ParsePathAny | crates/parse/src/parser/mod.rs:742-746 | result and fields as `IdentParser.ParsePathAny` |
| Parsing.Parser.InContract | crates/parse/src/parser/mod.rs:693-698 | result and fields as `Toggles.InContract` |
| Parsing.Parser.InYul | crates/parse/src/parser/mod.rs:701-706 | result and fields as `Toggles.InYul` |

## Left out

- `from_source_code`, `from_source_file` and `from_lexer` (mod.rs:141-154) need the lexer and the source map. These are not part of this model. `new` is modelled, and its comment check is a precondition.
- `dcx` and the diagnostic context API (creating, labelling, emitting and cancelling diagnostics) are not rendered. A diagnostic is a value, and emitting or cancelling one appends an event to the log.
- The texts of `TokenKind`'s `Display`, `full_description`, keyword tests and the reserved-word, literal and elementary-type tables are defined in other crates. `Display` and `full_description` get simple stand-in texts. The tables are fields of `Session`.
- `is_multiline` of the source map is an uninterpreted `Session` field. It only chooses between the one-label and two-label layouts.
- `Token::ident`/`is_ident` are modelled as "the kind is an identifier".
- `look_ahead_with` (mod.rs:688-690) only applies a caller's function to `look_ahead`.
- `parse_spanned` (mod.rs:713-725) depends on span arithmetic from another crate.
- The commented-out suggestion block (mod.rs:595-603) has no effect.
- The grammar submodules (`expr`, `item`, `lit`, `stmt`, `ty`, `yul`) are not part of this model. Neither is `crates/sulk/src/main.rs`.
- Parsing.Parser.RunElem: the element callback `f` is a function of the current token and the remaining tokens. It returns a value or an error together with how many tokens it consumed. Any expectations, diagnostics or flag changes made inside `f` are not modelled. The effect on the fields is written through `Load`, a whole-state assignment.
- Parsing.Parser.ParseSeqToBeforeTokens: requires `Cursor.WF`. This is a sufficient condition for never reporting the same token twice. The source itself only panics in that case.
- Parsing.Parser.InContract: the nested parse is a function from state to a result and a state, and its effect is applied through `Load`. The same holds for Parsing.Parser.InYul.
- SeqParser.SeqLoop: the loop's guarantees (its `Settled` postcondition) do not tie the returned items to the input in general. That tie is proved for the comma-separated name lists of `SeqFacts.CommaListParses`.
- The `Positive` bound on a successful element's consumption is a modelling choice. The source's comments demand that `f` consume tokens, and this bound is what makes the loop terminate.
- Sorting.Dedup removes adjacent entries that are equal as values, as `Vec::dedup` does. It does not compare rendered texts. A keyword and the identifier token that spells it are shown alike but are both kept (`Expected.ExpectedListKeepsSeparatedRepeats`).
- Sorting.SortBy: `sort_by_cached_key` computes each key once. Caching changes cost, not the order, so the model is a plain stable insertion sort.
