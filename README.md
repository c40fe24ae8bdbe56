# mokdb storage page and SQL front ends, in Dafny

This project models three parts of mokdb, a small database written in Rust,
and proves properties of each:

- **The slotted page** (`src/storage/page.rs`). A page is a 4-byte header
  (`free_space`, `total_free_slots`), a directory of 256 slots and a
  6652-byte data region. `insert_tuple` writes a 20-byte tuple header and
  the payload into the data region. It records them in the lowest free
  slot, at an offset chosen by a first-fit search over the used ranges.
- **The newer SQL front end** (`src/parser_v2`). It has a character
  scanner that tracks line and column. Its parser does recursive descent
  over statements and runs a shunting-yard loop for WHERE conditions.
- **The older SQL front end** (`src/parser`). It has a scanner that ends
  the token list with an EOF token, and a recursive-descent parser. That
  parser reads conditions as OR-chains of AND-chains.

## How the model is built

Modules follow the source files:

| module | models |
|---|---|
| `PageLayout`, `TupleCodec`, `FreeSpace`, `SlottedPage` | `src/storage/page.rs` |
| `SqlTokens`, `SqlAst` | `src/parser_v2/tokens.rs`, `src/parser_v2/ast.rs` |
| `SqlLex`, `SqlScanner` | `src/parser_v2/scanner.rs` |
| `SqlParseBase`, `SqlShunting`, `SqlParse`, `SqlParser` | `src/parser_v2/parser.rs` |
| `LegacyTokens`, `LegacyAst` | `src/parser/token.rs`, `src/parser/sql_token_types.rs`, `src/parser/ast.rs` |
| `LegacyLex`, `LegacyNumbers`, `LegacyScanner` | `src/parser/scanner.rs` |
| `LegacyParse`, `LegacyParser` | `src/parser/mod.rs` |

The `...Facts`, `...Numbers` and `...Words` modules hold the lemmas about
the behaviour, and `LegacyStatementExamples` restates the older parser's
tests on their tokens. The `...Findings` modules hold the places where the code
does not do what it evidently means (see "## Findings").

Code that changes state keeps its form in the model (the exceptions,
methods that follow corrected behaviour, are listed under "## Left out"):

- `SlottedPage.Page` keeps the slot directory and the data region in
  arrays. Its `InsertTuple` writes into them in place.
- `SqlScanner.Scanner` and `LegacyScanner.Scanner` move `start`,
  `current`, `line` and `column` in loops, and append to `tokens`.
- `SqlParser.Parser` and `LegacyParser.Parser` move a cursor `current`
  over the token list. Their comma lists, AND/OR chains and the WHERE
  operator stack are loops.

Each method is proved against a pure function over values:

- `Page.InsertTuple` changes the page exactly as `SlottedPage.Insert`
  says.
- A scanner method *settles* to its function: the same result and, on
  success, the same scanner state (`Lex.Settles`).
- A parser method *agrees* with its function: the same value and cursor
  position on success, and the same error on failure (`Agrees`).

The properties are proved about those functions.

Rust's panics are results, not preconditions. An integer overflow in a
debug build, a slice past the end, an `unwrap` of `None` and an index past
the end each return a named error: `Panic(site)`, `SliceOutOfRange`,
`MissingLiteral`, `IndexPastEnd` or `AdvancePastEnd`. A loop of the newer
parser that never ends as written returns `NonTerminating`, but only in
the `SqlParseFindings` functions that model that code as written; the
parser's methods follow the corrected loops, which always end. Integers have the source's widths: `u16`
offsets and counters, `u64` transaction ids, and the truncating
`as u16` cast. Token types are fieldless Rust enums, so each is modelled
as its discriminant: a `newtype` over `int` with one constant per variant.

## Model

| member | source | states |
|---|---|---|
| PageLayout.NewHeader | src/storage/page.rs:38-44 | a new header has `free_space` = DATA_SIZE = 6652 (8192 − 4 − 256·6) and 256 free slots |
| PageLayout.NewSlot | src/storage/page.rs:81-90 | a new slot is unused, with offset and length 0 |
| TupleCodec.LittleEndian | src/storage/page.rs:56-62 | `to_le_bytes` of an n-byte integer yields exactly n bytes |
| TupleCodec.FromLittleEndian | src/storage/page.rs:64-78 | `from_le_bytes` of n bytes is a value below 256^n |
| TupleCodec.FromLittleEndianInverse | src/storage/page.rs:56-78 | decoding the little-endian bytes of x gives x back |
| TupleCodec.LittleEndianInverse | src/storage/page.rs:56-78 | encoding a decoded value gives back the same bytes |
| TupleCodec.ToBytes | src/storage/page.rs:56-62 | `to_bytes` yields exactly 20 bytes |
| TupleCodec.FromBytes | src/storage/page.rs:64-78 | `from_bytes` fails exactly when given fewer than 20 bytes |
| TupleCodec.HeaderRoundTrip | src/storage/page.rs:56-78 | `from_bytes(to_bytes(h) + rest) == Some(h)`, whatever bytes follow the header |
| TupleCodec.HeaderBytesRoundTrip | src/storage/page.rs:56-78 | re-encoding a decoded header gives back the first 20 bytes it was read from |
| FreeSpace.FindFreeSlot | src/storage/page.rs:101-103 | the result is the smallest unused index; None exactly when every slot is used |
| FreeSpace.UsedSpans | src/storage/page.rs:106-111 | the spans are exactly those of the used slots; None exactly when some `offset + length` overflows u16 |
| FreeSpace.InsertByStart | src/storage/page.rs:112 | inserting a span into a start-sorted list keeps it sorted and adds exactly that span |
| FreeSpace.SortByStart | src/storage/page.rs:112 | `sort_by_key` by start gives a sorted permutation of its input |
| FreeSpace.FirstWindow | src/storage/page.rs:120-128 | `find_map` over `windows(2)`: the first window that passes the gap test or underflows, with no earlier window doing either; NoWindow when none does |
| FreeSpace.FindFreeSpaceOffset | src/storage/page.rs:105-139 | the search reports the u16 overflow of a used span exactly when `UsedSpans` fails |
| FreeSpace.PlacedOffsetFitsU16 | src/storage/page.rs:120-136 | every offset the search returns fits in a u16 |
| FreeSpace.PlaceAmong | src/storage/page.rs:113-138 | over sorted spans the search never overflows, and a non-zero offset is always the end of a used span |
| FreeSpace.SortedUsedSpansWellPlaced | src/storage/page.rs:106-112 | on a page whose tuples are in bounds and disjoint, the sorted used spans are in bounds and ordered end-before-start |
| FreeSpace.FreeInFront | src/storage/page.rs:113-116 | when the first used span starts at or after `length`, `[0, length)` overlaps no used span |
| FreeSpace.FreeInWindow | src/storage/page.rs:120-128 | a window that passes the gap test without underflow gives a range that overlaps no used span and stays in the data region |
| FreeSpace.FreeAfterLast | src/storage/page.rs:133-136 | the range after the last used span overlaps no used span |
| FreeSpace.PlaceAmongIsFree | src/storage/page.rs:113-138 | whatever offset the search returns over sorted spans, the new range overlaps no used span and, when some span is used, ends inside the data region |
| FreeSpace.PlacementIsFree | src/storage/page.rs:105-139 | on a page whose tuples are disjoint and in bounds, the offset found overlaps no used slot's range |
| FreeSpace.PlacedAtZeroWhenRoomInFront | src/storage/page.rs:113-119 | the search returns offset 0 when no slot is used or the lowest used offset is at least `length` |
| SlottedPage.NewPage | src/storage/page.rs:93-99 | `Page::new`: a full free-space counter, 256 free slots, every slot {0,0,0}, all data bytes zero |
| SlottedPage.Splice | src/storage/page.rs:167-172 | `copy_from_slice` into `data[at..at+n]` writes exactly the source there and changes no other byte |
| SlottedPage.PlanWith | src/storage/page.rs:147-161 | the errors in the source's order, each exactly when its condition holds: not enough free space (on the truncated u16 total), no free slot, no data space, not enough contiguous space; on success the lowest free slot, an offset with `offset + total` ≤ DATA_SIZE, and a total that fits u16 |
| SlottedPage.Apply | src/storage/page.rs:162-180 | the writes of a successful insert leave a well-formed page: 256 slots and a DATA_SIZE-byte region |
| SlottedPage.NoneUsed | src/storage/page.rs:93-99 | a directory with no used slot has no used bytes and every slot free |
| SlottedPage.InsertWith | src/storage/page.rs:141-183 | the call fails exactly when the checks before the first write fail; every `Err` return leaves the page unchanged, and so does a panic in the model, which drops the header bytes written before the payload slice panics (see "## Left out") |
| SlottedPage.Insert | src/storage/page.rs:141-183 | `insert_tuple` keeps the page's shape: 256 slots and a DATA_SIZE-byte data region |
| SlottedPage.MarkUsed | src/storage/page.rs:174-180 | marking a free slot used adds its length to the used bytes and removes one free slot |
| SlottedPage.NewPageInvariant | src/storage/page.rs:93-99 | a new page satisfies the page invariant: the counters match the slots, and the used tuples are in bounds, disjoint and start with their header |
| SlottedPage.SpliceKeepsOutside | src/storage/page.rs:166-172 | a write leaves every byte range outside the written one unchanged |
| SlottedPage.WrittenRange | src/storage/page.rs:166-172 | the two copies leave the header bytes then the payload at the offset, and nothing else changed |
| SlottedPage.ApplyKeepsOtherTuple | src/storage/page.rs:162-180 | a write disjoint from another used tuple leaves that tuple's bytes intact |
| SlottedPage.ApplyKeepsTuples | src/storage/page.rs:162-180 | after the write every used slot still holds a well-formed tuple with its header |
| SlottedPage.ApplyKeepsDisjoint | src/storage/page.rs:162-180 | after the write the used ranges are still in bounds and pairwise disjoint |
| SlottedPage.ApplyKeepsInvariant | src/storage/page.rs:162-180 | the state change of a successful insert keeps the page invariant |
| SlottedPage.InsertKeepsInvariant | src/storage/page.rs:141-183 | every insert, successful or not, keeps the page invariant, disjointness of used ranges included |
| SlottedPage.ApplyData | src/storage/page.rs:162-177 | after a successful insert, `data[o..o+20]` is the encoded header {xmin, xmax, total}, `data[o+20..o+total]` is the payload, `from_bytes` reads the header back, and every other byte is unchanged |
| SlottedPage.InsertOkEffects | src/storage/page.rs:141-183 | on Ok(i): i is the lowest free slot, the slot becomes {o, total, 1} with o the searched offset, `free_space` drops by exactly total, `total_free_slots` by exactly 1, and every other slot is unchanged |
| SlottedPage.PlacedWithinRegion | src/storage/page.rs:150-161 | on a page satisfying the invariant, the offset found plus the truncated total stays inside the data region, and can exceed it only when the total is 65536 or more |
| SlottedPage.InvariantRulesOut | src/storage/page.rs:141-183 | on a page satisfying the invariant, "Not enough contiguous space" and the overflow panics at the span sum, the end check and the slot count never happen; the slice panic needs a total of 65536 or more |
| SlottedPage.FullDirectoryRejects | src/storage/page.rs:154 | with every slot used and the payload passing the free-space check, the insert fails with "No free slots available" |
| SlottedPage.TruncatedLengthPassesFreeSpaceCheck | src/storage/page.rs:147-172 | a payload of 65536 bytes truncates to a total of 20, passes the free-space check and panics at the data slice |
| SlottedPage.CopyInto | src/storage/page.rs:167-172 | the in-place copy leaves the array equal to the spliced sequence |
| SlottedPage.Page.constructor | src/storage/page.rs:93-99 | a fresh page whose contents are `NewPage()` |
| SlottedPage.Page.CheckInsert | src/storage/page.rs:147-161 | the checks before the first write, read from the arrays, return what `PlanWith` says for the offset the search finds |
| SlottedPage.Page.InsertTuple | src/storage/page.rs:141-183 | the in-place insert returns `Insert(old state).result` and leaves the arrays and header equal to `Insert(old state).page` |
| PageFindings.FirstGap | src/storage/page.rs:120-128 | the corrected gap test `start2 - end1 >= length`: the first window with room, with no earlier window having room |
| PageFindings.PlaceAmongIntended | src/storage/page.rs:113-138 | with the corrected gap test the search never underflows and never overflows |
| PageFindings.FindFreeSpaceOffsetIntended | src/storage/page.rs:105-139 | the corrected search fails only on a u16 overflow of a used span, never on the gap test |
| PageFindings.PlaceAmongIntendedIsFree | src/storage/page.rs:113-138 | the corrected search over sorted spans places the range clear of every used span |
| PageFindings.IntendedPlacementIsFree | src/storage/page.rs:105-139 | on a page whose tuples are disjoint and in bounds, the corrected search's offset overlaps no used slot |
| PageFindings.InsertIntended | src/storage/page.rs:141-183 | the insert with the corrected search never panics at the gap test |
| PageFindings.InsertIntendedKeepsInvariant | src/storage/page.rs:141-183 | the corrected insert keeps the page invariant |
| PageFindings.FirstWrappingWindow | src/storage/page.rs:120-128 | the gap test of a release build, where `start2 - (start1 + end1)` wraps modulo 2^64: the first window that passes it |
| PageFindings.ReleaseUsedSpans | src/storage/page.rs:106-111 | the used spans of a release build, where `offset + length` wraps: at most one span per slot |
| PageFindings.FindFreeSpaceOffsetRelease | src/storage/page.rs:105-139 | the release-build search: on an empty page the offset is 0; a non-zero offset is the end of some used span; it fails only when some used span ends too late for the new tuple |
| PageFindings.UsedSpansOfFront | src/storage/page.rs:106-111 | the used spans of slots used in front and unused after are the front slots' spans |
| PageFindings.ReleaseSpansOfFront | src/storage/page.rs:106-111 | the same for the release-build span list |
| PageFindings.FreeSlotAfterFront | src/storage/page.rs:101-103 | with the first k slots used and the rest unused, the free slot found is k |
| PageFindings.NoneUsedSpans | src/storage/page.rs:106-111 | unused slots give no span in either build |
| PageFindings.SortedIsFixed | src/storage/page.rs:112 | sorting an already sorted span list leaves it as it is |
| PageFindings.StackedSpans | src/storage/page.rs:106-112 | k equal tuples stacked from offset 0 give the sorted spans [0,t), [t,2t), … |
| PageFindings.StackedReleaseSpans | src/storage/page.rs:106-112 | the release build gives the same sorted spans for stacked tuples |
| PageFindings.StackedFreeSlot | src/storage/page.rs:101-103 | with k tuples stacked, slot k is the free slot found |
| PageFindings.NewPageIsStacked | src/storage/page.rs:93-99 | a new page is the stacked page with no tuple |
| PageFindings.PlaceOnStacked | src/storage/page.rs:113-128 | with fewer than three equal tuples stacked, both searches put the next one right after the last |
| PageFindings.StepOnStacked | src/storage/page.rs:141-183 | inserting an equal tuple at the next stacked offset returns the next slot and stacks one more tuple |
| PageFindings.InsertOnStacked | src/storage/page.rs:141-183 | with fewer than three equal tuples stacked, the insert as written stacks the next one in the next slot |
| PageFindings.InsertIntendedOnStacked | src/storage/page.rs:141-183 | the corrected insert does the same |
| PageFindings.PlaceOnThreeStacked | src/storage/page.rs:120-128 | with three equal tuples stacked, the search as written underflows at the second window |
| PageFindings.PlaceIntendedOnThreeStacked | src/storage/page.rs:120-136 | the corrected search puts a fourth equal tuple right after the third |
| PageFindings.FourthOnStacked | src/storage/page.rs:123 | the fourth equal insert as written panics at the gap test |
| PageFindings.FourthIntendedOnStacked | src/storage/page.rs:141-183 | the corrected fourth insert returns slot 3, placed at 3t |
| PageFindings.FourInsertsOnStacked | src/storage/page.rs:141-183 | on a stacked page with no tuple, three equal inserts succeed in slots 0, 1, 2 and the fourth panics |
| PageFindings.FourIntendedInsertsOnStacked | src/storage/page.rs:141-183 | with the corrected search, all four inserts succeed and the fourth sits at 3t |
| PageFindings.FourthEqualInsertPanics | src/storage/page.rs:141-183 | on a new page, four inserts of equal-length tuples that fit: the first three succeed, the fourth panics at page.rs:123 |
| PageFindings.FourthEqualInsertIntended | src/storage/page.rs:141-183 | the same four inserts all succeed with the corrected gap test |
| PageFindings.StackedInBounds | src/storage/page.rs:93-183 | three stacked tuples are in bounds and pairwise disjoint |
| PageFindings.WrappedWindows | src/storage/page.rs:120-128 | on [0,t), [t,2t), [2t,3t) the first window computes 0 and fails; in a release build the second wraps and passes |
| PageFindings.ReleasePlacesOnThird | src/storage/page.rs:105-139 | a release build returns offset 2t for a fourth tuple, the start of the third |
| PageFindings.ReleaseBuildOverlaps | src/storage/page.rs:105-139 | on a page with disjoint tuples, the release-build offset overlaps the third tuple while the corrected one does not |
| PageFindings.CopyFromSlice | src/storage/page.rs:58-60 | `copy_from_slice` succeeds exactly when the lengths are equal, and then writes the source in place |
| PageFindings.HeaderEncodingPanicsOn64Bit | src/storage/page.rs:56-62 | with an 8-byte `usize` the length field does not fit bytes 16..20, so `to_bytes` panics and `size_of` (24) differs from the 20 bytes written; with a 4-byte field the round trip holds |
| PageFindings.ToBytes64 | src/storage/page.rs:56-62 | with an 8-byte length field, `to_bytes` always fails at the third `copy_from_slice` |
| SqlAst.MatchSqlTokenToOperator | src/parser_v2/ast.rs:155-164 | AND maps to And and OR to Or; every other token is an error carrying that token |
| SqlLex.Initial | src/parser_v2/scanner.rs:13-22 | a new scanner starts at offset 0, line 1, column 0, with no tokens |
| SqlLex.PeekChar | src/parser_v2/scanner.rs:458-460 | `peek` is the character at `current`, None exactly at the end |
| SqlLex.Advanced | src/parser_v2/scanner.rs:444-456 | `advance` moves one character; a newline adds a line and resets the column to 0, any other character adds a column; at the end nothing changes |
| SqlLex.AddToken | src/parser_v2/scanner.rs:462-465 | appends exactly one token carrying the current line and column; nothing else changes |
| SqlLex.SkipWhile | src/parser_v2/scanner.rs:99-105 | the loop skips exactly the maximal run of characters satisfying the test and adds no token |
| SqlLex.Punctuation | src/parser_v2/scanner.rs:30-41 | exactly the characters `( ) * , ; = + - / %` are one-character tokens |
| SqlLex.Classify | src/parser_v2/scanner.rs:29-55 | the arm `scan_token` takes for a character: punctuation, `>`, `<`, quote, newline, digit before letter, as in the source's order |
| SqlLex.ScanToken | src/parser_v2/scanner.rs:24-59 | a successful step moves forward when input remains and adds at most one token |
| SqlLex.GreaterRelationalOperator | src/parser_v2/scanner.rs:423-430 | after `>`, the scanner stays in bounds and adds at most one token |
| SqlLex.LesserRelationalOperator | src/parser_v2/scanner.rs:432-442 | after `<`, the scanner stays in bounds and adds at most one token |
| SqlLex.ScanString | src/parser_v2/scanner.rs:61-96 | on success, exactly one string token is added and the scanner is past the closing quote |
| SqlLex.FractionDigits | src/parser_v2/scanner.rs:111-119 | the digit loop after the dot moves forward and adds no token |
| SqlLex.ScanNumeric | src/parser_v2/scanner.rs:98-146 | on success, exactly one Literal number token is added |
| SqlLex.Keyword | src/parser_v2/scanner.rs:160-194 | no keyword maps to Eof |
| SqlLex.WordKind | src/parser_v2/scanner.rs:160-194 | a known one-word keyword gets its type; any other word is an Identifier |
| SqlLex.ExpectPart | src/parser_v2/scanner.rs:203-220 | the slice test succeeds exactly when the next characters, upper-cased, are the expected part; a slice past the end is an error |
| SqlLex.SkipSpaces | src/parser_v2/scanner.rs:196-202 | skipping whitespace moves forward and adds no token |
| SqlLex.SecondWord | src/parser_v2/scanner.rs:195-415 | the second-word arms never produce Eof and add no token themselves |
| SqlLex.SecondPart | src/parser_v2/scanner.rs:195-221 | one part of a multi-word keyword yields the given type and adds no token |
| SqlLex.ScanWord | src/parser_v2/scanner.rs:148-421 | on success exactly one token is added, with the upper-cased word as its lexeme and no literal |
| SqlLex.WordType | src/parser_v2/scanner.rs:160-417 | a word that starts no multi-word keyword gets its one-word type; no word gets Eof |
| SqlLex.TokenizeFrom | src/parser_v2/scanner.rs:476-483 | `tokenize` keeps the tokens already scanned as a prefix of its result |
| SqlScanner.Scanner.constructor | src/parser_v2/scanner.rs:13-22 | a new scanner is in the initial state |
| SqlScanner.Scanner.Peek | src/parser_v2/scanner.rs:458-460 | returns what `PeekChar` says |
| SqlScanner.Scanner.IsAtEnd | src/parser_v2/scanner.rs:471-473 | true exactly when nothing is left to peek |
| SqlScanner.Scanner.Advance | src/parser_v2/scanner.rs:444-456 | returns the peeked character and moves the cursor, line and column as `Advanced` says |
| SqlScanner.Scanner.AddToken | src/parser_v2/scanner.rs:462-465 | pushes the token as `AddToken` says |
| SqlScanner.Scanner.AdvanceWhile | src/parser_v2/scanner.rs:99-105 | the loop leaves the scanner where `SkipWhile` says |
| SqlScanner.Scanner.ScanToken | src/parser_v2/scanner.rs:24-59 | settles to `ScanToken` |
| SqlScanner.Scanner.HandleString | src/parser_v2/scanner.rs:61-96 | the string loop settles to `ScanString` |
| SqlScanner.Scanner.HandleNumeric | src/parser_v2/scanner.rs:98-146 | both digit loops together settle to `ScanNumeric` |
| SqlScanner.Scanner.ExpectPart | src/parser_v2/scanner.rs:203-220 | settles to `ExpectPart` |
| SqlScanner.Scanner.SecondWord | src/parser_v2/scanner.rs:195-415 | returns the type and leaves the state that `SecondWord` gives |
| SqlScanner.Scanner.SecondPart | src/parser_v2/scanner.rs:195-221 | returns the type and leaves the state that `SecondPart` gives |
| SqlScanner.Scanner.HandleAlphaNumeric | src/parser_v2/scanner.rs:148-421 | settles to `ScanWord` |
| SqlScanner.Scanner.HandleGreaterRelationalOperator | src/parser_v2/scanner.rs:423-430 | leaves the state `GreaterRelationalOperator` gives |
| SqlScanner.Scanner.HandleLesserRelationalOperator | src/parser_v2/scanner.rs:432-442 | leaves the state `LesserRelationalOperator` gives |
| SqlScanner.Scanner.Tokenize | src/parser_v2/scanner.rs:476-483 | the scan loop returns what `TokenizeFrom` returns |
| SqlLexFacts.SkipRun | src/parser_v2/scanner.rs:99-105 | over a run of matching characters ending at `to`, the loop stops at `to` and adds `to - current` columns |
| SqlLexFacts.DispatchGreater | src/parser_v2/scanner.rs:35 | `>` goes to `handle_greater_relational_operator` |
| SqlLexFacts.DispatchLesser | src/parser_v2/scanner.rs:36 | `<` goes to `handle_lesser_relational_operator` |
| SqlLexFacts.DispatchQuote | src/parser_v2/scanner.rs:42 | a quote goes to `handle_string` |
| SqlLexFacts.DispatchDigit | src/parser_v2/scanner.rs:48 | a digit goes to `handle_numeric` |
| SqlLexFacts.DispatchLetter | src/parser_v2/scanner.rs:49 | a letter goes to `handle_alpha_numeric` |
| SqlLexFacts.PunctuationToken | src/parser_v2/scanner.rs:30-41 | each of `( ) * , ; = + - / %` becomes one token of its type, with the character as lexeme, one column on |
| SqlLexFacts.GreaterOrEqualToken | src/parser_v2/scanner.rs:423-426 | `>=` is one GreaterThanOrEqualTo token that consumes both characters |
| SqlLexFacts.GreaterToken | src/parser_v2/scanner.rs:427-429 | `>` not followed by `=` is one GreaterThan token |
| SqlLexFacts.LessOrEqualToken | src/parser_v2/scanner.rs:433-435 | `<=` is one LessThanOrEqualTo token that consumes both characters |
| SqlLexFacts.NotEqualToken | src/parser_v2/scanner.rs:436-438 | `<>` is one NotEqualTo token that consumes both characters |
| SqlLexFacts.LessToken | src/parser_v2/scanner.rs:439-441 | `<` followed by neither `=` nor `>` is one LessThan token |
| SqlLexFacts.PlainWord | src/parser_v2/scanner.rs:148-159 | a maximal run of letters, digits and `_` that starts no multi-word keyword is one token: the upper-cased word, typed by keyword lookup or Identifier |
| SqlLexFacts.OneWord | src/parser_v2/scanner.rs:416-420 | such a word's token is added with its one-word type and the cursor at the end of the run |
| SqlLexFacts.PlainString | src/parser_v2/scanner.rs:61-71 | a quoted string with no backslash is one Literal Text token whose text runs from the opening quote up to, not including, the closing quote; the cursor is past the closing quote |
| SqlLexFacts.StringRunsToQuote | src/parser_v2/scanner.rs:61-71 | the string loop stops right after the first closing quote |
| SqlLexFacts.UnclosedStringFails | src/parser_v2/scanner.rs:62-95 | a string with no closing quote is an error |
| SqlLexFacts.BadEscapeFails | src/parser_v2/scanner.rs:72-85 | a backslash followed by anything other than `' \ n t` is an InvalidEscape error naming that character |
| SqlLexFacts.StringRunsToBadEscape | src/parser_v2/scanner.rs:72-85 | the string loop reaches the bad escape and fails there |
| SqlLexFacts.NewlineCountedTwice | src/parser_v2/scanner.rs:43-46 | a newline adds two lines, one in `advance` and one in its arm, and resets the column |
| SqlLexFacts.WhitespaceSkipped | src/parser_v2/scanner.rs:47 | other whitespace adds no token |
| SqlLexFacts.UnexpectedCharacterRejected | src/parser_v2/scanner.rs:50-55 | any other character is an UnexpectedCharacter error naming it |
| SqlLexFacts.AtEndNoToken | src/parser_v2/scanner.rs:24-28 | at the end of the input a step adds nothing |
| SqlLexFacts.TokenizeFromNoEof | src/parser_v2/scanner.rs:476-483 | no token that `tokenize` adds is Eof |
| SqlLexFacts.TokenizeNoEof | src/parser_v2/scanner.rs:476-483 | `tokenize` never appends an Eof token |
| SqlLexFacts.TokenizeStopsAtError | src/parser_v2/scanner.rs:476-483 | the first failing step's error is the result of `tokenize` |
| SqlLexNumbers.FractionRun | src/parser_v2/scanner.rs:111-119 | over digits up to `to`, the fraction loop stops at `to`; its flag is true only when the digits reach the end of the input |
| SqlLexNumbers.WithNumber | src/parser_v2/scanner.rs:140-145 | the number token: a Literal whose lexeme and value are the text read |
| SqlLexNumbers.IntegerLiteral | src/parser_v2/scanner.rs:98-105 | a digit run not followed by `.` is one number token |
| SqlLexNumbers.FractionAtEnd | src/parser_v2/scanner.rs:107-146 | digits, a dot and digits that run to the end of the input are one number token |
| SqlLexNumbers.FractionFollowedRejected | src/parser_v2/scanner.rs:111-128 | digits, a dot and at least one digit followed by any other character (`0.1)`) are rejected as an invalid float |
| SqlLexNumbers.DotWithoutDigitsRejected | src/parser_v2/scanner.rs:121-128 | a dot with no digit after it is rejected |
| SqlLexNumbers.FractionDigitsIntended | src/parser_v2/scanner.rs:111-119 | the corrected fraction loop: its flag is true exactly when digits were read, and it stops at the first non-digit |
| SqlLexNumbers.ScanNumericIntended | src/parser_v2/scanner.rs:98-146 | the corrected `handle_numeric` adds exactly one number token on success |
| SqlLexNumbers.FractionRunIntended | src/parser_v2/scanner.rs:111-119 | over digits up to `to`, the corrected loop stops at `to` with the flag set when any digit was read |
| SqlLexNumbers.FractionFollowedAcceptedIntended | src/parser_v2/scanner.rs:98-146 | with the corrected loop, `0.1` followed by any character is one number token |
| SqlLexNumbers.NumericIntendedAccepts | src/parser_v2/scanner.rs:98-146 | the corrected scanner rejects a number exactly when its dot has no digit after it; what it reads is digits and a dot up to a non-digit |
| SqlLexNumbers.IntendedExtendsAsWritten | src/parser_v2/scanner.rs:98-146 | wherever the scanner as written accepts a number, the corrected one gives the same result |
| SqlLexNumbers.FractionsAgreeAtEnd | src/parser_v2/scanner.rs:111-119 | when the fraction digits reach the end, both loops agree |
| SqlLexWords.SpacedPart | src/parser_v2/scanner.rs:195-221 | after whitespace up to `gap`, a matching part is consumed, counting columns only for the whitespace |
| SqlLexWords.SpacedSecondWord | src/parser_v2/scanner.rs:195-415 | PRIMARY KEY, LEFT JOIN, RIGHT JOIN and ORDER BY: whitespace and the second word are consumed and the keyword's type is returned |
| SqlLexWords.SecondWordPastEnd | src/parser_v2/scanner.rs:203-207 | a second word cut off by the end of the input is a slice error |
| SqlLexWords.SecondWordMismatch | src/parser_v2/scanner.rs:213-219 | a different second word is an error naming the expected word |
| SqlLexWords.BeginKeepsTransaction | src/parser_v2/scanner.rs:316-339 | `BEGIN TRANSACTION` gives BeginTransaction but leaves the cursor in front of TRANSACTION |
| SqlLexWords.FullThenOuter | src/parser_v2/scanner.rs:340-389 | after `FULL OUTER`, the rest is read as the JOIN of FullOuterJoin |
| SqlLexWords.TwoWords | src/parser_v2/scanner.rs:148-421 | a word that starts a multi-word keyword gets its token from the second-word arm, lexeme the first word upper-cased |
| SqlLexWords.SpacedKeyword | src/parser_v2/scanner.rs:195-415 | a two-word keyword such as `order   by` is one token of its type, read in any letter case |
| SqlLexWords.KeyAtWordEndFails | src/parser_v2/scanner.rs:222-262 | UNIQUE and FOREGIN read KEY at the end of the word, without skipping whitespace, so that read fails |
| SqlLexWords.KeyRightAfterWordFails | src/parser_v2/scanner.rs:222-262 | a word spelling UNIQUE or FOREGIN never yields a token |
| SqlLexWords.RightScansAsLeft | src/parser_v2/scanner.rs:289-315 | RIGHT is read exactly as LEFT is: `RIGHT JOIN` gives LeftJoin |
| SqlLexWords.SecondWordIntended | src/parser_v2/scanner.rs:195-415 | the corrected second-word table adds no token and stays in bounds |
| SqlLexWords.IntendedKeywordsDistinct | src/parser_v2/scanner.rs:195-415 | with the corrected table, different first words never give the same token type |
| SqlLexWords.UniqueKeyIntended | src/parser_v2/scanner.rs:222-241 | with the corrected table, `UNIQUE KEY` with whitespace between gives UniqueKey |
| SqlParseBase.Peek | src/parser_v2/parser.rs:36-38 | `peek` is the token at the cursor; past the end it is an IndexPastEnd error, the panic of the source's index |
| SqlParseBase.Consume | src/parser_v2/parser.rs:51-61 | `consume` succeeds exactly when the token has the type, returning it one position on; otherwise the error names the expected type, or IndexPastEnd past the end |
| SqlShunting.Precedence | src/parser_v2/parser.rs:381-387 | AND is 2, OR is 1, anything else 0 |
| SqlShunting.LogicalOf | src/parser_v2/ast.rs:155-164 | only AND and OR map to a logical operator |
| SqlShunting.Combine | src/parser_v2/parser.rs:240-247 | a reduction pops the right then the left operand and pushes `left op right` |
| SqlShunting.Reduce | src/parser_v2/parser.rs:240-247 | a reduction succeeds exactly when two operands are queued and the operator is AND or OR; too few operands is "Invalid WHERE clause" |
| SqlShunting.ReduceMappedFirst | src/parser_v2/parser.rs:224-233 | the operator arm's reduction maps the operator first, so a non-logical operator is reported before missing operands |
| SqlShunting.ReduceToParen | src/parser_v2/parser.rs:197-215 | the stack left is a prefix of the old one and each reduction removes one operand |
| SqlShunting.ReduceForOperator | src/parser_v2/parser.rs:216-234 | reductions stop at an OpenParen or an operator of lower precedence than the incoming one |
| SqlShunting.Drain | src/parser_v2/parser.rs:240-248 | draining the stack removes one operand per operator and fails on an OpenParen |
| SqlShunting.FinishWhere | src/parser_v2/parser.rs:240-252 | the WHERE result is the last queued condition after the drain; with nothing queued it is "Empty WHERE clause" |
| SqlParse.LiteralOf | src/parser_v2/parser.rs:392-396 | a token's literal becomes an AST literal; a missing literal is the `unwrap` panic |
| SqlParse.ExpressionForInput | src/parser_v2/parser.rs:407-418 | a non-literal token becomes an Identifier with its lexeme; a literal becomes its value |
| SqlParse.ParseExpression | src/parser_v2/parser.rs:389-405 | an expression is one Literal or Identifier token; anything else is "Expected a valid expression" |
| SqlParse.ComparisonOf | src/parser_v2/parser.rs:358-366 | each of `= <> > < <= >=` maps to its own comparison operator |
| SqlParse.SelectColumns | src/parser_v2/parser.rs:65-84 | the SELECT list reads at least one item and moves forward |
| SqlParse.SelectColumnsNext | src/parser_v2/parser.rs:71-83 | an identifier followed by a comma is one column, and the list goes on after the comma |
| SqlParse.SelectStatement | src/parser_v2/parser.rs:63-139 | SELECT moves forward, and `limit` and `offset` are always None; the columns and table by `SelectReadsTableAfterFrom`, the WHERE and ORDER BY clauses by the `SqlClauseFacts` SELECT lemmas |
| SqlParse.SelectTail | src/parser_v2/parser.rs:95-129 | the corrected tail loop stops at the first token that is neither WHERE nor ORDER BY |
| SqlParse.OptionalWhere | src/parser_v2/parser.rs:96-100 | no WHERE leaves the clause and the cursor as they were; WHERE reads a condition |
| SqlParse.OptionalOrderBy | src/parser_v2/parser.rs:101-128 | no ORDER BY leaves the clause and the cursor as they were; ORDER BY reads items |
| SqlParse.OrderByItems | src/parser_v2/parser.rs:103-126 | ORDER BY reads at least one item and moves forward; the items in source order, both ways, by `SqlClauseFacts.OrderByItemsInOrder` and `ItemsParse` |
| SqlParse.OrderByItem | src/parser_v2/parser.rs:105-121 | an item is an identifier with an optional direction; it is descending exactly when DESC follows |
| SqlParse.Direction | src/parser_v2/parser.rs:109-117 | ASC or DESC is consumed when present; only DESC is descending |
| SqlParse.HandleWhere | src/parser_v2/parser.rs:154-253 | a WHERE condition moves forward and ends at the end of input or at ORDER BY |
| SqlParse.WhereLoop | src/parser_v2/parser.rs:174-239 | the shunting-yard loop ends at the end of input or ORDER BY |
| SqlParse.NegatedCondition | src/parser_v2/parser.rs:181-191 | after NOT a condition is read and the cursor moves forward |
| SqlParse.PrimaryCondition | src/parser_v2/parser.rs:255-379 | a primary condition consumes at least one token |
| SqlParse.NullCheckAfterIs | src/parser_v2/parser.rs:259-280 | corrected: after IS, `NULL` gives IsNull and consumes NULL; `NOT NULL` gives IsNotNull; anything else is an error |
| SqlParse.InValues | src/parser_v2/parser.rs:281-349 | an IN list moves forward; its form and values by `SqlClauseFacts.InValuesForms` |
| SqlParse.InList | src/parser_v2/parser.rs:286-337 | the IN list keeps the values already read and moves forward; the values read, both ways, by `SqlClauseFacts.InListReads` and `InListOfParts` |
| SqlParse.Keywords | src/parser_v2/parser.rs:504-505 | a run of consumes succeeds exactly when the tokens have the given types, moving past all of them |
| SqlParse.ColumnNames | src/parser_v2/parser.rs:430-441 | the INSERT column list reads at least one name |
| SqlParse.ExpressionList | src/parser_v2/parser.rs:446-454 | the VALUES list reads at least one value |
| SqlParse.InsertStatement | src/parser_v2/parser.rs:421-462 | INSERT reads at least one column and at least one value |
| SqlParse.Assignments | src/parser_v2/parser.rs:473-486 | SET reads at least one assignment |
| SqlParse.Assignment | src/parser_v2/parser.rs:475-481 | an assignment is an identifier, `=` and an expression; the column is the identifier |
| SqlParse.UpdateStatement | src/parser_v2/parser.rs:465-500 | UPDATE reads at least one assignment |
| SqlParse.DeleteStatement | src/parser_v2/parser.rs:503-522 | DELETE FROM reads the table named by the third token; when it succeeds and its WHERE clause by `SqlClauseFacts.DeleteReadsItsParts` |
| SqlParse.DataTypeAt | src/parser_v2/parser.rs:541-547 | a column type is INTEGER, DECIMAL, TEXT or BOOLEAN; past the end it is IndexPastEnd |
| SqlParse.Constraints | src/parser_v2/parser.rs:550-564 | corrected: the constraint loop stops at the first token that starts no constraint |
| SqlParse.ColumnDefinitions | src/parser_v2/parser.rs:534-574 | CREATE reads at least one column definition |
| SqlParse.ColumnDefinition | src/parser_v2/parser.rs:536-569 | corrected: a column is a name and a type token, both consumed |
| SqlParse.CreateStatement | src/parser_v2/parser.rs:525-578 | corrected CREATE TABLE reads at least one column |
| SqlParse.DropStatement | src/parser_v2/parser.rs:583-599 | DROP reads the name as the identifier after DROP and the optional TABLE or SCHEMA |
| SqlParse.ParseAndBuildAst | src/parser_v2/parser.rs:24-34 | only SELECT, INSERT, UPDATE, DELETE, CREATE and DROP start a statement; any other first token is "Unexpected statement type"; no token is IndexPastEnd |
| SqlParser.PopAndCombine | src/parser_v2/parser.rs:240-247 | the pop-pop-map reduction returns what `Reduce` says |
| SqlParser.MapAndCombine | src/parser_v2/parser.rs:224-233 | the map-pop-pop reduction returns what `ReduceMappedFirst` says |
| SqlParser.ReduceToParen | src/parser_v2/parser.rs:197-215 | the CloseParen loop returns what `SqlShunting.ReduceToParen` says |
| SqlParser.ReduceForOperator | src/parser_v2/parser.rs:216-234 | the operator loop returns what `SqlShunting.ReduceForOperator` says |
| SqlParser.FinishWhere | src/parser_v2/parser.rs:240-252 | the final loop and `pop_back` return what `SqlShunting.FinishWhere` says |
| SqlParser.Parser.constructor | src/parser_v2/parser.rs:20-22 | the parser starts at the first token |
| SqlParser.Parser.Consume | src/parser_v2/parser.rs:51-61 | a match returns the token and moves the cursor by exactly one; a mismatch leaves the cursor where it was |
| SqlParser.Parser.ParseAndBuildAst | src/parser_v2/parser.rs:24-34 | agrees with `SqlParse.ParseAndBuildAst` |
| SqlParser.Parser.SelectColumns | src/parser_v2/parser.rs:65-84 | the column loop agrees with `SqlParse.SelectColumns` |
| SqlParser.Parser.SelectStatement | src/parser_v2/parser.rs:63-139 | agrees with `SqlParse.SelectStatement` |
| SqlParser.Parser.SelectTail | src/parser_v2/parser.rs:95-129 | the tail loop agrees with `SqlParse.SelectTail` |
| SqlParser.Parser.OptionalWhere | src/parser_v2/parser.rs:96-100 | agrees with `SqlParse.OptionalWhere` |
| SqlParser.Parser.OptionalOrderBy | src/parser_v2/parser.rs:101-128 | agrees with `SqlParse.OptionalOrderBy` |
| SqlParser.Parser.OrderByItems | src/parser_v2/parser.rs:103-126 | the item loop agrees with `SqlParse.OrderByItems` |
| SqlParser.Parser.HandleWhere | src/parser_v2/parser.rs:154-253 | the operator-stack loop agrees with `SqlParse.HandleWhere` |
| SqlParser.Parser.NegatedCondition | src/parser_v2/parser.rs:181-191 | agrees with `SqlParse.NegatedCondition` |
| SqlParser.Parser.PrimaryCondition | src/parser_v2/parser.rs:255-379 | agrees with `SqlParse.PrimaryCondition` |
| SqlParser.Parser.NullCheckAfterIs | src/parser_v2/parser.rs:259-280 | agrees with `SqlParse.NullCheckAfterIs` |
| SqlParser.Parser.InValues | src/parser_v2/parser.rs:281-349 | agrees with `SqlParse.InValues` |
| SqlParser.Parser.InList | src/parser_v2/parser.rs:286-337 | the IN loop agrees with `SqlParse.InList` |
| SqlParser.Parser.ParseExpression | src/parser_v2/parser.rs:389-405 | agrees with `SqlParse.ParseExpression` |
| SqlParser.Parser.Keywords | src/parser_v2/parser.rs:504-505 | agrees with `SqlParse.Keywords` |
| SqlParser.Parser.ColumnNames | src/parser_v2/parser.rs:430-441 | the column loop agrees with `SqlParse.ColumnNames` |
| SqlParser.Parser.ExpressionList | src/parser_v2/parser.rs:446-454 | the value loop agrees with `SqlParse.ExpressionList` |
| SqlParser.Parser.InsertStatement | src/parser_v2/parser.rs:421-462 | agrees with `SqlParse.InsertStatement` |
| SqlParser.Parser.Assignments | src/parser_v2/parser.rs:473-486 | the SET loop agrees with `SqlParse.Assignments` |
| SqlParser.Parser.UpdateStatement | src/parser_v2/parser.rs:465-500 | agrees with `SqlParse.UpdateStatement` |
| SqlParser.Parser.DeleteStatement | src/parser_v2/parser.rs:503-522 | agrees with `SqlParse.DeleteStatement` |
| SqlParser.Parser.Constraints | src/parser_v2/parser.rs:550-564 | the constraint loop agrees with `SqlParse.Constraints` |
| SqlParser.Parser.ColumnDefinition | src/parser_v2/parser.rs:536-569 | agrees with `SqlParse.ColumnDefinition` |
| SqlParser.Parser.ColumnDefinitions | src/parser_v2/parser.rs:534-574 | the column loop agrees with `SqlParse.ColumnDefinitions` |
| SqlParser.Parser.CreateStatement | src/parser_v2/parser.rs:525-578 | agrees with `SqlParse.CreateStatement` |
| SqlParser.Parser.DropStatement | src/parser_v2/parser.rs:583-599 | agrees with `SqlParse.DropStatement` |
| SqlParseFacts.DispatchesOnFirstToken | src/parser_v2/parser.rs:24-34 | the statement kind is the first token's: each of the six keywords runs its own parser, whose result or error is the result |
| SqlParseFacts.StarEndsSelectList | src/parser_v2/parser.rs:66-70 | `*` adds All and ends the column list |
| SqlParseFacts.SelectListShape | src/parser_v2/parser.rs:65-84 | the SELECT list is identifiers at every other position separated by commas, in source order, ended by `*` or by an identifier with no comma |
| SqlParseFacts.SelectReadsTableAfterFrom | src/parser_v2/parser.rs:63-90 | a parsed SELECT has the columns of its list and the table named after FROM |
| SqlParseFacts.OrderByDefaultsToAscending | src/parser_v2/parser.rs:109-121 | an ORDER BY item with no ASC or DESC is ascending |
| SqlParseFacts.TighterOperatorWaits | src/parser_v2/parser.rs:216-234 | an incoming operator that binds tighter than the top of the stack reduces nothing |
| SqlParseFacts.LooserOrEqualOperatorReduces | src/parser_v2/parser.rs:216-234 | an incoming operator of lower or equal precedence first reduces the top of the stack, so equal operators group to the left |
| SqlParseFacts.ReduceToParenDrainsAbove | src/parser_v2/parser.rs:197-215 | `)` reduces every operator above the nearest `(` and discards the `(` |
| SqlParseFacts.StrayCloseParenDrains | src/parser_v2/parser.rs:197-215 | a `)` with no `(` on the stack reduces the whole stack |
| SqlParseFacts.DrainNeedsOperands | src/parser_v2/parser.rs:240-248 | draining succeeds exactly when there are more operands than operators; otherwise "Invalid WHERE clause" |
| SqlParseFacts.FinishWhereErrors | src/parser_v2/parser.rs:240-252 | the end of WHERE succeeds exactly when operands outnumber operators; "Invalid WHERE clause" or "Empty WHERE clause" otherwise |
| SqlParseFacts.EmptyWhereFails | src/parser_v2/parser.rs:174-252 | WHERE at the end of input, or directly before ORDER BY, is "Empty WHERE clause" |
| SqlParseFacts.OtherTokenInWhereFails | src/parser_v2/parser.rs:237 | any other token inside WHERE is "Unexpected token in WHERE clause" |
| SqlParseFacts.ComparisonCondition | src/parser_v2/parser.rs:351-376 | an operand, a comparison operator and an expression give that comparison, three tokens on |
| SqlParseFacts.NoOtherConditionForm | src/parser_v2/parser.rs:377 | an operand followed by any other token is "should not reach here" |
| SqlParseFacts.OrAndFromSecondOperand | src/parser_v2/parser.rs:216-248 | in `a = 1 OR b = 2 AND c = 3`, AND waits on OR, then both reduce at the end |
| SqlParseFacts.AndBindsTighterThanOr | src/parser_v2/parser.rs:154-253 | `a = 1 OR b = 2 AND c = 3` parses as `a = 1 OR (b = 2 AND c = 3)` |
| SqlParseFacts.AndAndFromSecondOperand | src/parser_v2/parser.rs:216-248 | in `a = 1 AND b = 2 AND c = 3`, the second AND reduces the first |
| SqlParseFacts.AndGroupsToTheLeft | src/parser_v2/parser.rs:154-253 | `a = 1 AND b = 2 AND c = 3` parses as `(a = 1 AND b = 2) AND c = 3` |
| SqlParseFacts.ColumnNamesInOrder | src/parser_v2/parser.rs:430-441 | the INSERT columns are the identifiers at every other position, in source order, separated by commas |
| SqlParseFacts.ExpressionListInOrder | src/parser_v2/parser.rs:446-454 | the values are the tokens at every other position, in source order, separated by commas |
| SqlParseFacts.InsertKeepsSourceOrder | src/parser_v2/parser.rs:421-462 | a parsed INSERT has the table after INTO, then the columns and the values in source order, and ends at the closing parenthesis |
| SqlParseFacts.DropForms | src/parser_v2/parser.rs:583-599 | DROP with an optional TABLE or SCHEMA succeeds exactly when an identifier follows, and names it; the TABLE-and-SCHEMA error never occurs |
| SqlStatementFacts.OptionalWhereRead | src/parser_v2/parser.rs:487-491 | the WHERE clause of UPDATE is read exactly when WHERE follows the assignments, as the condition after it; otherwise there is none and the statement ends there |
| SqlStatementFacts.AssignmentsInOrder | src/parser_v2/parser.rs:473-486 | the SET loop keeps the assignments already read and then reads `column = value` once every four tokens, in source order, a comma following every assignment but the last |
| SqlStatementFacts.UpdateReadsItsParts | src/parser_v2/parser.rs:465-498 | a parsed UPDATE has the table after UPDATE, SET, then at least one assignment in source order from the fourth token, and the WHERE clause exactly when WHERE follows them |
| SqlStatementFacts.DefinitionStep | src/parser_v2/parser.rs:535-573 | one round of the column loop: after a definition, a comma continues the list and anything else ends it |
| SqlStatementFacts.DefinitionsFromOne | src/parser_v2/parser.rs:569-571 | a definition with no comma after it is a whole column list |
| SqlStatementFacts.DefinitionsFromCons | src/parser_v2/parser.rs:569-572 | a definition, a comma and a column list make a column list |
| SqlStatementFacts.ColumnDefinitionsRead | src/parser_v2/parser.rs:535-573 | the column loop keeps the definitions already read and then reads comma-separated definitions in source order, ending after the last |
| SqlStatementFacts.DefinitionsFromTail | src/parser_v2/parser.rs:569-572 | past the first definition of a list, a comma follows and the rest is a list |
| SqlStatementFacts.DefinitionsParse | src/parser_v2/parser.rs:535-573 | conversely, comma-separated definitions in source order are exactly what the column loop reads |
| SqlStatementFacts.CreateReadsItsParts | src/parser_v2/parser.rs:525-578 | a parsed CREATE TABLE has the table after TABLE, `(`, the column definitions in source order and `)` |
| SqlStatementFacts.CreateOfParts | src/parser_v2/parser.rs:525-578 | conversely, `CREATE TABLE t (`, comma-separated definitions and `)` parse to table t with exactly those columns |
| SqlClauseFacts.ItemStep | src/parser_v2/parser.rs:105-124 | one round of the ORDER BY loop: after an item, a comma continues the loop and anything else ends it |
| SqlClauseFacts.OrderByItemsInOrder | src/parser_v2/parser.rs:103-126 | the ORDER BY loop keeps the items already read and adds the comma-separated items in source order, each a column with its direction, ending after the last |
| SqlClauseFacts.ItemsParse | src/parser_v2/parser.rs:103-126 | conversely, comma-separated ORDER BY items in source order are exactly what the loop reads |
| SqlClauseFacts.SelectTailStops | src/parser_v2/parser.rs:95-129 | the corrected SELECT tail (see Findings) stops, keeping its clauses, on a token that is neither WHERE nor ORDER BY |
| SqlClauseFacts.SelectTailWhere | src/parser_v2/parser.rs:95-129 | WHERE in the tail sets the WHERE clause to the condition after it; ORDER BY after the condition then sets the items |
| SqlClauseFacts.SelectTailOrderBy | src/parser_v2/parser.rs:95-129 | ORDER BY in the tail sets the ORDER BY clause to the items after it and keeps the WHERE clause |
| SqlClauseFacts.SelectClausesFromTail | src/parser_v2/parser.rs:63-139 | a parsed SELECT's WHERE and ORDER BY clauses and its end are those of the tail loop started after the table |
| SqlClauseFacts.SelectWithoutClauses | src/parser_v2/parser.rs:63-139 | with neither WHERE nor ORDER BY after the table, both clauses are none and the statement ends after the table |
| SqlClauseFacts.SelectWithWhere | src/parser_v2/parser.rs:63-139 | with WHERE after the table, the WHERE clause is the condition after it, and the ORDER BY clause is the items after the condition, or none when the condition runs to the end |
| SqlClauseFacts.SelectWithOrderBy | src/parser_v2/parser.rs:63-139 | with ORDER BY after the table, there is no WHERE clause and the ORDER BY clause is the items after it |
| SqlClauseFacts.DeleteReadsItsParts | src/parser_v2/parser.rs:503-522 | DELETE succeeds exactly when DELETE, FROM and an identifier come first and any WHERE after them has a condition; it names the table after FROM and its WHERE clause is the condition after WHERE, none without WHERE |
| SqlClauseFacts.ListValues | src/parser_v2/parser.rs:286-337 | the values named by the items of an IN list, in source order; never more values than tokens |
| SqlClauseFacts.InListReads | src/parser_v2/parser.rs:286-337 | the IN loop keeps the values already read and ends just after the first `)`; every token before it is an item of the list's type or a comma, and the values added are the ones those items name |
| SqlClauseFacts.InListOfParts | src/parser_v2/parser.rs:286-337 | conversely, items of one type and commas up to a `)` parse to exactly the values they name, ending after the `)` |
| SqlClauseFacts.InValuesForms | src/parser_v2/parser.rs:281-349 | after `IN (`, the result is a list exactly when an identifier or literal comes first, holding the values of the items up to `)`; a subquery only on SELECT, holding the SELECT parsed there |
| SqlParseFindings.SelectTailAsWritten | src/parser_v2/parser.rs:95-129 | as written, the tail loop ends only at the end of input; any other token leaves it spinning |
| SqlParseFindings.SelectStatementAsWritten | src/parser_v2/parser.rs:63-139 | as written, a SELECT that succeeds has read every token |
| SqlParseFindings.SelectWithSemicolonNeverEnds | src/parser_v2/parser.rs:95-129 | `SELECT * FROM t;` never ends as written; corrected, it parses and stops at `;` |
| SqlParseFindings.NullCheckAfterIsAsWritten | src/parser_v2/parser.rs:259-280 | as written, IS NULL returns without consuming NULL |
| SqlParseFindings.IsNullLeavesNull | src/parser_v2/parser.rs:268-271 | after `x IS NULL` as written, the WHERE loop meets NULL and fails; corrected, it reads IsNull three tokens on |
| SqlParseFindings.ConstraintsAsWritten | src/parser_v2/parser.rs:550-564 | as written, the PRIMARY KEY arm consumes nothing, so a loop started on PRIMARY KEY would never end |
| SqlParseFindings.ColumnDefinitionAsWritten | src/parser_v2/parser.rs:536-547 | as written, a column definition consumes the name and then a second identifier, and reads the type from the token after that without consuming it, stopping there |
| SqlParseFindings.ConstraintLoopNeverRunsAsWritten | src/parser_v2/parser.rs:536-564 | as written, a column definition succeeds exactly on two identifiers and a type token, and then has no constraint: the constraint loop starts on the type token, so its body never runs |
| SqlParseFindings.ColumnDefinitionsAsWritten | src/parser_v2/parser.rs:534-574 | as written, the column list always stops on a type token |
| SqlParseFindings.CreateNeverSucceeds | src/parser_v2/parser.rs:525-578 | as written, CREATE TABLE never succeeds: a type token stands where `)` is expected |
| SqlParseFindings.CreateStatementAsWritten | src/parser_v2/parser.rs:525-578 | as written, CREATE TABLE always fails; after `CREATE TABLE t (` and a column list, the error is `Expected(CloseParen)` |
| SqlParseFindings.CreateWithPrimaryKeyParses | src/parser_v2/parser.rs:536-564 | `CREATE TABLE t (id INTEGER PRIMARY KEY)` fails as written with `Expected(Identifier)` at INTEGER, which stands where a second identifier is expected; the constraint loop, if started on PRIMARY KEY, would never end; corrected, the statement parses |
| LegacyLex.Initial | src/parser/scanner.rs:15-23 | a new scanner starts at offset 0 on line 1 with no tokens |
| LegacyLex.Peek | src/parser/scanner.rs:135-140 | `peek` is the current character, or `'\0'` at the end |
| LegacyLex.PeekNext | src/parser/scanner.rs:127-133 | `peek_next` is the character after the current one, or `'\0'` |
| LegacyLex.ScanQuoted | src/parser/scanner.rs:48-55 | the string arm fails exactly when no quote follows; otherwise it stops just past the first quote and appends one Identifier token whose lexeme and string value are both the quoted text, quotes included |
| LegacyLex.ScanNumber | src/parser/scanner.rs:58-73 | the numeric arm consumes only digits and dots, stops before a digit, and appends one Number token whose lexeme and value are the text read |
| LegacyLex.ScanWord | src/parser/scanner.rs:74-111 | the word arm consumes a maximal run of word characters and appends one token typed by the keyword table on the upper-cased text, with no literal |
| LegacyLex.AddToken | src/parser/scanner.rs:142-148 | appends one token whose lexeme is exactly `source[start..current]`; nothing else changes |
| LegacyLex.SkipWhile | src/parser/scanner.rs:59-61 | the loop skips exactly the maximal run of matching characters |
| LegacyLex.SkipToQuote | src/parser/scanner.rs:48-52 | the string loop stops at the next quote; with no quote left, `advance` hits the end (the `unwrap` panic) |
| LegacyLex.Punctuation | src/parser/scanner.rs:40-47 | exactly `( ) * , ; > < =` are one-character tokens |
| LegacyLex.KeywordType | src/parser/scanner.rs:79-108 | the keyword table never gives EOF nor a type the scanner never emits |
| LegacyLex.ScanToken | src/parser/scanner.rs:37-115 | each step moves forward and emits at most one token whose lexeme is its text |
| LegacyLex.ScanLoop | src/parser/scanner.rs:24-28 | the loop runs to the end of the source and keeps the earlier tokens |
| LegacyLex.ScanTokensFrom | src/parser/scanner.rs:24-35 | `scan_tokens` ends the list with exactly one EOF token with an empty lexeme |
| LegacyLex.ScanTokens | src/parser/scanner.rs:24-35 | the token list is never empty and ends with EOF |
| LegacyLexFacts.SkipRun | src/parser/scanner.rs:59-61 | over a run ending at `to`, the loop stops at `to` |
| LegacyLexFacts.WholeNumber | src/parser/scanner.rs:58-73 | a digit run not followed by `.` and a digit is one NUMBER token whose lexeme and value are the digits |
| LegacyLexFacts.FractionalNumber | src/parser/scanner.rs:58-73 | digits, `.` and digits are one NUMBER token |
| LegacyLexFacts.Word | src/parser/scanner.rs:74-111 | a word is one token typed by its upper-cased text, with the text as lexeme |
| LegacyLexFacts.PunctuationToken | src/parser/scanner.rs:39-47 | each punctuation character becomes one token of its type |
| LegacyLexFacts.KeywordsIgnoreCase | src/parser/scanner.rs:79-108 | `select` is SELECT and an unknown word is IDENTIFIER |
| LegacyLexFacts.SkipsToQuote | src/parser/scanner.rs:48-52 | the string loop stops at the first quote |
| LegacyLexFacts.QuotedString | src/parser/scanner.rs:48-55 | a quoted string is one IDENTIFIER token whose lexeme includes both quotes |
| LegacyLexFacts.UnterminatedString | src/parser/scanner.rs:48-51 | a string with no closing quote ends in the `advance` panic |
| LegacyLexFacts.NewlineCounted | src/parser/scanner.rs:56 | a newline adds a line and no token |
| LegacyLexFacts.OtherSkipped | src/parser/scanner.rs:113 | any other character, space included, is skipped with no token and no error |
| LegacyLexFacts.StepSlices | src/parser/scanner.rs:37-115 | each step keeps every token's lexeme a slice of the source at its place |
| LegacyLexFacts.LoopSlices | src/parser/scanner.rs:24-28 | every token the loop emits is a slice of the source, in order and non-overlapping |
| LegacyLexFacts.ScannedTokens | src/parser/scanner.rs:24-35 | the scanned list is tokens in source order, each a slice of the source, followed by one EOF |
| LegacyLexFacts.LoopStep | src/parser/scanner.rs:24-28 | the loop goes on from where one step leaves it |
| LegacyLexFacts.LoopEnd | src/parser/scanner.rs:29-35 | at the end of the source the loop appends EOF |
| LegacyLexFacts.GreaterEqualIsTwoTokens | src/parser/scanner.rs:45-47 | `>=` scans as GREATER then EQUAL |
| LegacyLexFacts.NotEqualReadsAsEqual | src/parser/scanner.rs:37-115 | `a != 1` scans as `a`, `=`, `1`: the `!` is skipped |
| LegacyLexFacts.NotEqualWordAndBang | src/parser/scanner.rs:37-115 | in `a != 1` the word `a` and the space are read first |
| LegacyLexFacts.NotEqualSpaceAndBang | src/parser/scanner.rs:113 | the space and the `!` add nothing |
| LegacyLexFacts.NotEqualRest | src/parser/scanner.rs:37-115 | then `=` and `1` are two tokens |
| LegacyLexFacts.NumberTokenIsFloat | src/parser/scanner.rs:58-73 | a NUMBER token's text is always valid `f64` text, so the `unwrap` at line 71 never panics |
| LegacyLexFacts.FractionIsFloat | src/parser/scanner.rs:63-71 | digits, `.` and digits are valid `f64` text |
| LegacyNumbers.FirstOf | src/parser/scanner.rs:58-73 | the first position satisfying a test, or the length |
| LegacyNumbers.ParseUsize | src/parser/mod.rs:413-417 | `usize::from_str` accepts an optional `+` and digits whose value is below 2^64 |
| LegacyNumbers.DecimalText | src/parser/mod.rs:413-417 | the decimal text of a number is non-empty and all digits |
| LegacyNumbers.DecimalTextValue | src/parser/mod.rs:413-417 | the decimal text of n has value n |
| LegacyNumbers.UsizeRoundTrip | src/parser/mod.rs:413-417 | parsing the decimal text of any n below 2^64, with or without `+`, gives n |
| LegacyNumbers.UsizeOverflows | src/parser/mod.rs:413-417 | 2^64 does not parse as a `usize` |
| LegacyNumbers.UsizeRejects | src/parser/mod.rs:413-417 | text with a fraction, or with `-`, does not parse as a `usize` |
| LegacyNumbers.ScannedNumberIsFloat | src/parser/scanner.rs:58-71 | the scanner's number shapes are valid `f64` text |
| LegacyNumbers.WholeIsFloat | src/parser/scanner.rs:58-71 | a digit run is valid `f64` text |
| LegacyScanner.Scanner.constructor | src/parser/scanner.rs:15-23 | a new scanner is in the initial state |
| LegacyScanner.Scanner.IsAtEnd | src/parser/scanner.rs:123-125 | true exactly when the cursor is at or past the end |
| LegacyScanner.Scanner.Peek | src/parser/scanner.rs:135-140 | returns what `LegacyLex.Peek` says |
| LegacyScanner.Scanner.PeekNext | src/parser/scanner.rs:127-133 | returns what `LegacyLex.PeekNext` says |
| LegacyScanner.Scanner.Advance | src/parser/scanner.rs:117-121 | returns the current character and moves one on; at the end it is the `unwrap` panic |
| LegacyScanner.Scanner.AddToken | src/parser/scanner.rs:142-148 | pushes the token `LegacyLex.AddToken` gives |
| LegacyScanner.Scanner.AdvanceWhile | src/parser/scanner.rs:59-61 | the loop leaves the scanner where `SkipWhile` says |
| LegacyScanner.Scanner.ScanToken | src/parser/scanner.rs:37-115 | settles to `LegacyLex.ScanToken` |
| LegacyScanner.Scanner.ScanQuoted | src/parser/scanner.rs:48-55 | the string loop settles to `LegacyLex.ScanQuoted` |
| LegacyScanner.Scanner.ScanNumber | src/parser/scanner.rs:58-73 | the digit loops leave the state `LegacyLex.ScanNumber` gives |
| LegacyScanner.Scanner.ScanWord | src/parser/scanner.rs:74-111 | the word loop leaves the state `LegacyLex.ScanWord` gives |
| LegacyScanner.Scanner.ScanTokens | src/parser/scanner.rs:24-35 | returns what `ScanTokensFrom` returns, and `mem::take` leaves the token list empty |
| LegacyParse.Check | src/parser/mod.rs:471-477 | `check` is false at EOF; when it holds, a token follows |
| LegacyParse.Advance | src/parser/mod.rs:479-484 | `advance` moves one token on, except at EOF where it stays |
| LegacyParse.Consume | src/parser/mod.rs:454-460 | `consume` succeeds exactly when `check` holds, returning the token one position on; otherwise its error is the given message |
| LegacyParse.MatchToken | src/parser/mod.rs:462-469 | `match_token` moves one on exactly when `check` holds |
| LegacyParse.WhereClause | src/parser/mod.rs:188-191 | WHERE reads a condition and moves forward, stopping before EOF |
| LegacyParse.SelectStatement | src/parser/mod.rs:43-80 | a SELECT that succeeds consumes at least one token and stops on a token |
| LegacyParse.InsertStatement | src/parser/mod.rs:82-106 | an INSERT that succeeds moves forward and stops on a token |
| LegacyParse.UpdateStatement | src/parser/mod.rs:108-128 | an UPDATE that succeeds moves forward and stops on a token |
| LegacyParse.DeleteStatement | src/parser/mod.rs:130-148 | a DELETE that succeeds moves forward and stops on a token |
| LegacyParse.CreateStatement | src/parser/mod.rs:150-166 | a CREATE TABLE that succeeds moves forward and stops on a token |
| LegacyParse.DropStatement | src/parser/mod.rs:168-177 | a DROP that succeeds moves forward and stops on a token |
| LegacyParse.OrCondition | src/parser/mod.rs:193-206 | an OR condition consumes at least one token |
| LegacyParse.OrChain | src/parser/mod.rs:196-203 | the OR loop never moves the cursor back |
| LegacyParse.AndCondition | src/parser/mod.rs:208-222 | an AND condition consumes at least one token |
| LegacyParse.AndChain | src/parser/mod.rs:211-219 | the AND loop never moves the cursor back |
| LegacyParse.PrimaryCondition | src/parser/mod.rs:224-241 | a primary condition consumes at least one token |
| LegacyParse.ComparisonCondition | src/parser/mod.rs:243-317 | a comparison consumes at least one token |
| LegacyParse.ColumnList | src/parser/mod.rs:338-352 | a parenthesised column list consumes at least one token |
| LegacyParse.ColumnDefinition | src/parser/mod.rs:383-398 | a column definition consumes at least its name |
| LegacyParse.DataType | src/parser/mod.rs:403-427 | a data type consumes at least its name |
| LegacyParse.ConstraintAt | src/parser/mod.rs:429-450 | each constraint arm consumes its keyword |
| LegacyParse.SelectColumns | src/parser/mod.rs:45-60 | the SELECT list reads at least one item and keeps the earlier ones |
| LegacyParse.OptionalWhere | src/parser/mod.rs:69-73 | with no WHERE, no clause and no move |
| LegacyParse.Constraints | src/parser/mod.rs:429-452 | corrected: the constraint loop ends at the first token that starts no constraint and keeps the constraints in order |
| LegacyParse.ColumnNames | src/parser/mod.rs:338-352 | the column list reads at least one name and keeps the earlier ones |
| LegacyParse.ExpressionList | src/parser/mod.rs:354-363 | the value list reads at least one value and keeps the earlier ones |
| LegacyParse.Assignments | src/parser/mod.rs:365-380 | SET reads at least one assignment and keeps the earlier ones |
| LegacyParse.ColumnDefinitions | src/parser/mod.rs:382-401 | CREATE reads at least one column definition and keeps the earlier ones |
| LegacyParse.Expression | src/parser/mod.rs:319-336 | an expression is exactly one token |
| LegacyParse.Parse | src/parser/mod.rs:31-41 | the statement kind is the first token's, for each of the six keywords; any other first token gives "Unexpected statement type" |
| LegacyParseFacts.DispatchesOnFirstToken | src/parser/mod.rs:31-41 | the statement kind is the first token's; each of the six keywords runs its own parser; any other is "Unexpected statement type" |
| LegacyParseFacts.Bare | src/parser/mod.rs:306-313 | a bare identifier reads as `identifier = TRUE` |
| LegacyParseFacts.NotWrapsPrimary | src/parser/mod.rs:224-230 | NOT negates the primary condition after it and fails exactly when that does |
| LegacyParseFacts.ParenthesesGroup | src/parser/mod.rs:231-238 | `( cond )` is the inner OR condition; a missing `)` is "Expected ')'" |
| LegacyParseFacts.BareIdentifier | src/parser/mod.rs:306-313 | an identifier followed by no operator, IS, NULL or NOT is the bare condition, one token on |
| LegacyParseFacts.OperatorComparison | src/parser/mod.rs:248-280 | identifier, operator, expression: the comparison of the matching operator, three tokens on; the expression's error is the result |
| LegacyParseFacts.NotEqualNeverProduced | src/parser/mod.rs:248-266 | no comparison ever has the NotEqual operator |
| LegacyParseFacts.NullChecks | src/parser/mod.rs:281-305 | `IS NOT NULL` and `IS NULL` give the null checks; any other token after IS, and NULL or NOT without IS, are "unexpected token found" |
| LegacyParseFacts.AndBindsTighterThanOr | src/parser/mod.rs:193-222 | `a OR b AND c` parses as `a OR (b AND c)` |
| LegacyParseFacts.OrAfterAnd | src/parser/mod.rs:193-222 | `a AND b OR c` parses as `(a AND b) OR c` |
| LegacyParseFacts.AndGroupsToTheLeft | src/parser/mod.rs:208-222 | `a AND b AND c` parses as `(a AND b) AND c` |
| LegacyParseFacts.NotTakesTheGroup | src/parser/mod.rs:193-241 | `NOT (a OR b) AND c` parses as `(NOT (a OR b)) AND c` |
| LegacyParseFacts.NegatedGroup | src/parser/mod.rs:224-230 | NOT applies to the whole parenthesised group |
| LegacyParseFacts.ClosedGroup | src/parser/mod.rs:231-238 | the group ends at its `)` |
| LegacyParseFacts.InnerGroup | src/parser/mod.rs:193-206 | inside the group, `a OR b` is one OR condition |
| LegacyParseFacts.UnclosedGroup | src/parser/mod.rs:231-238 | `( a` with no `)` is "Expected ')'" |
| LegacyParseFacts.ScannedComparisons | src/parser/mod.rs:243-336 | on scanned tokens, a comparison is only `=`, `<` or `>`, and no expression is a string literal |
| LegacyParseFacts.NotEqualComparesEqual | src/parser/mod.rs:243-280 | `a != 1` scans and parses as `a = 1` |
| LegacyParseFacts.EqualComparison | src/parser/mod.rs:248-280 | the tokens `a = 1` parse as the comparison `a = 1` |
| LegacyParseFacts.GreaterEqualFails | src/parser/mod.rs:248-280 | the scanned `>=` (GREATER then EQUAL) is "Expected expression" |
| LegacyParseFacts.ColumnNamesInOrder | src/parser/mod.rs:338-352 | the column names are the identifiers at every other position, in source order, separated by commas |
| LegacyParseFacts.ExpressionListInOrder | src/parser/mod.rs:354-363 | the values are the tokens at every other position, in source order, separated by commas |
| LegacyParseFacts.InsertKeepsSourceOrder | src/parser/mod.rs:82-106 | a parsed INSERT has the table after INTO, the optional columns and then the values, each in source order |
| LegacyParseFacts.ColumnListRead | src/parser/mod.rs:338-352 | the parenthesised column list is read in order and VALUES follows its `)` |
| LegacyParseFacts.ValueListRead | src/parser/mod.rs:354-363 | the value list is read in order and `)` follows it |
| LegacyParseFacts.InsertParts | src/parser/mod.rs:82-106 | INSERT is the table, the optional column list, VALUES and the value list, with the value list's end as its end |
| LegacyParseFacts.InsertExample | src/parser/mod.rs:523-535 | the hand-written tokens of `INSERT INTO users (name, age) VALUES ('John Doe', 30)` parse to table "users", columns ["name", "age"] and two values, the string as an Identifier with its quotes |
| LegacyParseFacts.InsertExampleStatement | src/parser/mod.rs:82-106 | the INSERT parser reads the example's statement |
| LegacyParseFacts.InsertExampleColumns | src/parser/mod.rs:338-352 | the example's column list is ["name", "age"] |
| LegacyParseFacts.InsertExampleValues | src/parser/mod.rs:354-363 | the example's values are `'John Doe'` and 30 |
| LegacyParseFacts.InsertWithoutColumns | src/parser/mod.rs:82-106 | INSERT without a column list reads no columns |
| LegacyParseFacts.DataTypeNames | src/parser/mod.rs:403-427 | the type name is upper-cased: INTEGER, FLOAT, BOOLEAN and a bare VARCHAR give their types; any other name is "Unsupported data type: NAME" |
| LegacyParseFacts.VarcharSize | src/parser/mod.rs:411-423 | `VARCHAR(n)` for any n below 2^64 has size n; a missing `)` is an error |
| LegacyParseFacts.VarcharTooLarge | src/parser/mod.rs:413-417 | a size of 2^64 is "Invalid VARCHAR size" |
| LegacyParseFacts.ColumnDefinitionExample | src/parser/mod.rs:382-452 | `name VARCHAR(100) NOT NULL` is one column with the sized type and the NOT NULL constraint |
| LegacyParseFacts.VarcharColumnType | src/parser/mod.rs:403-427 | its type is VARCHAR of size 100 |
| LegacyParseFacts.VarcharColumnConstraints | src/parser/mod.rs:429-452 | its one constraint is NOT NULL |
| LegacyParseFacts.DropForms | src/parser/mod.rs:168-177 | DROP succeeds exactly when TABLE and an identifier follow, and names that identifier |
| LegacyParseFacts.DropExample | src/parser/mod.rs:584-592 | the tokens of `DROP TABLE old_users` parse to a drop of "old_users" |
| LegacyParseFindings.ConstraintsAsWritten | src/parser/mod.rs:429-452 | the constraint loop as written keeps the constraints in order |
| LegacyParseFindings.ConstraintsAsWrittenFrom | src/parser/mod.rs:429-452 | one more round of the loop as written adds its constraint next |
| LegacyParseFindings.LoneUniqueRejected | src/parser/mod.rs:444-447 | a single UNIQUE is an error as written; corrected, it is the UNIQUE constraint |
| LegacyParseFindings.DoubleUniqueAccepted | src/parser/mod.rs:444-447 | as written, `UNIQUE UNIQUE` is what gives one UNIQUE constraint |
| LegacyParseFindings.UniqueIsOneWord | src/parser/mod.rs:444-447 | corrected, the list goes on right after a single UNIQUE |
| LegacyParseFindings.SameWithoutUnique | src/parser/mod.rs:429-452 | where no UNIQUE follows, the corrected loop reads exactly what the loop as written reads |
| LegacyConditionFacts.Conjunctions | src/parser/mod.rs:208-222 | one conjunction per group, in order |
| LegacyConditionFacts.AndTail | src/parser/mod.rs:211-219 | the `AND primary` pairs read flat: the operands in source order, stopping at the first token that is not AND |
| LegacyConditionFacts.AndGroup | src/parser/mod.rs:208-222 | an AND-group read flat: at least one primary condition, not followed by AND |
| LegacyConditionFacts.OrTail | src/parser/mod.rs:196-203 | the `OR group` pairs read flat: non-empty groups in source order, stopping at a token that is neither AND nor OR |
| LegacyConditionFacts.OrGroups | src/parser/mod.rs:193-206 | a whole condition read flat: at least one non-empty group, followed by neither AND nor OR |
| LegacyConditionFacts.FoldGroupsLeft | src/parser/mod.rs:196-219 | appending an operand to a chain puts the whole chain so far on its left: AND and OR group to the left |
| LegacyConditionFacts.AndChainFolds | src/parser/mod.rs:211-219 | for every token list, the AND loop is the left fold with AND of the operands read flat, and fails exactly when the flat reading does |
| LegacyConditionFacts.AndConditionIsConjunction | src/parser/mod.rs:208-222 | `parse_and_condition` is the conjunction of the group read flat, ending where it ends, with the same error otherwise |
| LegacyConditionFacts.OrChainFolds | src/parser/mod.rs:196-203 | for every token list, the OR loop is the left fold with OR of the conjunctions of the groups read flat, and fails exactly when the flat reading does |
| LegacyConditionFacts.OrConditionIsOrOfAnds | src/parser/mod.rs:193-222 | for every token list, `parse_or_condition` is the OR of the AND-groups read flat: AND binds tighter than OR, both group to the left, and it fails exactly when the flat reading does, with the same message |
| LegacyConditionFacts.OrTakesWholeGroup | src/parser/mod.rs:196-203 | the right operand of each OR is the conjunction of the whole AND-group after it |
| LegacyStatementFacts.ExpressionByTokenKind | src/parser/mod.rs:319-336 | `expression` reads one token and its value is decided by the token's kind: identifier, string, number accepted by `f64::from_str`, else "Invalid number" or "Expected expression"; conversely the value keeps the token's text and kind and is never a boolean |
| LegacyStatementFacts.OptionalWhereRead | src/parser/mod.rs:69-73 | the WHERE clause is read exactly when WHERE follows, as the condition after it; otherwise there is none and the statement ends there |
| LegacyStatementFacts.SelectColumnsInOrder | src/parser/mod.rs:45-60 | the SELECT loop keeps the items already read, then reads one item every other token in source order, `*` always ending the list and a comma following every other item but the last |
| LegacyStatementFacts.SelectReadsItsParts | src/parser/mod.rs:43-80 | a parsed SELECT has at least one item in source order, FROM and the table named after it, and the WHERE clause exactly when WHERE follows the table |
| LegacyStatementFacts.AssignmentsInOrder | src/parser/mod.rs:365-380 | the SET loop keeps the assignments already read and then reads `column = value` once every four tokens, in source order, a comma following every assignment but the last |
| LegacyStatementFacts.UpdateReadsItsParts | src/parser/mod.rs:108-128 | a parsed UPDATE has the table after UPDATE, SET, then at least one assignment in source order, and the WHERE clause exactly when WHERE follows them |
| LegacyStatementFacts.DeleteForms | src/parser/mod.rs:130-148 | DELETE succeeds exactly when DELETE, FROM and an identifier come first and a WHERE after them has a condition; the table is that identifier and the WHERE clause is read exactly when WHERE follows |
| LegacyStatementFacts.ColumnDefinitionsRead | src/parser/mod.rs:382-401 | the column loop keeps the definitions already read and then reads comma-separated definitions in source order, ending after the last |
| LegacyStatementFacts.DefinitionsFromOne | src/parser/mod.rs:394-398 | a definition with no comma after it is a whole column list |
| LegacyStatementFacts.DefinitionsFromCons | src/parser/mod.rs:394-398 | a definition, a comma and a column list make a column list |
| LegacyStatementFacts.DefinitionStep | src/parser/mod.rs:382-401 | one round of the column loop: after a definition, a comma continues the list and anything else ends it |
| LegacyStatementFacts.DefinitionStepAt | src/parser/mod.rs:382-401 | the same round, given the definition read |
| LegacyStatementFacts.CreateReadsItsParts | src/parser/mod.rs:150-166 | a parsed CREATE TABLE has the table after TABLE, `(`, the column definitions in source order and `)` |
| LegacyStatementExamples.SingleComparisonWhere | src/parser/mod.rs:188-241 | a WHERE condition that is one three-token comparison followed by neither AND nor OR is that comparison |
| LegacyStatementExamples.ComparisonOfParts | src/parser/mod.rs:248-280 | an identifier, a comparison operator and an expression are the comparison of that operator |
| LegacyStatementExamples.NumberLiteral | src/parser/mod.rs:325-331 | a number token of digits is a number literal |
| LegacyStatementExamples.NumberComparisonWhere | src/parser/mod.rs:188-280 | `name op digits` alone is the WHERE condition comparing the name with that number |
| LegacyStatementExamples.DeleteExample | src/parser/mod.rs:552-562 | the tokens of `DELETE FROM users WHERE age < 18` parse to a delete from "users" whose WHERE clause is `age < 18` |
| LegacyStatementExamples.DeleteExampleWhere | src/parser/mod.rs:552-562 | its WHERE clause is `age < 18` |
| LegacyStatementExamples.UpdateExample | src/parser/mod.rs:537-549 | the tokens of `UPDATE users SET age = 31 WHERE name = 'John Doe'` parse to an update of "users" with the one assignment `age = 31` and the WHERE clause `name = 'John Doe'` |
| LegacyStatementExamples.UpdateExampleStatement | src/parser/mod.rs:108-128 | the UPDATE parser reads that statement and stops at EOF |
| LegacyStatementExamples.UpdateExampleAssignments | src/parser/mod.rs:365-380 | its assignments are `age = 31` |
| LegacyStatementExamples.LastNumberAssignment | src/parser/mod.rs:365-380 | `column = digits` with no comma after it ends the assignment list |
| LegacyStatementExamples.UpdateExampleWhere | src/parser/mod.rs:188-222 | its WHERE clause is `name = 'John Doe'` |
| LegacyStatementExamples.UpdateExampleComparison | src/parser/mod.rs:243-280 | `name = 'John Doe'` is an equality with the quoted text as an identifier |
| LegacyStatementExamples.CreateProducts | src/parser/mod.rs:567-569 | the example's 21 tokens |
| LegacyStatementExamples.CreateExample | src/parser/mod.rs:566-580 | the tokens of `CREATE TABLE products (id INTEGER PRIMARY KEY, name VARCHAR(100) NOT NULL, price FLOAT)` parse to table "products" with the three columns, their types and constraints |
| LegacyStatementExamples.CreateExampleShape | src/parser/mod.rs:150-166 | the keywords, the table name and the parentheses around the column list |
| LegacyStatementExamples.CreateOfParts | src/parser/mod.rs:150-166 | `CREATE TABLE t (` and a column list closed by `)` parse to table t with those columns |
| LegacyStatementExamples.CreateExampleColumns | src/parser/mod.rs:382-401 | the example's column list is `id`, `name` and `price` |
| LegacyStatementExamples.FirstColumn | src/parser/mod.rs:382-401 | the loop from `id` reads all three columns |
| LegacyStatementExamples.LaterColumns | src/parser/mod.rs:382-401 | the loop from `name` reads the last two |
| LegacyStatementExamples.LastColumn | src/parser/mod.rs:382-401 | the loop from `price` reads it and stops at `)` |
| LegacyStatementExamples.ColumnOfParts | src/parser/mod.rs:383-398 | a column definition is its name, its type and its constraints, read in turn |
| LegacyStatementExamples.OneConstraint | src/parser/mod.rs:429-452 | one constraint and none after it is a list of one |
| LegacyStatementExamples.PrimaryKeyOnly | src/parser/mod.rs:431-439 | `PRIMARY KEY` alone is the PrimaryKey constraint |
| LegacyStatementExamples.NotNullOnly | src/parser/mod.rs:431-443 | `NOT NULL` alone is the NotNull constraint |
| LegacyStatementExamples.IntegerType | src/parser/mod.rs:403-427 | the type name INTEGER is Integer |
| LegacyStatementExamples.FloatType | src/parser/mod.rs:403-427 | the type name FLOAT is Float |
| LegacyStatementExamples.VarcharHundred | src/parser/mod.rs:411-423 | `VARCHAR(100)` is Varchar of size 100 |
| LegacyStatementExamples.IntegerKeyColumn | src/parser/mod.rs:383-452 | `name INTEGER PRIMARY KEY` is one column with type Integer and the PrimaryKey constraint |
| LegacyStatementExamples.VarcharNotNullColumn | src/parser/mod.rs:383-452 | `name VARCHAR(100) NOT NULL` is one column with type Varchar(100) and the NotNull constraint |
| LegacyStatementExamples.FloatColumn | src/parser/mod.rs:383-452 | `name FLOAT` is one column with type Float and no constraint |
| LegacyStatementExamples.IdColumn | src/parser/mod.rs:567-580 | the example's first column is `id INTEGER PRIMARY KEY` |
| LegacyStatementExamples.NameColumn | src/parser/mod.rs:567-580 | its second column is `name VARCHAR(100) NOT NULL` |
| LegacyStatementExamples.PriceColumn | src/parser/mod.rs:567-580 | its third column is `price FLOAT` |
| LegacyParser.NewParser | src/parser/mod.rs:25-29 | `Parser::new` scans the source and starts at token 0; a scanner panic is its error |
| LegacyParser.Parser.constructor | src/parser/mod.rs:25-29 | the parser starts at the first token |
| LegacyParser.Parser.Peek | src/parser/mod.rs:490-492 | the token at the cursor |
| LegacyParser.Parser.Previous | src/parser/mod.rs:494-496 | the token before the cursor |
| LegacyParser.Parser.IsAtEnd | src/parser/mod.rs:486-488 | true exactly at EOF |
| LegacyParser.Parser.Check | src/parser/mod.rs:471-477 | returns what `LegacyParse.Check` says |
| LegacyParser.Parser.Advance | src/parser/mod.rs:479-484 | moves the cursor as `LegacyParse.Advance` says |
| LegacyParser.Parser.Consume | src/parser/mod.rs:454-460 | returns and moves as `LegacyParse.Consume` says; on an error the cursor stays |
| LegacyParser.Parser.MatchToken | src/parser/mod.rs:462-469 | moves as `LegacyParse.MatchToken` says and reports whether it matched |
| LegacyParser.Parser.Parse | src/parser/mod.rs:31-41 | returns what `LegacyParse.Parse` returns |
| LegacyParser.Parser.SelectColumns | src/parser/mod.rs:45-60 | the column loop agrees with `LegacyParse.SelectColumns` |
| LegacyParser.Parser.SelectStatement | src/parser/mod.rs:43-80 | agrees with `LegacyParse.SelectStatement` |
| LegacyParser.Parser.OptionalWhere | src/parser/mod.rs:69-73 | agrees with `LegacyParse.OptionalWhere` |
| LegacyParser.Parser.InsertStatement | src/parser/mod.rs:82-106 | agrees with `LegacyParse.InsertStatement` |
| LegacyParser.Parser.UpdateStatement | src/parser/mod.rs:108-128 | agrees with `LegacyParse.UpdateStatement` |
| LegacyParser.Parser.DeleteStatement | src/parser/mod.rs:130-148 | agrees with `LegacyParse.DeleteStatement` |
| LegacyParser.Parser.CreateStatement | src/parser/mod.rs:150-166 | agrees with `LegacyParse.CreateStatement` |
| LegacyParser.Parser.DropStatement | src/parser/mod.rs:168-177 | agrees with `LegacyParse.DropStatement` |
| LegacyParser.Parser.WhereClause | src/parser/mod.rs:188-191 | agrees with `LegacyParse.WhereClause` |
| LegacyParser.Parser.ParseOrCondition | src/parser/mod.rs:193-206 | the OR loop agrees with `LegacyParse.OrCondition` |
| LegacyParser.Parser.ParseAndCondition | src/parser/mod.rs:208-222 | the AND loop agrees with `LegacyParse.AndCondition` |
| LegacyParser.Parser.ParsePrimaryCondition | src/parser/mod.rs:224-241 | agrees with `LegacyParse.PrimaryCondition` |
| LegacyParser.Parser.ParseComparisonCondition | src/parser/mod.rs:243-317 | agrees with `LegacyParse.ComparisonCondition` |
| LegacyParser.Parser.Expression | src/parser/mod.rs:319-336 | agrees with `LegacyParse.Expression` |
| LegacyParser.Parser.ParseColumnList | src/parser/mod.rs:338-352 | the column loop agrees with `LegacyParse.ColumnList` |
| LegacyParser.Parser.ParseExpressionList | src/parser/mod.rs:354-363 | the value loop agrees with `LegacyParse.ExpressionList` |
| LegacyParser.Parser.ParseAssignments | src/parser/mod.rs:365-380 | the SET loop agrees with `LegacyParse.Assignments` |
| LegacyParser.Parser.ParseColumnDefinitions | src/parser/mod.rs:382-401 | the column loop agrees with `LegacyParse.ColumnDefinitions` |
| LegacyParser.Parser.ParseColumnDefinition | src/parser/mod.rs:383-398 | one round of the column loop agrees with `LegacyParse.ColumnDefinition` |
| LegacyParser.Parser.ParseDataType | src/parser/mod.rs:403-427 | agrees with `LegacyParse.DataType` |
| LegacyParser.Parser.ParseColumnConstraints | src/parser/mod.rs:429-452 | the constraint loop agrees with the corrected `LegacyParse.Constraints` |

## Left out

- `src/storage/io_manager.rs` is not part of this model. It is file I/O, and it calls page functions (`from_bytes`, `to_bytes`, `id`) that page.rs does not define.
- `src/parsor` is not part of this model. It is an older copy of the legacy front end that does not compile.
- The `f64` value of a number literal is kept as the text it was read from. No floating-point value is computed. The newer scanner's lexeme for a number is `value.to_string()` (scanner.rs:141); the model uses the source text, which differs for text such as `007` or `1.50`.
- Letters, digits and whitespace are ASCII: Unicode `is_alphanumeric`, `is_numeric`, `is_whitespace` and `to_uppercase` are not modelled, and a character is one byte.
- Error messages are tags, without the line, column or text that `format!` puts in them.
- `Rc` sharing of tokens in the newer parser is not modelled. Tokens are values.
- The tuple header's length field is 4 bytes wide, the only width at which page.rs's encoder, decoder and reserved size agree. On a 64-bit target the source panics (see "## Findings").
- Release-build wrap-around is modelled only for the search in `find_free_space_offset`, in `PageFindings`. The rest of the page model follows a debug build, where every overflow is a panic.
- The test `test_select_statement` (src/parser/mod.rs:504-520) is not restated: its parts are proved on tokens instead, by `SelectReadsItsParts`, `OrConditionIsOrOfAnds` and the condition lemmas of `LegacyParseFacts`.
- The INSERT, UPDATE, DELETE, CREATE and DROP tests of src/parser/mod.rs are restated on token lists written out by hand (`InsertExample`, `UpdateExample`, `DeleteExample`, `CreateExample`, `DropExample`). That the scanner turns each test's text into exactly that list is not proved; the scanner lemmas `Word`, `QuotedString` and `WholeNumber` state the token each kind of piece becomes.
- LegacyStatementFacts.ColumnDefinitionsRead: the older parser's column list is proved in one direction only, from what the loop reads to the comma-separated definitions. The converse, as `SqlStatementFacts.DefinitionsParse` states it for the newer parser, is not proved for the older one, whose column definition (type names upper-cased, VARCHAR sizes parsed) is too costly to unfold in that induction; `CreateExample` shows it on the test's columns.
- SqlParse.SelectColumns, SqlParse.OrderByItems, SqlParse.ColumnNames, SqlParse.ExpressionList, SqlParse.Assignments and SqlParse.ColumnDefinitions: each ensures only that the cursor moves and at least one item is read. Item order is stated by `SqlParseFacts.SelectListShape` (select list), `SqlClauseFacts.OrderByItemsInOrder` and `ItemsParse` (ORDER BY), `SqlParseFacts.ColumnNamesInOrder` (INSERT columns), `SqlParseFacts.ExpressionListInOrder` (VALUES), `SqlStatementFacts.AssignmentsInOrder` (SET) and `SqlStatementFacts.ColumnDefinitionsRead` with `DefinitionsParse` (CREATE columns).
- SqlParse.HandleWhere, SqlParse.WhereLoop, SqlParse.NegatedCondition and SqlParse.PrimaryCondition ensure only where the cursor ends. What they build is stated by the `SqlParseFacts` lemmas on conditions and precedence.
- SqlParse.InValues and SqlParse.InList: their own ensures state only that the cursor moves forward and earlier values are kept. The values read are stated by `SqlClauseFacts.InListReads`, `InListOfParts` and `InValuesForms`.
- SqlParse.SelectStatement: its own ensures states only that the cursor moves and that LIMIT and OFFSET are None. The columns and the table are stated by `SelectReadsTableAfterFrom`. The WHERE and ORDER BY clauses are stated by `SqlClauseFacts.SelectClausesFromTail`, `SelectWithoutClauses`, `SelectWithWhere` and `SelectWithOrderBy`. These cover a tail that reads each clause at most once, WHERE before ORDER BY. When a clause repeats, the later one replaces the earlier, and that is stated only round by round, by `SelectTailWhere` and `SelectTailOrderBy`.
- SqlParse.DeleteStatement: its own ensures states only the table and that the cursor moves. When it succeeds, and its WHERE clause, are stated by `SqlClauseFacts.DeleteReadsItsParts`.
- SqlParse.InsertStatement: its own ensures states only that a column and a value are read; its content is stated by `InsertKeepsSourceOrder`.
- SqlParse.UpdateStatement: its own ensures states only that an assignment is read; its content is stated by `SqlStatementFacts.UpdateReadsItsParts`.
- SqlParse.CreateStatement: its own ensures states only that a column is read; its content is stated both ways by `SqlStatementFacts.CreateReadsItsParts` and `SqlStatementFacts.CreateOfParts`.
- LegacyParse.SelectStatement: its own ensures states only that the cursor moves forward and stays before EOF; its content is stated by `LegacyStatementFacts.SelectReadsItsParts`.
- LegacyParse.SelectColumns: its own ensures states only that an item is read and earlier ones kept; the items in source order are stated by `LegacyStatementFacts.SelectColumnsInOrder`.
- LegacyParse.InsertStatement: its own ensures states only that the cursor moves forward; its content is stated by `LegacyParseFacts.InsertKeepsSourceOrder` and `InsertParts`.
- LegacyParse.UpdateStatement: its own ensures states only that the cursor moves forward and stays before EOF; its content is stated by `LegacyStatementFacts.UpdateReadsItsParts` and the test by `UpdateExample`.
- LegacyParse.Assignments: its own ensures states only that an assignment is read and earlier ones kept; the assignments in source order are stated by `LegacyStatementFacts.AssignmentsInOrder`.
- LegacyParse.DeleteStatement: its own ensures states only that the cursor moves forward and stays before EOF; when it succeeds and what it reads are stated by `LegacyStatementFacts.DeleteForms`, and the test by `DeleteExample`.
- LegacyParse.CreateStatement: its own ensures states only that the cursor moves forward and stays before EOF; its content is stated by `LegacyStatementFacts.CreateReadsItsParts` and the test by `CreateExample`.
- LegacyParse.ColumnDefinitions: its own ensures states only that a definition is read and earlier ones kept; the definitions in source order are stated by `LegacyStatementFacts.ColumnDefinitionsRead`.
- LegacyParse.Expression: its own ensures states only that one token is read; which value each kind of token gives, and the errors, are stated by `LegacyStatementFacts.ExpressionByTokenKind`.
- LegacyParse.DropStatement: its own ensures states only that the cursor moves forward; its content is stated by `LegacyParseFacts.DropForms`.
- LegacyParse.WhereClause: its own ensures states only that the cursor moves forward; the condition it reads is stated by `LegacyConditionFacts.OrConditionIsOrOfAnds`.
- LegacyParse.OrCondition: its own ensures states only that a token is consumed; for every token list it is the OR of the AND-groups read flat, by `LegacyConditionFacts.OrConditionIsOrOfAnds`.
- LegacyParse.OrChain: its own ensures states only that the cursor never moves back; for every token list it is the left OR-fold of the groups that follow, by `LegacyConditionFacts.OrChainFolds`.
- LegacyParse.AndCondition: its own ensures states only that a token is consumed; for every token list it is the conjunction of the group read flat, by `LegacyConditionFacts.AndConditionIsConjunction`.
- LegacyParse.AndChain: its own ensures states only that the cursor never moves back; for every token list it is the left AND-fold of the operands that follow, by `LegacyConditionFacts.AndChainFolds`.
- LegacyParse.PrimaryCondition, LegacyParse.ComparisonCondition, LegacyParse.ColumnDefinition, LegacyParse.DataType and LegacyParse.ConstraintAt: each ensures only that the cursor moves forward and stays before EOF. Their content is stated by `NotWrapsPrimary`, `ParenthesesGroup`, `OperatorComparison`, `NullChecks`, `BareIdentifier`, `DataTypeNames`, `VarcharSize` and the column lemmas of `LegacyStatementExamples`.
- SqlParser.Parser.SelectTail, SqlParser.Parser.NullCheckAfterIs, SqlParser.Parser.ColumnDefinition, SqlParser.Parser.Constraints and LegacyParser.Parser.ParseColumnConstraints follow the corrected behaviour named in "## Findings", not the code as written, which never ends or never succeeds there. The code as written is modelled only by the `...AsWritten` functions of `SqlParseFindings` and `LegacyParseFindings`.
- SlottedPage.InsertWith: a panic at the payload slice (page.rs:171) comes after the tuple header has been copied into the data region (page.rs:167-168). The model returns the page as it was before the call for every panic, so those partial writes are not kept.
- SqlLex.ScanToken, SqlLex.ScanString and SqlLex.ScanNumeric ensure only that the scanner moves and adds at most one token. The token each adds is stated by the `SqlLexFacts`, `SqlLexNumbers` and `SqlLexWords` lemmas.
- SqlLex.GreaterRelationalOperator and SqlLex.LesserRelationalOperator ensure only that at most one token is added. Which token is added is stated by `GreaterOrEqualToken`, `GreaterToken`, `LessOrEqualToken`, `NotEqualToken` and `LessToken`.

## Findings

| source | as written | input that shows it | evidently intended | confidence | as-written member | corrected member |
|---|---|---|---|---|---|---|
| src/storage/page.rs:123 | the gap between two used ranges is computed as `start2 - (start1 + end1)`, which subtracts `start1` twice | four inserts of equal-length tuples into a new page: the fourth finds ranges [0,t), [t,2t), [2t,3t), computes `2t - 3t` and panics in a debug build | `start2 - end1 >= length`: the fourth tuple goes at 3t | not executed | PageFindings.FourthEqualInsertPanics | PageFindings.FourthEqualInsertIntended |
| src/storage/page.rs:120-128 | in a release build the same subtraction wraps and passes | the same three ranges: the second window wraps and returns offset 2t, the start of the third tuple | no returned offset overlaps a used range | not executed | PageFindings.ReleaseBuildOverlaps | PageFindings.IntendedPlacementIsFree |
| src/storage/page.rs:56-62 | `length_of_tuple` is a `usize` and is copied into the 4 bytes 16..20 | any header on a 64-bit target: `copy_from_slice` of 8 bytes into 4 panics, and `size_of` is 24 rather than the 20 bytes written | a 4-byte length field, with `to_bytes` and `from_bytes` inverse | not executed | PageFindings.HeaderEncodingPanicsOn64Bit | TupleCodec.HeaderRoundTrip |
| src/parser_v2/scanner.rs:111-119 | a non-digit after the fraction digits resets `has_digits_after_dot` to false | `0.1)` (as in `IN (0.1)`) is rejected as an invalid float | the flag records whether any digit followed the dot | not executed | SqlLexNumbers.FractionFollowedRejected | SqlLexNumbers.FractionFollowedAcceptedIntended |
| src/parser_v2/scanner.rs:289-315 | RIGHT JOIN yields LeftJoin | `RIGHT JOIN` scans exactly as `LEFT JOIN` | a right join type distinct from LeftJoin | not executed | SqlLexWords.RightScansAsLeft | SqlLexWords.IntendedKeywordsDistinct |
| src/parser_v2/scanner.rs:222-262 | UNIQUE and FOREGIN read KEY directly at the end of the word, without skipping whitespace; UNIQUE KEY would give PrimaryKey | `UNIQUE KEY` is an error, because the three characters after UNIQUE are ` KE` | skip whitespace as PRIMARY does, and give UniqueKey | not executed | SqlLexWords.KeyRightAfterWordFails | SqlLexWords.UniqueKeyIntended |
| src/parser_v2/parser.rs:95-129 | the loop after FROM ends only at the end of input | `SELECT * FROM t;` never ends | stop at the first token that is neither WHERE nor ORDER BY | not executed | SqlParseFindings.SelectWithSemicolonNeverEnds | SqlParse.SelectTail |
| src/parser_v2/parser.rs:268-271 | IS NULL returns without consuming NULL | `WHERE x IS NULL`: the WHERE loop then meets NULL and fails with "Unexpected token in WHERE clause" | consume NULL | not executed | SqlParseFindings.IsNullLeavesNull | SqlParse.NullCheckAfterIs |
| src/parser_v2/parser.rs:536-547 | after the column name a second `Identifier` is consumed where the type belongs (line 540), and the type is then read with `peek` and never consumed | `CREATE TABLE t (id INTEGER PRIMARY KEY)`: INTEGER is not an identifier, so the statement fails at line 540 (`Expected(Identifier)` in the model); with a second identifier (`id x INTEGER`) the definition stops on INTEGER, where `,` or `)` is expected, so no CREATE TABLE succeeds | consume the name, then the type token | not executed | SqlParseFindings.CreateNeverSucceeds | SqlParse.ColumnDefinition |
| src/parser_v2/parser.rs:550-555 | the PRIMARY KEY arm pushes the constraint but consumes nothing (latent: as written the loop is only reached on a type token, so the arm never runs) | once the type token is consumed, `CREATE TABLE t (id INTEGER PRIMARY KEY)` would reach the arm and the loop would never end | consume PRIMARY KEY, as NOT NULL is consumed | not executed | SqlParseFindings.ConstraintsAsWritten | SqlParse.Constraints |
| src/parser/mod.rs:444-447 | after `match_token` has taken UNIQUE, the arm consumes a second UNIQUE | `id INTEGER UNIQUE)` is "Expected Unique constraints"; only `UNIQUE UNIQUE` is accepted | a single UNIQUE is the constraint | not executed | LegacyParseFindings.LoneUniqueRejected | LegacyParse.Constraints |

Other behaviour of the code as written:

- **The older scanner emits no two-character operator.** `>=` scans as GREATER then EQUAL, and the parser then fails on it (`GreaterEqualIsTwoTokens`, `GreaterEqualFails`). The scanner skips `!`, so `a != 1` reads as `a = 1` (`NotEqualComparesEqual`). A quoted string arrives as an IDENTIFIER with its quotes (`QuotedString`, `InsertExample`).
- **The older parser uses different variant names.** mod.rs spells the token variants in camel case (`Leftparen`, `Eof`, `GreaterThanOrEqualTo`), while sql_token_types.rs declares them in upper case. Each name is taken to mean the declared variant of the same name.
- **The newer scanner maps `INTEGER` to Insert** (scanner.rs:191), and its `Decimal` arm is spelled in mixed case, so upper-cased text never matches it. Both are modelled as written.
- **The newer `tokenize` appends no Eof token** (`TokenizeNoEof`). The newer parser guards every index with IndexPastEnd instead.
