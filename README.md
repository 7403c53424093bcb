# A verified model of the oh shell's lexer

This project models the lexer of the oh shell (`oh/pkg/parser/lexer.go`) in Dafny.

The lexer keeps a buffer of input text and a cursor into it. It has
fourteen states. Each state may consume input and may emit an item. Each
then names the state to run next, or none to halt. Some states hand over
without consuming anything:
- `afterBang` does so on an ordinary character;
- `scanSymbol` does so at a delimiter;
- the operator states do so in their default branch.

The run loop steps the states until one halts. `Lex` hands the parser one
item at a time. While no item is ready, it asks its line supplier for
another line, joins it and scans it. `AbsorbAll` states, as a function of
the replies read, the machine `Lex` leaves, and the item it hands out is
the head of the queue that the last scan left.

On emission the lexer does four things:
- It drops a newline that follows a continuation operator: `||`, `&&`, a
  pipe or a redirection (lexer.go:197-202). A newline after a lone `&` is
  kept, because `&` runs a command in the background and ends the
  statement.
- It replaces operator text by the operator's name from a fixed table
  (lexer.go:204-219, 241-246).
- It reclassifies a scanned symbol that contains a brace (lexer.go:221-240).
  A symbol that holds any brace and is longer than one character becomes
  a brace expansion, however many braces it holds. A lone brace becomes
  that brace's punctuation.
- It maintains a stack of "first words", one per open group
  (lexer.go:248-268). The stack is read by `First()` (lexer.go:132-136)
  and tested by `Reset` (lexer.go:186-190).

A double-quoted item's text includes its quotes, because the item is
emitted from `start` (lexer.go:508-523).

The model has seven modules:

- `Tokens`: item kinds, the operator table, renaming and symbol
  reclassification.
- `Scanning`: the character classes the states test, and `NextStop`, the
  position at which a scanning loop stops.
- `Emission`: what `emit` does to the output side, as functions of values.
  This covers suppression, renaming, the first-word stack and the queue.
- `Lines`: what `Lex` does to a line before appending it.
- `Machine`: the lexer's fields as a value (`Config`), one step function
  per state, the run loop (`RunFrom`), and what every step and every run
  keeps.
- `Cells`: the first-word stack as the list of cells the source builds,
  used to show what the probe's shared cells do (see "## Findings").
- `Lexing`: class `Lexer` with the Go struct's fields. It holds every
  state function, the cursor operations, `scan`, `run`, `emit` and `Lex`.

Each state method of `Lexer` has a field-level `modifies` frame. Its
postcondition is the matching `Machine` step function applied to the old
fields. `Run` and `Scan` are tied to `RunFrom` in the same way. Facts about
the output are proved once, about the functions:
- `StepSound` proves that every step keeps the queue well formed and only
  appends to it;
- `OperatorStepNamed` proves that an operator item is queued under its
  table name;
- the whole-run lemmas (`AndThenNewline`, `BackgroundThenNewline`,
  `OrThenNewline`, `BangPipePipe`, `BangAppend`, `EscapedQuote` and
  `SplitQuote`) give the whole item sequence for particular lines, the last
  one for a double-quoted item split over two lines;
- `CommentLineYieldsNewlines` proves that any line of blanks, newlines and
  comments queues nothing but newline items;
- `RunHaltsAtEnd` proves that at the end of the buffer every state halts
  without queuing anything.

`Lexer.Valid` is the invariant that every method preserves:
- the buffer indices are in order;
- the current state has its opening text under the cursor, or a state to
  resume after an escape;
- every queued item is well formed: never the interrupt sentinel, a symbol
  never holds a brace, and a brace expansion is longer than one character.

The run loop is proved to terminate. The measure is the buffer's remaining
length together with a rank on the states that may hand over without
consuming input. While the scanner is alive, the run is proved to stop
exactly at the end of the buffer.

## Model

| member | source | states |
|---|---|---|
| Tokens.Fatal | oh/pkg/parser/lexer.go:128-130 | an item is fatal exactly when it is the interrupt sentinel: kind CtrlC and no text; Lex and Turn state the other half, that an item they hand out is fatal exactly when the last reply was an interrupt |
| Tokens.Rewrite | oh/pkg/parser/lexer.go:241-246 | emitted text differs from the scanned text only for an operator kind whose text is in the table |
| Tokens.RewriteYieldsName | oh/pkg/parser/lexer.go:204-219 | operator text is replaced by one of the table's names, and no name is itself operator text |
| Tokens.OperatorNamesDistinct | oh/pkg/parser/lexer.go:204-219 | distinct operator texts receive distinct names |
| Tokens.ClassifySymbol | oh/pkg/parser/lexer.go:225-240 | the brace scan yields a plain symbol when there is no brace, the brace itself for a lone brace, and a brace expansion otherwise |
| Scanning.NextStop | oh/pkg/parser/lexer.go:539-557 | the first position at or after the start whose character is in the stop set, or the end of the buffer; nothing before it stops the scan |
| Scanning.NextStopAt | oh/pkg/parser/lexer.go:539-557 | a scan that passed only non-stopping characters and ended at a stop (or at the end) ended at NextStop |
| Emission.UpdateFirst | oh/pkg/parser/lexer.go:250-267 | untracked stays untracked; a symbol at an empty head word becomes the head word, and a later symbol leaves it; a colon clears the head word; an opening bracket pushes an empty word; a closing one pops, except that the outermost word is never popped; nothing else changes the stack |
| Emission.UpdateAllAppend | oh/pkg/parser/lexer.go:250-267 | updating over two runs of items is updating over the first and then over the second |
| Emission.FlatRunKeepsEnclosing | oh/pkg/parser/lexer.go:253-267 | items that neither open nor close a group leave the depth and every enclosing word unchanged |
| Emission.NestedRunKeepsEnclosing | oh/pkg/parser/lexer.go:258-264 | a run that never closes more groups than it opened deepens the stack by its balance and leaves every enclosing word as it was |
| Emission.GroupRestoresEnclosing | oh/pkg/parser/lexer.go:258-264 | a bracketed group whose inner items are balanced, nested groups included, restores the enclosing stack, whatever was recorded inside it |
| Emission.FirstSymbolIsFirstWord | oh/pkg/parser/lexer.go:254-257 | once a group's first word is set, later symbols leave it alone |
| Emission.GroupFirstWord | oh/pkg/parser/lexer.go:254-264 | in a group such as `(foo bar)`, the first symbol becomes the group's word and stays so; the closing bracket restores the enclosing stack |
| Emission.UpdateAllSingle | oh/pkg/parser/lexer.go:250-267 | updating over one item is UpdateFirst of it |
| Emission.Emit | oh/pkg/parser/lexer.go:192-274 | emit appends at most one item; the previous item type becomes that item's type; the first-word stack stays tracked or untracked |
| Emission.NewlineSuppression | oh/pkg/parser/lexer.go:197-202 | a newline changes nothing exactly when the previous item is an or, an and, a pipe or a redirection; after a lone `&` it is queued |
| Emission.OperatorRenamed | oh/pkg/parser/lexer.go:241-246 | operator text found in the table is queued under its name and with its kind |
| Emission.SymbolReclassified | oh/pkg/parser/lexer.go:225-240 | a symbol is queued with its own text and the kind its braces give it |
| Emission.PlainQueued | oh/pkg/parser/lexer.go:192-274 | a request that is neither a symbol, nor an operator, nor a dropped newline is queued with its kind and text unchanged |
| Emission.FirstFollowsItem | oh/pkg/parser/lexer.go:248-270 | a queued item becomes the previous item type, and the first-word stack becomes UpdateFirst over that item |
| Emission.MadeTokenWellFormed | oh/pkg/parser/lexer.go:221-246 | the item made for any request the states can make is well formed |
| Emission.EmitWellFormed | oh/pkg/parser/lexer.go:221-274 | emitting a request the states can make keeps every queued item well formed |
| Emission.EmitSinglesSnoc | oh/pkg/parser/lexer.go:583-586 | one more character in skipWhitespace's loop is emitted on its own when it is single-character punctuation, and dropped otherwise |
| Emission.EmitSinglesPunctuation | oh/pkg/parser/lexer.go:583-584 | every item skipWhitespace's loop emits is a single character from the text it passed, queued as its own punctuation |
| Emission.EmitSinglesWellFormed | oh/pkg/parser/lexer.go:583-584 | skipWhitespace's loop keeps the queue well formed |
| Emission.BlankLinesEmitNewlines | oh/pkg/parser/lexer.go:583-586 | a stretch of blanks and newlines yields only newline items |
| Emission.BlanksEmitNothing | oh/pkg/parser/lexer.go:585-586 | blanks alone change nothing |
| Emission.WellFormedAt | oh/pkg/parser/lexer.go:282-284 | every item of a well-formed queue is well formed |
| Emission.WellFormedTail | oh/pkg/parser/lexer.go:282-284 | taking the head of a well-formed queue leaves a well-formed queue |
| Emission.WellFormedNotFatal | oh/pkg/parser/lexer.go:128-130 | no scanned item is the interrupt sentinel, so comparing by value picks out the sentinel as Go's pointer comparison does |
| Lines.RemoveContinuations | oh/pkg/parser/lexer.go:173 | joining escaped line ends never lengthens a line; the line gets shorter exactly when it holds a backslash followed by a newline |
| Lines.ContinuationsKeepOrder | oh/pkg/parser/lexer.go:173 | the joined line is a subsequence of the line: what remains keeps its order |
| Lines.ContinuationsRemoved | oh/pkg/parser/lexer.go:173 | the line loses exactly two characters for each backslash-newline pair |
| Lines.ContinuationsKeepOthers | oh/pkg/parser/lexer.go:173 | every character other than backslash and newline occurs as often in the joined line as in the line |
| Lines.ContinuationCounts | oh/pkg/parser/lexer.go:173 | the joined line has one backslash and one newline fewer for each pair |
| Lines.LineStep | oh/pkg/parser/lexer.go:171-178 | a line read with an error ends in a newline; a clean line without an escaped line end is appended unchanged; the length drops by two per pair and grows by one after an error |
| Machine.EmitAt | oh/pkg/parser/lexer.go:192-275 | emit leaves the buffer, cursor, width, saved state and liveness alone, only appends to the queue and keeps the first-word stack tracked |
| Machine.EnteredOnEntry | oh/pkg/parser/lexer.go:587-609 | the character skipWhitespace hands over is the opening text of the state it enters |
| Machine.EmitAtWellFormed | oh/pkg/parser/lexer.go:192-275 | every emit a state asks for keeps the queue well formed |
| Machine.FinishWellFormed | oh/pkg/parser/lexer.go:353-489 | an operator state's closing emit keeps the queue well formed |
| Machine.AfterAmpersandSound | oh/pkg/parser/lexer.go:353-367 | afterAmpersand consumes input or hands over to skipWhitespace, halts only at end of input, only appends well-formed items, and leaves skipWhitespace's context |
| Machine.AfterBackslashSound | oh/pkg/parser/lexer.go:369-378 | with input left, afterBackslash consumes exactly the escaped character, names exactly the saved state as the next state and clears the saved state; at end of input it halts, with the saved state unchanged |
| Machine.AfterBangSound | oh/pkg/parser/lexer.go:380-398 | afterBang consumes a selecting character or hands over to scanSymbol, which ranks lower, and leaves the context of the state it names |
| Machine.AfterBangGreaterSound | oh/pkg/parser/lexer.go:400-413 | afterBangGreater progresses, halts only at end of input, and only appends well-formed items |
| Machine.AfterColonSound | oh/pkg/parser/lexer.go:415-429 | afterColon progresses, halts only at end of input, and only appends well-formed items |
| Machine.AfterGreaterThanSound | oh/pkg/parser/lexer.go:431-449 | afterGreaterThan progresses, halts only at end of input, and only appends well-formed items |
| Machine.AfterLessThanSound | oh/pkg/parser/lexer.go:451-467 | afterLessThan progresses, halts only at end of input, and only appends well-formed items |
| Machine.AfterPipeSound | oh/pkg/parser/lexer.go:469-489 | afterPipe progresses, halts only at end of input, and only appends well-formed items |
| Machine.ScanQuotedSound | oh/pkg/parser/lexer.go:491-523 | scanBangString and scanDoubleQuoted consume input, halt only at end of input, only append well-formed items, and, when they hand over to afterBackslash, have saved themselves (the state being run) |
| Machine.ScanSingleQuotedSound | oh/pkg/parser/lexer.go:525-537 | scanSingleQuoted consumes input, halts only at end of input, and only appends well-formed items |
| Machine.EndSymbolSound | oh/pkg/parser/lexer.go:543-553 | where a symbol ends, the step progresses, halts only at end of input, only appends well-formed items, and saves scanSymbol when it hands over to afterBackslash |
| Machine.ScanSymbolSound | oh/pkg/parser/lexer.go:539-558 | scanSymbol progresses, halts only at end of input, only appends well-formed items, and, when it hands over to afterBackslash, has saved scanSymbol itself |
| Machine.SkipCommentSound | oh/pkg/parser/lexer.go:560-572 | skipComment consumes input, halts only at end of input, and only appends well-formed items |
| Machine.SkipWhitespaceSound | oh/pkg/parser/lexer.go:574-614 | skipWhitespace consumes input, halts only at end of input, only appends well-formed items, leaves the opening text of the state it enters, and saves scanSymbol when a backslash starts the item |
| Machine.StepSound | oh/pkg/parser/lexer.go:329-335 | every state's step keeps the buffer and liveness, never moves the cursor back, consumes input or hands over to a lower-ranked state, only appends well-formed items, and leaves the next state's context |
| Machine.OperatorTextInTable | oh/pkg/parser/lexer.go:204-219 | every text an operator state can emit (its opening text and what it consumed) is a key of the operator table |
| Machine.FinishNamed | oh/pkg/parser/lexer.go:241-246 | an operator state's closing emit queues one item under the operator's name |
| Machine.OperatorHead | oh/pkg/parser/lexer.go:353-489 | each operator state has its own opening text under the cursor |
| Machine.OperatorStepNamed | oh/pkg/parser/lexer.go:353-489 | whatever an operator state queues has an operator kind and a name from the operator table as its text |
| Machine.RunKeeps | oh/pkg/parser/lexer.go:329-335 | a run keeps the buffer, liveness and the last state's context, only appends well-formed items, and while alive stops exactly at the end of the buffer |
| Machine.Appended | oh/pkg/parser/lexer.go:300-321 | scanning a line keeps only the unfinished item, appends the line, and starts an empty queue; the unread text is the old unread text followed by the line |
| Machine.AppendedEntered | oh/pkg/parser/lexer.go:300-321 | trimming the buffer and appending a line keeps the current state's context |
| Machine.AppendedToFresh | oh/pkg/parser/lexer.go:70-93 | a new lexer scanning its first line starts from a fresh scanner over that line |
| Machine.AndThenNewline | oh/pkg/parser/lexer.go:197-202 | the line `&&` followed by a newline yields the single item `and`: the newline is dropped |
| Machine.BackgroundThenNewline | oh/pkg/parser/lexer.go:197-202 | the line `&` followed by a newline yields `spawn` and then the newline |
| Machine.HaltsAtEnd | oh/pkg/parser/lexer.go:353-614 | at the end of the buffer every state halts without emitting; the buffer, cursor, saved state, liveness and output stay |
| Machine.RunHaltsAtEnd | oh/pkg/parser/lexer.go:329-335 | a run that starts at the end of the buffer queues nothing and stops in its own state (or the last state when not alive) |
| Machine.RunStep | oh/pkg/parser/lexer.go:329-335 | a live run takes one step of its state and goes on from the configuration and state that step names |
| Machine.FirstToken | oh/pkg/parser/lexer.go:574-614 | a fresh scanner over a line whose first character starts a token (other than an escape) consumes that character, starts the item there and enters the state it selects |
| Machine.TokenHere | oh/pkg/parser/lexer.go:574-614 | skipWhitespace at a character that starts a token (other than an escape) consumes it, starts the item there and enters the state it selects |
| Machine.NewlineDroppedAtEnd | oh/pkg/parser/lexer.go:197-202 | a final newline after a continuation operator leaves the output unchanged |
| Machine.NewlineKeptAtEnd | oh/pkg/parser/lexer.go:576-584 | a final newline after an item that does not continue the statement is queued as one newline item with text `\n` |
| Machine.ClosingQuote | oh/pkg/parser/lexer.go:508-523 | a double-quoted scan with no quote or escape before the buffer's last character, a quote, consumes the whole buffer and emits from the item's start |
| Machine.QuotedItemAtEnd | oh/pkg/parser/lexer.go:508-523 | in that case the run queues exactly one double-quoted item whose text runs from the opening quote through the closing one |
| Machine.OpenQuote | oh/pkg/parser/lexer.go:508-514 | the line `"abc` leaves the scanner at the end of the buffer inside scanDoubleQuoted, with the item starting at the quote and nothing queued |
| Machine.CloseQuote | oh/pkg/parser/lexer.go:508-523 | continuing inside the quotes over `"abcdef"` queues the single item `"abcdef"` |
| Machine.SplitQuote | oh/pkg/parser/lexer.go:300-321 | `"abc` followed by the line `def"` queues nothing after the first line and the single item `"abcdef"` after the second: scan keeps the unfinished item across lines |
| Machine.EscapeInQuotes | oh/pkg/parser/lexer.go:519-521 | inside double quotes a backslash saves scanDoubleQuoted and hands over to afterBackslash |
| Machine.EscapedQuote | oh/pkg/parser/lexer.go:508-523 | the line `"a\"b"` yields one double-quoted item holding the escape and both inner quotes: the escaped quote does not close it |
| Machine.OrThenNewline | oh/pkg/parser/lexer.go:469-489 | the line `\|\|` and a newline yields the single item `or`; the newline is dropped |
| Machine.BangPipe | oh/pkg/parser/lexer.go:478-482 | after `!\|` a second pipe character is not consumed: the stderr pipe is queued and skipWhitespace resumes at the second pipe |
| Machine.BangPipePipe | oh/pkg/parser/lexer.go:469-489 | the line `!\|\|` and a newline yields the stderr pipe and then the stdout pipe, and no or; the newline is dropped |
| Machine.BangAppend | oh/pkg/parser/lexer.go:400-413 | the line `!>>` and a newline yields the single item `_append_stderr_`; the newline is dropped |
| Machine.SymbolAtEndWaits | oh/pkg/parser/lexer.go:538-545 | the line `foo` without a delimiter queues nothing: the symbol reaches the end of input and stays unfinished in scanSymbol from its start |
| Machine.SymbolThenNewline | oh/pkg/parser/lexer.go:538-548 | the line `foo` and a newline queues the symbol `foo` and a newline item, whatever came before, and records `foo` as the first word |
| Machine.NewlineEmitted | oh/pkg/parser/lexer.go:197-202 | emitting a newline appends at most one item, a newline |
| Machine.BlanksStep | oh/pkg/parser/lexer.go:574-614 | over blanks, newlines and comments, skipWhitespace queues only newline items and either halts at the end of the buffer or enters skipComment just after a `#` |
| Machine.CommentStep | oh/pkg/parser/lexer.go:560-572 | skipComment queues at most the newline that ends the comment and either halts at the end of the buffer or hands back to skipWhitespace after that newline |
| Machine.CommentsAndBlanksRun | oh/pkg/parser/lexer.go:329-335 | a run of skipWhitespace over blanks, newlines and comments only appends newline items |
| Machine.CommentRun | oh/pkg/parser/lexer.go:560-572 | a run from inside such a comment only appends newline items |
| Machine.CommentLineYieldsNewlines | oh/pkg/parser/lexer.go:560-614 | every item a fresh scanner queues for a line of blanks, newlines and comments is a newline |
| Lexing.Fed | oh/pkg/parser/lexer.go:160-171 | at most one line is counted per reply |
| Lexing.Absorb | oh/pkg/parser/lexer.go:160-180 | an interrupt or a retry leaves the machine as it was; any other reply appends its joined line (LineStep) and runs the machine from the current state |
| Lexing.AbsorbAll | oh/pkg/parser/lexer.go:151-183 | the machine after a sequence of replies, each absorbed in turn; it stays in bounds |
| Lexing.AbsorbNext | oh/pkg/parser/lexer.go:151-183 | one more reply extends AbsorbAll by Absorb, extends the line count by Fed's one-reply count, and extends Quiet exactly when the reply was neither an interrupt nor a failure and queued nothing |
| Lexing.QuietReplies | oh/pkg/parser/lexer.go:151-183 | once Lex read on after every reply before the last, none of them was an interrupt, and the supplier is still attached exactly when none of the replies read failed |
| Lexing.Lexer.constructor | oh/pkg/parser/lexer.go:70-93 | a new lexer is valid and alive, with nothing queued, an empty buffer, no first-word stack and the given name and line count; its fields are the fresh scanner |
| Lexing.Lexer.Copy | oh/pkg/parser/lexer.go:104 | the copy has every field of the original |
| Lexing.Lexer.Peek | oh/pkg/parser/lexer.go:292-298 | the character under the cursor with width 1, or end of input with width 0 |
| Lexing.Lexer.Skip | oh/pkg/parser/lexer.go:346-349 | the width is recorded and the cursor moves by it |
| Lexing.Lexer.Next | oh/pkg/parser/lexer.go:286-290 | reads and consumes the character under the cursor, or returns end of input in place |
| Lexing.Lexer.Resume | oh/pkg/parser/lexer.go:323-327 | returns the saved state and clears it |
| Lexing.Lexer.ResetBuffer | oh/pkg/parser/lexer.go:312-321 | the buffer drops everything before the current item, and the cursor keeps its place in the text |
| Lexing.Lexer.Refill | oh/pkg/parser/lexer.go:300-321 | the fields become Appended of the old fields: the buffer keeps only the unfinished item, the line follows it, and the queue is new; the lexer stays valid |
| Lexing.Lexer.Scan | oh/pkg/parser/lexer.go:300-310 | the fields become the run of the machine from the appended configuration, with a fresh queue; the result is valid and, while alive, at the end of the buffer |
| Lexing.Lexer.Emit | oh/pkg/parser/lexer.go:192-275 | the fields become EmitAt of the old fields |
| Lexing.Lexer.TrackFirstWord | oh/pkg/parser/lexer.go:248-268 | the first-word stack becomes UpdateFirst of the old stack |
| Lexing.Lexer.ReportError | oh/pkg/parser/lexer.go:277-280 | queues an error item carrying the message, and halts |
| Lexing.Lexer.AfterAmpersand | oh/pkg/parser/lexer.go:353-367 | the fields and next state are AfterAmpersandStep's: halt at end of input, else `&&` (consuming the second `&`) or a background `&`, then skipWhitespace |
| Lexing.Lexer.AfterBackslash | oh/pkg/parser/lexer.go:369-378 | the fields and next state are AfterBackslashStep's: halt at end of input, else consume the escaped character and resume the saved state |
| Lexing.Lexer.AfterBang | oh/pkg/parser/lexer.go:380-398 | the fields and next state are AfterBangStep's: a double quote, `>` or pipe character is consumed and selects the bang string, bang-greater or pipe state; anything else is left for the symbol state |
| Lexing.Lexer.AfterBangGreater | oh/pkg/parser/lexer.go:400-413 | the fields and next state are AfterBangGreaterStep's: `!>` or `!>>` as a redirection |
| Lexing.Lexer.AfterColon | oh/pkg/parser/lexer.go:415-429 | the fields and next state are AfterColonStep's: `::` as Cons or a lone colon as punctuation |
| Lexing.Lexer.AfterGreaterThan | oh/pkg/parser/lexer.go:431-449 | the fields and next state are AfterGreaterThanStep's: `>(` as a substitution, `>` or `>>` as a redirection |
| Lexing.Lexer.AfterLessThan | oh/pkg/parser/lexer.go:451-467 | the fields and next state are AfterLessThanStep's: `<(` as a substitution or `<` as a redirection |
| Lexing.Lexer.AfterPipe | oh/pkg/parser/lexer.go:469-489 | the fields and next state are AfterPipeStep's: `+` is consumed into the pipe; a second pipe character is consumed as an or unless the item began with `!`; otherwise a pipe |
| Lexing.Lexer.SkipUntil | oh/pkg/parser/lexer.go:539-557 | the cursor moves to NextStop for the stop set |
| Lexing.Lexer.ScanBangString | oh/pkg/parser/lexer.go:491-506 | the fields and next state are ScanQuotedStep's for a bang string: emit through the closing quote, or save this state at an escape, or halt at end of input |
| Lexing.Lexer.ScanDoubleQuoted | oh/pkg/parser/lexer.go:508-523 | the fields and next state are ScanQuotedStep's for a double-quoted string |
| Lexing.Lexer.ScanSingleQuoted | oh/pkg/parser/lexer.go:525-537 | the fields and next state are ScanSingleQuotedStep's: read to the closing quote and emit through it; a backslash is ordinary text |
| Lexing.Lexer.ScanSymbol | oh/pkg/parser/lexer.go:539-558 | the fields and next state are ScanSymbolStep's: read to the first delimiter or escape, then EndSymbol |
| Lexing.Lexer.EndSymbol | oh/pkg/parser/lexer.go:543-553 | the fields and next state are EndSymbolStep's: a delimiter is left unread and the symbol emitted; an escape is consumed and this state saved |
| Lexing.Lexer.SkipComment | oh/pkg/parser/lexer.go:560-572 | the fields and next state are SkipCommentStep's: read through the newline and emit it |
| Lexing.Lexer.PassBlank | oh/pkg/parser/lexer.go:576-586 | one character that starts no token: single-character punctuation is emitted on its own, a blank is dropped |
| Lexing.Lexer.Blank | oh/pkg/parser/lexer.go:575-586 | one more round of the loop over a character that starts no token keeps the loop's invariant: the scan still stops at the same place, and the output is the emit of every single-character punctuation passed so far |
| Lexing.Lexer.SkipBlanks | oh/pkg/parser/lexer.go:575-586 | stops at the first character that starts a token; the output is the emit of every single-character punctuation passed |
| Lexing.Lexer.SkipWhitespace | oh/pkg/parser/lexer.go:574-614 | the fields and next state are SkipWhitespaceStep's: after the blanks and punctuation, the item starts at the first token character, which is consumed and selects the next state |
| Lexing.Lexer.Step | oh/pkg/parser/lexer.go:330-333 | the fields and next state are StepOf's for the given state |
| Lexing.Lexer.Run | oh/pkg/parser/lexer.go:329-335 | the fields and last state are RunFrom's; the machine stays valid, the queue only grows, and while alive the run ends at the end of the buffer |
| Lexing.Lexer.Item | oh/pkg/parser/lexer.go:282-284 | takes the oldest queued item, or nothing once the queue is empty, keeping the queue well formed |
| Lexing.Lexer.Feed | oh/pkg/parser/lexer.go:171-180 | counts the line, and scans its joined text (with a newline after an error, which also detaches the supplier) |
| Lexing.Lexer.Lex | oh/pkg/parser/lexer.go:148-184 | a queued item is handed out first without reading; otherwise the fields are AbsorbAll of the old fields over the replies read (every clean or failed line is joined, appended and scanned), and what is handed out is the first item that the last scan queued, which leaves the queue; Lex read on only after replies that were neither interrupts nor failures and queued nothing; the interrupt sentinel is returned exactly when the last reply read was an interrupt, and an item handed out is Fatal exactly then; the supplier stays attached exactly when it was and no reply read failed; nothing is returned only with an empty queue and no supplier or no replies left; one line is counted per clean or failed reply |
| Lexing.Lexer.Await | oh/pkg/parser/lexer.go:151-183 | with an empty queue, reads replies until an item is queued, an interrupt arrives, or the supplier or the replies run out; the fields are AbsorbAll of the old fields over the replies read and the item handed out is the head of the last scan's queue, with the other guarantees of Lex |
| Lexing.Lexer.Round | oh/pkg/parser/lexer.go:151-183 | one pass of the loop keeps Reading: from a state where no item is in hand and the supplier is attached, it reads exactly one more reply |
| Lexing.Lexer.Turn | oh/pkg/parser/lexer.go:152-181 | one reply is absorbed (Absorb) and then the head of the queue, if any, is taken; the sentinel is returned exactly for an interrupt, and an item taken is Fatal exactly then; the supplier detaches exactly on a failure |
| Lexing.Lexer.Answer | oh/pkg/parser/lexer.go:160-180 | an interrupt yields the sentinel and anything else nothing; the fields become Absorb of the old fields: an interrupt or a retry leaves them unchanged, while a clean or failed line is counted, joined (with a newline after a failure) and scanned; a failure detaches the supplier; the lexer stays valid |
| Cells.CellsFollowWords | oh/pkg/parser/lexer.go:250-267 | a lexer that owns its cells reads, after an item, exactly the stack UpdateFirst gives: overwriting the head cell in place, consing a cell and dropping the head cell agree with the value model |
| Cells.AllCellsFollowWords | oh/pkg/parser/lexer.go:250-267 | the same over any run of items, against UpdateAll |
| Cells.RunKeepsBelow | oh/pkg/parser/lexer.go:250-267 | a list whose cells all lie above an address never writes a cell below it, over any run of items |
| Cells.ProbeQueuesFoo | oh/pkg/parser/lexer.go:103-112 | the probe of a live lexer at a fresh command, scanning the line `foo` and a newline, queues exactly the symbol `foo` and a newline item |
| Cells.SharedFooWritesThrough | oh/pkg/parser/lexer.go:254-266 | as written: those items, written through a head cell the probe shares with the live lexer, make the live lexer read `foo` as its first word, and its own later `bar` is not recorded |
| Cells.SharedProbeWritesThrough | oh/pkg/parser/lexer.go:103-112 | as written: a probe sharing the live lexer's cells, at an empty first word, scans `foo` and a newline, writes `foo` into the live lexer's head cell, and a later `bar` scanned by the live lexer is then not recorded |
| Cells.CopiedProbeLeavesLive | oh/pkg/parser/lexer.go:103-118 | corrected: a probe with cells of its own leaves every live word unchanged, whatever it emits, and reads the stack UpdateAll gives |
| Lexing.Lexer.Detached | oh/pkg/parser/lexer.go:104-110 | the probe before it scans is a fresh valid lexer holding this lexer's machine, state, name and line count, with the supplier detached and an empty queue in place of the item channel, which Go replaces by a closed one |
| Lexing.Lexer.Partial | oh/pkg/parser/lexer.go:103-118 | a fresh valid probe without a supplier runs the machine over the unfinished item followed by the line; this lexer is untouched (the value copy is the corrected probe of Cells.CopiedProbeLeavesLive) |
| Lexing.Lexer.Interactive | oh/pkg/parser/lexer.go:138-142 | the first-word stack becomes a single empty word |
| Lexing.Lexer.Reset | oh/pkg/parser/lexer.go:186-190 | a tracked stack is reset to a single empty word; an untracked one stays untracked |

## Left out

- The scanner goroutine, the unbuffered item channel and the mutex. `Scan` runs the state machine to completion and queues its items in a sequence, which `Item` pops. Interleaving between the scanner and the parser is not modelled.
- The `alive` channel is a boolean. Nothing in this lexer closes it except `Error`.
- `Error` (lexer.go:122-126) resets the first-word stack, closes `alive` and panics, so it is not part of this model. The probe's `Error` override (lexer.go:120) does nothing.
- `First` (lexer.go:132-136) is a plain read of `first`, taken directly. `GetLexer` is a type assertion, and the probe's `Lex` (lexer.go:144-146) equals `Lexer.Lex` on a lexer without a supplier.
- The `deref` and `yield` callbacks are never called in this file, and the probe's `yield` replacement is not modelled.
- The line supplier becomes the `replies` parameter of `Lex`. Its answers are finite, so `Lex` also returns nothing when they run out; the real supplier would block.
- `system.ResetForegroundGroup` becomes the `Retry` reply. The `retries` counter is only ever reset or incremented, never read, so it is not modelled.
- UTF-8 decoding: the buffer is a sequence of characters, each of width 1. A byte-level `len(s) == 1` in the brace scan is read as one character.
- Lexing.Lexer.Partial: the Go probe copies the struct, so its `first` list shares its cells with the live lexer's, and a `SetCar` on the probe (lexer.go:256, 266) writes through to the live lexer's head word. `Lexer.Partial` copies values, which is the corrected behaviour; the write-through itself is modelled only in `Cells` (see "## Findings"). The probe also takes its own copy of the mutex, so its writes to the shared cells are not ordered with the live lexer's reads; the model has no concurrency.
- `CtrlCPressed` is compared by pointer in Go and by value here. The well-formedness invariant guarantees the scanner never queues an item of kind CtrlC, so the two comparisons agree on every item `Lex` hands out (Emission.WellFormedNotFatal).
- The scanning loops of scanBangString, scanDoubleQuoted, scanSingleQuoted, scanSymbol, skipComment and skipWhitespace are each written as a loop up to the stop character (`SkipUntil`, `SkipBlanks`), followed by that character's case. Each such loop ends where the Go loop leaves its `for`.
- liveCodingCapture.go is an unrelated script: it imports nothing from oh. oh/pkg/system/os_other.go is platform glue. Neither is part of this model.

## Findings

| source | as written | input that shows it | evidently intended | confidence | as-written member | corrected member |
|---|---|---|---|---|---|---|
| oh/pkg/parser/lexer.go:103-104, 254-257, 265-266 | `Partial` copies the lexer struct, so the probe's `first` points at the live lexer's cells, and the probe's `SetCar` overwrites the live lexer's head word | a live lexer at a fresh command (first words `[""]`) probes the line `foo` and a newline (a bare `foo` queues nothing, Machine.SymbolAtEndWaits): its own head word becomes `foo`, and when it then scans `bar` it does not record `bar` | the probe leaves the live lexer alone, as `Partial` does for the input and the item channel, which it replaces | medium, not executed | Cells.SharedProbeWritesThrough | Cells.CopiedProbeLeavesLive |
