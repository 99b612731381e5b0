# isiki OS: a model of its evaluator, reader, terminal, processes, disassembler and file I/O

isiki OS is a small x86-64 operating system with an ISLISP system at its core. This project models the parts of
its C sources in which state, recursion and fixed buffers meet, and proves what they promise.

- **Evaluator** (`Lisp`, `Eval`, `Machine`, `Adequacy`, `Discipline`, `Aborts`, `Tameness`, `Cleanup`, `TopLevel`,
  `Departures`, `Quasiquote`, `Interpreter`, `Bindings`). `return-from`, `throw` and `go` are values that every step of the
  evaluator has to notice and pass up. `Eval` is that evaluator, `Interpreter` the same with environments and the
  live-block list updated in place, and `Machine` an abstract machine with a continuation stack that jumps straight
  to the handling frame, in two dialects: what eval.c does and what ISLISP asks for (section 14.7 of the ISLISP
  Working Draft 23). The two dialects differ in four kinds of steps; the exact condition is proved, and each has a
  program that shows it. Two of them put an exit where a value belongs; nothing else does. `Tameness` tells from a
  program's text and its store that none occurs. `TopLevel` says what all this means for os_eval_top_level_ex.
- **Terminal** (`Display`, `Console`, `FrameBuffer`, `Screens`, `TextLines`). Four virtual buffers with ring histories on one
  screen, drawn incrementally, against terminals that append rows to a list and redraw everything; what these show
  is told from the text alone.
- **Reader and printer** (`Numerals`, `Limbs`, `Syntax`, `Grammar`, `RoundTrip`, `DataRoundTrip`, `Spellings`,
  `Printer`, `Format`, `Reader`). The recursive-descent reader with one character of lookahead and its fixed token and limb
  buffers is proved against a grammar, the printer against a text, and the grammar undoes the text and every other
  way to write a datum: abbreviations, comments, either case.
- **Stack guards and scheduler** (`StackGuards`, `Scheduler`). Page tables are split and cleared in place; the
  processor's walk over them says what that means. A timer tick saves a context on one stack and loads the next.
- **Disassembler** (`X86`, `Encoder`, `Listing`, `Assembly`, `Disassembler`). The decoder over arbitrary bytes, an
  encoder that it inverts, the bounds of its text buffers, and a parser that reads the listing back.
- **Files and devices** (`Files`, `Streams`, `Mount`, `Fat16`, `Formatter`, `Virtqueue`). Buffered 9P streams over
  one receive buffer, path resolution, the FAT16 cluster reader and a formatter it inverts, and the virtqueue in
  shared memory.

`dafny verify dfyconfig.toml` checks everything. Devices, servers and the scheduling of interrupts are parameters
or arbitrary choices in the methods that stand for them.

Where the code and its purpose differ, the model follows the code and the exact condition is proved: the four
departures of the evaluator from ISLISP (`Discipline.StepsAgreeIff`) and the two of them that store an exit
(`Discipline.StepSoundIff`), tokens and strings that do not fit their buffers, bignums written in another radix
than ten, dimensions below an empty one, the PAT bit of split pages
(`StackGuards.PageTables.InstallStackGuards`), `set-file-position` on a stream with pending output, files whose
size does not round up within 32 bits, operand sizes that a listing does not show (`Assembly.HidesIff`), a comma in
front of an at sign, a virtqueue of one entry, and requests given up by a timeout.

## Model

| member | source | states |
|---|---|---|
| `Adequacy.EvaluatorIsTheMachine` | `src/c/eval.c:1157-1321` | for every form, environment and store: the evaluator that passes exits up as return values finishes with a value and a store, for some fuel, if and only if the machine with an explicit continuation stack, which jumps straight to the handling frame, halts with the same value and store |
| `Adequacy.TopLevelHalts` | `src/c/eval.c:1287-1321` | a finished top-level evaluation is a halting run with the same result and final store; running out of fuel f means that the machine is still running after at least f steps |
| `Adequacy.FuelDoesNotMatter` | `src/c/eval.c:1157-1272` | two evaluations that both finish give the same value and final state, whatever their fuel |
| `Adequacy.SimEval` | `src/c/eval.c:1157-1272` | every evaluation, in front of any stack, is a run of the machine that hands the same value or exit to that stack with the same store |
| `Adequacy.SimTemplate` | `src/c/eval.c:811-857` | qq_expand computes what the cons/append program that the template compiles to computes, unquotes evaluated at the outermost level only |
| `Adequacy.SimUnwindProtect` | `src/c/eval.c:938-953` | unwind-protect runs its cleanup after the protected form, whatever that gave; the outcome is the protected one, the cleanup's exit, or a control error when both are exits |
| `Adequacy.SimTagbody` | `src/c/eval.c:1032-1066` | the loop over list positions behaves as the label machine that counts forms |
| `Adequacy.SimGo` | `src/c/eval.c:1040-1062` | an exit out of a tagbody form resumes behind the own label it names, forwards or backwards; any other goes on |
| `Adequacy.FindTagIsLabel` | `src/c/eval.c:1046-1057` | the scan for a tag finds exactly what follows the first occurrence of the label, or nothing if there is none |
| `Machine.HaltIsUnique` | `src/c/eval.c:1157-1272` | a run halts in one configuration only |
| `Discipline.StepsAgreeIff` | `src/c/eval.c:217-233` | eval.c and ISLISP take the same step if and only if the step does not slip: no exit at an operator position or in a quasiquote, no exit stopped by a block named like its catch or go tag, no instance as the value of a tagbody form |
| `Discipline.JumpsAgreeIff` | `src/c/eval.c:877-897` | an exit lands in the same frame under both readings if and only if it meets none of the frames above |
| `Discipline.NoSlipAgrees` | `src/c/eval.c:1157-1272` | a run without slips is a run of the ISLISP machine |
| `Discipline.StepSound` | `src/c/eval.c:28-71` | every step of the ISLISP machine keeps exits out of variables, argument lists, closures and frames, and every block exit on its way aims at a block that is on the stack |
| `Discipline.StepSoundIff` | `src/c/eval.c:28-71` | a step of eval.c keeps exits out of all of these if and only if it does not leak: no exit on its way passes an operator position or a template before the block, catch, tagbody or cleanup that stops it |
| `Discipline.JumpSoundIff` | `src/c/eval.c:877-897` | the same of a jump: what it leaves behind is sound if and only if it meets no operator position and no template on its way |
| `Discipline.RunSound` | `src/c/eval.c:907-925` | in every run of the ISLISP machine a block exit is only ever produced for a live block |
| `Discipline.RunSoundIff` | `src/c/eval.c:907-925` | the same holds at every moment of a run of eval.c if and only if none of its steps leaks |
| `TopLevel.TightEvaluation` | `src/c/eval.c:1287-1321` | whenever no step leaks, os_eval_top_level_ex never returns a block exit and leaves no exit anywhere in the store; its result holds one only if it is an uncaught throw or go itself |
| `TopLevel.CleanEvaluation` | `src/c/eval.c:1287-1321` | whenever no step slips, it also returns exactly what the ISLISP machine computes |
| `TopLevel.TameProgramsAgree` | `src/c/eval.c:1157-1321` | a criterion that can be checked before the call, on the text of the program and on the store it starts in: when operators are symbols or lambda forms, the unquotes of templates are literals, quotations or parameters of the functions around them, block names are kept apart from catch and go tags, the forms of a tagbody (assignments, definitions, conditionals and exits among them) give no instances, there are no macros, and the bindings of the store are of this kind too, then eval.c computes a value and a store if and only if ISLISP does, never returns a block exit and stores none |
| `Tameness.StepTame` | `src/c/eval.c:1157-1272` | every step from such a configuration does not slip and leads to one again, in which more variables may be bound |
| `Tameness.LookupTame` | `src/c/eval.c:1171-1172` | a parameter of a function around an unquote is bound when the unquote is evaluated, so that looking it up cannot exit |
| `Tameness.JumpTame` | `src/c/eval.c:877-1066` | no exit of such a program meets a frame that mistakes it, also after control errors raised by cleanups |
| `TopLevel.AbortedIff` | `src/c/eval.c:1287-1321` | out_aborted is set if and only if some step of the form's run jumps to the frame of the block %TOP-LEVEL with a block exit |
| `TopLevel.AbortedCarries` | `src/c/eval.c:1287-1321` | that step is the last one, and the result is what its exit carried |
| `Cleanup.CleanupsRunExactlyOnce` | `src/c/eval.c:938-953` | in every finished run each cleanup is started as often as its unwind-protect was entered, innermost first |
| `Cleanup.RunReplays` | `src/c/eval.c:938-953` | at every moment of every run the cleanups still owed are those of the frames on the stack: none was skipped, repeated or started out of turn |
| `TopLevel.EvaluationCleansUp` | `src/c/eval.c:938-953` | the same of every finished evaluation of the evaluator |
| `Cleanup.JumpReplays` | `src/c/eval.c:938-953` | a jump starts at most one cleanup, the innermost one owed, and skips none |
| `Cleanup.JumpStartsCleanup` | `src/c/eval.c:938-953` | when a jump starts a cleanup, its forms run with the exit waiting below them |
| `Cleanup.ReplayBalances` | `src/c/eval.c:938-953` | owed before plus entered equals owed after plus started, for each cleanup |
| `Departures.OperatorExit` | `src/c/eval.c:217-233` | (block b ((return-from b 7))) gives 7 in ISLISP and an error about a non-function in eval.c |
| `Departures.UnquotedExit` | `src/c/eval.c:830-856` | (block b `(,(return-from b 7))) gives 7 in ISLISP and a list holding the exit in eval.c |
| `Departures.ExitIsStored` | `src/c/eval.c:830-856` | that run leaks: an exit lies inside a list, which is no exit to any test |
| `Departures.ThrowToBlock` | `src/c/eval.c:890-895` | (block b (throw 'b 7)) is stopped by the block in eval.c and by nothing in ISLISP |
| `Departures.InstanceInTagbody` | `src/c/eval.c:1044-1062` | a tagbody form that yields a function object ends the tagbody in eval.c; in ISLISP the tagbody gives nil |
| `Departures.OrderlyIsTame` | `src/c/eval.c:938-1007` | a function whose return-from, with a template around its parameter, crosses a throw, a catch and an unwind-protect with an assignment in a tagbody meets the criterion of Tameness: none of these alone is a departure |
| `Quasiquote.ExpansionFills` | `src/c/eval.c:811-857` | every expansion that returns has evaluated the unquotes of the outermost level, each once and from left to right, and is the template with their values in their places |
| `Quasiquote.AppendIsConcatenation` | `src/c/eval.c:783-790` | qq_append is concatenation if and only if its first argument is a proper list |
| `Quasiquote.NothingToFill` | `src/c/eval.c:811-857` | a template without outermost unquotes is rebuilt as it was written, deeper quasiquote and unquote forms included, if and only if those have one operand each |
| `Quasiquote.QuotedTemplateIsRebuilt` | `src/c/eval.c:811-857` | the same of the expansion itself, which then only allocates |
| `Eval.OsEval` | `src/c/eval.c:1157-1272` | the live-block list after every evaluation is the one before, whatever the outcome |
| `Eval.EvalBlock` | `src/c/eval.c:877-897` | a block takes itself off the live-block list however its body ends |
| `Interpreter.Evaluator.OsEval` | `src/c/eval.c:1157-1272` | the method that updates environments, dynamic variables and the live-block list in place yields exactly the outcome and the state that Eval.OsEval gives |
| `Interpreter.Evaluator.FindVariable` | `src/c/runtime.c:4100-4150` | the walk up the environments finds the innermost frame that binds the symbol |
| `Interpreter.Evaluator.EvalProgn` | `src/c/eval.c:59-71` | the same for the loop over a body |
| `Interpreter.Evaluator.BindParams` | `src/c/eval.c:100-132` | the loop over parameters with &rest, in place, does what the recursive definition does; Bindings.ParametersBind and Bindings.RestParameterBinds say which argument each parameter gets |
| `Interpreter.Evaluator.EvalLocalFunctions` | `src/c/eval.c:625-694` | the same for the binding loops of flet and labels |
| `Interpreter.Evaluator.EvalTagbody` | `src/c/eval.c:1032-1066` | the loop of tagbody with its inner scan for a tag does what the recursive definition does |
| `Interpreter.Evaluator.EvalTopLevel` | `src/c/eval.c:1287-1321` | the same for os_eval_top_level_ex and its aborted flag |
| `Bindings.ParametersBind` | `src/c/eval.c:100-132` | without &rest a call fits if and only if there are as many arguments as parameters; then parameter k has argument k, the last of equal names counting, and no other variable and no other environment changes |
| `Bindings.RestParameterBinds` | `src/c/eval.c:107-117` | with &rest at place n a call fits if and only if there are at least n arguments; the first n parameters have theirs, the variable behind &rest has the n-th cdr of the argument list, and nothing else changes |
| `Bindings.CallGivesArgument` | `src/c/eval.c:141-193` | calling a function whose body is its k-th parameter gives the k-th argument, or an arity error if the numbers differ |
| `Bindings.CallGivesRest` | `src/c/eval.c:141-193` | calling a function whose body is its rest parameter gives the arguments from there on |
| `Bindings.LookedUpInsideOut` | `src/c/runtime.c:4100-4200` | a variable and a function are those of the first environment that binds them, from the inside out, and a definition goes to the first one that is no call frame |
| `Bindings.ConstantWhereMarked` | `src/c/runtime.c:4773-4800` | a name becomes constant exactly where the environment it is defined in is visible |
| `Bindings.AssignmentIsSeen` | `src/c/runtime.c:5812-5836` | setq gives the variable its value in every environment that sees the same binding and in no other, and changes no other variable |
| `Bindings.LocalsBind` | `src/c/eval.c:625-694` | flet and labels bind each name to its own parameters and body, the last of equal names counting |
| `Bindings.LocalScopes` | `src/c/eval.c:625-694` | a local function closes over the new scope in labels and over the surrounding one in flet |
| `Bindings.DefinitionsOutliveCalls` | `src/c/runtime.c:5907-5930` | a definition made during a call goes where one beside the function would go |
| `Bindings.DefinitionIsMade` | `src/c/eval.c:441-520` | defun and defmacro give the name its own parameters and body in the scope of the definition |
| `Bindings.DynamicKeeps` | `src/c/runtime.c:4824-4860` | a dynamic variable keeps what it was given until it is given something else, and no other one changes |
| `Screens.VirtualScreens.Run` | `src/c/framebuffer.c:305-340` | for any run of output to any of the four buffers, scrolling and switching, the physical screen, drawn incrementally, equals a full redraw of the simple terminal in view, and every buffer is the terminal the run gives |
| `Screens.VirtualScreens.constructor` | `src/c/framebuffer.c:436-480` | the buffers get disjoint blocks of the one content area and start as blank terminals |
| `Screens.VirtualScreens.WriteChar` | `src/c/framebuffer.c:305-340` | output to one buffer changes the picture only if that buffer is in view, and no other buffer |
| `Screens.VirtualScreens.ScrollActive` | `src/c/framebuffer.c:249-265` | scrolling moves the window of the buffer in view within the kept rows and redraws it |
| `Screens.VirtualScreens.ScrollToBottom` | `src/c/framebuffer.c:267-275` | the view returns to the bottom; the result says whether it had been elsewhere |
| `Screens.VirtualScreens.SwitchTo` | `src/c/framebuffer.c:408-414` | the other buffer comes into view by a full redraw; an index out of range changes nothing |
| `Screens.BuffersAreIndependent` | `src/c/framebuffer.c:305-340` | after any run the text of a buffer is what writing its own characters alone gives |
| `Screens.WrittenRowsStay` | `src/c/framebuffer.c:163-186` | output adds at most one row, never changes the rows above the cursor, and all rows are kept until the history is full |
| `Screens.EffectiveHistRows` | `src/c/framebuffer.c:416-419` | the history is never smaller than one screenful |
| `TextLines.TextIsItsLines` | `src/c/framebuffer.c:287-340` | what any text leaves on any terminal, said from the text alone: from the cursor on the rows are its lines, cut at each newline and after every full row, the first one behind what was there, each padded with blanks; the cursor stands behind the last, unfinished line; rows are added only as the lines need them |
| `TextLines.LinesJoin` | `src/c/framebuffer.c:287-340` | those lines one after another are the text without its newlines |
| `TextLines.EachBufferShowsItsLines` | `src/c/framebuffer.c:305-340` | after any run over the four buffers each of them shows the lines of what was written to it |
| `FrameBuffer.VirtualBuffer.WriteChar` | `src/c/framebuffer.c:305-340` | write_char on the ring is Write on the unbounded list of rows; the screen, if in view, shows the result; nothing outside the buffer's own block of cells changes |
| `FrameBuffer.VirtualBuffer.ContentScrollUp` | `src/c/framebuffer.c:163-170` | the ring gains a blank row and, when full, loses its oldest: it holds the last rows of the list |
| `FrameBuffer.VirtualBuffer.ContentPut` | `src/c/framebuffer.c:179-186` | a character lands in the last screenful of the list, or nowhere if outside it |
| `FrameBuffer.VirtualBuffer.VisibleRow` | `src/c/framebuffer.c:148-155` | the ring row at a screen row is the list's row in the window shifted by the view offset |
| `FrameBuffer.VirtualBuffer.Newline` | `src/c/framebuffer.c:287-297` | the cursor begins a new row, and at the bottom the content and the picture move up together; TextLines.TextIsItsLines says where the text then goes on |
| `FrameBuffer.VirtualBuffer.ScrollScreen` | `src/c/framebuffer.c:105-118` | moving the pixels up by one line shows the terminal with one more row |
| `FrameBuffer.VirtualBuffer.Render` | `src/c/framebuffer.c:371-393` | the full redraw: text, and the cursor or the scroll indicator |
| `FrameBuffer.VirtualBuffer.ScrollBy` | `src/c/framebuffer.c:249-265` | os_vbuf_scroll clamps the offset and redraws only if it moved |
| `FrameBuffer.VirtualBuffer.DrawScrollIndicator` | `src/c/framebuffer.c:218-247` | the indicator covers the last line on the screen and never enters the content |
| `FrameBuffer.VirtualBuffer.IndicatorText` | `src/c/framebuffer.c:194-247` | the indicator's text, which always fits the 64-byte buffer |
| `FrameBuffer.GrowRing` | `src/c/framebuffer.c:163-170` | a ring with room holds one row more, in the next free slot |
| `FrameBuffer.TurnRing` | `src/c/framebuffer.c:163-170` | a full ring drops its oldest row and turns by one |
| `FrameBuffer.UpdateRing` | `src/c/framebuffer.c:131-142` | changing a ring row changes the row of the list it holds and no other |
| `Console.Terminal.WriteOk` | `src/c/framebuffer.c:287-340` | the cells at and behind the cursor stay blank, the cursor stays on the screen, and rows <= kept <= capacity and 0 <= offset <= kept - rows go on holding |
| `Console.CursorCellIsBlank` | `src/c/framebuffer.c:71-99` | erasing the cursor block leaves the plain text, since the cell under it is blank |
| `Console.PutChangesOneCell` | `src/c/framebuffer.c:50-64` | drawing a glyph over a blank cell is redrawing the text with that character in it |
| `Console.ScrolledText` | `src/c/framebuffer.c:105-118` | moving the picture up is redrawing after a row was appended, also when the height is not a whole number of lines |
| `Console.ScrollsIntoThePast` | `src/c/framebuffer.c:249-265` | scrolling by a negative number moves the text down by as many rows, and stops with the oldest row kept at the top |
| `Console.ScrollsForward` | `src/c/framebuffer.c:249-265` | scrolling by a positive number moves it up, and stops with the newest row at the bottom |
| `Console.IndicatorTells` | `src/c/framebuffer.c:194-230` | the indicator reads "-- SCROLL ", the offset, a slash, the largest offset and " --" |
| `Console.DigitsRead` | `src/c/framebuffer.c:194-208` | its numbers are decimal, the first digit first and without leading zeros |
| `Display.Screen.DrawChar` | `src/c/framebuffer.c:50-64` | only the lit pixels of the glyph are written |
| `Display.Screen.ScrollUp` | `src/c/framebuffer.c:105-118` | every pixel comes from one text line below, in place; the freed lines are blank |
| `DataRoundTrip.ReadPrinted` | `src/c/reader.c:748-882` | printing and then reading is the identity on nested data: integers and symbols that fit, NUL-free strings up to 127 bytes, all characters, proper and dotted lists, vectors and arrays, whatever delimited text follows |
| `DataRoundTrip.ReadPrintedTail` | `src/c/print.c:343-361` | the same of the rest of a list, dotted or not |
| `DataRoundTrip.ArrayReads` | `src/c/print.c:372-418` | of an array of readable elements the elements come back, with every dimension below an empty one read as zero |
| `DataRoundTrip.FormsReadBack` | `src/c/reader.c:917-943` | data printed one after the other with blank gaps, or none before a delimiter, are read back as exactly those data |
| `Spellings.AbbreviationReads` | `src/c/reader.c:748-882` | the same with every quotation at every depth, also inside lists and arrays, abbreviated to its quote, backquote, comma, comma at or sharp quote |
| `Spellings.SpellingReads` | `src/c/reader.c:748-882` | any spelling of a datum is read as it: prefixes for quotations, any blanks and comments between prefix and expression, elements, dots and parentheses, names in either case, signs, leading zeros and radix prefixes, needless backslashes, vectors and arrays |
| `Spellings.AbbreviationMeans` | `src/c/reader.c:748-882` | the abbreviated form of a datum is such a spelling of it |
| `Spellings.UnquoteReadsIff` | `src/c/reader.c:788-804` | a comma directly in front of an expression unquotes it if and only if the expression does not begin with an at sign |
| `Spellings.WrittenBefore` | `src/c/reader.c:748-882` | a spelling in front of a text is its own characters followed by that text |
| `RoundTrip.IntReadsBackIff` | `src/c/reader.c:542-615` | an integer is read back if and only if its text has at most 127 characters |
| `RoundTrip.StrReadsBackIff` | `src/c/reader.c:336-360` | a string is read back if and only if it has at most 127 bytes and no NUL |
| `RoundTrip.CharReads` | `src/c/reader.c:715-741` | every character is read back, named ones included |
| `RoundTrip.NameReadsBackIff` | `src/c/reader.c:542-615` | a symbol whose name can start an expression is read back if and only if its name is one upper-case token that is no number and fits the buffer |
| `Grammar.ExprSuffix` | `src/c/reader.c:748-882` | what is left after reading an expression is a proper suffix of the text |
| `Reader.Source.ReadExpr` | `src/c/reader.c:748-882` | the reader with its one-character lookahead and fixed buffers reads what the grammar says and leaves the rest unread; Spellings.SpellingReads says what the grammar makes of each prefix |
| `Reader.Source.ReadList` | `src/c/reader.c:302-328` | the same for lists |
| `Reader.Source.ReadListRest` | `src/c/reader.c:253-295` | the same for the rest of a list and dotted tails |
| `Reader.Source.ReadString` | `src/c/reader.c:336-360` | the same for strings: backslashes taken off, what does not fit the buffer dropped |
| `Reader.Source.ReadAtom` | `src/c/reader.c:542-615` | the same for atoms |
| `Reader.Source.ReadRadixInteger` | `src/c/reader.c:647-678` | the same for #b, #o and #x |
| `Reader.Source.ReadCharLiteral` | `src/c/reader.c:715-741` | the same for character literals |
| `Reader.Source.SkipWhitespace` | `src/c/reader.c:211-225` | the same for blanks and comments |
| `Reader.Read` | `src/c/stream_lisp.c:264-295` | one expression is read and the pending character goes back: what is left is exactly what the grammar left; end of stream if and only if only blanks and comments remained |
| `Reader.ReadEvery` | `src/c/stream_lisp.c:264-295` | reading until the end of a stream gives the forms of its text, none lost between calls |
| `Reader.SixteenLimbs` | `src/c/reader.c:362-367` | sixteen 32-bit limbs hold every 127-digit token in any radix up to 16 |
| `Reader.Accumulate` | `src/c/reader.c:647-678` | the digit loop over the limb array gives the value of the digits, or fails at the first character that is none |
| `Numerals.DigitsRead` | `src/c/format.c:39-63` | the digits of a number in a radix read as that number |
| `Numerals.DigitCount` | `src/c/print.c:23-37` | k digits are enough if and only if the number is below radix to the k |
| `Numerals.ValueBound` | `src/c/reader.c:625-637` | n digits give a number below radix to the n |
| `Limbs.MulSmallAddSmall` | `src/c/runtime.c:6280-6294` | in place and within the array: the limbs become magnitude times factor plus addend |
| `Limbs.DivmodSmall` | `src/c/runtime.c:6301-6310` | in place: the limbs become the quotient, the remainder is returned |
| `Limbs.EffectiveLength` | `src/c/runtime.c:6153-6158` | leading zero limbs are not counted |
| `Printer.PrintFixnum` | `src/c/print.c:23-37` | the decimal digits, from a buffer of twenty, which is enough for 64 bits |
| `Printer.PrintBignum` | `src/c/print.c:45-79` | the decimal digits of the limbs, by repeated division; the loop ends and ten digits per limb are enough |
| `Printer.TenDigitsPerLimb` | `src/c/print.c:45-79` | ten decimal digits per limb hold every magnitude |
| `Printer.PrintString` | `src/c/print.c:318-335` | quotes and backslashes are escaped |
| `Printer.PrintValue` | `src/c/print.c:426-505` | the characters pushed to the sink are the text of the datum |
| `Printer.PrintList` | `src/c/print.c:343-361` | the loop over a list prints its elements and a dotted tail |
| `Printer.PrintArrayLevel` | `src/c/print.c:372-387` | the recursion over dimensions prints every element once, in row-major order, and returns the position behind them |
| `Printer.PrintArray` | `src/c/print.c:389-418` | the prefix of rank and the nested elements |
| `Syntax.VolumeIsProduct` | `src/c/print.c:372-387` | an array shows as many elements as the product of its dimensions |
| `Format.FormatIntegerWrite` | `src/c/format.c:39-63` | for every radix from 2: the digits in the radix for a fixnum; decimal for a bignum, whatever the radix |
| `Format.SixtyFourDigits` | `src/c/format.c:39-63` | 64 digits hold every fixnum magnitude in every radix from 2 |
| `Format.RadixReadsBackIff` | `src/c/format.c:39-63` | what is written in radix 2, 8 or 16 is read back by #b, #o or #x, whatever delimited text follows, if and only if the integer is a fixnum; a bignum, written in decimal and perhaps cut to the token buffer, never is |
| `Format.FixnumRoundTrip` | `src/c/format.c:39-63` | fixnums written in radix 2, 8 and 16 come back through #b, #o and #x |
| `StackGuards.PageTables.InstallStackGuards` | `src/c/process.c:132-146` | every page of a guard is unmapped; any other page keeps its whole mapping if and only if it was not a page with a PAT bit inside a large page that the first or the last page of the stack area lies in, and otherwise loses that bit alone; no directory entry but these two changes, and at most two of the eight pool tables are used |
| `StackGuards.BitIsLost` | `src/c/process.c:95-117` | an address space with a page outside the guards that meets the condition for losing the bit |
| `StackGuards.LoseBit` | `src/c/process.c:132-146` | installing the guards there leaves that page mapped to the same frame without its PAT bit |
| `StackGuards.GuardsAndStacks` | `src/c/process.c:50-63` | the guard pages are those of the five guards, and no stack page is one |
| `StackGuards.PageTables.PdEntryFor` | `src/c/process.c:81-92` | the directory entry the processor would use, if there is one |
| `StackGuards.PageTables.EnsureTable` | `src/c/process.c:95-117` | afterwards the page lies in a 4KB table; a large page is split into 512 pages that map what it mapped, from the pool |
| `StackGuards.PageTables.UnmapRange` | `src/c/process.c:120-128` | exactly the pages of the range are unmapped |
| `StackGuards.Space.SplitWalks` | `src/c/process.c:95-117` | splitting a large page that maps itself changes no translation and no flag but the PAT bit |
| `StackGuards.Space.ClearWalks` | `src/c/process.c:120-128` | clearing one present bit unmaps one page and no other |
| `StackGuards.Space.UnusedWrite` | `src/c/process.c:95-117` | filling a table before it is linked in changes no translation |
| `StackGuards.GuardIsUpper` | `src/c/process.c:175-185` | true if and only if the address lies in the guard above the stack that the stack pointer is on |
| `StackGuards.SidesToldApart` | `src/c/process.c:175-185` | a fault next to a stack is told to be above it exactly when it is in the upper guard |
| `Scheduler.Machine.TakeTurns` | `src/c/interrupt.c:560-571` | over any number of ticks the processes run in the order of the cycle, and each resumes with the very context its own last turn ended with, or the one spawn or the last tick before had left it |
| `Scheduler.Machine.Boot` | `src/c/process.c:388-400` | from process_scheduler_start on, over any number of ticks, the first one included, which suspends nobody: tick t resumes the process with number 0, n-1, ..., 1 and so on in turn, in the first round with its start context and from then on with what its own last turn ended with |
| `Scheduler.EachOnce` | `src/c/interrupt.c:560-571` | any n consecutive ticks, from any point of a run, reach each of the n processes exactly once |
| `Scheduler.Machine.Tick` | `src/c/interrupt.c:445-501` | one timer interrupt suspends the running process as it is and resumes its successor as it was suspended |
| `Scheduler.Machine.Suspend` | `src/c/interrupt.c:445-566` | the frame and FXSAVE area of the running process are saved below its stack pointer and no other process's saved frame is touched |
| `Scheduler.Machine.Compute` | `src/c/interrupt.c:445-501` | whatever the running process does to its own stack and to other memory, the waiting processes can be resumed as they were |
| `Scheduler.Machine.Enqueue` | `src/c/process.c:328-382` | the run queue stays a single cycle, with the new cell behind the first |
| `Scheduler.Machine.Spawn` | `src/c/process.c:328-382` | a new process waits with its start context on its own stack; the others wait as before |
| `Scheduler.Machine.Start` | `src/c/process.c:388-400` | all processes are in the queue once, in the order 0, n-1, ..., 1 |
| `Scheduler.SavedIsLoaded` | `src/c/interrupt.c:445-501` | what is saved is loaded back: both sides compute the same 16-aligned FXSAVE area |
| `Scheduler.FxAreaFits` | `src/c/interrupt.c:445-501` | that area is aligned, below the saved registers and inside the room made for it |
| `Scheduler.FrameIsAligned` | `src/c/interrupt.c:445-501` | the frame ends at the last multiple of 16 not above the interrupted stack pointer |
| `Scheduler.FramesAreMapped` | `src/c/process.c:328-382` | no saved frame and no FXSAVE area touches a guard page |
| `Scheduler.SamePlace` | `src/c/interrupt.c:560-571` | after as many ticks as there are processes the same one runs again |
| `Scheduler.StartRegisters` | `src/c/process.c:340-348` | popping the registers in the order of the timer handler from the frame of a new process gives its number in rdi and 0 in every other one |
| `Scheduler.StartsAtTrampoline` | `src/c/process.c:360-365` | what iretq takes off the stack behind them is the trampoline, the code segment, flags with interrupts on, a stack pointer in the process's own stack and the stack segment |
| `Encoder.DecodingInvertsEncoding` | `src/c/disasm.c:375-680` | any supported instruction with any registers, addressing form and displacement, encoded with at most one REX prefix, is decoded again with its length at any position that is not taken as an embedded string |
| `Encoder.RmReads` | `src/c/disasm.c:207-286` | decoding an encoded ModRM operand gives back the operand, the register and the position behind it |
| `Encoder.SibReads` | `src/c/disasm.c:207-286` | the same for a SIB byte and displacement with a base register |
| `Encoder.BareSibReads` | `src/c/disasm.c:207-286` | the same without one |
| `Encoder.PrefixReads` | `src/c/disasm.c:413-420` | at most one prefix is found in front of the opcode, with its bits |
| `Encoder.LittleReads` | `src/c/disasm.c:176-198` | a little-endian number reads as that number |
| `Listing.EncodedLine` | `src/c/disasm.c:375-680` | the line of an encoded instruction: the instruction, its length, its whole operand text and its branch target |
| `Listing.OperandsFit` | `src/c/disasm.c:25-46` | no operand text of a supported instruction is ever truncated |
| `Listing.MnemonicsFit` | `src/c/disasm.c:25-46` | no mnemonic is ever truncated |
| `Listing.EncodedText` | `src/c/disasm.c:375-680` | with the register names of the processor: mnemonic and operands of an encoded instruction are whole and as they are spelt |
| `Listing.RmFits` | `src/c/disasm.c:207-286` | the text of any memory or register operand fits its own buffer |
| `Listing.EmbeddedFoundIff` | `src/c/disasm.c:321-349` | a printable text and its NUL behind a jump over them are taken as data if and only if they are not too long |
| `Listing.DataWholeIff` | `src/c/disasm.c:380-402` | the text of an embedded string is whole if and only if it fits the operand buffer |
| `Listing.SweepCovers` | `src/c/disasm.c:375-680` | whatever the bytes are, a sweep goes through all of them, each in exactly one item |
| `Assembly.ListingReads` | `src/c/disasm.c:375-680` | a parser of mnemonics and operands, destination first, with tables of its own, gives back every encodable instruction from its listing, up to encodings that mean the same and to what is not shown |
| `Assembly.SameListingIff` | `src/c/disasm.c:375-680` | two instructions are listed alike if and only if no more than that tells them apart |
| `Assembly.HidesIff` | `src/c/disasm.c:375-680` | a listing fits instructions that mean different things if and only if it is that of movzx or movsx, of an operation on memory with an immediate or without a register beside it, which does not show its size, or of F7 /1 and /7, both listed as idiv |
| `Assembly.StoreSizeIsHidden` | `src/c/disasm.c:495-502` | for example C7 03 05 00 00 00 and 48 C7 03 05 00 00 00, which store four and eight bytes |
| `Assembly.StoreBytes` | `src/c/disasm.c:495-502` | these are their encodings |
| `Assembly.TargetIsTold` | `src/c/disasm.c:295-311` | the address of a line is the one its operands tell of: a branch is shown by its place if that lies in the code or right behind it and else by its distance |
| `Assembly.DataReads` | `src/c/disasm.c:380-402` | the text of an embedded string gives back its bytes |
| `Assembly.BadByteReads` | `src/c/disasm.c:360-373` | a byte that is neither is listed as (bad) with its value |
| `Disassembler.DisassembleItem` | `src/c/disasm.c:375-680` | the cursor and the text builder produce the length, mnemonic, operand text and target that the specification gives, for arbitrary bytes; Assembly.ListingReads reads the instruction back from them |
| `Disassembler.DecodeModRm` | `src/c/disasm.c:207-286` | the decoder over the cursor agrees with the specification, truncation included |
| `Disassembler.EmbeddedString` | `src/c/disasm.c:321-349` | the length of the embedded string that starts here, 0 if none does |
| `Disassembler.BranchText` | `src/c/disasm.c:295-311` | the target of a branch, or its distance when it leaves the code |
| `Disassembler.Cursor.U8` | `src/c/disasm.c:176-182` | a byte, or truncation at the end of the code |
| `Disassembler.Cursor.Little` | `src/c/disasm.c:184-198` | the same for numbers |
| `Disassembler.TextBuilder.Char` | `src/c/disasm.c:34-40` | what fits is kept, the rest is dropped |
| `Disassembler.TextBuilder.HexNumber` | `src/c/disasm.c:49-65` | hexadecimal digits without leading zeros |
| `Disassembler.TextBuilder.Disp` | `src/c/disasm.c:98-109` | a signed displacement |
| `Streams.OpenFiles.Run` | `src/c/stream.c:359-550` | for any number of streams on files of their own, any interleaving of reads, previews, writes, flushes, closings and repositionings over the one receive buffer, and any chunk lengths, the answers and the files are those of unbuffered files |
| `Files.StreamsAreIndependent` | `src/c/stream.c:379-397` | in any interleaving each stream answers as if it were alone |
| `Files.ReadsInOrder` | `src/c/stream.c:359-404` | reads from a position give the rest of the file in order, then the end |
| `Files.MovedReads` | `src/c/stream_lisp.c:652-670` | after a move the position is its magnitude, and what is read is the file from there on |
| `Files.PreviewReadsAhead` | `src/c/stream.c:447-460` | a preview gives what the next read gives and changes nothing else |
| `Files.WritesInOrder` | `src/c/stream.c:471-495` | bytes written one after another are the content from there on; each is accepted |
| `Files.WrittenReadsBack` | `src/c/stream.c:527-550` | a file written byte by byte and closed reads back as those bytes |
| `Files.OverlayMore` | `src/c/virtio9p.c:258-271` | writing in two pieces is writing at once |
| `Streams.Stream.ReadChar` | `src/c/stream.c:359-404` | the next byte of the file, through lookahead, buffer or refill; a failed request changes nothing but the error flag |
| `Streams.Stream.Refill` | `src/c/stream.c:379-400` | the chunk is copied out of the shared buffer and the logical position stays; an empty one sets the end flag |
| `Streams.Stream.PreviewChar` | `src/c/stream.c:447-460` | the same byte without moving; once a byte is held back it is given even after closing |
| `Streams.Stream.WriteChar` | `src/c/stream.c:471-495` | the byte counts as written at the logical position, unless the buffer was full and the server took less, and then the position tells how much it took |
| `Streams.Stream.Flush` | `src/c/stream.c:51-65` | the server's file has what it took of the pending bytes; the rest is dropped |
| `Streams.Stream.FinishOutput` | `src/c/stream.c:527-534` | nothing visible changes if and only if the server took everything |
| `Streams.Stream.Close` | `src/c/stream.c:536-550` | the same for closing |
| `Streams.Stream.FilePosition` | `src/c/stream_lisp.c:625-650` | the logical position as a natural number: unread bytes and the byte held back never exceed the offset |
| `Streams.Stream.SetFilePosition` | `src/c/stream_lisp.c:652-670` | afterwards file-position is the magnitude given if and only if nothing was pending; pending bytes move to the new position |
| `Streams.Session.ReadChunk` | `src/c/virtio9p.c:242-256` | any non-empty part of what was asked for, nothing exactly at the end, in a buffer that the next exchange overwrites |
| `Streams.Session.LoadFile` | `src/c/virtio9p.c:286-328` | the first bytes of the file, as many as it has or the buffer holds, whatever the chunks |
| `Fat16.ReadClusters` | `src/c/mount.c:658-701` | the file is read if and only if the chain reaches far enough and the size rounds up within 32 bits: the turn limit stops nothing else; the bytes are the first ones of the concatenated clusters |
| `Fat16.ReadFile` | `src/c/mount.c:599-701` | a vector is returned if and only if the path names an entry of the root directory whose whole file can be read, and it holds that file; Formatter.ReadWritten says where on the volume that is |
| `Fat16.FindRootEntry` | `src/c/mount.c:537-591` | the first live entry with the name before the end mark, if there is one |
| `Fat16.SearchSector` | `src/c/mount.c:546-588` | the same within one sector |
| `Fat16.EntryName` | `src/c/mount.c:556-568` | NAME.EXT without trailing blanks fits thirteen bytes |
| `Fat16.SameName` | `src/c/mount.c:573-583` | equality of zero-terminated names |
| `Fat16.TakeCluster` | `src/c/mount.c:676-692` | one turn appends the next cluster, cut at the size |
| `Fat16.Clusters.ReachesIffLinked` | `src/c/mount.c:521-530` | a chain reaches n clusters if and only if each of them can be read and none but the first may be an end mark |
| `Fat16.Clusters.ContentsLength` | `src/c/mount.c:658-692` | n clusters have n times the cluster size bytes |
| `Fat16.ClustersForIsLeast` | `src/c/mount.c:672-675` | the number of clusters of a size is the least that holds it |
| `Fat16.FewTurns` | `src/c/mount.c:672-692` | no position overflows 32 bits, and where rounding does, two turns are too few |
| `Formatter.ReadWritten` | `src/c/mount.c:599-701` | a volume written by a formatter that uses none of the readers - parameter block, copies of the table, root directory, clusters one after another behind it - gives back the file of every path, whatever clusters it was put into, and nothing for any other path |
| `Formatter.PathReads` | `src/c/mount.c:485-535` | what was written under a path is readable, and its chain of clusters gives its bytes and nothing else |
| `Formatter.OnlyPathsRead` | `src/c/mount.c:537-591` | nothing is readable but what was written; erased entries and the end mark are passed over |
| `Formatter.LayoutReads` | `src/c/mount.c:485-502` | the parameter block gives back the shape of the volume |
| `Formatter.TableReads` | `src/c/mount.c:521-531` | the table gives back the cluster behind each cluster of a file |
| `Formatter.ClusterReads` | `src/c/mount.c:504-518` | cluster number c is read from where the formatter put it: behind reserved sectors, all copies of the table, the root directory and c - 2 clusters |
| `Formatter.OneAfterAnother` | `src/c/mount.c:658-692` | files of different names can be written so, one after another, whenever there is room for them |
| `Mount.Resolve` | `src/c/mount.c:42-111` | the target is that of the longest component-boundary prefix among the supported mounts and the built-in one, the earliest on ties; the relative path is the remaining suffix, the whole path for the root mount, cut to the buffer |
| `Mount.FindBest` | `src/c/mount.c:60-101` | the loop keeps the best entry so far, and /9p replaces it only if longer |
| `Mount.MatchLen` | `src/c/mount.c:25-40` | the length of the mount path if it covers the path, -1 otherwise |
| `Mount.BestIsUnique` | `src/c/mount.c:60-101` | there is at most one best entry |
| `Mount.BuiltInLosesTies` | `src/c/mount.c:93-99` | the built-in mount is chosen if and only if it covers the path and every covering mount of the table is shorter |
| `Mount.PathIsSplit` | `src/c/mount.c:101-107` | mount path and relative path make up the path, and the relative path is empty or absolute |
| `Mount.MountsAreSeen` | `src/c/mount.c:60-91` | every entry of a supported kind takes part, its path cut to 255 characters |
| `Virtqueue.Queue.Run` | `src/c/drivers/virtqueue.c:55-90` | requests, answers and polls in any order and number, through every wrap of the 16-bit indices: the rings do exactly what a plain line of waiting answers does, and for each answer the device reads the descriptors of the request made last |
| `Virtqueue.FirstInFirstOut` | `src/c/drivers/virtqueue.c:55-90` | whatever happens in between, polls give back the answers in the order in which the device gave them, none lost and none twice |
| `Virtqueue.RoundsMatch` | `src/c/drivers/virtqueue.c:55-90` | round after round, each answered poll gets the answer to its own request and the device read that request, and a round given up leaves one request behind for good |
| `Virtqueue.RoomIff` | `src/c/drivers/virtqueue.c:84-87` | when the size divides 65536 an answer finds a slot of its own if and only if fewer answers wait than there are slots, wraps of the index included |
| `Virtqueue.AnswerComesLate` | `src/c/drivers/virtqueue.c:76-90` | the late answer to a request given up is taken by the poll for the next request, whatever the device answers to that one |
| `Virtqueue.Queue.Submit` | `src/c/drivers/virtqueue.c:55-74` | the descriptors and the ring name the request; one more is outstanding and nothing else changes |
| `Virtqueue.Queue.Poll` | `src/c/drivers/virtqueue.c:76-90` | the oldest answer that waits is taken at once; otherwise success if and only if answers come within the spin limit, and then it is the first of them |
| `Virtqueue.Queue.Answer` | `src/c/drivers/virtqueue.c:55-74` | what the device reads from the rings is the request that was made last |
| `Virtqueue.Init` | `src/c/drivers/virtqueue.c:16-53` | success if and only if the size is 1 to 128 and the layout fits; the layout is zeroed and nothing outside it is touched |
| `Virtqueue.PartsAreDisjoint` | `src/c/drivers/virtqueue.c:22-30` | descriptors, available ring and used ring follow one another inside the memory, the used ring on the second page |
| `Virtqueue.ChainFitsIff` | `src/c/drivers/virtqueue.c:55-65` | the two descriptors of a request lie inside the table if and only if the queue has at least two entries; in a queue of one the second lies over the available index |
| `Virtqueue.DeviceBuffers` | `src/c/drivers/virtqueue.c:55-65` | a device that follows the flags of the chain may read the buffer that is sent and write only the room for the answer |

## Left out

Not modelled at all:

- Garbage collection, immobilized space, the JIT and bignum arithmetic beyond the limb loops of the reader and the printer: the rest of runtime.c, and za.c, are not part of this model; values are immutable and `eq` is equality of allocation numbers. Heap exhaustion does not happen.
- Signal handlers written in Lisp: a signalled condition is an exit to %TOP-LEVEL that carries it.
- The settings that `declaim` makes and the recording of parameter symbols by `defun`: declarations evaluate to nil.
- Floating-point conversion: a float is kept as its token and is not part of the round trip.
- `backspace` in src/c/interrupt.c, which erases pixels but not content; the 32-bit arithmetic of pixel addresses; screens narrower or lower than one glyph; histories of more than 2^31 rows; fonts whose glyph 0 is not blank.
- `os_read`, the reader on the keyboard line buffer, and `os_read_stream`, which drops the pending character.
- Interning, the limits of the symbol table, and the printing of other objects (functions, streams, conditions).
- CR0.WP, TLB invalidation, the fault handlers, the stack canary, the overflow check, the end-of-interrupt signal and the tick counter.
- The comment field, the byte list and the line formatting of a disassembled item; the base address of the code is a parameter of branch targets; code of 2^63 bytes or more.
- Opening, walking and creating 9P files and the packing of 9P messages; the keyboard, screen, string and FAT stream kinds and the two-way kind; the column counter for `format ~T`; files opened by several streams of which one writes; positions of 2^63 and above.
- FAT drivers written in Lisp, device handles, block device drivers.
- Virtio registers and notification, memory barriers.

Members that state less than the source might suggest:

- Eval.OsEval: evaluation is by fuel, which bounds nesting; the results about whole programs hold for every fuel and are tied to a machine without fuel. `car` and `cdr` of a non-cons, undefined in the source, give nil. Library functions are an arbitrary finite table of results, and other processes' live-block lists do not exist.
- TopLevel.TightEvaluation: an uncaught throw or go leaves the top level as an exit object, as in the source, so the result may be one of these two.
- StackGuards.PageTables.InstallStackGuards: the two upper levels of the page tables are read only and the tables form a tree; the large pages of the stack area map themselves. Page numbers have 36 bits: canonical addresses of the upper half are not modelled.
- TopLevel.TameProgramsAgree: the criterion is sufficient, not necessary: whether a program departs from ISLISP depends on what it computes. Programs with macros, unquotes that call functions and tagbody forms that are calls are not covered, and the store has to meet the criterion too.
- Format.FormatIntegerWrite: radix 0 and 1, for which the loop of the source divides by zero or does not end, are left out.
- Scheduler.Machine.TakeTurns: the running process does not write to the other processes' stacks, and a tick finds room for its frame on the running process's stack. Memory is words, and the PCB and its queue cell are one object.
- Streams.OpenFiles.Run: the server answers every request and takes every byte of a write, and a writing stream is repositioned only when nothing is pending; without these the contracts of Streams.Stream say what remains.
- Streams.Session.ReadChunk: the server returns no more than was asked for.
- Virtqueue.Queue.Run: the queue has at least two entries, fewer than 65536 requests are outstanding, and the device gives no answer that finds no free slot of the used ring (Virtqueue.RoomIff says when that is).
- Fat16.ReadFile: reads through a 32-bit sector address that wraps, as in the source; a read past the end of the drive fails.
- DataRoundTrip.ReadPrinted: characters stand for bytes, and the symbol READ-ERROR is the reader's error value.
- Disassembler.DisassembleItem: mnemonics are names with a spelling, and the register names are a parameter.
- Assembly.ListingReads: instructions with more than one REX prefix have no encoding here; which encodings mean the same is Assembly.Normal.
- Formatter.ReadWritten: the root directory is a whole number of sectors, and every sector of the volume can be read.
- Spellings.SpellingReads: floats, and tokens of more than 127 characters, are not among the spellings; ranks are one digit.
