# rp4: machine-checked models of its hard cores

This project models, in Dafny, the parts of the rp4 bare-metal system whose
correctness is hardest to see from the source, and proves what they are for.

- **The Faust-style signal language** (`src/dsp/dsp.cppm`): tokenizer, parser, whole
  programs, constant folder, evaluator, signal graphs, the mutable runtime, and the
  block loops. `Run` (DspStreams) is the independent meaning of a graph: a function
  from whole input streams to whole output streams, with no state. `Step` (DspStep)
  is one tick over the shared store. `Runtime` (DspTick) is the object form, with
  scratch buffers and maps overwritten in place. `Sound` (DspMeaning) gives
  every expression a stream meaning on its syntax tree, without building a graph, and
  `Equations` says what each combinator, operator, control and name means in it. The
  proofs tie all of these together, and tie program text to them.
- **The arena allocator** (`src/boot/allocator.cpp`) and the C allocation calls above
  it (`src/shim/libc_shim.c`). `Blocklist` is the block list as a value, `HeapArena`
  the headers and bytes changed in place, `HeapLibc` malloc, calloc and realloc.
- **128-bit restoring division** (`src/shim/libc_shim.c`).
- **The boot image** (`scripts/mkifs.fsx`, `scripts/dumpifs.fsx`): the image as a
  value (`IfsImage`), the two-pass writer, the reader, and what a round trip keeps.
- **The process manager** (`src/proc/proc.cppm`) over a minimal scheduler.
- **The audio clock divisor** (`src/hal/hal.cppm`), **the GPU buffer table**
  (`src/apps/drmmgr.cpp`) and **the framebuffer** (`src/apps/displaymgr.cpp`).

`dafny verify dfyconfig.toml` checks everything.

## How the model reads

Audio samples are an abstract type, and the float unit is one arbitrary record of
operations (`FLOAT`), so no law of addition, rounding or comparison is used anywhere:
the theorems about graphs hold whatever the arithmetic is. Numerals and their
conversion (`NUMERAL`, `STOF`), and the library's constants, are arbitrary too.
Machine widths are written out wherever they matter: 64-bit in the allocator, 128-bit
in the division, 32-bit in the image fields, the divisor, the buffer table and the
framebuffer index. Definitions in the signal language may be recursive and the source
does not guard against it, so the folder and the evaluator carry fuel; running out of
it stands for endless recursion. `Termination.ProgramEnds` shows that some
fuel is enough for every acyclic, hygienic program, and `Folding.EvalMonotone` that the amount never
changes an answer. `fixed` in the image modules is the size of the fixed part of a
directory entry: 28 in the code, 32 in truth; both are stated.

## Where the code departs from what is written about it

- Name capture: the folder binds arguments by value and the evaluator by name
  (src/dsp/dsp.cppm:657-664, 775-782). `Folding.Hygienic` is the check on program text
  under which the two agree: no called function reaches itself; no name is mentioned
  where the scope of a function that binds it may be open, unless it is the parameter of
  the function whose text mentions it and no scope opened since binds it again; each
  parameter is given an argument by all calls or by none; and no native function has the
  name of a definition. Functions may share parameter names with each other, callers with
  their callees included, and with values, as long as no text is read where it would be
  captured; and calls may give fewer arguments than there are parameters, as the patches
  in dsp/ do. `Capture` gives a program that can be written as text, that mentions a name
  where it is captured, and that folds to a different number than it is built as; and one
  whose function passes its parameter on to a callee that binds the same name, whose
  evaluation never returns.
- A feedback loop draws one number but uses as many cells as it has feedback outputs
  (src/dsp/dsp.cppm:386, 395-400). With two, the second cell is the next node's, if that
  node keeps one; `Numbering.WideProgramCollides` is such a program.
- The comment at src/dsp/dsp.cppm:924 says an argument does not take commas. It does,
  so every parsed call has at most one argument.
- A name that starts with an underscore is read as a wire and a name, and the sign of a
  negative exponent ends the numeral. The tokenizer's branch for numerals that start
  with a dot is never reached.
- Payloads are 8-byte and not 16-byte aligned, because the header has 24 bytes. The
  facts in spec/verify_allocator.fsx and the comment on `aligned_alloc` say 16.
- `align_up` wraps for requests within 16 bytes of 2^64; such a request is granted the
  first free block, or no bytes of it. `calloc` and `realloc` then write past the arena.
- `realloc` frees the old block even when it fails, unlike section 7.22.3.5 of ISO C17,
  and copies `new_size` bytes from the old pointer whatever the old size was.
- The image writer and reader both count the fixed part of an entry as 28 bytes; it has
  32. The header has 100 bytes with its mount point, and the first file's data is two
  bytes past a multiple of four.
- `kill` on a process that has been reaped makes it a zombie again, `exit` leaves
  channels, connections and capabilities tracked, and `thread_add` gives threads to
  processes that have ended.

## Model

| member | source | states |
|---|---|---|
| Runs.RunIsDenotation | src/dsp/dsp.cppm:306-417 | For every well-formed graph with its own buffers and cells, started on a store it has not touched, and every input and parameter stream: the ticks output exactly the graph's stream function |
| Runs.IterateContinues | src/dsp/dsp.cppm:306-417 | From any store that remembers a past, the ticks output the rest of the denoted stream, and the store remembers the longer past |
| Refinement.StepFollowsRun | src/dsp/dsp.cppm:306-417 | One tick of any graph on a store that remembers a prefix outputs the next denoted frame and keeps that relation: the invariant of every run |
| Refinement.DelayStep | src/dsp/dsp.cppm:51-59 | The ring buffer is the plain history of inputs: a read with any delay d gives the input from clamp(d, 0, len-1) steps earlier, or zero before the start |
| Refinement.LeafStep | src/dsp/dsp.cppm:94-300 | Every primitive, memories, delays and tables included, outputs what its whole input history determines |
| Refinement.RemembersFrame | src/dsp/dsp.cppm:41-74 | What a graph remembers is untouched by any change outside its own cells and buffers |
| Streams.RecSolvesLoop | src/dsp/dsp.cppm:377-407 | A feedback loop solves y_t = A(x_t, f_{t-1}), f_t = B(y_t), f_{-1} = 0 on every stream |
| Streams.LoopHasOneSolution | src/dsp/dsp.cppm:377-407 | Those equations have no other solution, so they are an independent definition of the loop |
| Streams.Causal | src/dsp/dsp.cppm:1188-1234 | Output up to any time depends only on input and parameters up to that time, for every graph |
| Runs.TwoFeedbackOutputsCollide | src/dsp/dsp.cppm:377-407 | A loop of two feedback wires beside a memory outputs the memory's sample: the denotation theorem fails without distinct cells |
| Runs.BlocksCompose | src/dsp/dsp.cppm:1188-1234 | Cutting a stream into two blocks changes neither the samples nor the final store, for every graph and store |
| Blocks.CutAnywhere | src/dsp/dsp.cppm:1188-1234 | The same for the block loops' own framing of channel arrays, at any cut |
| Blocks.AnyBlocks | src/dsp/dsp.cppm:1188-1234 | However a stream is cut into any number of blocks, samples and final state are those of one block |
| Blocks.ProcessTwice | src/dsp/dsp.cppm:1213-1234 | Two calls of the many-channel loop, in the same buffers or in others, write the samples and leave the state of one run over the whole input |
| Runs.IterateFrame | src/dsp/dsp.cppm:41-74 | Running one graph leaves every other graph with other numbers on the same store where it was |
| Runtime.State.DelayWriteRead | src/dsp/dsp.cppm:51-59 | The in-place ring buffer returns the sample and leaves the maps that the store-level function says |
| Runtime.State.ParamGet | src/dsp/dsp.cppm:67-70 | The parameter set under a label, or the initial value given |
| Runtime.State.ParamSet | src/dsp/dsp.cppm:71-73 | Sets that parameter and no other |
| Runtime.Tick | src/dsp/dsp.cppm:306-417 | The tree of nodes, overwriting its scratch buffers, writes exactly the store-level step's outputs and state, for any widths, and leaves its buffers fit for the next tick; what the step's splits and merges do to channels is stated by the Fanning rows |
| Runtime.Build | src/dsp/dsp.cppm:423-465 | A node tree of the given shape with pairwise different, zeroed, fresh scratch buffers |
| Blocks.ProcessBuffer | src/dsp/dsp.cppm:1188-1210 | The one-channel loop, even in place, writes channel 0 of the run over the padded input, nothing past the block, and leaves the run's final state |
| Blocks.ProcessBufferMc | src/dsp/dsp.cppm:1213-1234 | The same for many channels: outputs may be inputs and may share a buffer, which then ends up with the last of its channels; channels past the graph's are untouched |
| Blocks.DistinctWinners | src/dsp/dsp.cppm:1230-1232 | Of outputs in buffers of their own, each gets its own channel of the graph |
| Blocks.FramesAre | src/dsp/dsp.cppm:1188-1227 | What is read: each sample of each channel, zero past its end and for channels that are not there |
| Blocks.SamplesWritten | src/dsp/dsp.cppm:1228-1232 | What is written into buffers of their own: each channel's samples, as far as stream, buffer and outputs go |
| Blocks.LastChannelWins | src/dsp/dsp.cppm:1228-1232 | In a shared buffer, the last of its channels that the graph has wins |
| Blocks.PlayGraph | src/dsp/dsp.cppm:1213-1234 | A freshly built tree on a new state writes exactly the graph's stream function of the padded input, for every well-formed graph with its own buffers and cells; into buffers of their own, sample by sample |
| Laws.SeqAssociative | src/dsp/dsp.cppm:306-318 | Sequential composition is associative on every stream |
| Laws.ParAssociative | src/dsp/dsp.cppm:320-339 | Parallel composition is associative on every stream |
| Laws.Interchange | src/dsp/dsp.cppm:306-339 | (a, b) : (c, d) is (a : c), (b : d) on every stream when a's outputs are c's inputs |
| Laws.RunIgnoresIds | src/dsp/dsp.cppm:41-42 | A graph's meaning does not depend on the numbers its nodes drew |
| Laws.FreshRunsAgree | src/dsp/dsp.cppm:306-339 | Graphs of one meaning, each run on a store it has not touched, output the same samples, so every law above holds of the stateful graphs |
| Laws.DelaysAdd | src/dsp/dsp.cppm:218-226 | Lines of lengths m and n in sequence are one line of length m + n - 1, that is, a line of length n delays n - 1 samples |
| Laws.MemIsDelay | src/dsp/dsp.cppm:194-203 | A memory is a line of length two |
| Laws.SplitCopies | src/dsp/dsp.cppm:341-357 | A wire split into two graphs feeds both |
| Laws.MergeAdds | src/dsp/dsp.cppm:359-375 | Two graphs merged into a wire are added, left to right from zero |
| Laws.TableIndexIs | src/dsp/dsp.cppm:228-257 | A table index is a channel as an integer, kept within the table, and zero when the channel is missing |
| Laws.ReadTableGives | src/dsp/dsp.cppm:228-237 | A constant table outputs its sample at the index its first channel gives |
| Laws.RwTableGives | src/dsp/dsp.cppm:239-253 | A written table outputs what was written last at the index asked for, the present write included, and zero where nothing was written |
| Fanning.FanRepeats | src/dsp/dsp.cppm:341-357 | A frame fanned out to any width comes first, and then again from its start |
| Fanning.FoldNothing | src/dsp/dsp.cppm:359-375 | Merging no channels gives silence |
| Fanning.FoldAddsRow | src/dsp/dsp.cppm:359-375 | However many full rows of n channels have been merged, one more row of at most n is added to them channel by channel |
| Fanning.SplitRepeats | src/dsp/dsp.cppm:341-357 | On every stream, input i of a split to any width is the left side's output i, or the input one round earlier |
| Fanning.SplitFeeds | src/dsp/dsp.cppm:341-357 | Whatever stands on the right of a split gets what a row of wires would get |
| Fanning.MergeFew | src/dsp/dsp.cppm:359-375 | At most n channels merged into n inputs are each added to zero; inputs without a channel are silent |
| Fanning.MergeAddsRow | src/dsp/dsp.cppm:359-375 | On every stream, one more row of outputs is added to what the merge of the rows before gives |
| Fanning.MergeFeeds | src/dsp/dsp.cppm:359-375 | Whatever stands on the right of a merge gets what a row of wires would get |
| Fanning.ParSplitsChannels | src/dsp/dsp.cppm:320-339 | Side by side, graphs get their own channels in order and give their own |
| FoldSoundness.FoldPreservesMeaning | src/dsp/dsp.cppm:620-672 | Whatever expression of a hygienic program folds to v is, built without folding, a stateless graph that outputs v on every tick |
| FoldSoundness.EvalPreservesMeaning | src/dsp/dsp.cppm:677-797 | A hygienic program built with folding and built without have the same arity, well-formedness and stream function, and draw the same numbers; the stream function of the latter is the meaning of the syntax tree, by Meanings.EvalSounds |
| Meanings.EvalHasArity | src/dsp/dsp.cppm:677-797 | The syntax tree has an arity if and only if evaluation builds a well-formed graph of it, and then it is the graph's |
| Meanings.EvalSounds | src/dsp/dsp.cppm:677-797 | What is built of an expression outputs, on every stream, the meaning that its syntax tree has by itself |
| Equations.SeqMeans | src/dsp/dsp.cppm:306-318 | l : r feeds the stream of l into r |
| Equations.ParMeans | src/dsp/dsp.cppm:320-339 | l , r gets the channels in order, first l's and then r's, and gives l's and then r's |
| Equations.SplitMeans | src/dsp/dsp.cppm:341-357 | l <: r feeds input i of r from output i modulo the number of l's outputs |
| Equations.MergeMeans | src/dsp/dsp.cppm:359-375 | l :> r feeds r the outputs of l added up modulo the number of r's inputs |
| Equations.RecMeans | src/dsp/dsp.cppm:377-407 | l ~ r is l on the external inputs followed by r's outputs of one sample period ago, zeros at first |
| Equations.LoopMeans | src/dsp/dsp.cppm:377-407 | The meaning of l ~ r satisfies the feedback equation over the whole stream |
| Equations.FitMeans | src/dsp/dsp.cppm:341-407 | Two expressions have no arity together if and only if a split has nothing to give, a merge nowhere to put it, or a loop feeds back more than fits |
| Equations.AtomMeans | src/dsp/dsp.cppm:686-742 | A word outputs at every time what its table entry says of the inputs so far |
| Equations.AtomArities | src/dsp/dsp.cppm:94-300 | How many channels each word takes and gives |
| Equations.ChannelIs | src/dsp/dsp.cppm:104-190 | A channel that is missing reads as zero |
| Equations.BinaryOperators | src/dsp/dsp.cppm:118-146 | The fifteen operators of two channels, each its own operation of the float unit; quotients by zero are zero |
| Equations.AngleFunctions | src/dsp/dsp.cppm:156-161 | The six trigonometric words, each its own function |
| Equations.GrowthFunctions | src/dsp/dsp.cppm:162-167 | Roots, exponentials, logarithms, size and floor |
| Equations.RoundingFunctions | src/dsp/dsp.cppm:168-172 | Ceiling, rounding, conversion to integers and back, and sign |
| Equations.WiringMeans | src/dsp/dsp.cppm:104-190 | Wire, cut and choice; the choice is the third channel when the first is not zero |
| Equations.DelaysMean | src/dsp/dsp.cppm:194-216 | The memory gives the frame before; the delay gives what arrived as many frames ago as its second channel says, kept between 0 and 191999 |
| Equations.ControlsMean | src/dsp/dsp.cppm:259-300 | Controls give their parameter or what they start from, sliders within their range, checkboxes as zero or one |
| Equations.NumberMeans | src/dsp/dsp.cppm:685 | A number is a stream of itself |
| Equations.GroupMeans | src/dsp/dsp.cppm:409-417 | A group means what its body means |
| Equations.FixedDelayMeans | src/dsp/dsp.cppm:751-755 | A fixed delay of n samples gives what arrived n - 1 samples ago, at least the present one, and 4095 ago when n does not fold |
| Equations.ValueMeans | src/dsp/dsp.cppm:757-760 | A name with a value means that value, read where the name stands |
| Equations.OpenMeans | src/dsp/dsp.cppm:761-771 | A name without value is a function without parameters of that name, or else a wire, as is a call of no function; native calls have no meaning here |
| Equations.CallMeans | src/dsp/dsp.cppm:771-783 | A call means the function's body, read where the parameters are the arguments |
| Equations.ScopeMeans | src/dsp/dsp.cppm:773-783 | There the parameters given an argument have it as value, and everything else means what it meant outside |
| Equations.TopMeans | src/dsp/dsp.cppm:581-606 | At top level a name means what is defined there |
| Equations.ProductMeans | src/dsp/dsp.cppm:971-978 | The wire beside e into a product outputs its first channel times what e makes of the others |
| Equations.OneMeaning | src/dsp/dsp.cppm:677-797 | The meaning of an expression does not depend on the fuel |
| FoldRules.LeafRules | src/dsp/dsp.cppm:621-628 | Numbers fold to themselves, names as their values do; words, groups and fixed delays do not fold |
| FoldRules.WordRules | src/dsp/dsp.cppm:629-647 | Five words fold after a number, each to its own function of it |
| FoldRules.OtherRules | src/dsp/dsp.cppm:629-652 | No other word or combination folds |
| FoldRules.CallRule | src/dsp/dsp.cppm:653-667 | A call whose arguments fold is folded as the body is where the parameters are those numbers |
| FoldRules.CallVaries | src/dsp/dsp.cppm:653-667 | A call of no function, or with an argument that does not fold, does not fold |
| FoldRules.FoldedIsNumber | src/dsp/dsp.cppm:679-683 | An expression that folds is built as its number and draws no state |
| Folding.ConstGraphRuns | src/dsp/dsp.cppm:94-176 | A graph of numbers and folded operators has no inputs and no state and outputs its number on every tick |
| Folding.EvalLocal | src/dsp/dsp.cppm:581-606 | Evaluation of a function's text depends only on the bindings of the functions open around it, whatever else is in the dynamic chain of scopes |
| Folding.EvalMonotone | src/dsp/dsp.cppm:677-797 | More fuel never changes an answer |
| Folding.OpenIsWire | src/dsp/dsp.cppm:757-766 | A name without meaning at top level that no open scope binds, such as a parameter left without an argument, does not fold and is built as a wire |
| Termination.ProgramEnds | src/dsp/dsp.cppm:620-797 | On every hygienic program without circular definitions both the folder and the evaluator return |
| Capture.PassingOnDiverges | src/dsp/dsp.cppm:775-782 | A function that passes its parameter on under the same name is never evaluated to an end |
| Capture.PassingOnIsUnhygienic | src/dsp/dsp.cppm:775-782 | That program breaks hygiene under every plan: a parameter is passed on where the callee binds its name |
| Capture.CaptureChangesMeaning | src/dsp/dsp.cppm:657-664 | A one-argument call that folds to a global value and is built, without folding, as the number another function binds |
| Capture.CaptureIsUnhygienic | src/dsp/dsp.cppm:657-664 | That program breaks hygiene under every plan: a body mentions a name that a scope around it binds |
| Programs.CaptureIsText | src/dsp/dsp.cppm:1137-1156 | That program can be written: its text reads back as that environment and process |
| Numbering.EvalNumbered | src/dsp/dsp.cppm:41-42 | Evaluation gives every node with state its own number, so that one-feedback graphs have disjoint cells and buffers |
| Numbering.OneFeedbackIsDistinct | src/dsp/dsp.cppm:377-389 | Loops that feed back one signal each always use different cells |
| Numbering.InterpreterComputesProgram | src/dsp/dsp.cppm:677-797 | A hygienic program whose loops use different cells, folded, numbered and run from an empty state, outputs the stream function of the program as written |
| Numbering.WideProgramCollides | src/dsp/dsp.cppm:386-400 | Evaluation builds `(_,_)~(_,_), mem` as the graph whose loop and memory share a cell; the loop alone does not collide |
| Programs.CollisionIsText | src/dsp/dsp.cppm:1103-1182 | That program can be written: its text is read and built as the colliding graph |
| Lexing.Tokenize | src/dsp/dsp.cppm:814-901 | The tokenizer's loop computes the token function, which the rows below pin down from the front of any text; its tokens end in the end mark, which occurs nowhere else |
| Lexing.TokenFirst | src/dsp/dsp.cppm:820-901 | A spelled token at the front of any text is read, whatever follows that is no part of it, and then the rest of the text |
| Lexing.BlankFirst | src/dsp/dsp.cppm:822 | Each of the six blanks is skipped |
| Lexing.LineCommentFirst | src/dsp/dsp.cppm:823-826 | A line comment is skipped and ends with its line, or with the text |
| Lexing.BlockCommentFirst | src/dsp/dsp.cppm:827-832 | A block comment is skipped and ends with the first end mark |
| Lexing.UnclosedComment | src/dsp/dsp.cppm:827-832 | A block comment that is never closed ends one short of the text's end: the last character is read again |
| Lexing.CommentsIgnored | src/dsp/dsp.cppm:814-901 | Between spelled tokens and any further text, comments and blanks change nothing |
| Lexing.CharacterClasses | src/dsp/dsp.cppm:822-893 | The characters of blanks, numerals, words and strings |
| Lexing.TextClasses | src/dsp/dsp.cppm:875-896 | Which strings are words, numerals and quoted texts, and how they are spelled |
| Lexing.BracketSpellings | src/dsp/dsp.cppm:833-838 | The spelling of brackets and separators |
| Lexing.CombinatorSpellings | src/dsp/dsp.cppm:839-869 | The spelling of the five combinators |
| Lexing.PlainSpellings | src/dsp/dsp.cppm:841-849 | The spelling of the one-character primitives |
| Lexing.ArithmeticSpellings | src/dsp/dsp.cppm:850-874 | The spelling of the other arithmetic operators |
| Lexing.BitSpellings | src/dsp/dsp.cppm:853-873 | The spelling of the operators on bits |
| Lexing.SymbolTokens | src/dsp/dsp.cppm:833-874 | Each symbol is spelled so |
| Lexing.JoinsOnly | src/dsp/dsp.cppm:814-901 | The only characters that a token takes in: more of a word or numeral, a comment mark, or the second half of a merge |
| Lexing.PlusMerge | src/dsp/dsp.cppm:844-849 | `+>` is the other spelling of a merge |
| Lexing.BadNumeralFails | src/dsp/dsp.cppm:882-889 | A numeral that the library cannot convert ends the reading with an exception |
| Lexing.UnclosedString | src/dsp/dsp.cppm:875-881 | A string that is never closed runs to the end of the text |
| Lexing.StrayFirst | src/dsp/dsp.cppm:861-872 | An angle bracket on its own, and a character that starts nothing, are skipped |
| Lexing.RenderThenLex | src/dsp/dsp.cppm:814-901 | Any list of spellable tokens, written out with spaces, is read back token for token |
| Layouts.SilentGaps | src/dsp/dsp.cppm:822-832 | Nothing, blanks, line comments with their line end, block comments, and any of these in sequence stand for nothing, whatever follows |
| Layouts.WeaveBack | src/dsp/dsp.cppm:814-901 | Spelled tokens with any such gaps after them, or none where the next does not join, are read back token for token |
| Layouts.LayoutIsFree | src/dsp/dsp.cppm:1103-1182 | So a program is read as the same definitions in every layout |
| Lexing.SignEndsNumeral | src/dsp/dsp.cppm:882-889 | A minus inside a numeral ends it and is read as a subtraction |
| Lexing.UnderscoreIsWire | src/dsp/dsp.cppm:841 | A leading underscore is a wire, whatever follows |
| Parsing.Parser.PLevel | src/dsp/dsp.cppm:929-953 | Each precedence level returns the grammar's tree and stops at the grammar's position, or fails when the grammar does; it ends within the token list |
| Parsing.Parser.PAtom | src/dsp/dsp.cppm:955-1095 | The same for atoms, words, controls, groups and calls; what the grammar reads of each is stated by Printing.WriteThenParse and the rows after it |
| Printing.PrintThenParse | src/dsp/dsp.cppm:907-1095 | The fully parenthesised printing of any tree the grammar can express parses to that tree and ends at the end mark |
| Printing.WriteThenParse | src/dsp/dsp.cppm:907-1095 | Any way of writing an expression down, with or without the parentheses that levels make superfluous, with dotted names and with products as a star and parentheses, parses to its tree and ends at the end mark |
| Printing.FormsAre | src/dsp/dsp.cppm:907-1095 | Which ways of writing are covered: an operator at its own level and every lower one, all else anywhere, under any name that the grammar does not reserve |
| Printing.OperatorsAre | src/dsp/dsp.cppm:957-1011 | The operators that can be written: ten symbols, five words of two channels and seventeen of one |
| Printing.Precedence | src/dsp/dsp.cppm:929-953 | Between three operands without parentheses ~ binds loosest, then :>, <:, : and the comma; of two equal operators the first is taken first |
| Printing.ScaledBack | src/dsp/dsp.cppm:971-978 | A star, a parenthesis, an expression and a parenthesis are read as the wire beside it, both into a product |
| Printing.PrimitiveSymbols | src/dsp/dsp.cppm:957-978 | Each one-token primitive and numeral, wherever it stands, and the tokens that begin no expression |
| Printing.PrimitiveWords | src/dsp/dsp.cppm:994-1011 | Each word that is a primitive, and all the words that are no names |
| Printing.ControlDemands | src/dsp/dsp.cppm:1013-1053 | A control that lacks a bracket or a comma in its place fails |
| Printing.BracketDemands | src/dsp/dsp.cppm:979-1088 | So do groups, calls and parentheses without theirs |
| Printing.SkippedWord | src/dsp/dsp.cppm:1063-1072 | A declaration or an import in the place of an expression stands for nothing, up to the next semicolon or the end |
| Printing.LevelBack | src/dsp/dsp.cppm:929-953 | The same inside any token list, for every form that may stand at a level, where no operator of that level or a tighter one follows |
| Printing.CallsHaveOneArgument | src/dsp/dsp.cppm:924-925 | Whatever the tokens, every call in a parsed tree has at most one argument |
| Programs.ReadText | src/dsp/dsp.cppm:1103-1182 | Tokenizing and the definition loop compute the specified environment and process, or fail where the source throws |
| Programs.DefinesOnly | src/dsp/dsp.cppm:1107-1176 | What each statement does to values, functions, natives and the process, and what there is before the first |
| Programs.ImportsOnly | src/dsp/dsp.cppm:1117-1130 | Three libraries are known; each brings three values and ten natives, and any other brings nothing |
| Programs.StraySkipped | src/dsp/dsp.cppm:1163-1178 | Stray tokens are skipped one by one, and a name that is not defined together with what follows it |
| Programs.BodyDemands | src/dsp/dsp.cppm:1154-1176 | A definition may end without a semicolon; without an equals sign or a whole expression it fails, and with it the program |
| Programs.WrittenText | src/dsp/dsp.cppm:1103-1182 | Statements written out, each token with a space after it, are a text of themselves |
| Programs.StatementsAre | src/dsp/dsp.cppm:1103-1182 | Which statements can be read back, and which of them written |
| Programs.WritableForms | src/dsp/dsp.cppm:814-901 | Which expressions can be written: names are words, labels hold no quote, and each number has a numeral |
| Programs.TextBack | src/dsp/dsp.cppm:1103-1182 | Any text of a list of statements, however its expressions are parenthesised and laid out, is read back as those statements, later ones of a name winning |
| Programs.TextBuilds | src/dsp/dsp.cppm:1103-1182 | Any text of hygienic, acyclic definitions builds one graph, and without the library never reaches a native function |
| Programs.TextRuns | src/dsp/dsp.cppm:1103-1182 | From any program text to samples: what comes out of the parsed, folded, numbered graph is the meaning of the definitions as written, on their syntax trees |
| Programs.PlayText | src/dsp/dsp.cppm:1103-1234 | The same in place, of any text that reads as a hygienic program: tokenized, parsed, built as a node tree and played into sample buffers, it writes the meaning of the program's syntax tree |
| Patches.StarParses | src/dsp/dsp.cppm:971-978 | The short form of a product and its long form parse to one tree, whatever the expression in it |
| Patches.StarTextReads | src/dsp/dsp.cppm:971-978 | The text `process = *(e);` reads as a program whose process is the wire beside e, both into a product |
| Patches.FormIsInner | src/dsp/dsp.cppm:814-901 | The tokens of any form, with spaces after them, are such an e |
| Patches.StarTextSounds | src/dsp/dsp.cppm:1103-1182 | That text outputs, on every stream, its first channel times what e makes of the others |
| Patches.GainSounds | src/dsp/dsp.cppm:814-977 | A line comment, its line end, and `process = *(v);` multiply every sample by the number v |
| Programs.MixerIsHygienic | src/dsp/dsp.cppm:1137-1156 | A program whose caller and callee share a parameter name with each other and with a value, and whose call leaves a parameter open, can be written and meets the hygiene and acyclicity of the program theorems |
| HeapLaws.ReachableHeapsOk | src/boot/allocator.cpp:46-121 | Over every run of non-wrapping requests and releases of live pointers the blocks tile the arena, are coalesced, 8-aligned and at least 16 bytes long |
| HeapLaws.LivePayloadsDisjoint | src/boot/allocator.cpp:64-100 | Payloads of different live blocks, and their headers, are disjoint, inside the arena and 8-byte aligned |
| Blocklist.AllocResult | src/boot/allocator.cpp:64-100 | A successful allocation adds exactly one live block, at the returned pointer, at least the rounded request and at most 40 bytes over |
| Blocklist.NeededIs | src/boot/allocator.cpp:58-68 | Requests are rounded up to a multiple of 16, nothing to 16, and exactly the last fifteen of the 64-bit range to nothing |
| Blocklist.AllocIs | src/boot/allocator.cpp:64-100 | The first free block that is large enough is taken: whole, unless more than 40 bytes are left over, which become a free block |
| Blocklist.AllocKeepsHeapOk | src/boot/allocator.cpp:64-100 | Splitting keeps the heap invariant |
| HeapLaws.FreeKeepsHeapOk | src/boot/allocator.cpp:104-121 | Marking and one forward pass keep the heap invariant, no two neighbours free included |
| HeapLaws.FreeResult | src/boot/allocator.cpp:104-121 | Freeing removes exactly the freed block from the live ones |
| HeapLaws.LiveDetermines | src/boot/allocator.cpp:104-121 | Two coalesced heaps with the same live blocks are equal |
| HeapLaws.FreesCommute | src/boot/allocator.cpp:104-121 | Frees of two live blocks give one heap in either order |
| HeapLaws.FreeAllRestores | src/boot/allocator.cpp:104-121 | Freeing every live block, in any order, restores the single initial block |
| HeapLaws.AllocFailsOnlyWhenFull | src/boot/allocator.cpp:70-99 | Allocation returns null if and only if no stretch clear of live blocks holds a header and the rounded request |
| HeapLaws.GrantedEnoughIffFits | src/boot/allocator.cpp:58-60 | A granted block is as large as the request if and only if rounding the request does not wrap |
| HeapLaws.WrappedRequestGrantsNothing | src/boot/allocator.cpp:58-60 | In every heap with a free block, a request within 16 bytes of 2^64 is granted the first one: whole if too small to split, else no bytes of it |
| HeapLaws.PayloadsAreNotSixteenAligned | src/boot/allocator.cpp:39 | In every reachable heap the first payload is not 16-byte aligned |
| HeapLaws.PointerAlignedIff | src/boot/allocator.cpp:70-89 | A returned pointer is 16-byte aligned if and only if the first block that fits lies 8 past a multiple of 16 |
| HeapArena.Arena.PutHeader | src/boot/allocator.cpp:77-87 | The 24 bytes written decode to the header, and no other byte changes |
| HeapArena.DecodeIs | src/boot/allocator.cpp:33-37 | The header in memory: size, low byte first, the machine address of the next header or zero, and a flag at offset 16 |
| HeapArena.Arena.Alloc | src/boot/allocator.cpp:64-100 | The walk over headers decoded from the arena's bytes returns the block list's result, leaves bytes that decode to the new list, and changes no byte in use |
| HeapArena.Arena.Free | src/boot/allocator.cpp:104-121 | The in-place marking and coalescing pass leaves bytes that decode to what the block list's free gives, and changes no byte still in use |
| HeapLibc.Malloc | src/shim/libc_shim.c:30 | The arena's allocation, for every 64-bit size; no byte of another live payload changes |
| HeapLibc.Store | src/shim/libc_shim.c:38-51 | A client's write into a live payload leaves every header as it was |
| HeapLibc.Calloc | src/shim/libc_shim.c:33-41 | All count * size bytes, modulo 2^64, are zero and no byte of another live payload changes, unless it writes past the arena, which it does if and only if it is granted a block and rounding wraps |
| HeapLibc.CallocEnoughIffNoWrap | src/shim/libc_shim.c:34 | The block holds count * size bytes if and only if the product does not wrap |
| HeapLibc.TotalIs | src/shim/libc_shim.c:34 | The product is taken modulo 2^64 |
| HeapLibc.BytesAre | src/shim/libc_shim.c:30-55 | Which bytes of the arena the rows above speak of, by the live blocks |
| HeapLibc.Realloc | src/shim/libc_shim.c:43-55 | The new block holds the old one's bytes up to the smaller size, other payloads are unchanged, and the old block is freed on failure too, unless it writes past the arena, which it does if and only if it is granted a block and rounding wraps |
| WideDivision.UDivTi3 | src/shim/libc_shim.c:236-244 | The quotient of all 128-bit operands; zero for a zero divisor |
| WideDivision.ShiftFits | src/shim/libc_shim.c:240 | Doubling the partial remainder never loses a bit, however large the divisor |
| WideDivision.UModTi3 | src/shim/libc_shim.c:246-248 | The remainder of all 128-bit operands in wrapping arithmetic; the dividend for a zero divisor |
| IfsWriter.BuildIfs | scripts/mkifs.fsx:216-315 | The two-pass writer produces exactly the specified image, for any files and optional script |
| IfsWriter.Stream.WriteHeader | scripts/mkifs.fsx:37-62 | Appends the specified header |
| IfsWriter.Stream.WriteFileDirent | scripts/mkifs.fsx:72-90 | Appends the specified entry and returns the size that the entry declares |
| IfsWriter.ComputeChecksum | scripts/mkifs.fsx:115-126 | For any bytes the result is below 2^32 and, added to the word sum of the bytes completed with zeros to whole words, gives zero modulo 2^32 |
| IfsImage.WordSumAdds | scripts/mkifs.fsx:115-126 | The word sum adds little-endian words one after another, modulo 2^32 |
| IfsImage.ChecksumCancels | scripts/mkifs.fsx:115-126 | The checksum brings the word sum of its data, completed to whole words, to zero |
| IfsLayout.ImageSumsToZero | scripts/mkifs.fsx:302-310 | All words of every built image with files, its trailer included, sum to zero modulo 2^32 |
| IfsLayout.WrittenLittleEndian | scripts/mkifs.fsx:37-90 | Numbers are written low byte first, modulo their width |
| IfsLayout.ReadLittleEndian | scripts/dumpifs.fsx:15-33 | And read so |
| IfsLayout.HeaderBytes | scripts/mkifs.fsx:37-62 | The first 100 bytes of every built image, place by place, with the image's own size in them |
| IfsLayout.EntryLayout | scripts/mkifs.fsx:72-90 | Every entry follows the one before, ends four bytes after where its recorded size points, and holds its name from byte 32 on |
| IfsLayout.EntryNumbers | scripts/mkifs.fsx:72-90 | Every number of every entry, at its place |
| IfsLayout.EntrySlice | scripts/mkifs.fsx:252-305 | The slice that an entry's recorded offset and size point to is its file |
| IfsLayout.DirectoryEnds | scripts/mkifs.fsx:108-111 | The directory ends in two zero bytes where the header says that the files start |
| IfsLayout.ModeBits | scripts/mkifs.fsx:69-80 | A file's mode is its permissions with bit 15 set; the reader takes a directory by the upper four of sixteen bits |
| IfsLayout.ScriptComesFirst | scripts/mkifs.fsx:231-239 | The start-up script is a file of fixed name and mode before all others |
| IfsLayout.DirectoryRecord | scripts/dumpifs.fsx:67-72 | An entry with a directory's mode is read as six words and a name, with the zeros after it dropped |
| IfsLayout.RecordFails | scripts/dumpifs.fsx:61-79 | Reading an entry fails if and only if its words run past the end of the data or its size leaves no room for them |
| IfsLayout.EncodableIs | scripts/mkifs.fsx:72-90 | What the round trip asks of an entry: its numbers fit their fields, its padded size fits 16 bits, and its name holds no zero |
| IfsImage.ImageLength | scripts/mkifs.fsx:248-266 | The image has exactly the size its header records |
| IfsImage.SliceHoldsData | scripts/mkifs.fsx:252-305 | Each recorded offset and size is a slice holding that file's bytes, after the directory and before the trailer |
| IfsImage.SlicesDisjoint | scripts/mkifs.fsx:259-262 | Slices of different files do not overlap |
| IfsImage.DataAlignment | scripts/mkifs.fsx:252-262 | Data starts on a multiple of four, except the first file's, which starts two past one |
| IfsReader.Reader.WalkDirectory | scripts/dumpifs.fsx:54-80 | The reader's loop lists the records that the walk function finds, and stops or fails where it does |
| IfsReader.Reader.Checksums | scripts/dumpifs.fsx:82-95 | The stored checksum and the one recomputed from whole words |
| IfsDump.DumpImage | scripts/dumpifs.fsx:15-95 | Header, directory from its aligned offset and checksums of any byte string, or failure when the header is cut short |
| IfsRoundTrip.CorrectedRoundTrip | scripts/mkifs.fsx:72-111 | With 32 on both sides the walk over a written image lists every entry's fields and path in order and stops at the sentinel |
| IfsRoundTrip.WrittenRoundTripIff | scripts/dumpifs.fsx:54-80 | As written, the listing is right if and only if there are no entries, or one whose name length is a multiple of four |
| IfsRoundTrip.LandsEarly | scripts/dumpifs.fsx:76-80 | As written, after the first entry the reader stands four bytes early, on that entry's last four bytes |
| IfsRoundTrip.ChecksumAgrees | scripts/dumpifs.fsx:82-95 | The recomputed checksum of every written image equals the stored one |
| IfsDump.HeadBack | scripts/dumpifs.fsx:15-33 | The header of every written image reads back field by field, with the mount point |
| IfsDump.DumpRecoversImage | scripts/dumpifs.fsx:15-95 | With 32 on both sides, dumping a written image recovers header, every entry and a matching checksum |
| ProcManager.ProcessManager.Spawn | src/proc/proc.cppm:97-116 | The pid is used up whether or not a thread is granted; the new record and its thread are added |
| ProcManager.ProcessManager.Kill | src/proc/proc.cppm:126-151 | The named process's threads are destroyed in the scheduler and its lists cleared, or nothing changes |
| ProcManager.ProcessManager.Wait | src/proc/proc.cppm:161-170 | Reaps the oldest zombie child and returns its exit code, or nothing changes |
| ProcManager.ProcessManager.Exit | src/proc/proc.cppm:181-196 | The named process's threads are destroyed and its exit code set, resources kept, or nothing changes |
| ProcManager.ProcessManager.ThreadAdd | src/proc/proc.cppm:207-217 | A granted thread joins the named process, whatever its state |
| ProcManager.ProcessManager.CountRunning | src/proc/proc.cppm:244-248 | The number of running processes |
| ProcLaws.SpawnDoes | src/proc/proc.cppm:97-116 | Every field of a new process and of the table; the first pid is 100 |
| ProcLaws.IdleCalls | src/proc/proc.cppm:126-217 | Calls that name no process, waits without a zombie child and refused threads change nothing |
| ProcLaws.CallsReplace | src/proc/proc.cppm:126-217 | Kill, exit and a granted thread replace the record of the first process of that pid, field by field, and no other |
| ProcLaws.TracksAdd | src/proc/proc.cppm:219-242 | Tracked resources are listed in order, each in its own list, and memory is counted modulo 2^64 |
| ProcLaws.WaitDoes | src/proc/proc.cppm:161-170 | A wait makes the oldest zombie child dead and keeps all else of it |
| ProcLaws.EveryRun | src/proc/proc.cppm:97-217 | Over every run pids are unique and rise, running plus zombie plus dead is the number of granted spawns, and each thread created and still live stands once in exactly one process's list |
| ProcLaws.PlacedOnce | src/proc/proc.cppm:97-217 | So no two places in the lists hold one thread, and a thread not from boot is live if and only if some list holds it |
| ProcLaws.StopsThreads | src/proc/proc.cppm:126-196 | Right after kill or exit the process has no thread, the scheduler has lost exactly its threads, and no other process changes |
| ProcLaws.ReapedOnceIff | src/proc/proc.cppm:126-196 | However many waits follow a run, no process is reaped twice, if and only if no kill or exit in the run names a dead process |
| ProcLaws.KillRevives | src/proc/proc.cppm:126-170 | Spawn, kill, wait, kill, wait reaps one process twice |
| ProcLaws.OnlyRunningOwnIff | src/proc/proc.cppm:207-217 | Only running processes own threads after a call if and only if it does not add a thread to an ended process |
| ProcLaws.ExitCodeDelivered | src/proc/proc.cppm:161-196 | Whichever later wait reaps a process hands out the code of its last exit, kills in between notwithstanding |
| ProcLaws.ExitKeepsResources | src/proc/proc.cppm:181-196 | Exit leaves every tracked resource in place; it matches kill if and only if there were none |
| ClockDivisor.Divide | src/hal/hal.cppm:199-203 | The divisor is 4096 * base / rate to the nearest integer, carry included, if and only if the intermediate sum fits 32 bits; wrapped or not it is the one that 32-bit arithmetic arrives at |
| ClockDivisor.SetSampleRate | src/hal/hal.cppm:193-211 | The register writes in order; the divisor register carries password and nearest divisor if and only if the rate is at least 2862 and the sum fits 32 bits |
| ClockDivisor.FitsBelow | src/hal/hal.cppm:202 | No rate up to 1065340 wraps, and 1065341 does |
| ClockDivisor.ErrorAtMostHalf | src/hal/hal.cppm:199-203 | The divisor is off by at most half a unit |
| ClockDivisor.NearestFalls | src/hal/hal.cppm:199-203 | A faster rate never gets a larger divisor |
| ClockDivisor.WordHolds | src/hal/hal.cppm:206 | Password and both fields read back from the register if and only if the integer part has twelve bits |
| ClockDivisor.Sizes | src/hal/hal.cppm:193-206 | The clock, the two registers and the password, and the divisor that 32-bit arithmetic arrives at for every rate, wrapped or not |
| ClockDivisor.WordIs | src/hal/hal.cppm:206 | The register word is the bitwise or of password, integer part and fraction |
| ClockDivisor.OrBits | src/hal/hal.cppm:193-211 | Bit k of a disjunction is set if and only if it is set in either number |
| ClockDivisor.IntegerPartFits | src/hal/hal.cppm:200 | The integer part has twelve bits if and only if the rate is at least 2862 |
| ClockDivisor.SupportedRates | src/hal/hal.cppm:193-206 | Every rate from 2862 to 1065340 meets both conditions |
| BufferTable.Driver.BoAlloc | src/apps/drmmgr.cpp:139-156 | Takes the first free slot, the next handle and the pool's next address, or changes nothing |
| BufferTable.Driver.BoFind | src/apps/drmmgr.cpp:159-164 | The first slot in use with that handle |
| BufferTable.Driver.BoFree | src/apps/drmmgr.cpp:167-174 | Clears that slot only |
| BufferTable.Driver.CreateBo | src/apps/drmmgr.cpp:247-253 | Handle and 32-bit offset of the new object |
| BufferTable.Driver.MmapBo | src/apps/drmmgr.cpp:263-269 | The full address of the object found |
| BufferTable.Driver.GetBoOffset | src/apps/drmmgr.cpp:400-405 | The 32-bit offset of the object found |
| BufferLaws.Sizes | src/apps/drmmgr.cpp:139-156 | 256 empty slots, handles from one, and 256 MiB in pages of 4096 bytes that end where 32-bit addresses do |
| BufferLaws.AlignedIs | src/apps/drmmgr.cpp:140-141 | Sizes are rounded up to a page, except within a page of 2^32, where they round to zero |
| BufferLaws.AllocDoes | src/apps/drmmgr.cpp:139-156 | A grant fills the first free slot and moves handle and pool on; without room nothing changes |
| BufferLaws.FreeDoes | src/apps/drmmgr.cpp:159-174 | A free clears the first slot in use with that handle; without one nothing changes |
| BufferLaws.OneMoreCall | src/apps/drmmgr.cpp:139-174 | Runs, histories and live handles, one call longer |
| BufferLaws.OneMoreObject | src/apps/drmmgr.cpp:139-156 | Total sizes and counts, one object longer |
| BufferLaws.HistoryTiles | src/apps/drmmgr.cpp:139-156 | Over every run all objects ever handed out tile the pool on page boundaries, and their sizes sum to the bump offset |
| BufferLaws.RangesDisjoint | src/apps/drmmgr.cpp:139-174 | No two objects ever handed out overlap, freed ones included |
| BufferLaws.NonEmptyBounded | src/apps/drmmgr.cpp:139-156 | Over every run, whatever the requests, at most 65536 objects that have bytes are ever granted |
| BufferLaws.GrantsBounded | src/apps/drmmgr.cpp:139-156 | At most 65536 allocations of non-zero, non-wrapping sizes ever succeed |
| BufferLaws.HandleOf | src/apps/drmmgr.cpp:146 | Over every run handles count up from one and go round at 2^32 |
| BufferLaws.HandlesDifferIff | src/apps/drmmgr.cpp:146 | All handles ever given out differ if and only if there were at most 2^32 grants |
| BufferLaws.HandlesUnique | src/apps/drmmgr.cpp:159-164 | With fewer than 2^32 grants, a handle finds the one object it was given for, or nothing |
| BufferLaws.LookupIff | src/apps/drmmgr.cpp:159-174 | With fewer than 2^32 grants, a handle finds an object if and only if it was given out and not freed since |
| BufferLaws.GrantedIff | src/apps/drmmgr.cpp:139-156 | With fewer than 2^32 grants, a request is granted if and only if the rest of the pool holds it and fewer than 256 handles are live |
| BufferLaws.OffsetLosslessIff | src/apps/drmmgr.cpp:247-253 | Over every run the 32-bit offset of an object equals its address if and only if the pool was not yet full |
| BufferLaws.NextOffsetLosslessIff | src/apps/drmmgr.cpp:247-253 | The same of the next object, before it is granted |
| BufferLaws.OffsetLossless | src/apps/drmmgr.cpp:247-253 | In particular every object of a page or more keeps its offset |
| BufferLaws.EmptyObjectLosesOffset | src/apps/drmmgr.cpp:247-253 | A zero-byte request on a full pool is granted at 2^32 and shows offset zero |
| Framebuffer.Screen.PutPixel | src/apps/displaymgr.cpp:131-135 | Colours the one word that shows the pixel, or none off the screen |
| Framebuffer.Screen.FillRect | src/apps/displaymgr.cpp:137-142 | Colours exactly the words of the rectangle, taken round at 2^32, that are on the screen, and no other word |
| Framebuffer.CoveredIsIntersection | src/apps/displaymgr.cpp:131-142 | For a rectangle that does not reach 2^32 those words are the pixels of its intersection with the screen, one word each |
| Framebuffer.CoveredIsReached | src/apps/displaymgr.cpp:131-142 | For every rectangle a covered word is the pixel that some step along each side reaches, going round at 2^32; words off the screen are never covered |
| Framebuffer.Screen.Clear | src/apps/displaymgr.cpp:144-148 | Colours every word of the screen's rows and no other |

## Left out

- IEEE rounding and transcendental functions: sample arithmetic is abstract, so laws that need its algebra are not stated.
- The physical-model instruments and native factories (src/dsp/dsp.cppm:1246-1680): a call of one is the opaque result `Foreign`.
- `with` expressions and fixed-delay expressions in parsed trees: the parser never produces either; the first is not modelled at all.
- Nentry nodes: their tick is the slider's, and one leaf stands for both.
- Order of evaluation of the two operands of a combinator: C++ leaves it open; numbers are drawn left to right here.
- Read-only spans passed between nodes are sequence snapshots, so an input span that aliases an output is covered only at the block loops, and there only whole buffers are shared, not parts of them.
- Characters outside ASCII: the tokenizer's character classes are those of the C locale.
- Runs.RunIsDenotation: assumes distinct cells and buffers, which evaluation provides when no loop feeds back more than one signal; with more, a loop may use another node's cell, and then the code need not meet it.
- FoldSoundness.EvalPreservesMeaning: assumes a hygienic program. Hygiene is sufficient and not necessary: it reckons with every call that the text leads to, evaluated or not, and a function may not be called both with and without an argument for one parameter, even in programs where nothing is captured.
- The trap on out of memory: the host build's null return is modelled.
- HeapLibc.Calloc: says nothing of the state once the source writes past the arena, only when that happens.
- HeapLibc.Realloc: likewise; bytes read past the arena are arbitrary.
- The division's `|=` and `| bit` are additions of bits that are clear.
- Parsing of build files, host paths, file reading and console output: the image writer starts from byte strings.
- Directory entries for directories: the build never writes one, so only the reader's branch is modelled.
- Image sizes past 32-bit signed range, and time stamps before 1970: fields are naturals truncated to 32 bits.
- The kernel: the scheduler hands out fresh thread numbers or refuses, and destroys; capability revocation has no effect to model.
- Pid numbers past 2^31, and queries by name: the former is undefined in the source, the latter is the same scan as by pid.
- Polling of the busy bit, and all other hardware effects: register writes are returned values.
- ClockDivisor.Divide: assumes a non-zero rate, since the source divides by it.
- BufferLaws.HandlesUnique: stops short of the run in which handle numbers start again.
- BufferLaws.GrantsBounded: assumes sizes that round to at least a page; zero-byte requests are granted without end, and BufferLaws.NonEmptyBounded leaves them out of the count.
- Framebuffer.Screen.FillRect: assumes that a row's words hold its width and that the last index fits 32 bits, since otherwise rows share words.
- HTTP, SQL, audio decoding, file systems, shell, boot code and stubs: foreign or unfinished code.
