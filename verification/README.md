# Verification of ymd

ymd is a small scripting language with a one-pass compiler to stack bytecode, an interpreter, two map structures, a mark
and sweep collector with a string pool, a serialiser, and a regular expression engine behind its `~=` operator. This
project models these parts in Dafny, in the form of the C code where that works in place, and proves what they are for.
`dafny verify dfyconfig.toml` checks it all.

- **Regular expressions** (`Regex*.dfy`). The compiler that emits, inserts, patches and duplicates strip operators
  (`RegexParse`, `RegexCompile`), the language that strips accept (`RegexStrip`, `RegexPaths`, `RegexCode`), the step of
  the simulation and both scans over byte sets and over the bits of a word (`RegexEngine`, `RegexMatch`, `RegexWord`),
  the mandatory string (`RegexMust`), what small patterns match (`RegexPatterns`), and `~=` from the pattern to the
  answer (`RegexExec`). The specification is the language of the expression's tree, as in sections 9.4.6 and 9.4.7 of
  IEEE Std 1003.1-2017, XBD.
- **Scripts** (`Script*.dfy`, `Vm*.dfy`, `Runtime.dfy`). A reference grammar and a big-step meaning (`ScriptParse`,
  `ScriptMeaning`), the one-pass compiler as a class that appends to its code and fills placeholders (`ScriptCompile`,
  with the rules it relies on in `ScriptRules` and the tables it fills in `VmLimits`), how operators group
  (`ScriptGroups`), printing with the fewest parentheses (`ScriptPrint`, `ScriptParens`, `ScriptWrite`), the code of
  each tree (`VmCode`), the stack machine (`VmMachine`) and what its steps leave on the stack (`VmEffects`), the proof
  that the machine does what the program means (`VmExprs`, `VmStmts`, `VmBlocks`, `VmCorrect`), what `elif` was meant to
  do (`ScriptIntent`), and that emitted code is well formed (`VmHeights`, `VmSound`).
- **Maps** (`HashTable.dfy`, `HashMap.dfy`, `SkipOrder.dfy`, `SkipList.dfy`, `ValueOrder.dfy`). Both are proved against
  a finite map.
- **Memory** (`Collector.dfy`, `StringPool.dfy`). Marking and sweeping over intrusive lists, and the pool of short
  strings on the same lists.
- **Pickle** (`Varint.dfy`, `PickleFormat.dfy`, `Pickle.dfy`, `PickleLoad.dfy`, `PickleTrip.dfy`). Integers of variable
  length, the dump of an object graph with recursion marks, the load onto the operand stack, and both together.

## Findings

What the code does against its purpose, each with an input and the exact condition:

- A last `elif` with no `else` panics once its condition is computed, because the jump over its block is never filled in
  (compiler.c:979-980): `ScriptIntent.OpenElifPanics`; a run differs from what was meant exactly as
  `ScriptIntent.DiffersWhen` and `VmCorrect.ProgramMeant` say.
- A branch of a pattern that repeats all of its operands no time, as `x{0}` does, is rejected as empty, though it has a
  language (3rd/regex/regcomp.c:205, 929-931): `RegexParse.NoTimesRejected`, and exactly when: `RegexParse.EmptyCode`.
- The least integer is pickled as the negative zero and loaded as 0 (encoding.h:8-17): `Varint.SignedRoundTrip`; a
  dumped value is loaded as another one exactly if it holds that integer: `PickleFormat.ZeroedValue`,
  `PickleLoad.DumpLoads`.
- A dump that fails leaves the marks of the objects it was inside of (pickle.c:28-29, 44-46, 66-67), so that a later
  dump of what could be dumped is refused: `Pickle.FailedOnce`, and exactly when: `Pickle.RefusedLater`.
- A load that is refused pops one value, whatever it left on the stack (pickle.c:326-329). This is a value of its caller
  exactly if the input starts with an unknown tag, or with a string that is longer than what follows:
  `PickleFormat.NothingLeft`, `PickleLoad.Input.Pload`, and `PickleLoad.RefusedLoad` for an input. Other refusals take
  nothing from the caller, and leave the stack as it was exactly if what cannot be loaded is a member of the outermost
  array or a key of the outermost map: `PickleFormat.OneLeft`.
- A held object survives a collection but what it refers to is not traced (memory.c:163-218): `Collector.HeldLeaks`, and
  exactly when no reference dangles: `Collector.NoDangling`.
- The compiler's tables for breaks and exits have 128 entries and no check (compiler.c:17-24, 957, 1024). A program that
  the grammar accepts makes it write past the end of one exactly if it is not `ScriptSyntax.BlockRoomy`:
  `ScriptCompile.Compile`, and `ScriptCompile.ManyBreaks` for a loop of 129 breaks.

## Model

| member | source | states |
|---|---|---|
| RegexParse.EreShows | 3rd/regex/regcomp.c:189-378 | what the parser reads as an expression is the tokens of its tree, with the groups numbered in order |
| RegexParse.EreParses | 3rd/regex/regcomp.c:189-378 | the tokens of any tree the grammar allows are read as that tree, and reading stops at its end |
| RegexParse.EmptyCode | 3rd/regex/regcomp.c:201-205 | a branch is rejected as empty exactly if it repeats all of its operands no time |
| RegexParse.NoTimesRejected | 3rd/regex/regcomp.c:929-931 | `x{0}` is rejected, though its language holds the empty word |
| RegexPatterns.RepeatedChar | 3rd/regex/regcomp.c:235-378 | from the tokens to the words: `c`, `c*`, `c+`, `c?`, `c{m,}` and `c{m,n}` match exactly that many of the byte, and bounds are accepted up to 255 |
| RegexPatterns.OneByte | 3rd/regex/regcomp.c:235-378 | `.` matches any one byte, a bracket expression one of its set, a group what is in it |
| RegexPatterns.TwoChars | 3rd/regex/regcomp.c:189-229 | `cd` matches the two bytes in order, `c|d` either |
| RegexCompile.Parse.PEre | 3rd/regex/regcomp.c:189-229 | alternation and concatenation: in place, the strip grows by exactly the code of the tree, the token cursor stops behind it, or the first error is kept |
| RegexCompile.Parse.PEreExp | 3rd/regex/regcomp.c:235-378 | an atom with its repetition: the operand already emitted is wrapped or repeated into the code of the expression |
| RegexCompile.Parse.Repeat | 3rd/regex/regcomp.c:909-975 | the recursion over bounds ends, and turns the operand at the end of the strip into its bounded repetition, leaving all before it alone |
| RegexCompile.Parse.Dupl | 3rd/regex/regcomp.c:1334-1352 | the operators copied are those between the two positions, at the end of the strip |
| RegexCompile.Parse.Insert | 3rd/regex/regcomp.c:1388-1422 | one operator enters at a position and the rest moves up by one |
| RegexCode.EreCorrect | 3rd/regex/regcomp.c:189-229 | the code of a whole alternation, wherever it stands in a strip, accepts exactly the language of its tree, and all offsets stay inside it |
| RegexCode.ExpCorrect | 3rd/regex/regcomp.c:235-378 | the code of an atom with its repetition accepts exactly the language of that expression |
| RegexCode.RepeatExp | 3rd/regex/regcomp.c:909-975 | the code of a bounded repetition accepts exactly the words made of that many words of the operand |
| RegexCode.Repeat1Exp | 3rd/regex/regcomp.c:947-962 | the same where at least one is needed: the nested choices that the duplication builds |
| RegexCode.TailCorrect | 3rd/regex/regcomp.c:216-226 | the alternatives from a branch mark on accept exactly the union of their branches, and the marks chain to the end |
| RegexCode.ExpsCorrect | 3rd/regex/regcomp.c:201-205 | the code of a concatenation, wherever it stands, accepts exactly the words made of one word of each of its expressions in order |
| RegexEngine.Step | 3rd/regex/engine.c:811-923 | the step over byte sets ends, though it goes back at the end of loops, with exactly the least closed set that holds `aft` and what follows the character from `bef` |
| RegexEngine.LeastClosedUnique | 3rd/regex/engine.c:811-923 | there is only one such set, so two steps that meet the specification agree |
| RegexMatch.Match.Slow | 3rd/regex/engine.c:715-794 | the end of the longest match from a place that ends in the range, or none exactly if there is none |
| RegexMatch.Match.Fast | 3rd/regex/engine.c:624-700 | a result exactly if some part of the range is accepted |
| RegexWord.StepWord | 3rd/regex/regexec.c:21-42 | the step over the bits of one word computes the same least closed set |
| RegexWord.Fast | 3rd/regex/regexec.c:21-42 | the scan over words finds a match exactly if there is one, as the scan over bytes does |
| RegexWord.Slow | 3rd/regex/engine.c:715-794 | the longest match over words |
| RegexWord.LongestOnce | 3rd/regex/regexec.c:134-137 | the longest match is determined, so that the small and the large matcher agree on it |
| RegexWord.FwdSet | 3rd/regex/regexec.c:38-38 | shifting the masked bit adds the state ahead exactly if the state here is in the set |
| RegexMust.FindMust | 3rd/regex/regcomp.c:1492-1567 | the pass over the strip follows its specification to the end and takes the longest run it saw |
| RegexMust.MustOccurs | 3rd/regex/regcomp.c:1492-1567 | the pass never finds a compiled strip malformed, and its string occurs in every word of the language |
| RegexMust.MustLongest | 3rd/regex/regcomp.c:1492-1567 | no run of literals that the pass comes to is longer than the string it finds |
| RegexExec.RegComp | 3rd/regex/regcomp.c:102-183 | a pattern compiles exactly if the grammar accepts it, to a strip of its language and a mandatory string |
| RegexExec.Prescreen | 3rd/regex/engine.c:96-104 | a text passes exactly if the mandatory string occurs in it |
| RegexExec.NoMustNoMatch | 3rd/regex/engine.c:96-104 | a text without the mandatory string has no match, so rejecting it changes no answer |
| RegexExec.RegExec | 3rd/regex/regexec.c:107-138 | prescreen and either matcher together answer whether some part of the text is in the language |
| RegexExec.VmMatch | call.c:79-94 | `~=` answers exactly whether some part of the text is in the language of the pattern, and fails exactly for patterns in error |
| ScriptPrint.PrintParses | compiler.c:538-546 | the tokens of any expression tree with as few parentheses as the priorities allow are parsed as that tree, and no more is taken |
| ScriptPrint.PrintInjective | compiler.c:538-546 | no two trees have the same tokens |
| ScriptParens.FewestParens | compiler.c:674-693 | whatever tokens are parsed as an expression have at least the parentheses printed for it, so that none of these can be left out |
| ScriptGroups.TwoOperators | compiler.c:538-546 | `a op b op' c` groups by the written-out levels of the operators, `or`, `and`, the comparisons, `+ -` and `* / %`, and from the left within a level |
| ScriptGroups.UnaryFirst | compiler.c:674-680 | a unary operator takes its operand before any binary operator, on either side of it |
| ScriptWrite.StmtWritten | compiler.c:790-1060 | the tokens printed for any statement are parsed as that statement, whatever statement follows |
| ScriptWrite.ProgramAgain | compiler.c:1091-1107 | whatever program the grammar accepts, the tokens printed for it are parsed as the same program |
| ScriptCompile.Parser.Expr | compiler.c:674-693 | precedence climbing consumes what the grammar says and emits the code of the tree, short circuits included |
| ScriptCompile.Parser.Suffixed | compiler.c:466-493 | fields, indices and calls, left to right |
| ScriptCompile.Parser.ExprStat | compiler.c:790-801 | an assignment or a call statement: the last part of the target is read or stored as what follows decides |
| ScriptCompile.Parser.LocalStat | compiler.c:946-954 | declarations add locals and store their values |
| ScriptCompile.Parser.IfStat | compiler.c:956-981 | the jumps of a chain are filled as its parts come, so that its code is that of the tree |
| ScriptCompile.Parser.ForStat | compiler.c:983-1019 | both loops: at the end the jump back is emitted and all breaks and the `foreach` are filled |
| ScriptCompile.Parser.NextPart | compiler.c:963-976 | the next part of a chain takes an entry in the table of exits, past its end exactly if it had 128, and the jump over the block is filled |
| ScriptCompile.Parser.GotoStat | compiler.c:1021-1031 | `break` leaves a place in the table of its loop, past its end exactly if the loop had 128 breaks before; `continue` jumps back |
| ScriptCompile.Parser.Hack | compiler.c:227-233 | one placeholder becomes a jump to the end of the code, and nothing else changes |
| ScriptCompile.Parser.IntConstant | closure.c:57-66 | the last index of an equal integer, or a new constant |
| ScriptCompile.Parser.StringConstant | closure.c:42-55 | the last index of an equal string of known length, and always a new constant for a name |
| ScriptCompile.Parser.FindLocal | closure.c:93-96 | the first index of a local, or -1 exactly if there is none |
| ScriptCompile.Compile | compiler.c:1091-1107 | a body the grammar accepts is compiled to the chunk of its tree exactly if its loops and chains fit the tables, and else overruns one; any other body fails as the grammar does, or overruns a table before |
| ScriptCompile.ManyBreaks | compiler.c:17-24 | a loop with n breaks overruns its table exactly if n is more than 128 |
| VmLimits.LeavingParses | compiler.c:1021-1027 | the grammar accepts any number of breaks, and the table has room for exactly 128 |
| VmLimits.BlockBreaksCounted | compiler.c:1021-1027 | the table of a loop gets one entry for each break of its body |
| VmLimits.ExitsCounted | compiler.c:963-976 | the table of a chain gets one entry for each part but the last |
| VmSize.BlockFilled | compiler.c:269-287 | filling the places that breaks left gives the code written with the end of the loop known |
| VmChains.ChainEnds | compiler.c:956-981 | filling the jumps of a chain at its end gives the code of the whole chain |
| VmExprs.ExprRuns | call.c:155-485 | the code of an expression leaves its value on the stack, or panics as the expression does |
| VmExprs.LogicRuns | call.c:196-209 | `and` and `or` skip the right operand and keep the left one, or drop it and compute the right one, as their meaning says |
| VmBlocks.StmtRuns | compiler.c:956-1031 | the code of a statement ends as the statement does: behind it, at the exit or the start of its loop, in a return or a panic |
| VmBlocks.BlockRuns | call.c:155-247 | the same for blocks, with the locals and the world that the meaning gives |
| VmBlocks.EachRuns | call.c:213-229 | the rounds of a `for` over an iterator |
| VmCorrect.CompilationPreserves | call.c:155-507 | from any locals, world and operands of callers, the machine stops in a state exactly if the program ends that way |
| VmCorrect.ProgramPreserved | compiler.c:1091-1107 | the same from tokens, for every chunk that the compiler emits within the limits of the machine |
| VmCorrect.ProgramMeant | compiler.c:956-981 | the machine does what was meant if every last `elif` has an `else`, and else unless a run comes to one that has none: then it panics there |
| ScriptIntent.BlockAsMeant | compiler.c:956-981 | the meaning as written is the meaning intended, up to the panic behind the condition of an open `elif` |
| ScriptIntent.DiffersWhen | compiler.c:979-980 | exactly which runs differ, and none of a program whose chains are closed |
| ScriptIntent.OpenElifPanics | compiler.c:979-980 | a program meant to do nothing that panics |
| VmSound.ChunkSound | compiler.c:113-117 | emitted code has one operand height per instruction that agrees over all edges, no jump out of it, and a placeholder exactly if a chain is open |
| VmSound.RunBalanced | state.h:179-211 | over all runs the stack is as high as the place in the code says, no step lacks operands, and those of the callers stay |
| VmSound.CompiledBalanced | call.c:155-507 | the same from the first instruction of any compiled program within the limits |
| VmSound.BlockPanics | compiler.c:207-233 | all placeholders of a block are filled exactly if its chains are closed |
| Runtime.Division | call.c:340-348 | quotient and remainder truncate towards zero and give the dividend back |
| VmEffects.IntegersCombined | call.c:334-372 | one step leaves the 64-bit integer that the sum, the difference or the product wraps around to |
| VmEffects.IntegersDivided | call.c:340-381 | one step leaves the quotient or the remainder of truncation towards zero, and panics for zero |
| VmEffects.StringsJoined | call.c:356-360 | `+` on two strings leaves one after the other |
| VmEffects.OthersPanic | call.c:334-381 | arithmetic on anything else panics |
| VmEffects.ValuesTested | call.c:272-303 | each test leaves the bool that its sign of the comparison asks for |
| VmEffects.StringsMatched | call.c:294-296 | `~=` leaves the answer for two strings, or panics |
| VmEffects.OperandChanged | call.c:304-333 | `-` wraps around, `not` and `!` leave whether the operand is nil or false |
| VmEffects.JumpsTaken | call.c:188-229 | which operands each jump is taken for, where it lands, and what it takes from the stack |
| VmEffects.GlobalsKept | call.c:175-185 | a global is nil before it is stored, and then what was stored, and no other changes |
| VmEffects.StackEnds | state.h:179-184 | a push panics exactly if there are 128 operands |
| HashMap.HMap.Find | hash_map.c:126-143 | lookup in the map that the table stands for, along the chain of the home cell |
| HashMap.HMap.AllocFree | hash_map.c:206-213 | a free cell that is not cell 0, or none exactly if there is none |
| HashMap.HMap.HIndex | hash_map.c:295-313 | a cell for the key in all three cases; writing the key there adds it to the map and disturbs no other entry |
| HashMap.HMap.IndexIfHead | hash_map.c:215-236 | along the chain of the key, with a new cell at its end if it is not there |
| HashMap.HMap.IndexIfNode | hash_map.c:264-293 | the node in the way moves to a free cell with its chain, and the key gets its home |
| HashMap.HMap.Resize | hash_map.c:238-262 | the doubled table stands for the same map, has a free cell, and the recursion through it ends |
| HashMap.HMap.Put | hash_map.c:315-322 | a cell that holds the key, in a map that is otherwise the same; what value is left in it is stated case by case |
| HashMap.HMap.Store | hash_map.c:315-322 | put and assign is the update of the map |
| HashMap.Log2x | hash_map.c:18-25 | the least shift whose power exceeds the count |
| HashTable.EvictShape | hash_map.c:264-293 | after an eviction all chains are disjoint, end, and hold exactly the entries at home in them |
| HashTable.AppendShape | hash_map.c:215-236 | the same after a cell was added to a chain |
| ValueOrder.TotalOrder | value.c:118-150 | the order of values is total: irreflexive, connected and transitive, over nested arrays too |
| ValueOrder.OrderZero | value.c:82-150 | two values compare as equal exactly if they are equal, and swapping them swaps the sign |
| ValueOrder.OrderFirst | value.c:118-150 | which of two values comes first, in the terms of the values alone |
| ValueOrder.Compare | value.c:118-150 | negative exactly if the first value comes first: by type, by number, by the first byte or element that differs, or as a prefix |
| ValueOrder.KzCompare | value.c:159-182 | negative exactly if the first string ends or has the smaller byte where they differ, and positive the other way round |
| ValueOrder.DyayCompare | dynamic_array.c:43-59 | the same for arrays, by their elements |
| ValueOrder.Equals | value.c:82-116 | equality of values, by recursion into arrays |
| ValueOrder.DyayEquals | dynamic_array.c:29-41 | equality of arrays |
| SkipList.Skls.SkFind | skip_list.c:66-77 | lookup in the map that the list stands for, whatever the heights of its nodes |
| SkipList.Skls.Descend | skip_list.c:51-64 | the search notes at each level the last node before the key |
| SkipList.Skls.SkIndex | skip_list.c:51-64 | the node of the key, or a new one linked at every level up to any height from 1 to 16 |
| SkipList.Skls.Append | skip_list.c:35-49 | after linking, each level again runs through exactly the nodes above it, in order |
| SkipList.Skls.Put | skip_list.c:130-137 | the list is sorted and holds the key, and nothing else changed |
| SkipList.Skls.Store | skip_list.c:130-137 | put and assign is the update of the map |
| SkipOrder.RunsUpwards | skip_list.c:51-64 | the keys of a list run upwards in that order |
| Collector.Mark | memory.c:27-126 | marking ends on cyclic graphs; what it marks is reachable, and all that this refers to is marked |
| Collector.Machine.GcMark | memory.c:128-156 | an object is marked exactly if the roots lead to it, and the globals, the locals, the functions called and all operands are |
| Collector.SweepList | memory.c:174-189 | the objects that are marked or held stay linked in their order, with no mark, and the others are counted as freed |
| Collector.Machine.GcKpoolSweep | memory.c:163-193 | every bucket keeps exactly its marked and held strings, in order, and `used` falls by the number freed |
| Collector.Machine.GcSweep | memory.c:195-218 | exactly the objects that were marked or held stay, on both kinds of list, and no mark is left |
| Collector.Machine.Collect | memory.c:220-236 | unless collecting is paused, exactly what is neither held nor in the least set that holds the globals, the locals, the functions called and the operands, and what its members refer to, is freed; and exactly when references stay inside the heap |
| Collector.Machine.GcNew | memory.c:238-247 | a new held object, after a collection of exactly that if room is short; what the machine can come to stays |
| Collector.AllMarked | memory.c:128-156 | marks that are closed, hold the roots and are all reachable are reachability |
| Collector.NoDangling | memory.c:163-218 | no survivor points to a freed object exactly if what held objects refer to stayed |
| Collector.HeldLeaks | memory.c:163-218 | a held object that is left with a reference to a freed one |
| StringPool.KzHash | value.c:152-157 | the loop computes the hash of the whole text in 64 bits |
| StringPool.NewMachine | string.c:66-71 | a new machine has an empty pool, and all of the invariant holds of it |
| StringPool.Lookup | string.c:52-62 | the pooled object of a text, or none exactly if there is none |
| StringPool.Insert | string.c:38-50 | a new string at home in its bucket, after doubling a full pool; all of the invariant is kept |
| StringPool.Resize | string.c:19-36 | twice the buckets, the same strings, each in the bucket of its hash |
| StringPool.Fetch | string.c:111-117 | the pooled object if there is one, else a new one, pooled exactly if it is short |
| StringPool.FetchAll | string.c:52-64 | over any run of fetches without a collection, short strings are the same object exactly if they are equal |
| StringPool.CollectPooled | memory.c:163-193 | a collection keeps the invariant of the pool and leaves exactly the strings that are reachable or held |
| StringPool.SweepKeeps | memory.c:163-193 | what a sweep leaves of the buckets is at home, and no more than before |
| Varint.Uint64Encode | encoding.c:125-178 | the ladder of jumps writes exactly the shortest digits to the base 128, in at most 10 bytes |
| Varint.Uint32Encode | encoding.c:200-224 | the same in at most 5 bytes |
| Varint.Uint64Decode | encoding.c:182-193 | the value and the bytes read, up to the first byte with the top bit clear |
| Varint.Uint32Decode | encoding.c:238-240 | the same cut down to 32 bits |
| Varint.Sint64Decode | encoding.h:46-48 | the signed integer of the word read |
| Varint.RoundTrip | encoding.c:125-193 | what was encoded is decoded, with its length, whatever bytes follow |
| Varint.PrefixFree | encoding.c:125-193 | two encodings with anything after them are equal only if the numbers and the rests are |
| Varint.EncodeLength | encoding.c:125-178 | the digits are as few as can be |
| Varint.EncodeNumber | encoding.c:125-178 | the bytes stand for the number, seven bits each, and the top bit is set in all but the last |
| Varint.SignedRoundTrip | encoding.h:8-28 | every integer of either width comes back but the least one, which comes back as zero |
| Varint.WordRoundTrip | encoding.h:8-28 | every word comes back but 1 |
| Varint.SignedBytes | encoding.h:43-48 | a signed integer comes back from its bytes exactly if it is not the least one |
| Varint.SignedNumber | encoding.h:8-28 | the bytes of an integer stand for twice its magnitude, plus one if it is negative; 1 is written as 2 and -1 as 3 |
| Pickle.Serialize | pickle.c:126-161 | exactly the bytes of what the variable unfolds to are added and all marks are as before, or it fails and leaves the marks of a walk to where it failed |
| Pickle.DumpDyay | pickle.c:26-40 | the same for an array: 6, the number of elements and the bytes of each in order |
| Pickle.DumpTable | pickle.c:42-80 | the same for a hash map or a skip list: 7 or 8, the number of entries in use and the bytes of the key and then of the value of each |
| Pickle.Pdump | pickle.c:163-174 | a string exactly if no cycle, no marked object and nothing foreign can be reached |
| Pickle.UnfoldWrites | pickle.c:126-161 | the bytes of every kind of variable, with the number of its type in front, over the cells of the graph |
| Pickle.DumpsWhen | pickle.c:14-80 | unfolding fails exactly if some walk comes back to itself, meets a mark, or ends at what cannot be dumped |
| Pickle.DumpsUnmarked | pickle.c:14-80 | with no marks, exactly if a cycle or something foreign can be reached |
| Pickle.RefusedLater | pickle.c:26-40 | after a failed dump, exactly which values that could be dumped are refused |
| Pickle.FailedOnce | pickle.c:26-40 | an empty array that cannot be dumped |
| PickleFormat.LoadShow | pickle.c:287-321 | loading the bytes of any tree gives its value, with zero for the least integer, or panics for a nil key, and stops at its end whatever follows |
| PickleFormat.ZeroedValue | encoding.h:8-17 | zero for the least integer changes the value of a tree, keys of maps included, exactly if there is a least integer in it |
| PickleFormat.NothingLeft | pickle.c:287-321 | a refused load leaves nothing of its own on the stack exactly if the input starts with an unknown tag or with a string longer than what follows |
| PickleFormat.OneLeft | pickle.c:186-321 | a refused load leaves exactly one value if a member of the outermost array or a key of the outermost map cannot be loaded, and no other refusal does |
| PickleLoad.Input.ParseVar | pickle.c:287-321 | the load onto the stack does what the format says for any input on which it comes to no function, refusals with what they leave included |
| PickleLoad.Input.LoadDyay | pickle.c:186-196 | elements are added to the array below them, one by one, unless one is a function |
| PickleLoad.Input.LoadTable | pickle.c:263-285 | entries are put into the map below them, one by one, unless one is a function |
| PickleLoad.Input.Pload | pickle.c:323-332 | a value other than nil is left on the stack with the length read; nil and what is refused give 0 and drop one value, of the caller exactly if the input starts badly, and the stack is as before exactly as `OneLeft` says |
| PickleLoad.FirstByte | pickle.c:287-321 | a load that succeeds gives a value of the kind that the first byte asks for |
| PickleLoad.DumpLoads | pickle.c:126-332 | a variable from which no cycle and nothing foreign can be reached is loaded from its dump as the value it unfolds to with zero for the least integer, which is that value exactly if it holds none, as long as no map has a key twice; a nil key panics |
| PickleTrip.DumpAndLoad | pickle.c:126-332 | a dump and then a load: if no map has a nil key, all bytes are taken and nothing of what follows, and the value left is what the variable holds, cell by cell |
| PickleTrip.UnfoldDenotes | pickle.c:126-332 | elements are loaded in their order, and a map with exactly the keys of the entries in use and their values |
| PickleLoad.HasValue | state.h:317-321 | the load of a tree panics exactly if a map in it has a nil key |
| PickleLoad.RefusedLoad | pickle.c:326-329 | a load of an unknown tag takes a value of its caller |

## Left out

- RegexCompile.Parse.PEre: patterns are tokens; splitting characters into them (brackets, digits of a bound, escapes)
  and case folding are not modelled.
- RegexExec.VmMatch: no anchors, word boundary operators or back references; the test for word characters is a parameter
  and a step on a word boundary changes nothing.
- RegexMatch.Match.Fast: the place where a match starts (`coldp`) is kept but nothing is claimed of it, nor of the
  offsets of groups.
- RegexCompile.Parse.Emit: operands and strips are unbounded; the strip holds 26 bits for an offset.
- ScriptCompile.Compile: function literals, binds, map literals, `with` and chained calls in statements are refused as
  outside the model; `with` makes the original loop. What is written past the end of a table is kept beside it, so that
  the model goes on to the end, where it says `Overrun`; of a program in error it is not stated exactly when a table is
  overrun before the error is found.
- VmCorrect.ProgramPreserved: within the widths of the instruction fields and 512 locals, as `InLimits` says; calls,
  field access, comparison and matching are functions given to the machine, which may panic and change the world.
- Runtime.Division: the least integer divided by -1 is undefined in C and traps on common machines; the model wraps the
  quotient around and gives the remainder 0.
- Packing of instructions into words, line numbers, error messages and the lexer are not modelled.
- User functions, the binding of arguments, closures and caught errors are not modelled.
- HashMap.HMap.Put: keys are compared by equality and have equal hashes when equal, as scalars, strings and arrays do;
  map keys are compared by capacity in the original. Running out of memory and the overflow of `log2x` above 2^30
  entries are not modelled.
- SkipList.Skls.SkIndex: the height is any number from 1 to 16; the random source is not modelled. Comparison of skip
  lists and of hash maps is left out, because it is no order.
- Collector.Machine.Collect: whether room is short is a parameter; thresholds, byte counts, statistics and what each
  kind of object frees are not modelled, and an object is the list of objects that its variables refer to.
- StringPool.Fetch: texts end where their length says; the cached hash is recomputed.
- Pickle.Serialize: functions are not dumped; the loader does not consume a tag that the dump of their strings writes.
  `zos_reserved` doubles once only, so that a long string overruns the original's buffer; here the output is unbounded.
- Pickle.DumpTable: a skip list is the sequence of its nodes; all their entries count as used.
- PickleLoad.Input.ParseVar: loads of functions (tag 5, pickle.c:243-261 and 302-304) are outside the model; an input
  that comes to one has the outcome `Outside`, of which nothing is claimed. Reading past the end of the input, and an
  array or a string with a count of 2^31 or more, have the outcome of undefined behaviour; the operand stack is
  unbounded, and keys that are maps are compared as values.
