# Verified models of seven Plan 9 components

A Dafny model, with proofs, of the parts of the Plan 9 tree where a short program has to meet a
demanding specification:

- **yacc** (`YaccDerivation`, `YaccGrammar`, `YaccClosure`, `YaccLr`, `YaccViable`, `YaccStates`, `YaccTurns`,
  `YaccGenerator`, `YaccLalr`, `YaccLostMark`, `YaccGoto`, `YaccTables`, `YaccPipeline`): from the production memory
  to the packed tables.  Which nonterminals vanish and what can begin them is compared with derivations; the states with
  the viable prefixes of the grammar, by way of the LR(0) automaton; the lookaheads with those of the LR(1) automaton;
  the packed arrays with the automaton.  `YaccPipeline.Yacc` chains all of it: a grammar is refused exactly if some
  nonterminal has no production or derives no token string; if then no table overflows, the states are those of the
  viable prefixes, it is known which lookaheads they have, and the arrays written out agree with the automaton at every
  state and symbol.  A table that overflows holds just the rows placed so far, each at the first place that takes it,
  and has no place for the next.
- **sort** (`SortRadix`, `SortKey`, `SortWritten`, `SortMerge`, `SortNumeric`, `SortPlain`): the in-place radix sort with its shared
  counters, the byte keys of lines and of numbers compared with the lines and with the real numbers the fields denote,
  the external merge, and all of it together for `sort`, `sort -r`, `sort -n` and `sort -g`.
- **lib9p** (`NineRequests`, `NineRuns`, `NineWaiting`, `NineFids`, `Intmap`, `FileTree`): messages, requests,
  flushes and fids as a state machine cut at the lock boundaries, with theorems over every run; the hash map;
  the file tree.
- **libavl** (`Avl`): insertion and deletion on nodes with parent links.
- **libaml** (`AmlHeap`, `AmlField`): the mark-sweep collector over a cyclic graph, and bit fields in buffers.
- **ramfs** (`Ramfs`): a file kept in 64K extents behaves as a flat string of bytes.
- **libdraw** (`DrawRect`): the overflow tests on rectangles, with 32-bit wrap-around.

`Common` holds what several of them share.

Code that changes things in place is modelled by classes, arrays and loops with the same branches, each
proved against a specification; the server protocol, whose processes interleave, by atomic steps.  C integers are
modelled with their width where it decides something (`DrawRect`, the exponent in `SortKey`, the words of
`AmlField`); elsewhere they are unbounded.  Conditions that end a program with a message (a table that
overflows, a grammar that is refused) make a method return `ok == false`, and its contract says when.

Seven findings are stated as theorems, each with the exact condition under which the code does what is expected:

- A Tflush may never be answered.  It is stuck, whatever happens, exactly when the chain of requests it waits for
  enters a cycle (`NineWaiting.StuckExactly`): when it names its own tag, or when flushes name one another
  (`NineWaiting.StuckFlushesHappen`).  When the server and its handlers have done all they can, every other
  request has been answered (`NineWaiting.AnsweredUnlessCyclic`).
- A Tflush may be answered before the message it names, although that was read first: a message gets its request
  only after the read lock has been released (`NineWaiting.FlushOvertakes`).  The order is certain exactly
  if that request was made before the flush looked it up (`NineWaiting.FlushOrderExact`).
- The scaled exponent in a numeric sort key has 16 bits.  The key of a number compares right with those of all numbers
  that fit exactly if it fits (`SortKey.FitsExactly`); with -g the fields 1 and 1e49087 sort the wrong way
  round (`SortKey.WideExponentWraps`).
- A file without an index that is grown by setting its length reads as empty (`Ramfs.GrownEmptyReadsEmpty`,
  `Ramfs.CutAndGrownReadsEmpty`); `Ramfs.File.Truncfile` says exactly when there is an index and
  `Ramfs.File.Fsread` what is read with and without one.
- For the widest rectangle that `badrect` accepts, 32 bits deep and counted in words, `unitsperline` computes an
  intermediate value outside the range of an int (`DrawRect.WidestAccepted`), contrary to the comment
  at sys/src/libdraw/badrect.c:5-13; that is the only case (`DrawRect.OverflowsOnlyWidest`), and with
  wrap-around the result is right even then (`DrawRect.UnitsPerLineExact`).
- A state may keep lookaheads to itself.  If in its own turn it gains a lookahead over a goto to itself and a reduction
  by an item outside its kernel comes later in the working set, the mark that it must be done again is lost
  (`YaccTurns.LostExactly`).  So for the productions `S: 'a' S 'b'` and `S:`, in this order, the state after `'a' S`
  never gets the lookahead `'b'` (`YaccLostMark.LookaheadIsLost`, `YaccPipeline.NestedLoses`).  The lookaheads are the
  LALR(1) lookaheads exactly if every state has sent on all it has (`YaccLalr.LalrExactly`), which each does unless it
  lost its mark (`YaccGenerator.Generator.Stagen`); hence for every grammar in which no state has both a goto to
  itself and such a reduction (`YaccLalr.UntangledIsExact`), and for every grammar without empty productions; a state
  that has both may still send on all it has.
- `cempty` reads past the end of production 0, which ends in 0 and not in a negative cell.  So `$accept` is marked
  exactly if the start symbol and both sides of production 1 derive token strings
  (`YaccGrammar.MarkProductive`), and can stay unmarked although it derives one (`YaccGrammar.AcceptUnmarked`);
  if every other nonterminal derives one it is marked (`YaccGrammar.AcceptMarkedToo`).

## Model

| member | source | states |
|---|---|---|
| `YaccFirst.ClosedFirstExact` | sys/src/cmd/yacc.c:722-768 | first sets that are sound and closed under the productions are exactly the tokens that begin some string derived from each nonterminal |
| `YaccGrammar.Cpres` | sys/src/cmd/yacc.c:691-717 | for each nonterminal its productions in order; fails exactly when some nonterminal has none |
| `YaccGrammar.MarkProductive` | sys/src/cmd/yacc.c:878-895 | a nonterminal other than `$accept` is marked exactly when it derives a string of tokens; `$accept` exactly when the start symbol, the left side of production 1 and its right side, which its scan runs on through, do |
| `YaccGrammar.AcceptMarkedToo` | sys/src/cmd/yacc.c:897-905 | if every other nonterminal derives a string of tokens, so does what the scan of production 0 looks at, and `$accept` is marked, so that skipping it in the check is harmless |
| `YaccGrammar.AcceptUnmarked` | sys/src/cmd/yacc.c:883-895 | a grammar in which `$accept` derives a string of tokens and is not marked: production 1 is `A: A` |
| `YaccGrammar.MarkEmpty` | sys/src/cmd/yacc.c:914-933 | the marks are exactly the nonterminals that derive the empty string |
| `YaccGrammar.Cempty` | sys/src/cmd/yacc.c:872-934 | the grammar is accepted exactly when every nonterminal derives a string of tokens, and then the marks say exactly which derive the empty string |
| `YaccGrammar.Cpfir` | sys/src/cmd/yacc.c:722-768 | each first set holds exactly the tokens that begin a string derived from the nonterminal |
| `YaccClosure.Closure` | sys/src/cmd/yacc.c:1017-1127 | the working set ends up as the least closed set of items around the kernel, kernel first, the productions of each nonterminal in order, flags down, with lookaheads on the least closed family of lookahead sets; it overflows only if every closed set around the kernel has items beyond it and too many |
| `YaccClosure.LeastItemsUnique` | sys/src/cmd/yacc.c:1017-1127 | there is only one least closed set of items, so the closure has the same items with and without lookaheads |
| `YaccLr.LeastItemsIsClosure0` | sys/src/cmd/yacc.c:1017-1127 | what `closure` computes is the LR(0) closure of the kernel's items |
| `YaccLr.Kern1Items` | sys/src/cmd/yacc.c:939-1012 | forgetting lookaheads, the LR(1) kernel of a path is its LR(0) kernel |
| `YaccLr.ClosureJustified` | sys/src/cmd/yacc.c:1017-1127 | if each lookahead of a kernel stands in the LR(1) kernel of some path to it, each lookahead of its closure stands in the LR(1) closure of some such path |
| `YaccLr.GotoJustified` | sys/src/cmd/yacc.c:987-997 | a lookahead carried over a symbol stands in the LR(1) kernel of some path to the new kernel |
| `YaccLr.OverflowIsUnfit` | sys/src/cmd/yacc.c:1097-1098 | if the working set overflows, the LR(0) closure of the kernel is larger than the kernel and does not fit |
| `YaccLr.ClosedIsFit` | sys/src/cmd/yacc.c:1097-1098 | if it does not, the closure fits |
| `YaccViable.FromRight` | sys/src/cmd/yacc.c:1017-1127 | whatever derives a string of tokens does so by a rightmost derivation |
| `YaccViable.ViableExactly` | sys/src/cmd/yacc.c:939-1012 | a path of symbols leads to a nonempty kernel exactly if it is a viable prefix: some rightmost derivation from `$accept` shows it to the left of a string of tokens |
| `YaccPipeline.SpreadMeaning` | sys/src/cmd/yacc.c:1052-1074 | a token is passed to the items of a nonterminal exactly when what follows derives a string that begins with it, or derives the empty string and the token is a lookahead |
| `YaccStates.SortKernel` | sys/src/cmd/yacc.c:783-796 | the kernel comes out sorted, a permutation of what went in |
| `YaccStates.NewIsDifferent` | sys/src/cmd/yacc.c:799-834 | a kernel unlike all on the chain of its symbol is unlike every state there is |
| `YaccGenerator.Generator.State` | sys/src/cmd/yacc.c:773-847 | the result is the one state with the items of the candidate; its lookaheads are those it had and the candidate's, no others; it must be done again exactly if it is new or gained any; every other state is as it was; it fails only if paths lead to NSTATES different kernels or more |
| `YaccGenerator.Generator.MergeIn` | sys/src/cmd/yacc.c:816-829 | lookaheads are joined item by item, and the state is to be done again exactly if one is gained |
| `YaccStates.Apack` | sys/src/cmd/yacc.c:2238-2287 | the row is laid at the first offset where it fits; no nonzero cell changes, nor any cell but those of the row, and every nonzero entry can be read at the offset returned; it fails exactly if there is no offset at which the row fits |
| `YaccGenerator.Generator.DoState` | sys/src/cmd/yacc.c:970-1009 | one turn: every state has just the lookaheads it had and those that the closure of this one sends it; any other state must be done exactly if it is new or gained one, or had to be before; this one exactly if it gained one from itself and no reduction outside its kernel came after that; all gotos are registered and packed; lookaheads or states are gained, or one state less has to be done; it fails only if a closure does not fit, there are too many kernels, or a table that holds just the rows of other states has no room for the row |
| `YaccGenerator.Generator.Stagen` | sys/src/cmd/yacc.c:939-1012 | it ends; if it succeeds, the kernels registered are those that paths of symbols lead to, all of them, each once, with only justified lookaheads, made by turns from the start state; each state has sent all its closure carries to its gotos, or has lost its mark; every closure fits and there is a place for every kernel; if it fails, some reached kernel's closure does not fit, there are too many reached kernels, or the action table, which holds the rows of some states, each at the first place where it fits, and nothing else, has no room for the row of another |
| `YaccTurns.LostExactly` | sys/src/cmd/yacc.c:970-1001 | a state that has gained lookaheads in its own turn need not be done again if and only if the gain comes before a reduction by an item outside the kernel |
| `YaccTurns.TurnSettles` | sys/src/cmd/yacc.c:970-1009 | every turn keeps: a state that need not be done has sent on all that its closure carries, or has lost its mark |
| `YaccTurns.MadeIsSettled` | sys/src/cmd/yacc.c:939-1012 | so it is after any number of turns, in any order |
| `YaccLalr.LalrExactly` | sys/src/cmd/yacc.c:939-1012 | the lookaheads are exactly those of the LR(1) automaton, merged over all paths to the kernel, if and only if every state has sent on all it has |
| `YaccLalr.LostIsTangled` | sys/src/cmd/yacc.c:981-986 | a state can lose its mark only if its kernel has a goto to itself and its closure a reduction by an item outside the kernel |
| `YaccLalr.UntangledIsExact` | sys/src/cmd/yacc.c:939-1012 | if no kernel that a path leads to has both, the lookaheads are the LALR(1) lookaheads |
| `YaccLalr.NoEmptySidesUntangled` | sys/src/cmd/yacc.c:981-986 | no kernel has both if no production is empty |
| `YaccLostMark.LookaheadIsLost` | sys/src/cmd/yacc.c:981-986 | for the productions S to a S b and S to nothing, however the states are made, the one after a S lacks the lookahead b, which the LR(1) automaton has |
| `YaccStates.FindState` | sys/src/cmd/yacc.c:799-834 | with lookaheads off, a kernel that is registered is found |
| `YaccStates.OutputShifts` | sys/src/cmd/yacc.c:2173-2190 | in the second pass each token with a goto gets the state of that kernel and each other token 0; it never fails: the kernel is always found, so the message at line 834 cannot appear, and the working set cannot overflow |
| `YaccGoto.CornersDecide` | sys/src/cmd/yacc.c:2351-2370 | the left-corner marks decide from the kernel alone whether its closure has an item before the nonterminal |
| `YaccGoto.Go2gen` | sys/src/cmd/yacc.c:2344-2392 | from the packed rows, in which cells are shared, the goto of every state over the nonterminal is recovered, and 0 where there is none |
| `YaccGoto.BestDefault` | sys/src/cmd/yacc.c:2302-2323 | the default is a most frequent nonzero goto, 0 only if all are |
| `YaccGoto.Yychk` | sys/src/cmd/yacc.c:414-421 | each state gets the symbol it is entered over |
| `YaccTables.ShiftReadsBack` | sys/src/cmd/yacc.c:2781-2843 | in a packed table the lookup of a placed state and any token gives the row's target, and 0 for a token the row does not list |
| `YaccTables.GotoReadsBack` | sys/src/cmd/yacc.c:2739-2779 | in a packed table the lookup of a nonterminal and any state gives the row's target, or the default if the row does not list the state |
| `YaccTables.FilledRowIsShared` | sys/src/cmd/yacc.c:2804-2825 | a row that is found filled in at the offset of another state of the same length is that state's row |
| `YaccTables.StateRowKeepsPacked` | sys/src/cmd/yacc.c:2781-2843 | placing a shift row in cells that are free or agree disturbs no row placed before |
| `YaccTables.GotoRowKeepsPacked` | sys/src/cmd/yacc.c:2739-2779 | placing a goto row in free cells disturbs no row placed before |
| `YaccTables.StateKeepsFirstFit` | sys/src/cmd/yacc.c:2781-2843 | placing a state at the first offset that takes it leaves every other row at the first place that takes it |
| `YaccTables.GotoKeepsFirstFit` | sys/src/cmd/yacc.c:2739-2779 | so does entering a goto row at the first cell that takes it |
| `YaccTables.Optimizer.Nxti` | sys/src/cmd/yacc.c:2848-2870 | the row returned is a greediest one, and NOMORE comes exactly when none is waiting |
| `YaccTables.Optimizer.Stin` | sys/src/cmd/yacc.c:2781-2843 | the table stays packed with every row at the first place that takes it, no cell in use changes, and just this state gets an offset; it fails, changing nothing, exactly if at no offset the cells agree and the states placed there have the same row |
| `YaccTables.Optimizer.Gin` | sys/src/cmd/yacc.c:2739-2779 | the table stays packed with every row at the first place that takes it, no cell in use changes, and just this nonterminal gets an offset; it fails, changing nothing, exactly if there is no cell from which all the cells needed are free |
| `YaccTables.Optimizer.CallOpt` | sys/src/cmd/yacc.c:2621-2737 | it ends; afterwards every lookup in the array written out gives what the rows say, and states share an offset only if their rows are the same; it fails only if the array, which holds just the rows placed, each at the first place that takes it, has no place for some other row |
| `YaccPipeline.MakeRows` | sys/src/cmd/yacc.c:2162-2233 | the rows handed on say of each state and symbol where the automaton goes, less the shifts lost to conflicts; this cannot fail |
| `YaccPipeline.PackedRight` | sys/src/cmd/yacc.c:2709-2737 | if every lookup gives what the rows say, the tables agree with the automaton |
| `YaccPipeline.TablesSimulate` | sys/src/cmd/yacc.c:2709-2737 | along any path of symbols with a nonempty kernel and no dropped shift, the packed tables lead from state 0 to the state with that kernel |
| `YaccPipeline.PrefixFollowed` | sys/src/cmd/yacc.c:2709-2737 | the packed tables lead along every viable prefix of the grammar on which no shift was given up |
| `YaccPipeline.Context` | sys/src/cmd/yacc.c:383-385 | the grammar is refused exactly if some nonterminal has no production or, but for `$accept`, derives no token string; otherwise the context has its production memory, for each nonterminal just the starts of its productions, in order, and exact vanishing and first tables |
| `YaccPipeline.Automaton` | sys/src/cmd/yacc.c:386-387 | every path that leads anywhere leads to a state, every state is finished, and the lookaheads are those made by turns from the start state, LALR(1) exactly if all has been sent on; failure only by one of the three overflows, with the table as it then is |
| `YaccPipeline.StatesAreViable` | sys/src/cmd/yacc.c:386-387 | a path leads to a state exactly if it is a viable prefix of the grammar, and some viable prefix leads to each state |
| `YaccPipeline.Pack` | sys/src/cmd/yacc.c:391 | the tables packed agree with the automaton; failure only if the array, which holds just the rows placed, each at the first place that takes it, has no place for another |
| `YaccPipeline.Yacc` | sys/src/cmd/yacc.c:378-395 | for every well-formed grammar: refused exactly if not acceptable; else a context of just that grammar, and, if none of the four tables overflows, states that are those of its viable prefixes, lookaheads made by turns from the start state and known to be LALR(1) exactly if all has been sent on, and packed tables that agree with the automaton at every state and symbol; overflow only as described for the parts |
| `YaccPipeline.NestedLoses` | sys/src/cmd/yacc.c:378-395 | the grammar above is accepted, and whenever states are made for it, the one after a S is there and lacks the lookahead b |
| `SortRadix.Bsort4` | sys/src/cmd/sort.c:1702-1757 | the piece comes out sorted, a permutation of what it was; nothing outside it changes |
| `SortRadix.CountPass` | sys/src/cmd/sort.c:1600-1623 | the counters hold how many keys have each byte, or end, at this place, and the bounds enclose every byte met |
| `SortRadix.LayoutPass` | sys/src/cmd/sort.c:1625-1649 | each class gets a stretch of its size, the stretches in order of the bytes, and the list names each nonempty class once |
| `SortRadix.ChasePass` | sys/src/cmd/sort.c:1651-1679 | after chasing every cycle each record is in the stretch of its class, those of class 256 included; the counters of the bytes are zero; the records are a permutation |
| `SortRadix.SortClasses` | sys/src/cmd/sort.c:1681-1695 | with the counters zero before and after each recursive call, the whole piece is sorted |
| `SortRadix.Rsort4` | sys/src/cmd/sort.c:1591-1696 | it ends; the piece comes out sorted, a permutation; the shared counters are zero again |
| `SortRadix.Sort4` | sys/src/cmd/sort.c:1582-1589 | the first `n` records come out as the same records in the order of `kcmp`; the others stay; the counters are zero again |
| `SortRadix.KcmpDrop` | sys/src/cmd/sort.c:495-508 | the comparison of keys that agree on their first bytes is decided by the rest |
| `SortKeyValue.MagnitudeOrder` | sys/src/cmd/sort.c:1012-1210 | a number with the smaller scale, or the same scale and smaller significant digits, has the smaller magnitude, as real numbers |
| `SortKey.KeyOrder` | sys/src/cmd/sort.c:1012-1210 | the key of the smaller value comes first, with -r last |
| `SortKey.EqualValuesEqualKeys` | sys/src/cmd/sort.c:1012-1210 | however a value is written, its key is the same |
| `SortKey.KcmpComparesValues` | sys/src/cmd/sort.c:495-508 | if the scaled exponents fit 16 bits, the sign of the comparison of two keys is that of the difference of the values, reversed by -r; keys are equal exactly when values are |
| `SortKey.FitsExactly` | sys/src/cmd/sort.c:1200-1208 | the key of a number compares right with those of all numbers that fit 16 bits exactly if the number fits; if not, it has the key of another value |
| `SortKey.KeysPrefixFree` | sys/src/cmd/sort.c:1012-1210 | no numeric key is a proper prefix of another, as the radix sort needs |
| `SortKey.PowersThatFit` | sys/src/cmd/sort.c:1026-1208 | the powers of ten that fit are those from 10 to the -16449 up to 10 to the 49086 |
| `SortKey.WideExponentWraps` | sys/src/cmd/sort.c:1200-1208 | beyond 16 bits the order is lost: with -g the field 1e49087 has a key that sorts before that of 1 |
| `SortKey.StepMeans` | sys/src/cmd/sort.c:1029-1153 | each character read leaves the number that the field denotes as it was |
| `SortKey.StepTracks` | sys/src/cmd/sort.c:1029-1153 | after each character the digits written, the zeros held back, the point and the exponent agree with what has been read |
| `SortKey.ScanField` | sys/src/cmd/sort.c:1029-1153 | at the end of the loop the variables determine the key of the number in the field |
| `SortKey.DokeyGn` | sys/src/cmd/sort.c:1012-1210 | the key of the number at the front of the field is appended, whatever the field holds and however often the exponent overflows its 32 bits |
| `SortWritten.ReadsWritten` | sys/src/cmd/sort.c:1029-1153 | blanks, a sign, blanks, digits, a point and digits, with -g and a mantissa other than zero an exponent, and a rest that cannot go on: the number read is the number written, byte by byte |
| `SortWritten.EveryFieldIsWritten` | sys/src/cmd/sort.c:1029-1153 | every string of bytes can be taken apart in this way |
| `SortMerge.Mergefiles` | sys/src/cmd/sort.c:419-493 | sorted runs become one sorted run with all their lines, with -u one line for each key |
| `SortMerge.Drain` | sys/src/cmd/sort.c:457-480 | while the first run is written out, the lines written and those left remain what is asked for, and at least one line is written |
| `SortMerge.MergedStands` | sys/src/cmd/sort.c:390-417 | replacing some runs by their merge leaves runs that stand for the same lines, with -u too |
| `SortMerge.MergeTen` | sys/src/cmd/sort.c:397-414 | ten runs become one at the end of the list, made from just those ten, and what is left stands for all the lines |
| `SortMerge.Mergeout` | sys/src/cmd/sort.c:390-417 | it ends although the list grows; run number k, given or made, goes into merge number k/10 and no other, each merge has the lines of its runs, and the last goes to the output, which is what is asked for |
| `SortMerge.Tempout` | sys/src/cmd/sort.c:296-325 | the lines in memory become a sorted run with the same lines |
| `SortMerge.Printout` | sys/src/cmd/sort.c:510-527 | the lines in memory come out sorted, with -u one for each key |
| `SortMerge.ReadLines` | sys/src/cmd/sort.c:191-228 | the runs spilled and the lines in memory are together the lines read |
| `SortMerge.Sort` | sys/src/cmd/sort.c:130-189 | for any size of memory the output is the sorted lines, with -u one for each key |
| `SortNumeric.SortNumbers` | sys/src/cmd/sort.c:1386-1445 | `sort -n` and `-g` on any lines: the output is the lines, with -u one for each key; the keys are those of the numbers written in the lines; if these fit, it is in the order of their values, reversed by -r, with -u one line for each value |
| `SortNumeric.LinesAreWritten` | sys/src/cmd/sort.c:1386-1445 | any lines can be taken apart as numbers are written, so what is said of the numbers in them is said of all lines |
| `SortPlain.Dokey` | sys/src/cmd/sort.c:1370-1384 | the line and a 0 are appended |
| `SortPlain.DokeyR` | sys/src/cmd/sort.c:1341-1367 | the complement of that is appended |
| `SortPlain.PlainPrefixExactly` | sys/src/cmd/sort.c:5-8 | one key is a proper prefix of another exactly if the line followed by a NUL byte begins the other line |
| `SortPlain.PlainKeyOrder` | sys/src/cmd/sort.c:495-508 | otherwise keys compare as the lines do byte by byte, the other way round with -r |
| `SortPlain.PlainEqualExactly` | sys/src/cmd/sort.c:495-508 | two lines compare equal exactly if they are the same or one followed by a NUL byte begins the other |
| `SortPlain.RecsFreeExactly` | sys/src/cmd/sort.c:5-8 | the radix sort can be used on lines exactly if none followed by a NUL byte begins another |
| `SortPlain.NulFreeRunsNot` | sys/src/cmd/sort.c:5-8 | none does if there are no NUL bytes |
| `SortPlain.SortLines` | sys/src/cmd/sort.c:1386-1445 | `sort` and `sort -r` on such lines: the output is the lines in the order of their bytes, reversed by -r, with -u each once |
| `NineRequests.StepKeepsShape` | sys/src/lib9p/srv.c:51-105 | every step of every process, from reading a message to freeing its request, keeps the relations between tags, locks, queues and requests |
| `NineRuns.StepKeepsReplies` | sys/src/lib9p/srv.c:863-939 | every step keeps the relation between requests and the replies written |
| `NineRuns.StepKeepsRefs` | sys/src/lib9p/req.c:38-104 | every step keeps each count equal to the number of holders |
| `NineRuns.AnsweredOnce` | sys/src/lib9p/srv.c:863-939 | in every run each reply carries the tag of its request, and no request is answered twice |
| `NineRuns.TagNamesUnanswered` | sys/src/lib9p/srv.c:51-105 | in every run an accepted request without a reply is the one its tag maps to, also when its tag is used again, until `respond` drops the tag under the write lock |
| `NineRuns.FreedWhenReleased` | sys/src/lib9p/req.c:66-104 | in every run the count of a request is its map entry, its process and the flushes that named it, and it is freed exactly when that is zero |
| `NineRuns.NeverTouchesFreed` | sys/src/lib9p/srv.c:863-939 | no step of any run works on a request that has been freed |
| `NineRuns.OthersUnchanged` | sys/src/lib9p/srv.c:863-939 | a step changes no request but those it is said to work on |
| `NineWaiting.RunLength` | sys/src/lib9p/srv.c:863-939 | no run takes more than 15 steps for each message read: the server and its handlers come to an end with what they have read |
| `NineWaiting.RestMeansWaiting` | sys/src/lib9p/srv.c:863-939 | when no process can move a request on, each request is finished, or the chain of requests it waits for ends at one that is with its handler, or enters a cycle: no wake-up is lost |
| `NineWaiting.AnsweredUnlessCyclic` | sys/src/lib9p/srv.c:863-939 | when the handlers have answered too and nothing can move, a request has its reply exactly if the chain it waits for does not enter a cycle |
| `NineWaiting.StuckExactly` | sys/src/lib9p/srv.c:257-288 | at any time, a request will never be answered, however the run goes on, exactly if the chain of requests it waits for enters a cycle |
| `NineWaiting.SelfFlushNeverAnswered` | sys/src/lib9p/srv.c:277-281 | a Tflush that names its own tag waits for itself and is never answered |
| `NineWaiting.MutualFlushNeverAnswered` | sys/src/lib9p/srv.c:277-281 | two Tflush that name each other wait for each other and are never answered |
| `NineWaiting.StuckFlushesHappen` | sys/src/lib9p/srv.c:257-288 | runs in which the two happen |
| `NineWaiting.FlushAfterReply` | sys/src/lib9p/srv.c:257-288 | a request made before the flush that names it looks it up is answered before the flush, however the processes interleave |
| `NineWaiting.FlushOrderExact` | sys/src/lib9p/srv.c:59-75 | as long as the flush has not looked up and is not stuck, every continuation answers the message it names first exactly if the request for that message has been made |
| `NineWaiting.FlushOvertakes` | sys/src/lib9p/srv.c:59-75 | a run in which a message is read before the flush that names it and answered after it |
| `NineFids.MapAfterMsg` | sys/src/lib9p/srv.c:196-370 | a message that succeeds binds its new fid number to a new fid, one that fails leaves the map alone, a clunk or remove always unbinds |
| `NineFids.HeldAfterMsg` | sys/src/lib9p/srv.c:196-370 | which fids each message leaves its request holding, in its fid, newfid and afid fields, in terms of the map before it and the outcome |
| `NineFids.CountAfterMsg` | sys/src/lib9p/fid.c:35-81 | the count of every fid goes up by the fields that hold it now; a fid taken out of the map passes that reference to the request |
| `NineFids.UseHolds` | sys/src/lib9p/srv.c:488-496 | a message that uses a bound fid holds that fid and no other, its count is one more, and nothing else changes; with an unknown fid nothing changes at all |
| `NineFids.Release` | sys/src/lib9p/req.c:66-104 | a freed request lets go of its fids, and the counts of all fids stay right |
| `NineFids.Do` | sys/src/lib9p/fid.c:35-81 | every step of the server keeps the count of every fid equal to its map entry plus the requests that hold it |
| `NineFids.FidFreedWhenReleased` | sys/src/lib9p/fid.c:35-81 | in every run the count of a fid is its map entry plus the request fields that hold it, and it is destroyed exactly when that is zero |
| `NineFids.HeldFidsLive` | sys/src/lib9p/fid.c:56-75 | in every run no live request and no map entry names a destroyed fid, and a freed request holds none |
| `NineFids.HeldWhileLives` | sys/src/lib9p/req.c:66-104 | once its message has been dealt with, a request holds the same fids for as long as it lives |
| `NineFids.HeldFidStays` | sys/src/lib9p/fid.c:56-75 | whatever happens meanwhile, clunks included, a fid that a message left its request holding is not destroyed before the request is freed |
| `NineFids.UsedFidStays` | sys/src/lib9p/srv.c:488-496 | so the fid that a read or write finds stays until that request is freed |
| `Intmaps.Intmap.Llookup` | sys/src/lib9p/intmap.c:68-77 | the cell of the key is found exactly when the key is bound, together with the link that leads to it |
| `Intmaps.Intmap.LookupKey` | sys/src/lib9p/intmap.c:85-99 | the value of the key in the map, or none |
| `Intmaps.Intmap.InsertKey` | sys/src/lib9p/intmap.c:101-124 | the key is bound to the new value, and the old value is returned |
| `Intmaps.Intmap.CanInsertKey` | sys/src/lib9p/intmap.c:126-147 | the key is bound exactly if it was not |
| `Intmaps.Intmap.DeleteKey` | sys/src/lib9p/intmap.c:149-164 | the key is unbound and its value returned; all other keys keep theirs |
| `FileTree.CreateKeeps` | sys/src/lib9p/file.c:180-250 | creation keeps the counts of entries, unique names, creation order, the reference counts and every reader's progress |
| `FileTree.RemoveKeeps` | sys/src/lib9p/file.c:123-178 | removal keeps the same |
| `FileTree.CleanKeeps` | sys/src/lib9p/file.c:76-107 | dropping the empty entries keeps the same |
| `FileTree.Tree.constructor` | sys/src/lib9p/file.c:303-347 | a new tree has just a root, an empty directory named / that is its own parent |
| `FileTree.Tree.Createfile` | sys/src/lib9p/file.c:180-250 | it succeeds exactly in a directory that is in the tree and has no file of that name; the new file has the name, kind and parent asked for, the next qid path and an empty list, and comes last in its directory; no other file changes |
| `FileTree.Tree.CreateWalkOpen` | sys/src/lib9p/file.c:180-279 | a file that was created is found by a walk to its name, unless that is .., and can be opened as a directory exactly if it was to be one |
| `FileTree.Tree.Removefile` | sys/src/lib9p/file.c:123-178 | it succeeds exactly for a file other than the root that is in the tree and has no children; the directory lists the others in the same order, no list names it, no other file changes; the caller's reference goes in every case |
| `FileTree.Tree.Walkfile1` | sys/src/lib9p/file.c:252-279 | the result is the parent, or the file of that name in the directory, or none if there is none; one reference moves from the directory to it |
| `FileTree.Tree.Closefile` | sys/src/lib9p/file.c:109-116 | one reference goes, and the file is freed exactly with the last |
| `FileTree.Tree.Cleanfilelist` | sys/src/lib9p/file.c:76-107 | without readers the list keeps just its files, in order; with readers it is left alone |
| `FileTree.Tree.Opendirfile` | sys/src/lib9p/file.c:371-394 | a reader starts at the first entry of a directory |
| `FileTree.Tree.Readdirfile` | sys/src/lib9p/file.c:396-414 | the files given continue what the reader was given before, their records fit into the bytes asked for, and it stops only at a file whose record does not; nothing is given although all would fit only at the end |
| `FileTree.Tree.Closedirfile` | sys/src/lib9p/file.c:416-425 | the last reader leaves no empty entries, and the directory lists the same files |
| `FileTree.Tree.ReaderComplete` | sys/src/lib9p/file.c:371-425 | in every reachable state a reader at the end was given every file that was there from its start, and none twice, whatever was created and removed meanwhile |
| `Avls.Rotate` | sys/src/libavl/avl.c:265-280 | the pointer assignments turn the heap of a tree into that of the rotated tree, parent links included |
| `Avls.RotatedKeeps` | sys/src/libavl/avl.c:265-280 | rotation keeps the elements and their order |
| `Avls.Singlerot` | sys/src/libavl/avl.c:231-238 | the heap becomes that of the tree rotated once, with its balances |
| `Avls.Doublerot` | sys/src/libavl/avl.c:240-263 | the heap becomes that of the tree rotated twice, with its balances |
| `Avls.DoubleBalances` | sys/src/libavl/avl.c:240-263 | two rotations restore the balance, set each stored balance to the difference of heights, and take one off the height |
| `Avls.InsertFixedOk` | sys/src/libavl/avl.c:104-124 | after one side grew, the same elements are balanced again, and the height has grown exactly if the node was even |
| `Avls.DeleteFixedOk` | sys/src/libavl/avl.c:201-229 | after one side shrank, the same elements are balanced again, and the flag says exactly whether the height has shrunk |
| `Avls.Insert` | sys/src/libavl/avl.c:67-99 | order, balance and parent links are kept, the node is added or replaces the one with its key, and the flag says exactly whether the height grew |
| `Avls.Deletemin` | sys/src/libavl/avl.c:179-197 | just the node with the least key is cut out, and the flag says exactly whether the height shrank |
| `Avls.Delete` | sys/src/libavl/avl.c:142-177 | just the node with the key is cut out, if there is one, and the flag says exactly whether the height shrank |
| `Avls.HeightIsLogarithmic` | sys/src/libavl/avl.c:5 | a balanced tree of height h has at least Fib(h + 2) - 1 nodes |
| `Avls.Avltree.HeightBound` | sys/src/libavl/avl.c:5 | two to the half of the height of any valid tree is at most its size and one |
| `Avls.Walk1` | sys/src/libavl/avl.c:296-312 | the result is the nearest node in that direction, or none if there is none |
| `Avls.Avltree.Avllookup` | sys/src/libavl/avl.c:26-51 | the node with the key; failing that, for d > 0 the next above, for d < 0 the next below |
| `Avls.Avltree.Avlinsert` | sys/src/libavl/avl.c:55-63 | the tree stays valid, and its elements gain the node, less the one it replaces, which is returned |
| `Avls.Avltree.Avldelete` | sys/src/libavl/avl.c:130-140 | the tree stays valid, and its elements lose the node with the key, which is returned, or none |
| `Avls.Avltree.Bottom` | sys/src/libavl/avl.c:328-341 | the least or greatest element, none exactly if the tree is empty |
| `Avls.Avltree.Avlnext` | sys/src/libavl/avl.c:290-294 | the next element in order, none at the end |
| `Avls.Avltree.Avlprev` | sys/src/libavl/avl.c:284-288 | the element before in order, none at the beginning |
| `AmlGraph.MarkedIsReachable` | sys/src/libaml/aml.c:170-224 | what marking from the roots leaves marked is exactly what the roots reach |
| `AmlHeap.GcMark` | sys/src/libaml/aml.c:170-224 | marks stay, whatever is newly marked is reachable from the object, and everything it points to is marked; it ends on cyclic graphs |
| `AmlHeap.FollowedIsPointed` | sys/src/libaml/aml.c:186-222 | what marking follows from an object is just what its fields point to, and the names met from down along next |
| `AmlHeap.Heap.Gc` | sys/src/libaml/aml.c:226-295 | an object leaves the heap exactly when the pinned objects, the frames and the root do not reach it; no pointer field of a survivor, of a frame or of the root leads to a freed object, nor does down along next; every survivor is at the end of a chain of such fields; survivors keep their contents, so that the heap can be collected again; the number freed is returned |
| `AmlHeap.Heap.Sweep` | sys/src/libaml/aml.c:250-293 | the list keeps the survivors in order, and the log of what was unmapped and freed is as specified |
| `AmlHeap.FreedOnce` | sys/src/libaml/aml.c:250-293 | each dead object is freed exactly once, no survivor ever |
| `AmlHeap.NamesOutliveRegions` | sys/src/libaml/aml.c:250-293 | no name is freed before every dead region has been unmapped |
| `AmlHeap.MappedRegionUnmapped` | sys/src/libaml/aml.c:250-293 | a dead region that is mapped is unmapped right before it is freed |
| `AmlHeap.SurvivorsClosed` | sys/src/libaml/aml.c:226-295 | what a survivor points to survives |
| `AmlHeap.Heap.TakeAndCollect` | sys/src/libaml/aml.c:2553-2558 | through a collection after an object was taken, it and all it leads to stay, with everything the frames and the root lead to |
| `AmlHeap.Heap.DropAndCollect` | sys/src/libaml/aml.c:2560-2565 | through a collection after it was dropped, it stays exactly if the other pinned objects, the frames or the root lead to it |
| `AmlField.Getle` | sys/src/libaml/aml.c:481-491 | bit k of the word is bit k of the bytes, and 0 beyond them |
| `AmlField.Putle` | sys/src/libaml/aml.c:493-502 | the bytes get the bits of the word in order; no other byte changes |
| `AmlField.ReadReg` | sys/src/libaml/aml.c:504-580 | inside the buffer the bits at the offset, outside it all ones |
| `AmlField.WriteReg` | sys/src/libaml/aml.c:504-580 | inside the buffer just those bits are written, outside it none |
| `AmlField.WithinReach` | sys/src/libaml/aml.c:685-688 | the unit of a bit lies inside the buffer exactly if the bit comes before the end of the last whole unit |
| `AmlField.WriteField` | sys/src/libaml/aml.c:629-715 | read-modify-write over the units that a field straddles writes the bits of the field whose unit lies inside the buffer, and no other bit |
| `AmlField.ReadField` | sys/src/libaml/aml.c:629-715 | the bits of the field, gathered from its units, ones where the unit sticks out of the buffer, zeros after them |
| `AmlField.ReachIsWhole` | sys/src/libaml/aml.c:609-626 | accesses of a type go to the end of the last whole byte, word, double word or quad word of the buffer |
| `AmlField.Ival` | sys/src/libaml/aml.c:582-604 | an integer is itself, a buffer its first eight bytes, little end first |
| `AmlField.RwfieldWrite` | sys/src/libaml/aml.c:654-715 | for every offset, length and access type the bits of the value go into the field up to the end of the last whole byte, word, double word or quad word of the buffer; no other bit changes |
| `AmlField.RwfieldRead` | sys/src/libaml/aml.c:654-715 | for every offset, length and access type the value read has the bits of the field up to there and ones beyond: an integer up to 64 bits, else a buffer |
| `AmlField.WriteReadBack` | sys/src/libaml/aml.c:654-715 | for every offset, length and access type, writing a value and reading the field gives the bits that were written, what was there before beyond the end of a short buffer, and ones beyond the last whole unit; every other bit of the buffer is as it was |
| `AmlField.WriteThenRead` | sys/src/libaml/aml.c:629-715 | a memory in which just the field was written gives back what was written, and all else as before |
| `Ramfs.File.Fsread` | sys/src/cmd/ramfs.c:89-147 | the bytes of the flat string from the offset on, as many as there are; none without an index; an error past the largest size |
| `Ramfs.File.Fswrite` | sys/src/cmd/ramfs.c:149-237 | the flat string gets the bytes at the offset, or at its end if append-only, with zeros in a gap; on an error nothing changes |
| `Ramfs.File.Truncfile` | sys/src/cmd/ramfs.c:239-270 | the flat string is cut, or grows by zeros, so bytes cut off never come back; there is an index afterwards exactly if there was one and the new length is not 0 |
| `Ramfs.GrownEmptyReadsEmpty` | sys/src/cmd/ramfs.c:102-106 | a file without an index grown to one byte holds a zero, and a read gives nothing |
| `Ramfs.CutAndGrownReadsEmpty` | sys/src/cmd/ramfs.c:264-269 | so does a file cut to nothing and grown to one byte |
| `DrawRect.BadrectExact` | sys/src/libdraw/badrect.c:23-49 | with wrap-around, the rectangles accepted are exactly those with positive sides, x within 2^25, area below 2^32 and width times y within 2^28, over unbounded integers |
| `DrawRect.UnitsPerLineExact` | sys/src/libdraw/bytesperline.c:5-12 | for an accepted rectangle and depth 1 to 32 the result, with wrap-around, is the least number of units that cover a row |
| `DrawRect.OverflowsOnlyWidest` | sys/src/libdraw/bytesperline.c:5-12 | no intermediate value leaves the range of an int, except exactly for the widest rectangle, 32 bits deep, counted in words |
| `DrawRect.WidestAccepted` | sys/src/libdraw/badrect.c:5-23 | that rectangle is accepted |

## Left out

- yacc: the grammar reader, action copying, text output and the run-time parser.
- YaccPipeline.MakeRows: precedence and conflict resolution are not modelled; which shifts a state loses is a parameter
  (`drop`), and the theorems hold for every choice of it.
- yacc: the limits on item memory and on the number of lookahead sets, and the bit words that hold those sets.
- YaccStates.Apack: a row that reaches past the end of the action table counts as not fitting there; the source compares
  it with whatever follows the table before it gives up.
- YaccTables.Optimizer.Gin: a write past the end of the action array, which the test in gin lets through by one
  cell, counts as the overflow that ends the program.
- sort: fields, keys other than the plain and numeric ones, -c, and the temporary files themselves.
- SortRadix.Sort4: assumes, as the comment at sort.c:5-8 says, that no key is a proper prefix of another; when that is so
  is stated for plain and numeric keys (`SortPlain.RecsFreeExactly`, `SortKey.KeysPrefixFree`).
- lib9p: transport, wire format, version negotiation, permissions, the reads and writes themselves, and the
  race when a connection is torn down.
- lib9p: a Tflush whose own tag is already in use, which fails the assertion at srv.c:273.
- NineFids.MapAfterMsg: auth, attach and walk handlers answer before the server lock is released.
- FileTree.Tree.Createfile: wrap-around of the qid counter is not modelled.
- FileTree.Tree.Readdirfile: each call is one step, although this one takes no lock and `removefile` and `walkfile1` close
  references after they have unlocked.
- FileTree.Tree.Walkfile1: references that a fid overwrites without closing are outside it.
- Avls.Avltree.Avllookup: the caller's comparison is an order of integer keys.
- Avls.Rotate: where the source updates a slot through its address, the method returns the value and the caller stores it.
- AmlField.Ival: a string as a number, which is left to the C library.
- libaml: evaluation of opcodes, regions mapped to I/O, bank and index fields.
- Ramfs.File.Fswrite: allocation never fails, and the compacting allocator and permissions are not modelled.
- libdraw: everything but the two tests on rectangles.
