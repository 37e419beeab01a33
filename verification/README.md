# dmit, verified

Dmit is a compiler for a small language, with its own containers. This project models the parts of it whose
correctness is hardest to see from the code, and proves what they promise to each other. Code that changes things in
place is modelled in place: hash table, intrusive lists, graph, parser state, node pools, byte writers and lexer are
classes whose methods update fields and arrays as the original does; grammars, syntax trees and protocols are values.
`dafny verify dfyconfig.toml` checks everything.

| part | files | what is shown |
|---|---|---|
| Robin Hood hash table | `Bits`, `RobinLayout`, `RobinSpread`, `RobinProbe`, `RobinTable`, `RobinMap`, `RobinLimits`, `RobinShrink`, `RobinLoss` | it is a finite map over every run of insertions, removals, lookups and clears whose keys are scattered where it searches, through displacements, rehashes in the middle of them, growth and shrinking; which sets of keys fit in which buffer, exactly |
| lists, graph, imports | `IntrusiveList`, `Digraph`, `TopoLists`, `TopoState`, `TopoGraph`, `ImportGraph` | draining gives a topological order and leaves exactly the nodes that reach a cycle; the cycle search finds one, and when a further search ends |
| lexer | `Lexer`, `LexerSpelling` | the input determines its tokens, which cover it; each of them is what its characters spell, and as long as it can be |
| parser | `ParseTree`, `Grammar`, `ParserMeaning`, `ParserState`, `ParserSteps`, `ParserRuns`, `ParserRecovery` | the parser ends on every token list, with the one postfix tree that the grammar means; where it skips tokens, and up to which |
| syntax | `Syntax`, `PrintedExpressions`, `PrintedScopes`, `PrintedDefinitions`, `PrintedModules` | the tokens of whatever is well formed parse as its tree: kinds, children, precedence and offsets |
| syntax tree | `ParserLexemes`, `ParserKids`, `ParserChains`, `ParserStarts`, `ParserTrees`, `TreeReader`, `AstBuilder`, `ParsedAst`, `AstTokens` | whatever the tokens, the nodes have the children that the builder counts on, which fills every slot once and in order, with what the tokens say |
| code generation | `GenLanguage`, `GenCode`, `GenUnit`, `GenScribe`, `GenOperators` | generated functions compute modulo 2 to the 64 what the source means, `+` included |
| WebAssembly writer | `Leb128`, `CircularList`, `Wasm*` | counting and writing agree to the byte; sizes, sections, function bodies and instructions read back |
| thread pool | `ThreadPool`, `PoolRuns` | under every interleaving each task of a job runs once, and the job ends |
| fact map | `FactMap` | chained facts are counted, found in order, and viewed once each |

Some behaviour of the code differs from what one would expect of it. Each case is a theorem that says exactly when the
code does the expected thing, or shows the input for which it does not:

- A 32-bit signed constant is encoded by the unsigned routine (`Leb128.Int32ReadsBackIff`), and so is a function type
  used as a block type (`WasmCode.BlockTypeReadsBackIff`): 63 reads back, 64 does not.
- The bytes of a datum are written without their count: a data section reads back exactly when it is empty
  (`WasmData.DataReadBackIff`, `WasmData.DataAreAmbiguous`).
- A binary operator passes its right operand first (`GenOperators.OperandOrderMattersIff`), and leaves both on the stack
  when it is not bound to a function of an interface (`GenOperators.OperatorLeavesOneIff`).
- Writing a module leaves its lists reversed (`WasmLists.DescribedWhenTurned`).
- A search in the hash table wraps its counter on full chains (`RobinProbe.WrapsIff`). It then may find an empty bucket
  that still holds its key from before (`RobinProbe.ProbeOutcome` says when, `RobinLimits.FooledSearch` builds such a
  table), and at load factors beyond the seventh level, and only there, it may never end
  (`RobinTable.Table.SearchesEnd`, `RobinLimits.EndlessSearch`).
- A removal that shrinks the table out of its last buffer is right if and only if the keys that are left fit in the
  smaller one (`RobinTable.Table.ShiftBuckets`): otherwise it is given the buffer it is draining to fill
  (`RobinShrink.ShrinkOverflow`), and loses an element (`RobinLoss.ShrinkLoses`). `RobinShrink.ShrinkTrap` builds such a
  table.
- A cycle search that is not the first one may not end (`TopoState.SecondSearchEndsIff`, `TopoGraph.TailedSearch`).
- A pool that starts a job while a worker has a decrement to restore runs a task that does not exist
  (`PoolRuns.InRangeIffQuiescent`), and waiting for the end of the previous job does not prevent it.
- An even run of stars does not end a block comment (`Lexer.StarsCloseIff`).
- A function declared without a body takes all tokens up to the next definition, the closing brace of its module included
  (`PrintedDefinitions.BodilessSwallows`).
- Stealing a list cell trusts its back link (`IntrusiveList.Steal`), which `PopFront` leaves behind.

Conventions: hash functions and comparisons of keys are an uninterpreted function and equality; a method that allocates
returns `ok`, false when memory has no room left; an assertion of the original that stops it is a `None`.

## Model

| member | source | states |
|---|---|---|
| RobinLayout.ProbeOn | lib/include/robin/table.hpp:294-298 | a probe that passes a slot further from home, or as far but of another key, has ruled the key out of every slot up to there and stays on the ring |
| RobinLayout.Absent | lib/include/robin/table.hpp:300-306 | where the probe distance exceeds the stored one the key is nowhere in the table |
| RobinLayout.HitIsStored | lib/include/robin/table.hpp:300-303 | a filled slot holds exactly the binding of its key |
| RobinLayout.EmptyExists | lib/include/robin/table.hpp:80 | fewer elements than slots leave an empty slot, which is why the load check is enough for probes to end |
| RobinLayout.NoFullTurn | lib/include/robin/table.hpp:294-298 | with an empty slot on the ring no element is a full turn away from its initial bucket |
| RobinLayout.DibBound | lib/include/robin/table.hpp:57-75 | no stored distance exceeds the number of elements |
| RobinLayout.Displace | lib/include/robin/table.hpp:97-109 | taking the slot of an element nearer to its home keeps the layout, with the evicted key out of the map and rightly offered to the next slot |
| RobinLayout.CloseHole | lib/include/robin/table.hpp:263-265 | emptying the hole is right once the slot behind it is empty or at home |
| RobinLayout.ShiftsOnce | lib/include/robin/table.hpp:255-261 | a backward shift has one end |
| RobinLayout.MovedAll | lib/include/robin/table.hpp:231-242 | once every slot of the drained buffer was passed, the new one has all of its bindings and no other |
| RobinSpread.SoundIsSpread | lib/include/robin/table.hpp:55-118 | in a table with 8-bit distances no stretch of slots is the home of 255 keys more than it has slots |
| RobinSpread.TopIsCrowded | lib/include/robin/table.hpp:64-75 | an element at the greatest distance is the end of a run whose homes have no room for one key more |
| RobinSpread.SpreadDoubles | lib/include/robin/table.hpp:219-249 | keys that are spread over a buffer are spread over one of twice its size |
| RobinSpread.SameFilled | lib/include/robin/table.hpp:55-118 | which slots are filled depends on the keys alone, not on the order of their insertions |
| RobinProbe.EarlyStop | lib/include/robin/table.hpp:294-306 | a probe that stops before its counter wraps has the right answer |
| RobinProbe.WrapsIff | lib/include/robin/table.hpp:294-298 | the 8-bit counter of a probe wraps exactly when its key is absent and the slot 254 steps from its home is at distance 255 |
| RobinProbe.ProbeOutcome | lib/include/robin/table.hpp:294-306 | wherever a probe stops, wrapped or not, it has found its key if and only if the table has it or the probe was fooled: it stopped at an empty bucket that still holds the key, with its counter at zero |
| RobinProbe.LoadEnds | lib/include/robin/table.hpp:294-298 | at the load factor of level seven or less every probe ends |
| RobinTable.LoadLeavesRoom | lib/include/robin/table.hpp:80 | a table within its load factor has a free slot |
| RobinTable.Manager.MakeNext | lib/include/robin/details/buffer/manager.hpp:33-46 | goes to the last buffer, making a new one exactly when it is there already; the other buffers stay |
| RobinTable.Manager.MakePrev | lib/include/robin/details/buffer/manager.hpp:48-58 | goes back one buffer unless at the first |
| RobinTable.Table.constructor | lib/include/robin/table.hpp:37-48 | an empty valid table over the stack buffer |
| RobinTable.Table.Init | lib/include/robin/table.hpp:309-326 | every bucket empty, the sentinel filled, size zero: a sound layout of the empty map |
| RobinTable.Table.Place | lib/include/robin/table.hpp:55-118 | one pass of an insertion: either the map is updated at the key, or the pass stops at a load or counter overflow with some element, perhaps another one, in hand, and map and hand together are the update; it stops so exactly when the keys do not fit in the buffer, by load or by homes |
| RobinTable.Table.Emplace | lib/include/robin/table.hpp:50-119 | insertion is finite-map update, whatever rehashes fire on the way; the invariant (distances, steps of at most one, distinct keys, exact size, load, every other buffer idle) is kept; it succeeds if and only if the keys fit in the largest buffer that memory has room for, and stays in its buffer if and only if they fit there |
| RobinTable.Table.Grow | lib/include/robin/table.hpp:71-73 | moving to a larger buffer keeps the map |
| RobinTable.Table.EmplaceSparing | lib/include/robin/table.hpp:239-240 | an insertion made while a buffer is drained leaves that buffer alone, however many rehashes it starts itself |
| RobinTable.Table.QuietGrows | lib/include/robin/table.hpp:219-249 | what fits in a buffer fits in every later one |
| RobinTable.Table.CounterWrapsIff | lib/include/robin/table.hpp:294-298 | the counter of a search wraps if and only if the search is not counter-safe |
| RobinTable.Table.CounterSafeEnds | lib/include/robin/table.hpp:285-306 | a counter-safe search ends, and is not fooled |
| RobinTable.Table.SpreadIsCounterSafe | lib/include/robin/table.hpp:285-298 | the search for a key that could be inserted where the table is cannot wrap its counter |
| RobinTable.Table.SearchesEnd | lib/include/robin/table.hpp:294-298 | at the load factor of level seven or less every search ends |
| RobinTable.Table.Rehash | lib/include/robin/table.hpp:219-249 | the drained buffer is left all empty with its sentinel filled and the new one has the same map; the elements stay in the buffer they are moved to if and only if they fit in it |
| RobinTable.Table.SmallIsCounterSafe | lib/include/robin/table.hpp:285-298 | up to 254 elements the 8-bit counter of a search cannot wrap |
| RobinTable.Table.Find | lib/include/robin/table.hpp:282-307 | finds a bucket if and only if the map has the key or the search is fooled; in the first case the bucket holds the value of the key, in the second it is empty |
| RobinTable.Table.Erase | lib/include/robin/table.hpp:121-138 | erasing gives the map without the key and keeps the invariant, also when it shrinks and rehashes, in tables of every size |
| RobinTable.Table.SmallIsEraseSafe | lib/include/robin/table.hpp:275-278 | up to 256 elements a shrink always has room |
| RobinTable.Table.ScatteredIsSafe | lib/include/robin/table.hpp:121-138 | keys that are scattered in every buffer they are within the load of make every search and every removal safe |
| RobinTable.Table.ShiftBuckets | lib/include/robin/table.hpp:251-280 | the backward shift removes exactly the element it starts at, and the shrink that may follow keeps the others |
| RobinTable.Table.Shrink | lib/include/robin/table.hpp:275-278 | going back to the smaller buffer keeps the map, and never fails for lack of memory |
| RobinTable.Table.Clear | lib/include/robin/table.hpp:189-215 | the stack buffer, not initialised again, is an empty valid table because every buffer left behind is idle |
| RobinMap.Map.Index | lib/include/robin/map.hpp:87-99 | `operator[]` gives the value of the key, made from the default when it had none, and changes nothing else |
| RobinMap.Map.Step | lib/include/robin/map.hpp:62-99 | one operation acts on the map as on a finite map and a lookup gives its answer |
| RobinMap.Map.Replay | lib/include/robin/table.hpp:50-215 | over any run of insertions, removals, lookups and clears every answer and the final bindings are those of the finite map, as long as the keys are scattered where a search is made; the run gets through if and only if memory has the room that its insertions need |
| RobinMap.Map.FewAreApart | lib/include/robin/table.hpp:50-215 | no more than 254 bindings at each search of a run are enough, whatever the hash function |
| RobinLimits.FooledSearch | lib/include/robin/table.hpp:282-307 | after 255 insertions, in memory that held one key everywhere, the search for that absent key finds an empty bucket |
| RobinLimits.EndlessSearch | lib/include/robin/table.hpp:294-298 | at every load factor level from eight on a search may never end, so that all searches end at a level if and only if it is at most seven |
| RobinShrink.ShrinkOverflow | lib/include/robin/table.hpp:219-280 | a removal that is not shrink-safe shrinks the table, runs into an overflow, and is given the buffer that is being drained, which it begins anew |
| RobinLoss.ShrinkLoses | lib/include/robin/table.hpp:219-280 | and then loses another element, for every table and removal: a key of the map is in no bucket of any buffer, so that a removal is right if and only if it is shrink-safe |
| RobinLoss.OneIsLost | lib/include/robin/table.hpp:231-242 | either an element was not moved yet, or the slot that is emptied next is filled again |
| RobinShrink.ShrinkTrap | lib/include/robin/table.hpp:251-280 | 512 insertions and some removals lead to such a removal, wherever iteration begins |
| IntrusiveList.List.EmplaceFront | lib/include/list/list.hpp:32-36 | one new cell in front, the others in order, and the head has no back link |
| IntrusiveList.List.PopFront | lib/include/list/list.hpp:38-42 | the first cell is gone; the new head keeps its back link to the removed cell |
| IntrusiveList.List.Erase | lib/include/list/list.hpp:56-76 | exactly the given cell is gone and the order of the others is kept |
| IntrusiveList.Steal | lib/include/list/steal.hpp:12-47 | the cell moves to the front of the other list if and only if its null back link tells the truth about being first; otherwise the old list keeps it as its head |
| TopoLists.NodeLists.AddPending | lib/include/topo/graph.hpp:38-44 | a new pending node goes in front, in a new cell |
| TopoLists.NodeLists.Block | lib/include/topo/graph.hpp:50-53 | a pending node moves to the front of the blocked ones, cell and all |
| TopoLists.NodeLists.Free | lib/include/topo/graph.hpp:67-77 | a blocked node moves to the front of the pending ones |
| TopoLists.NodeLists.Remove | lib/include/topo/graph.hpp:104 | a pending node leaves its list; the next head keeps a back link if and only if it was the head |
| TopoLists.NodeLists.HeadsTell | lib/include/topo/graph.hpp:107-130 | the heads of the two lists tell whether anything is pending or blocked, and what comes first |
| Digraph.SettledReachesNoCycle | lib/include/topo/graph.hpp:100-110 | a node that comes after all of its dependees, in an order of such nodes, reaches no directed cycle |
| Digraph.StuckReachesCycle | lib/include/topo/graph.hpp:127-130 | in a set where each node depends on another one of the set, each node reaches a cycle |
| TopoState.AttachedOk | lib/include/topo/graph.hpp:47-65 | attaching keeps every edge in the cell lists of both its ends, under the cells it remembers, and a node pending exactly when it has no dependee |
| TopoState.ArcsAttached | lib/include/topo/graph.hpp:47-65 | exactly one arc is added |
| TopoState.DetachedOk | lib/include/topo/graph.hpp:67-77 | detaching keeps the same, with the depender back among the pending nodes when that was its last dependee |
| TopoState.DroppedOk | lib/include/topo/graph.hpp:104 | a pending node without dependers can leave the graph |
| TopoState.PendingDependsOnNothing | lib/include/topo/node.hpp:63-66 | no live edge starts at a pending node |
| TopoState.DrainedOneMore | lib/include/topo/graph.hpp:100-110 | popping a pending node puts it behind all of its dependees in the order |
| TopoState.DrainedToCycles | lib/include/topo/graph.hpp:127-130 | once nothing is pending, the nodes left are exactly those that reach a directed cycle |
| TopoGraph.Graph.MakeNode | lib/include/topo/graph.hpp:38-44 | one new pending node and no arc |
| TopoGraph.Graph.Attach | lib/include/topo/graph.hpp:46-65 | the state after an attachment, edge lists and cells included; it adds the one arc |
| TopoGraph.Graph.Detach | lib/include/topo/graph.hpp:67-77 | the state after a detachment |
| TopoGraph.Graph.DetachAll | lib/include/topo/graph.hpp:79-85 | every edge that leads to the node is gone, and no other |
| TopoGraph.Graph.Pop | lib/include/topo/graph.hpp:100-105 | the node is gone with the edges that led to it |
| TopoGraph.Graph.PopTop | lib/include/topo/graph.hpp:100-110 | the first pending node comes next in the order, behind all of its dependees |
| TopoGraph.Graph.Drain | lib/include/topo/graph.hpp:100-130 | repeated popping gives each node at most once, after all of its dependees, and leaves blocked exactly the nodes that reach a cycle |
| TopoState.CycleGrows | lib/include/topo/graph.hpp:147-156 | a marked node met by the walk is the next one of the cycle |
| TopoState.WalkingDone | lib/include/topo/graph.hpp:147-156 | back at its first collected node, the search has the whole cycle and has left marked exactly the tail it came through |
| TopoGraph.Graph.MakeCycle | lib/include/topo/graph.hpp:132-169 | started without marks on a cyclic state the search ends, after some number of turns of its loop, with a directed cycle along first dependees, each node once, whatever tail it comes through, which is what it leaves marked |
| TopoState.NeverBack | lib/include/topo/graph.hpp:147-166 | on the marks of a tail the search collects the first node of the tail and is never there again |
| TopoState.SecondSearchEndsIff | lib/include/topo/graph.hpp:147-166 | since the marks are not reset, a second search from the same node ends after some number of turns of its loop if and only if the first one had no tail |
| TopoGraph.TailedSearch | lib/include/topo/graph.hpp:132-169 | on three nodes, two in a cycle and one in front of it, the first search ends and no number of turns ends the second one |
| ImportGraph.Imports.GetOrMakeModule | lib/src/dmit/sem/import_graph.cpp:63-77 | the node of the module, new only when the module was unknown |
| ImportGraph.Imports.MakeDependency | lib/src/dmit/sem/import_graph.cpp:79-86 | adds one dependency between two modules, known or not |
| ImportGraph.NeverCyclic | lib/src/dmit/sem/import_graph.cpp:109-112 | with acyclic imports something is always pending, so cycles are never solved |
| ImportGraph.NamedTargetBefore | lib/src/dmit/sem/import_graph.cpp:114-129 | an imported module comes earlier in the order |
| ImportGraph.Imports.MakeBundles | lib/src/dmit/sem/import_graph.cpp:88-135 | for acyclic imports the module order lists each module once and after those it imports, and bundle boundaries are one module apart |
| ParseTree.FlattenAllInjective | lib/include/dmit/prs/tree.hpp:97-113 | the postfix node list determines its trees: no two forests have the same nodes |
| ParseTree.LastIsRoot | lib/include/dmit/prs/tree.hpp:108-112 | the size of the last node is below the number of nodes before it exactly when there are two trees or more, which is the collapse test of variadic nodes |
| GrammarSanity.GrammarIsSane | lib/src/dmit/prs/state.cpp:193-399 | no rule is left-recursive under a fixed rank of the rules, every repeated parser takes a token, no parser names the end of the input |
| ParserState.ClosingWrites | lib/include/dmit/prs/tree.hpp:97-113 | closing a successful frame leaves the nodes of one tree: the children under a new root, or for a variadic frame the only child |
| ParserState.Builder.AdvanceToRawToken | lib/src/dmit/lex/reader.cpp:14-21 | passes exactly the whitespace and the comments, and never the end of the input |
| ParserState.Builder.Advance | lib/src/dmit/lex/reader.cpp:33-37 | moves on to the next token that is neither whitespace nor comment |
| ParserState.Builder.Take | lib/src/dmit/prs/combinator.hpp:19-33 | succeeds exactly on the named token, and moves on |
| ParserState.Builder.Run | lib/src/dmit/prs/combinator.hpp:19-125 | running a combinator over the one array of nodes and its open frames comes to where the parser stops and leaves exactly the trees it means, with and without success; it ends on every token list |
| ParserState.Builder.Repeat | lib/src/dmit/prs/combinator.hpp:82-95 | the same for repetition, which stops where a turn fails |
| ParserState.Builder.Skip | lib/src/dmit/prs/combinator.hpp:107-125 | stops at the first of the named tokens or at the end of the input, with none of them among what it passed, and fails exactly where it stands in front of one or at the end |
| ParserMeaning.SkipStops | lib/src/dmit/prs/combinator.hpp:107-125 | the same for what skipping means |
| ParserState.Builder.CallRule | lib/include/dmit/prs/parser.hpp:36-47 | the same for rules |
| ParserState.Builder.Write | lib/include/dmit/prs/parser.hpp:36-47 | a rule that writes adds exactly one tree to the frame around it, or leaves no trace |
| ParserState.Builder.Open | lib/include/dmit/prs/state.hpp:38-51 | a new empty frame that remembers the size of the tree |
| ParserState.Builder.CloseFailed | lib/include/dmit/prs/state.hpp:57-63 | everything written since the frame was opened is undone |
| ParserState.Builder.Close | lib/include/dmit/prs/state.hpp:65-77 | the trees of the closed frame become one tree more of its parent |
| ParserState.Builder.Parse | lib/src/dmit/prs/state.cpp:402-414 | for every token list that ends with the end of the input, the nodes left are those of one module tree, the one the grammar means (`PrintedModules.RootParses` says which one for whatever is well formed) |
| PrintedExpressions.OperatorParses | lib/src/dmit/prs/state.cpp:231-257 | the operators of each level are exactly the tokens of its strength |
| PrintedExpressions.PathParses | lib/src/dmit/prs/state.cpp:235 | a name of any number of parts parses as a tree nested to the right |
| PrintedExpressions.CallParses | lib/src/dmit/prs/state.cpp:259 | a name with any number of comma-separated arguments in brackets parses as one call, with the name and the tree of each argument, and ends behind the bracket |
| PrintedExpressions.ChainParses | lib/src/dmit/prs/state.cpp:243-257 | operands with operators of one level between them parse as one node over all of them in turn, whatever binds more tightly inside; a single operand stays as it is |
| PrintedExpressions.ExpressionParses | lib/src/dmit/prs/state.cpp:231-261 | the tokens of any well-formed expression (names, literals, signs, brackets, operators by precedence, assignments, calls), with any whitespace and comments between, parse as its tree, kinds, children and offsets included, up to its last token |
| PrintedExpressions.LevelFails | lib/src/dmit/prs/state.cpp:231-261 | no rule of expressions succeeds in front of a token that no operand or sign begins with, and none leaves a tree there |
| PrintedScopes.ElementParses | lib/src/dmit/prs/state.cpp:265-289 | a declaration, a return, an expression or nothing before a semicolon parses as its tree, if it has one |
| PrintedScopes.ElementFails | lib/src/dmit/prs/state.cpp:275-289 | neither an element nor its recovery goes past a brace |
| PrintedScopes.ScopeParses | lib/src/dmit/prs/state.cpp:293 | statements between braces, scopes among them, parse as one scope with the tree of each, in order |
| PrintedDefinitions.ArgumentsParse | lib/src/dmit/prs/state.cpp:308 | arguments in brackets parse as the name and the type of each |
| PrintedDefinitions.FunctionParses | lib/src/dmit/prs/state.cpp:310 | a function parses as its name, its arguments, the type of its result if told, and its scope |
| PrintedDefinitions.ClassParses | lib/src/dmit/prs/state.cpp:328-330 | a class parses as its name and the name and type of each member |
| PrintedDefinitions.BodilessSwallows | lib/src/dmit/prs/state.cpp:297-310 | a function without a body is given an empty scope that takes its semicolon and all up to the next definition, import or module: it ends behind the semicolon if and only if one of these follows, or nothing |
| PrintedModules.DefinitionParses | lib/src/dmit/prs/state.cpp:346-359 | a definition parses as its function or class, behind the mark of its export if it has one |
| PrintedModules.ImportParses | lib/src/dmit/prs/state.cpp:363-376 | an import parses as its name |
| PrintedModules.NestedParses | lib/src/dmit/prs/state.cpp:379-380 | a module parses as its name and its contents, between braces or behind a semicolon |
| PrintedModules.RootParses | lib/src/dmit/prs/state.cpp:193-414 | the tokens of any well-formed input, down to its literals and with any whitespace and comments before, between and behind them, parse as the tree of each of its parts, in order, and to the end |
| ParserRecovery.Recovery | lib/src/dmit/prs/state.cpp:279-394 | each recovery rule may take the token its construct begins with, fails where nothing can be skipped, and else goes to the first token of its own set or to the end, behind it if it is a closing one, and leaves no tree |
| ParserMeaning.RootSucceeds | lib/src/dmit/prs/state.cpp:396-398 | the root rule succeeds on every token list, with one module tree |
| ParserMeaning.WritesOne | lib/include/dmit/prs/parser.hpp:36-47 | a rule that writes means one tree over those of its parser, spanning what it read, or nothing |
| ParserKids.ClaimTrees | lib/src/dmit/prs/state.cpp:269 | a type claim leaves a name and a type, or at most the name when it fails |
| ParserKids.ArgumentsTrees | lib/src/dmit/prs/state.cpp:308 | a closed list of arguments has an even number of children, although claims that fail leave nodes behind |
| ParserKids.MembersListTrees | lib/src/dmit/prs/state.cpp:328 | the same for the members of a class |
| ParserKids.ExpressionTrees | lib/src/dmit/prs/state.cpp:231-261 | an expression leaves one tree, or nothing |
| ParserChains.ChainTrees | lib/src/dmit/prs/state.cpp:231-261 | a chain alternates operands and operators, and begins and ends with an operand |
| ParserChains.RuleTrees | lib/src/dmit/prs/state.cpp:193-399 | every rule that writes gives its node the children that the builder of the syntax tree relies on |
| ParserLexemes.LexemeRules | lib/src/dmit/prs/state.cpp:193-220 | the rules that write one-token nodes take exactly these tokens |
| ParserStarts.RuleStarts | lib/src/dmit/prs/state.cpp:193-399 | a rule that writes begins with a token of its node: `return`, `let`, a name before a call, the tokens of an operand before a chain |
| ParserStarts.ScopesAreBraced | lib/src/dmit/prs/state.cpp:293-304 | every scope inside a scope begins with its brace, although a fake scope of a function may begin anywhere |
| ParserTrees.EvalIsProper | lib/src/dmit/prs/combinator.hpp:19-125 | everything a parser leaves, also when it fails, has falling offsets within its parent, the children of its kind, and lexemes that point at tokens of their kind |
| ParserTrees.RootIsProper | lib/src/dmit/prs/state.cpp:402-414 | so has the tree of every input |
| ParsedAst.LexedIsEnded | lib/src/dmit/lex/state.cpp:94-112 | what the lexer gives can be parsed |
| ParsedAst.ParsedNodesAreKept | lib/src/dmit/ast/state.cpp:431-492 | a reader over the parsed nodes may be given to the builder: all that it relies on holds of them |
| ParsedAst.KeptBelow | lib/src/dmit/prs/reader.cpp:19-47 | what the builder relies on holds of the children of a node as of the node |
| ParsedAst.LedIsKept | lib/src/dmit/ast/state.cpp:119-492 | wherever the readers of the builder are led in the parsed nodes, passing trees and going down, they go over trees that it may be given |
| ParsedAst.ParsedOrderIsKept | lib/src/dmit/ast/state.cpp:119-239 | every expression built from parsed nodes has the lexemes of its tree in order |
| TreeReader.ReaderStep | lib/src/dmit/prs/reader.cpp:19-47 | a reader over a forest is valid while a tree is left, looks at the root of the last one, advances past it, and its sub-reader goes over the children of that root and knows their number |
| TreeReader.RootReader | lib/src/dmit/prs/reader.cpp:8-11 | a fresh reader goes over the children of the root |
| AstBuilder.MakeExpression | lib/src/dmit/ast/state.cpp:197-239 | reading backwards over the flat nodes gives the expression of the tree, of which `AstTokens.ExpressionTold` says what it is |
| AstTokens.ExpressionTold | lib/src/dmit/ast/state.cpp:106-239 | in every expression built from a parsed tree names, callees and assigned patterns are identifiers of the input, integers are integer literals, and operators are operators |
| AstTokens.ChainFolds | lib/src/dmit/ast/state.cpp:119-143 | chains associate to the left: the first operand, with each operator and operand applied to all before |
| AstBuilder.MakeBinop | lib/src/dmit/ast/state.cpp:119-143 | a flat chain becomes the left-nested expression |
| AstBuilder.MakeAssignment | lib/src/dmit/ast/state.cpp:145-162 | right side, operator and pattern of an assignment |
| AstBuilder.MakeFunctionCall | lib/src/dmit/ast/state.cpp:181-195 | the countdown fills every argument slot exactly once, in source order |
| AstBuilder.MakeTypeClaim | lib/src/dmit/ast/state.cpp:80-90 | type and name of a claim, read backwards; the assertion between them holds |
| AstBuilder.MakeArguments | lib/src/dmit/ast/state.cpp:291-305 | half as many slots as children, each filled once, in source order: the countdown, which advances twice for each slot, comes out even |
| AstBuilder.MakeScope | lib/src/dmit/ast/state.cpp:275-289 | the countdown fills every slot of a scope exactly once, in source order |
| AstBuilder.MakeScopeVariant | lib/src/dmit/ast/state.cpp:241-273 | a nested scope, declaration, statement or expression, by the kind of its node; `AstTokens.ItemsAreTold` says which, by the tokens |
| AstTokens.ItemsAreTold | lib/src/dmit/ast/state.cpp:92-117 | for the items of every scope of a parsed tree: one is a return exactly when its tree begins with `return`, a declaration exactly when it begins with `let`, a nested scope exactly when it begins with a brace, and else an expression, and so on inside nested scopes |
| AstTokens.ParsedItemsKeepOrder | lib/src/dmit/ast/state.cpp:241-289 | the lexemes of all items of a scope, in order, are those of its leaves |
| AstTokens.ArgumentsTold | lib/src/dmit/ast/state.cpp:80-90 | names and types of arguments are identifiers of the input, each name before its type, in the order of the source |
| AstBuilder.ChainBuiltIff | lib/src/dmit/ast/state.cpp:119-143 | a chain is built exactly when it has an odd number of trees, three at least, with an expression in each operand place |
| AstBuilder.OrderIsKept | lib/src/dmit/ast/state.cpp:119-239 | an in-order walk of the expression meets the lexemes in the order of the tree |
| ThreadPool.StartedQuiescent | lib/include/dmit/com/parallel_for.hpp:149-172 | a job stored while no worker has a decrement to restore satisfies the invariant |
| ThreadPool.StepKeeps | lib/include/dmit/com/parallel_for.hpp:105-140 | every atomic step of every worker keeps it: each task is unclaimed, held by one worker, or finished, and the counters say how many |
| PoolRuns.StepBurns | lib/include/dmit/com/parallel_for.hpp:105-140 | every step uses up one unit of a bounded measure |
| PoolRuns.RunKeeps | lib/include/dmit/com/parallel_for.hpp:105-140 | every run keeps the invariant and is no longer than that measure |
| PoolRuns.EachTaskRunsOnce | lib/include/dmit/com/parallel_for.hpp:149-186 | under every schedule each task runs at most once, each output slot is written at most once, the main thread is let go exactly when all tasks are finished, and bundle `b` is analysed only after all earlier interfaces are registered |
| PoolRuns.SlotsOf | lib/include/dmit/com/parallel_for.hpp:255-260 | reversing the index makes distinct tasks write distinct slots, task by task |
| PoolRuns.SpinnerIsServed | lib/include/dmit/sem/analyzer.hpp:33-50 | while a worker spins, the registering task has been claimed and is still held by a worker |
| PoolRuns.BusyWorkerSteps | lib/include/dmit/sem/analyzer.hpp:37 | as long as a worker is busy, it or the one it spins on can take a step |
| PoolRuns.IdleIsDone | lib/include/dmit/com/parallel_for.hpp:182-184 | all workers waiting with nothing to claim means that the job is done |
| PoolRuns.NeverStuck | lib/include/dmit/com/parallel_for.hpp:105-140 | some worker can always go on until the job is done |
| PoolRuns.RunsToCompletion | lib/include/dmit/com/parallel_for.hpp:149-186 | a run that cannot go on has run every task exactly once |
| PoolRuns.LateRestoreOverruns | lib/include/dmit/com/parallel_for.hpp:113-119 | a decrement restored after the next job was stored offers a task that does not exist |
| PoolRuns.InRangeIffQuiescent | lib/include/dmit/com/parallel_for.hpp:158-169 | a job stays within its tasks under all schedules if and only if no worker had a decrement to restore when it was stored |
| PoolRuns.WaitingForDoneIsNotEnough | lib/include/dmit/com/parallel_for.hpp:182-184 | waiting for the last task alone does not give that: a reachable state shows it |
| Bits.OrHighBit | lib/include/dmit/wsm/leb128.hpp:46-49 | setting the continuation bit adds it |
| Leb128.InitUnsigned | lib/include/dmit/wsm/leb128.hpp:35-52 | the loop stores the unsigned encoding over zeros, or merged with the padding |
| Leb128.InitSigned | lib/include/dmit/wsm/leb128.hpp:11-33 | the loop stores the signed encoding |
| Leb128.MakeUnsigned | lib/include/dmit/wsm/leb128.hpp:62-84 | for every 64-bit value at most ten bytes that decode to it, and for every value that five bytes have room for the padded form that decodes to it |
| Leb128.MakeSigned | lib/include/dmit/wsm/leb128.hpp:62-72 | for every signed 64-bit value at most ten bytes that decode to it |
| Leb128.UnsignedReadsBack | lib/include/dmit/wsm/leb128.hpp:35-52 | decoding inverts unsigned encoding, whatever follows (section 5.2.2 of the WebAssembly Core Specification) |
| Leb128.SignedReadsBack | lib/include/dmit/wsm/leb128.hpp:11-33 | decoding inverts signed encoding, whatever follows |
| Leb128.PaddedReadsBack | lib/include/dmit/wsm/leb128.hpp:77-83 | a padded encoding decodes to the same value with its full width |
| Leb128.UnsignedFits | lib/include/dmit/wsm/leb128.hpp:56-57 | a value needs at most `k` bytes if and only if it has at most `7 * k` bits |
| Leb128.SignedFits | lib/include/dmit/wsm/leb128.hpp:56-57 | the same for signed values, one bit of which is the sign |
| Leb128.Int32ReadsBackIff | lib/include/dmit/wsm/leb128.hpp:68 | the 32-bit signed constructor encodes as unsigned: an i32 constant reads back if and only if it is not negative and the top bit of its highest group of seven is clear |
| CircularList.TurnedCircle | lib/include/dmit/com/tree_visitor.hpp:77-100 | links that all point one stop back close the circle in the opposite order |
| CircularList.Pool.Make | lib/include/dmit/com/tree_pool.hpp:168-172 | a new list that is its own sentinel; the others are untouched |
| CircularList.Pool.Grow | lib/include/dmit/com/tree_pool.hpp:174-185 | the new node is last in insertion order, though first behind the sentinel |
| CircularList.Pool.Back | lib/include/dmit/com/tree_pool.hpp:187-191 | the node grown last, or the sentinel |
| CircularList.Pool.Empty | lib/include/dmit/com/tree_pool.hpp:193-197 | whether anything was grown |
| CircularList.Pool.Reverse | lib/include/dmit/com/tree_visitor.hpp:77-100 | the in-place reversal keeps exactly the nodes of the circle, in the opposite order, and no other circle changes |
| WasmWriter.Writer.Write | lib/include/dmit/wsm/writer.hpp:65-68 | one byte counted, and stored in a writing pass |
| WasmWriter.Writer.WriteUnsigned | lib/include/dmit/wsm/writer.hpp:70-73 | the encoding counted, and stored in a writing pass |
| WasmWriter.Writer.WriteSigned | lib/include/dmit/wsm/writer.hpp:70-73 | the same for signed values |
| WasmWriter.Writer.OpenSize | lib/include/dmit/wsm/emit_size.hpp:11-16 | five bytes of room and a second writer that stays in front of them |
| WasmWriter.Writer.CloseSize | lib/include/dmit/wsm/emit_size.hpp:18-22 | patches the room with the number of bytes written since, and nothing else |
| WasmSyntax.SectionsBytesAppend | lib/include/dmit/wsm/emit.hpp:1386-1506 | sections written one after the other are the concatenation of their bytes |
| WasmLists.OthersTurned | lib/include/dmit/com/tree_visitor.hpp:77-100 | reversing other lists does not change what a list of instructions holds |
| WasmLists.DescribedWhenTurned | lib/include/dmit/com/tree_visitor.hpp:77-118 | a writing pass leaves every list reversed, so that a second one would write all of them backwards |
| WasmEmitter.Emitter.EmitOp | lib/include/dmit/wsm/emit.hpp:308-323 | the bytes of an instruction without nested lists |
| WasmEmitter.Emitter.EmitBlock | lib/include/dmit/wsm/emit.hpp:233-253 | opcode, block type, nested instructions, end |
| WasmEmitter.Emitter.EmitIf | lib/include/dmit/wsm/emit.hpp:255-274 | opcode, block type, both branches, end |
| WasmEmitter.Emitter.EmitElse | lib/include/dmit/wsm/emit.hpp:267-271 | the else branch is written exactly when it is not empty |
| WasmEmitter.Emitter.EmitItem | lib/include/dmit/wsm/emit.hpp:1262-1267 | the bytes of any modelled instruction |
| WasmEmitter.Emitter.EmitList | lib/include/dmit/com/tree_visitor.hpp:77-118 | a counting pass meets the nodes last to first and a writing pass first to last, yet both account for the bytes of the list in insertion order |
| WasmEmitter.Emitter.EmitNth | lib/include/dmit/com/tree_visitor.hpp:107-115 | one turn of that loop, in either direction |
| WasmModule.EmitLocals | lib/include/dmit/wsm/emit.hpp:157-161 | each local as a group of one |
| WasmModule.EmitBody | lib/include/dmit/wsm/emit.hpp:163-174 | number of locals, locals, instructions, end |
| WasmModule.EmitSizedBody | lib/include/dmit/wsm/emit.hpp:1493-1494 | a body behind a patched size field |
| WasmModule.EmitBodies | lib/include/dmit/wsm/emit.hpp:1491-1495 | all bodies in order |
| WasmModule.EmitDatum | lib/include/dmit/wsm/emit.hpp:1269-1306 | flags, memory, offset and raw bytes of a datum |
| WasmModule.EmitDatums | lib/include/dmit/wsm/emit.hpp:1498-1506 | all data behind their number |
| WasmModule.EmitCodeSection | lib/include/dmit/wsm/emit.hpp:1480-1496 | the code section, only when there are functions |
| WasmModule.EmitDataSection | lib/include/dmit/wsm/emit.hpp:1498-1506 | the data section, only when there are data |
| WasmRanges.EmitTypeSection | lib/include/dmit/wsm/emit.hpp:1386-1396 | the type section, only when there are types |
| WasmRanges.EmitImportSection | lib/include/dmit/wsm/emit.hpp:1398-1405 | the import section, only when there are imports |
| WasmRanges.EmitFuncSection | lib/include/dmit/wsm/emit.hpp:1407-1421 | the function section, only when there are functions |
| WasmRanges.EmitMemSection | lib/include/dmit/wsm/emit.hpp:1432-1439 | the memory section, only when there are memories |
| WasmRanges.EmitExportSection | lib/include/dmit/wsm/emit.hpp:1452-1459 | the export section, only when there are exports |
| WasmRanges.EmitStartSection | lib/include/dmit/wsm/emit.hpp:1461-1468 | the start section, only when there is a start function |
| WasmRanges.EmitDataCountSection | lib/include/dmit/wsm/emit.hpp:1470-1478 | the data count section, only when there are data; `WasmParts.ModuleIsRecovered` reads it |
| WasmRanges.OpenSection | lib/include/dmit/wsm/emit.hpp:1388-1389 | section identifier and room for the size |
| WasmRanges.CloseSection | lib/include/dmit/wsm/emit.hpp:1388-1396 | the size of the content is patched when the section ends |
| WasmModule.EmitFront | lib/include/dmit/wsm/emit.hpp:1386-1478 | the sections before the code, in order |
| WasmModule.EmitModule | lib/include/dmit/wsm/emit.hpp:1370-1506 | one pass, counting or writing, accounts for exactly the bytes of the module |
| WasmModule.EmitSize | lib/include/dmit/wsm/emit.hpp:1628-1636 | the counting pass returns the number of bytes of the module and leaves it untouched |
| WasmModule.Emit | lib/include/dmit/wsm/emit.hpp:1605-1636 | the writing pass fills a buffer of that size exactly, with the bytes of the module |
| WasmReader.SizedReadsBack | lib/include/dmit/wsm/emit_size.hpp:11-22 | a patched size field decodes to the length of what follows it |
| WasmReader.SectionsReadBack | lib/include/dmit/wsm/emit.hpp:1386-1506 | reading identifiers and sizes gives back the sections (section 5.5.2 of the WebAssembly Core Specification) |
| WasmReader.EntriesReadBack | lib/include/dmit/wsm/emit.hpp:1491-1495 | the same for function bodies (section 5.5.13) |
| WasmReader.CodeSectionReadsBack | lib/include/dmit/wsm/emit.hpp:1480-1496 | a code section reads back as its bodies |
| WasmReader.ModuleReadsBack | lib/include/dmit/wsm/emit.hpp:1370-1506 | a module below 4 GiB begins with the magic number and the version, byte by byte, and reads back as its sections and its bodies |
| WasmParts.RangeReadsBack | lib/include/dmit/wsm/emit.hpp:1386-1478 | whatever has a reader that inverts its writer has one for its counted ranges |
| WasmParts.ModuleIsRecovered | lib/include/dmit/wsm/emit.hpp:1370-1506 | the bytes of a module below 4 GiB give back its types, imports, function types, memories, exports, start function and number of data, one by one, and the number that its data section begins with |
| WasmParts.SectionsAreOrdered | lib/include/dmit/wsm/emit.hpp:1370-1506 | the sections stand in the order of the format (section 5.5.2), the number of data between elements and code, and none twice |
| WasmCode.OpReadsBack | lib/include/dmit/wsm/emit.hpp:308-323 | a reader of the binary format recovers each instruction without nested lists |
| WasmCode.ItemsReadBack | lib/include/dmit/wsm/emit.hpp:233-274 | and each nested list of instructions, whatever follows its terminator |
| WasmCode.BodyReadsBack | lib/include/dmit/wsm/emit.hpp:163-174 | the instructions of an emitted body read back up to its end |
| WasmBodies.BodyIsRecovered | lib/include/dmit/wsm/emit.hpp:163-174 | the bytes of a body give back its locals, group by group, and its instructions |
| WasmBodies.CodeIsRecovered | lib/include/dmit/wsm/emit.hpp:1480-1496 | the bytes of a module below 4 GiB give back all of its function bodies, locals and instructions |
| WasmCode.BlockTypeReadsBackIff | lib/include/dmit/wsm/emit_block_type.hpp:42-47 | a function type as block type is written unsigned and read signed: it reads back if and only if the top bit of its highest group of seven is clear |
| WasmData.FrontReadsBack | lib/include/dmit/wsm/emit.hpp:1269-1306 | what stands in front of the bytes of a datum reads back as its mode, its memory and the instructions of its offset, and leaves just the bytes |
| WasmData.DataReadBackIff | lib/include/dmit/wsm/emit.hpp:1284-1305 | the bytes of a datum are written without their count, so the data of a module read back (section 5.5.14) if and only if there are none |
| WasmData.DataAreAmbiguous | lib/include/dmit/wsm/emit.hpp:1284-1305 | different data give the same bytes: they can be cut anew at every byte that looks like flags |
| GenLanguage.ExecAppend | lib/src/dmit/gen/emitter.cpp:254-257 | code run one after the other is the code of both |
| GenCode.ExprRuns | lib/src/dmit/gen/emitter.cpp:104-242 | the code of an expression pushes its source value modulo 2 to the 64 and leaves the rest of the frame alone |
| GenCode.ArgsRun | lib/src/dmit/gen/emitter.cpp:215 | the code of arguments pushes their values in order |
| GenCode.CallRuns | lib/src/dmit/gen/emitter.cpp:221-241 | a generated call does what the source call does |
| GenCode.BodyRuns | lib/src/dmit/gen/emitter.cpp:244-257 | the code of a body leaves one value, and each local holds the value of its variable |
| GenCode.AdderRuns | lib/src/dmit/gen/emitter.cpp:441-460 | the built-in addition adds its two arguments modulo 2 to the 64 |
| GenCode.PlainRuns | lib/src/dmit/gen/emitter.cpp:317-327 | a whole function, with its locals started at zero, leaves the value of its body |
| GenCode.InvokeRuns | lib/src/dmit/gen/emitter.cpp:261-351 | calling a compiled function computes what its definition means, through any depth of calls |
| GenOperators.OperatorLeavesOneIff | lib/src/dmit/gen/emitter.cpp:174-208 | whatever its operands, in any frame, an operator leaves one value if and only if it is bound to a function of an interface; otherwise no call is generated |
| GenOperators.OperandOrderMattersIff | lib/src/dmit/gen/emitter.cpp:178-179 | the operands are passed right first, so the code of an operator is right for all operands in all frames if and only if the function it is bound to commutes on them |
| GenOperators.LinkedAdds | lib/src/dmit/gen/emitter.cpp:441-460 | imported from another generated bundle, the built-in addition is the addition of the source |
| GenUnit.DeclaredOnce | lib/src/dmit/gen/emitter.cpp:122-142 | every variable of a definition has its own local |
| GenUnit.DoneStays | lib/src/dmit/gen/emitter.cpp:265-268 | finished functions stay finished while others are generated |
| GenScribe.Scribe.GenExpr | lib/src/dmit/gen/emitter.cpp:104-242 | generating an expression appends its code to the current function only, and finishes every function first met on the way |
| GenScribe.Scribe.GenOperands | lib/src/dmit/gen/emitter.cpp:178-179 | right operand, then left operand |
| GenScribe.Scribe.GenBinop | lib/src/dmit/gen/emitter.cpp:174-209 | operands and call of an operator |
| GenScribe.Scribe.GenOperator | lib/src/dmit/gen/emitter.cpp:181-208 | a call exactly for operators bound to an interface |
| GenScribe.Scribe.GenFunCall | lib/src/dmit/gen/emitter.cpp:211-242 | arguments, then the call |
| GenScribe.Scribe.GenArgs | lib/src/dmit/gen/emitter.cpp:215 | arguments in order |
| GenScribe.Scribe.GenCall | lib/src/dmit/gen/emitter.cpp:217-241 | the callee is generated first if need be, and called by its place in the module |
| GenScribe.Scribe.GenDef | lib/src/dmit/gen/emitter.cpp:261-351 | a definition is generated at most once, a function of an interface is imported |
| GenScribe.Scribe.GenFunction | lib/src/dmit/gen/emitter.cpp:304-350 | generating a function, however many others that starts, leaves it finished |
| GenScribe.Scribe.GenParameters | lib/src/dmit/gen/emitter.cpp:317 | the arguments become the first locals, in order |
| GenScribe.Scribe.GenCode | lib/src/dmit/gen/emitter.cpp:319-327 | the code of the definition, and the number of locals it declares |
| GenScribe.Scribe.GenAdder | lib/src/dmit/gen/emitter.cpp:441-460 | the code of the built-in addition |
| GenScribe.Scribe.GenBody | lib/src/dmit/gen/emitter.cpp:249-257 | the statements of a body in order |
| GenScribe.Scribe.GenStmt | lib/src/dmit/gen/emitter.cpp:249-252 | one statement more |
| GenScribe.AllDone | lib/src/dmit/gen/emitter.cpp:501-506 | when the outermost visit is over, every function is finished |
| GenScribe.Generate | lib/src/dmit/gen/emitter.cpp:501-510 | after visiting all definitions the module holds the code of each, with the right number of locals |
| GenScribe.GeneratedCodeIsCorrect | lib/src/dmit/gen/emitter.cpp:501-519 | every function of a generated bundle computes modulo 2 to the 64 what its definition means over the integers |
| GenOperators.SumsAreCorrect | lib/src/dmit/gen/emitter.cpp:501-519 | a bundle over literals, variables, `+` and calls, linked to the generated addition of another one, computes modulo 2 to the 64 what it means over the integers, with no assumption on operators left |
| FactMap.LinksDiffer | lib/src/dmit/sem/fact_map.cpp:189-213 | a chain that ends meets no key twice |
| FactMap.LoopNeverEnds | lib/src/dmit/sem/fact_map.cpp:198-213 | a chain that comes back to one of its keys never ends |
| FactMap.Facts.Emplace | lib/src/dmit/sem/fact_map.cpp:198-213 | counts one more at each link and puts the fact behind the last one |
| FactMap.Facts.MakeView | lib/src/dmit/sem/bundle.cpp:30-51 | fills as many slots as the first count says, each once, last to first |
| FactMap.ChainIsCounted | lib/src/dmit/sem/fact_map.cpp:210 | the chain of an identifier is as long as its number of facts |
| FactMap.InsertionEnds | lib/src/dmit/sem/fact_map.cpp:198-213 | with collision-free keys the insertion ends |
| FactMap.InsertionStores | lib/src/dmit/sem/fact_map.cpp:198-213 | an insertion puts the fact behind those of its identifier and changes no others |
| FactMap.EmplaceAll | lib/src/dmit/sem/fact_map.cpp:198-213 | after any sequence of insertions each identifier has its facts in order, with exact counts |
| FactMap.ViewOf | lib/src/dmit/sem/bundle.cpp:30-51 | a view has one slot for each fact of its identifier, and every fact is in it |
| Lexer.ReadIsPlain | lib/src/dmit/lex/machine.hpp:120-499 | without quotes, comments are open exactly inside block comments and the identifier node is reached exactly behind a letter followed by letters and digits |
| Lexer.StarsCloseIff | lib/src/dmit/lex/machine.hpp:269-311 | inside block comments nested to any depth a run of stars and a slash ends one of them if and only if the run is odd |
| Lexer.MunchIsDetermined | lib/src/dmit/lex/node.hpp:124-147 | where a token begins determines its kind and its end |
| Lexer.PushedMore | lib/src/dmit/lex/state.cpp:16-20 | pushing a token read to its end keeps the cut |
| Lexer.PushedFacts | lib/src/dmit/lex/node.hpp:36-147 | tokens end strictly one behind the other, and are identifiers exactly when they begin with a letter, as long as letters and digits go on |
| Lexer.SlicesJoin | lib/src/dmit/lex/state.cpp:52-61 | the slices of the tokens join to the input |
| Lexer.EndsHere | lib/src/dmit/lex/node.hpp:36-55 | a node without a transition ends its token; where it consumes nothing, the unknown character is taken along |
| Lexer.State.Goto | lib/src/dmit/lex/node.hpp:124-147 | for every input without quotes the automaton ends, having cut the rest of the input into tokens that each go on as long as they can |
| Lexer.State.PushAndGoOn | lib/src/dmit/lex/node.hpp:46-53 | the token is pushed and the automaton starts anew |
| Lexer.State.Spells | lib/src/dmit/lex/state.cpp:70-81 | compares a slice with a keyword without looking behind the end mark of the keyword |
| Lexer.State.MatchKeyword | lib/src/dmit/lex/state.cpp:63-87 | the keyword that a token spells, if it is an identifier and spells one |
| Lexer.State.MatchKeywords | lib/src/dmit/lex/state.cpp:45-89 | every identifier that spells a keyword becomes it, in place, and nothing else changes |
| Lexer.State.Lex | lib/src/dmit/lex/state.cpp:94-112 | the whole input is cut, marked at both ends, and its keywords matched; `LexerSpelling.TokenIsSpelled` says what each token is |
| LexerSpelling.TokenIsSpelled | lib/src/dmit/lex/machine.hpp:120-499 | a token is of a kind if and only if its characters spell it: the one literal spelling of every symbol and keyword, digits, decimals with their exponents, blanks, words, quoted data, and comments with their nesting |
| LexerSpelling.FixedSpelling | lib/src/dmit/lex/machine.hpp:120-499 | a token is a given symbol or keyword if and only if its characters are the one string that spells it |
| LexerSpelling.UnknownIsUnspelled | lib/src/dmit/lex/machine.hpp:120-499 | it is unknown if and only if its characters spell nothing |
| LexerSpelling.TokenIsLongest | lib/src/dmit/lex/node.hpp:36-55 | no token is spelled by the characters of one and some that follow them |
| LexerSpelling.BlockSplit | lib/src/dmit/lex/machine.hpp:269-311 | at every character of a block comment what is left closes it if and only if the whole does, by pairs of characters |
| Lexer.LexedJoins | lib/src/dmit/lex/state.cpp:94-112 | the slices of all tokens give back the input |
| Lexer.LexedFacts | lib/src/dmit/lex/state.cpp:45-112 | offsets fall, only the last token is the end of the input, a token is a given keyword if and only if it is spelled like it, and an identifier if and only if it begins with a letter and spells no keyword |
| Lexer.LexedIsDetermined | lib/src/dmit/lex/state.cpp:94-112 | the input determines tokens and offsets |

## Left out

- RobinTable.Table.Emplace: when memory runs out, the original lets an exception through; what the table then holds is not stated, only that the manager is at its limit.
- RobinTable.Table.Find: requires that the loop of the search ends, which it does at every load factor level up to seven (`RobinTable.Table.SearchesEnd`) and for every counter-safe key.
- RobinTable.Table.Erase: requires the search for the key to end unfooled, and no shrink into a buffer without room, which loses an element (`RobinLoss.ShrinkLoses`); the turns that the loop of such a shrink makes after that are not followed.
- RobinTable.Table.ShiftBuckets: requires no shrink into a buffer without room, for the same reason.
- RobinShrink.ShrinkOverflow: up to the point where the drained buffer is begun anew; `RobinLoss.ShrinkLoses` goes on from there.
- RobinTable.Table.Shrink: requires the elements to fit in the smaller buffer when the larger one is the last, for the same reason.
- RobinMap.Map.Index: requires the search for the key to end unfooled.
- RobinMap.Map.Step: requires what `Find` and `Erase` require when the operation is a lookup or a removal, and nothing for the others.
- RobinMap.Map.Replay: requires the keys to be scattered before each lookup and removal, which up to 254 bindings always are (`RobinMap.Map.FewAreApart`); the condition is sufficient for a run, whose buffers depend on its history, and not necessary.
- Iteration over a hash table, also after an erase; the random choice of where iteration begins is any filled bucket.
- IntrusiveList.List.PopFront: the recycling of cells in their pool and its memory are not modelled.
- TopoLists.NodeLists.Block: for the first pending node requires that its cell has no back link, as one stays behind when a node before it was popped; `IntrusiveList.Steal` says what happens otherwise.
- TopoGraph.Graph.Attach: requires the same of a depender that is the first pending node; the callers of the original attach before they pop.
- TopoGraph.Graph.MakeCycle: requires the marks of the blocked nodes to be clear, as they are before the first search; for searches on the marks of an earlier one see `TopoState.SecondSearchEndsIff`.
- Edge lists of the graph, and the cells of the dependees and dependers of a node, are sequences; pending and blocked nodes are in intrusive lists.
- ImportGraph.Imports.MakeBundles: for acyclic imports; solving cycles with hyper nodes and bundles of several modules are not part of this model.
- PrintedModules.RootParses: for functions with a body; `PrintedDefinitions.BodilessSwallows` says what becomes of one without.
- WasmData.FrontReadsBack: requires block types in the offset that read back (`WasmCode.BlockTypeReadsBackIff`).
- ParserState.Builder.Parse: which errors are collected for reporting is left out; node counts are unbounded where the original has 32 bits.
- AstBuilder.MakeExpression: expressions, calls, argument lists and scopes; modules, classes, functions and their definitions are left out, and members are filled by the loop of the arguments.
- ThreadPool.StepKeeps: steps are sequentially consistent; memory orders, condition variables, spurious wake-ups and the shutdown of workers are left out.
- Leb128.MakeUnsigned: the padded form for values of more than 35 bits, for which its five bytes have no room, is not modelled; no caller passes more than 32 bits to it.
- WasmEmitter.Emitter.EmitOp: twelve plain opcodes stand for the rest, each of which is one more branch of the same kind.
- WasmEmitter.Emitter.EmitItem: those opcodes, blocks, loops and conditionals. Blocks have a type: the original stops on an empty one.
- WasmModule.EmitModule: non-object modules; tables, globals and floating point are left out, relocations and linking sections too, so that offsets do not depend on the pass.
- WasmModule.EmitSize: for the modules of `WasmModule.EmitModule`.
- WasmModule.Emit: for the modules of `WasmModule.EmitModule`.
- WasmBodies.BodyIsRecovered: requires the stored number of locals to be that of their list, which code generation keeps (`GenScribe.Generate`), and block types that read back (`WasmCode.BlockTypeReadsBackIff`).
- WasmBodies.CodeIsRecovered: requires the same of every body.
- WasmWriter.Writer.CloseSize: sizes are stored in 32 bits as in the original, so `WasmReader.ModuleReadsBack` is for modules below 4 GiB.
- GenScribe.Generate: locals are identifiers and counts instead of nodes of a list; every value is an i64; statements are lets, assignments and a final return; symbols, exports, names and relocations are left out.
- FactMap.Facts.Emplace: requires the chain of the key to end, since the original does not return otherwise (`FactMap.LoopNeverEnds`).
- Lexer.State.Lex: inputs without single quotes; quoted data are compared by hash.
- LexerSpelling.TokenIsSpelled: inputs without single quotes.
- LexerSpelling.FixedSpelling: inputs without single quotes.
- LexerSpelling.UnknownIsUnspelled: inputs without single quotes.
- LexerSpelling.TokenIsLongest: inputs without single quotes.
- Lexer.State.Goto: inputs without single quotes.
- Lexer.State.PushAndGoOn: inputs without single quotes.
- Coroutines, scheduler and semantic contexts, which switch stacks at machine level.
- Base64, line index, archive writer, formatting, client and server, database, files and clocks.
