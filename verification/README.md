# A verified model of the Bob build system's hard parts

The files here model five parts of Bob and prove what they promise, for every input, every
run and every order in which maps and sets may be traversed.

**Link order** (`Digraph`, `GraphState`, `ProxyCollapse`, `ProxyState`, `ProxyRuns`, `Graph`,
`Subgraph`, `OrderingEdges`, `TopoSort`, `SortOrder`, `DepSorter`). The mutable dependency graph is a class of node
objects updated in place. Its abstract value is a map of node records, kept in mirror form: the
target list, the attribute map and the sources of the targets always agree. On it stand
subgraph extraction, the collapse of whole-static ("red") edges, the topological sort, and the
resolver that adds temporary ordering edges, copies a subgraph, takes the edges out again,
collapses, and sorts. The main results:

- the resolver never reports a cycle when there is none below the module (red loops from a node
  to itself do not count). When no chain of red edges competes with a chain that another edge
  ends, which a caller can look up in the declared graph (`DepSorter.Unclashed`), it reports one
  exactly when there is one; and in any case it reports a cycle through a node that no red edge
  enters (`DepSorter.CycleIsFound`);
- a library that no red edge enters is listed exactly when it is below the module
  (`DepSorter.ListedExactly`); without competing chains the list is exactly what other declared
  edges below the module, or temporary ordering edges, lead to (`DepSorter.ListedWithoutClash`).
  Each library is listed once, in front of those it still links to, and in the declared order
  where that order is possible;
- the list is the sort of the collapsed graph by its priorities. Of two libraries that one node
  links to, one that nothing else links to stands in front of the other if it has more users or
  pulls in less, or as much and is linked first (`DepSorter.FavouredLibsFirst`);
- the shared graph afterwards is exactly the declared one;
- what collapsing keeps (`ProxyState.Collapsing`) holds along every run, in any order of nodes
  and whatever cycles there are. Runs from a graph whose red edges make no cycle of more than one
  node are bounded (`ProxyRuns.RunsEnd`); on four nodes there are red edges from which passes can
  go on for ever (`ProxyRuns.EndlessRun`).

**Mconfig propagation** (`Options`, `Evaluation`, `Choices`, `ChoiceDefaults`, `Levels`,
`Consistency`, `Effects`, `Indices`, `Propagation`, `Settings`, `ConfigSystem`, `Displaced`,
`Rivals`). One call of `set_config` sets off assignments, defaults, selects and choice defaults
that call each other. The class `ConfigSystem` has these procedures with their loops and fields. An acyclic database is one with a rank: an option ranks above all that
its dependencies and defaults name, above what selects it, and above what the conditions of
those selects name; the members of a choice share a rank. Proved for all such databases:

- every call ends (rank first, then a phase inside the choice);
- below the option's rank nothing changes, and at its rank exactly what the function `SetOwn`
  says;
- a configuration is described by *facts* (`Consistency.Fact`), some of them for all options,
  some for options outside choices and some for choices and their members. Every call keeps every
  good fact other than those it sets itself, although they are broken in between:
  - any option that is selected is on, and `selected_by` records who selects it;
  - an option outside choices that is not selected holds what the user asked for, or else its
    default, as far as its dependencies allow;
  - a choice has at most one member on, and one if it records a selection or a member can be
    enabled; the member the user asked for last is on whenever it can be enabled;
- a choice that picks a default takes the member with the best reason: selected, then asked for,
  then on by a conditional default, then by a plain one; and of two with the same reason the one
  declared first (`ChoiceDefaults.PicksTheBest`, `ChoiceDefaults.FirstThatCan`);
- what conditions, expressions and defaults come to is stated without the evaluator
  (`Evaluation`): the operators are those of logic, the comparisons those of the order of numbers
  and texts, and an option's default is the first one that applies;
- from the initial values on, settings are taken up to the first whose text does not convert.
  Then the last text the user gave for an option outside choices is on record, and so is the
  member of a choice to which the user last said y. No nested call changes what is on record for
  another one. An option outside choices that nothing selects meets that text as far as its
  dependencies allow, and such a member is the one on (`Settings.LastAreMet`,
  `ConfigSystems.Configure`);
- what is said of a member of a choice, that it is on when selected or asked for, is claimed if no
  other member of the choice can be selected (`Choices.Rivalled` does not hold).
  Otherwise it is false: with two selectors on, one of the selected members is off
  (`Rivals.SelectBoth` is a run that ends so); and a member that the user marked stays on when its
  selector is dropped, whatever the user asked for (`Propagation.DroppedStaysOn`);
- a member that is told to go on and gives way to a selected one goes off without a word to the
  options that look at it. This matters where a third member is turned off before
  (`Consistency.Displaceable`), so never in a choice of two. The facts about wanted values,
  recorded selectors and filled choices are claimed where nothing they look at is such a member
  (`Consistency.Steady`). `Displaced.StaleDefault` has a state in which an option that looks at
  one is left with a default it no longer has.

**Module marking** (`Marking`, `Disabling`). The parallel walkers of `find_required_modules`
are a step relation over their to-do lists and the shared marks; the bottom-up disabling pass is
a class with a set of enabled modules.

**Defaults** (`Defaults`) flattens a hierarchy of defaults; **text** (`ConfigFile`, `Text`,
`ShellSplit`) covers the configuration file, written and read back, and the splitting of
`{{shlex}}` values. `Wrappers` and `Powers` are helpers.

Some claims of the source turn out not to hold for all inputs; each has a condition and a
concrete input that fails:

- Reading back a configuration file cuts a string value at its first hash: `CONFIG_A="x#y"` comes
  back as the value `"x` (`ConfigFile.HashExample`). It loses an option that the user turned off
  when its source text itself says " is not set" before any equals sign, since the pattern for
  the name is greedy (`ConfigFile.MisreadExample`). It takes a menu titled `CONFIG_X is not set`
  for a setting (`ConfigFile.TitleExample`). And a value or a source with a line break in it does
  not come back. A file comes back exactly when none of these is in it
  (`ConfigFile.FileComesBack`), a title with line breaks being one that has a line which reads as
  anything but a comment or a blank line.
- Splitting keeps everything but loose white space exactly for values without a backslash
  (`ShellSplit.NothingLost`). Words survive joining and splitting again exactly when they are
  proper (`ShellSplit.SplitAgain`), and those of a value exactly when no backslash in it escapes
  another one or white space outside quotes (`ShellSplit.SplitIsFinal`,
  `ShellSplit.EscapedSpaceSplits`).
- An option does not always hold its default or what was asked for, and one that is selected is
  not always on, as said above (`Displaced.StaleDefault`, `Rivals.SelectBoth`).

Where collapsing meets two edges into the same place, one red and one not, the outcome depends on
the order in which a Go map yields its nodes: one order loses a connection, another keeps it
(`ProxyCollapse.ClashDependsOnOrder`), and one order loses a cycle that another keeps
(`ProxyCollapse.CycleDependsOnOrder`).

Where the code and its comments disagree the model follows the code: the comment at
core/build_structs.go:547 says that all dependencies of an alias are required, but the code
returns for aliases as it does for defaults. docs/config_system.md:161 says that hidden options
are always given their default value; in the code a select can turn one on, and a default of y
waits for the dependencies.

Preconditions state what the callers in the repository establish: option values arrive with the
option's type (defaults that `validate_configs` accepts, user texts that `set_config` converts),
names in expressions are known, and select targets are bools.

## Model

| member | source | states |
|---|---|---|
| GraphState.WithNodeKeeps | internal/graph/graph.go:276-288 | adding a node keeps the mirror invariant and every edge |
| GraphState.WithEdgeKeeps | internal/graph/graph.go:457-466 | adding an edge keeps the mirror invariant and adds that edge only; every edge there was keeps its attributes |
| GraphState.WithEdgeAttributesKeeps | internal/graph/graph.go:435-455 | overwriting attributes keeps the mirror invariant and the edges |
| GraphState.WithoutEdgeKeeps | internal/graph/graph.go:529-533 | deleting an edge keeps the mirror invariant and removes that edge only |
| GraphState.WithoutNodeKeeps | internal/graph/graph.go:290-313 | deleting a node keeps the mirror invariant and removes exactly its edges |
| GraphState.AddThenDeleteRestores | internal/graph/graph.go:457-533 | adding a new edge and deleting it gives back the same graph, target order, sources and attributes included |
| Graphs.Graph.AddNode | internal/graph/graph.go:276-288 | the object graph becomes the value with the node; true exactly when it is new |
| Graphs.Graph.AddEdgeBetween | internal/graph/graph.go:457-466 | appends the target, makes an attribute map and a source entry; true exactly when the edge is new |
| Graphs.Graph.AddEdge | internal/graph/graph.go:468-480 | adds missing end nodes first |
| Graphs.Graph.SetEdgeAttributes | internal/graph/graph.go:435-455 | replaces the attributes of an existing edge and changes nothing else; false without the edge or one of its ends |
| Graphs.Graph.SetEdgeColor | internal/graph/graph.go:482-502 | sets the quoted colour of an existing edge |
| Graphs.Graph.DeleteEdge | internal/graph/graph.go:529-549 | removes target, attributes and source entry |
| Graphs.Graph.DeleteNode | internal/graph/graph.go:290-313 | removes the node and both copies of all its edges |
| Graphs.Graph.CopyEdges | internal/graph/graph.go:336-341 | the proxy's targets become targets of the source, with the proxy's attributes, overwriting those of edges that exist |
| Graphs.Graph.DeleteProxyEdge | internal/graph/graph.go:335-375 | the edge to the proxy is gone and the proxy's targets hang on the source; without the edge nothing changes |
| Graphs.Graph.DeleteProxyEdges | internal/graph/graph.go:350-370 | unless coloured edges make a cycle of more than one node, the loop ends for any order of the nodes, is a run of passes, and leaves no edge of the colour and a state that every collapse law below covers |
| Graphs.Graph.ReplaceProxyEdgesOnce | internal/graph/graph.go:358-369 | one pass over all nodes in any order, on any graph; none removed exactly when no edge of the colour is left |
| Graphs.Graph.ReplaceProxyEdgesOf | internal/graph/graph.go:360-367 | one node's share of a pass is a sweep over the targets it had, on any graph; none removed exactly when no edge of the colour leaves the node |
| Graphs.Graph.DeleteProxyNode | internal/graph/graph.go:315-333 | every source of the node is linked to every target, then the node goes |
| Graphs.Graph.CutSubgraph | internal/graph/graph.go:122-128 | on a graph acyclic below the root it ends and removes exactly the root's strict descendants |
| ProxyCollapse.BypassKeepsReach | internal/graph/graph.go:335-348 | replacing one edge keeps reachability of every target other than the proxy exactly |
| ProxyCollapse.CollapseShrinksColor | internal/graph/graph.go:335-348 | an edge of the colour only ever shortens a chain of the colour that was there |
| ProxyCollapse.CollapseIsSound | internal/graph/graph.go:335-348 | a chain of coloured edges ended by another edge after a replacement existed before it |
| ProxyCollapse.CollapseIsComplete | internal/graph/graph.go:335-348 | without clashes and cycles of more than one coloured node no such chain is lost |
| ProxyCollapse.CollapseLightens | internal/graph/graph.go:356-369 | the weight of the coloured edges, by height of the target, drops with each replacement |
| ProxyCollapse.ClashDependsOnOrder | internal/graph/graph.go:338-340 | a graph with a clash where one order of replacements loses a connection and another keeps it |
| ProxyCollapse.CycleDependsOnOrder | internal/graph/graph.go:338-340 | a graph with a cycle below a node where one order of replacements keeps a cycle below it and another loses it |
| ProxyCollapse.ViaKeepsCycles | internal/graph/graph.go:350-370 | the fully collapsed edges have a cycle below a node exactly when the original edges do |
| ProxyState.ProxyEdgeCollapses | internal/graph/graph.go:335-348 | the update on nodes and attributes is a collapse of the coloured and other edges |
| ProxyState.CollapsingStep | internal/graph/graph.go:356-369 | one more replacement keeps all that collapsing promises, whatever cycles there are, and lowers the load if the coloured edges make none of more than one node |
| ProxyState.UnleftStep | internal/graph/graph.go:335-348 | a node that no coloured edge leaves keeps its targets, in order and with attributes |
| ProxyState.CollapsedEdges | internal/graph/graph.go:350-370 | each surviving edge stands for an original chain of coloured edges ended by one of another colour; without clashes each such chain has its edge |
| ProxyState.CollapsedReach | internal/graph/graph.go:350-370 | reachability never grows and no cycle appears, not even out of coloured loops; without clashes a cycle stays |
| ProxyState.UnenteredCycleStays | internal/graph/graph.go:350-370 | clashes or not, a cycle through a node that no edge of the colour enters stays where it was in reach |
| ProxyRuns.WholePass | internal/graph/graph.go:358-369 | a pass over all nodes keeps all that collapsing promises; it changes nothing when no edge of the colour is left and otherwise lowers the load |
| ProxyRuns.RunsEnd | internal/graph/graph.go:356-369 | if the coloured edges make no cycle of more than one node, no run has more passes that find something than the load it starts with |
| ProxyRuns.EndlessRun | internal/graph/graph.go:356-369 | on any four nodes there are coloured edges from which, for every n, some order of the nodes gives n passes that all find something |
| ProxyState.ProxyNodeKeepsReach | internal/graph/graph.go:315-333 | among all other nodes reachability is the same, cycles and self-loops allowed |
| ProxyState.CutReach | internal/graph/graph.go:122-128 | with part of the subgraph cut, the remaining nodes reach each other as before |
| Subgraph.SubgraphIsUnique | internal/graph/graph.go:788-845 | reachable nodes, their edges, attributes, target order and priorities fix the result |
| Subgraph.SpanIsLeast | internal/graph/graph.go:662-688 | the reachable nodes are the least set closed under targets |
| Subgraph.GetSubgraph | internal/graph/graph.go:788-845 | the fast extraction ends on every graph and returns exactly the reachable subgraph |
| Subgraph.GetSubgraphByInterface | internal/graph/graph.go:619-635 | the generic extraction returns the same |
| Subgraph.Walk | internal/graph/graph.go:814-845 | visiting a node finishes it and everything opened below it |
| Subgraph.GetSubgraphNodeSet | internal/graph/graph.go:662-702 | the nodes of the subgraph |
| Subgraph.GetSubgraphNodeCount | internal/graph/graph.go:658-660 | their number |
| Subgraph.GetSubgraphHasNode | internal/graph/graph.go:704-756 | membership, stopping early |
| Subgraph.IsReachable | internal/graph/graph.go:409-418 | reachability for nodes of the graph |
| TopoSort.ByPriorityIsStable | internal/graph/graph.go:852-860 | sorting by priority is a stable permutation |
| TopoSort.VisitKeeps | internal/graph/graph.go:883-923 | a visit keeps the invariant of the depth-first search and finishes its node |
| TopoSort.SortIsTopological | internal/graph/graph.go:861-923 | each node once; acyclic is reported exactly when there is no cycle, and then every edge points forward |
| TopoSort.TargetsKeepDeclaredOrder | internal/graph/graph.go:883-923 | leaves of one priority come in target order |
| SortOrder.FavouredFirst | internal/graph/graph.go:852-923 | in an acyclic graph whose root ranks below all else, of two targets of a node one that nothing else uses stands in front of the other if its priority is higher, or the same and it is listed first, whatever order the nodes come in |
| TopoSort.Sorter.VisitNode | internal/graph/graph.go:883-923 | the visitor over colour map, list and flag computes the functional visit |
| TopoSort.TopologicalSort | internal/graph/graph.go:861-881 | the sort over objects ends on every graph, lists each node once, and reports acyclic exactly when there is no cycle, with every edge then pointing forward |
| OrderingEdges.DeclareLibs | core/dep_sorter.go:53-65 | links the module to its libraries in order; fails at the first unknown one |
| OrderingEdges.NoCycleClosed | core/dep_sorter.go:69-81 | an edge whose end does not reach its start closes no cycle |
| OrderingEdges.NoNewReach | core/dep_sorter.go:69-81 | nothing that leads to the end of such an edge reaches anything new |
| OrderingEdges.HarmlessKeepsCycles | core/dep_sorter.go:69-81 | the graph with all ordering edges has a cycle below the module exactly when the declared one has |
| OrderingEdges.HarmlessWithin | core/dep_sorter.go:69-81 | a cycle within any part of the edges is made of declared edges only |
| OrderingEdges.StillOrderly | core/dep_sorter.go:70-81 | ordering edges added so far do not make a later library reach an earlier one |
| OrderingEdges.OrderBefore | core/dep_sorter.go:71-81 | one row of pairs with the reachable set looked up once stays harmless and treats every pair |
| OrderingEdges.AddOrderingEdges | core/dep_sorter.go:67-81 | all pairs are ordered or reach backwards; new edges join a library to one listed later and lie on no cycle; nothing new is reached from the module |
| OrderingEdges.RemovePink | core/dep_sorter.go:85-90 | taking one temporary edge out leaves the others as recorded |
| OrderingEdges.RemoveOrderingEdges | core/dep_sorter.go:85-90 | the graph is the one before the edges were added, in every field |
| DepSorter.SetPriorities | core/dep_sorter.go:92-125 | each node's priority is ten times its users less what it pulls in; the module's is the smallest 64-bit integer, and the least of all in a graph of at most 2^63 nodes |
| DepSorter.ResolveDependencySort | core/dep_sorter.go:53-139 | the whole resolver: dies for a missing library exactly when one is missing, leaves the shared graph as declared, and reports a cycle or a link order, the tail of the sorted collapsed graph with its priorities; no cycle below the module, none reported; with no competing chains in the declared graph, one reported exactly when there is one |
| DepSorter.CycleVerdict | core/dep_sorter.go:92-138 | no cycle below the module but of red loops, none found; without clashes, found exactly then |
| DepSorter.UnclashedRun | core/dep_sorter.go:67-92 | when the declared graph has no competing chains below the module, the copied subgraph with its temporary edges has no clash |
| DepSorter.CycleIsFound | core/dep_sorter.go:92-138 | clashes or not, a cycle below the module through a node that no whole-static edge enters is found |
| DepSorter.HeadIsMain | core/dep_sorter.go:130-131 | the list head popped is the module, the rest a link order without repeats |
| DepSorter.ListedExactly | core/dep_sorter.go:83-138 | clashes or not, a library that no whole-static edge enters is listed exactly when the module reaches it in the declared graph |
| DepSorter.ListedWithoutClash | core/dep_sorter.go:83-138 | with no competing chains in the declared graph a library is listed exactly when a declared edge that is not whole-static, or a temporary edge, leads to it from below the module; in an orderly list the temporary edges are those to libraries that one listed before is not linked to |
| DepSorter.ListedInRun | core/dep_sorter.go:83-138 | the same for any run without clashes, over the graph with the temporary edges |
| DepSorter.CollapsedStaysBelow | core/dep_sorter.go:128-138 | nothing is listed that the module does not reach |
| DepSorter.OrderedEdgeStays | core/dep_sorter.go:67-128 | an ordering edge to a library no whole-static edge enters survives the collapse |
| DepSorter.DeclaredOrderIsKept | core/dep_sorter.go:67-138 | if no listed library reaches an earlier one, a library listed earlier precedes any later one that no whole-static edge enters |
| DepSorter.FavouredLibsFirst | core/dep_sorter.go:92-131 | of two libraries that one node still links to, one that nothing else in the list links to stands in front of the other if it has more users or pulls in less, or as much and is linked first |
| Options.ExprFrame | config_system/config_system/expr.py:41-66 | an expression's value depends on the identifiers it names only |
| Options.CondFrame | config_system/config_system/expr.py:81-138 | so does a condition's |
| Options.ExprIsTyped | config_system/config_system/expr.py:141-169 | an expression that type-checks evaluates without error to its type |
| Options.OptionFrame | config_system/config_system/general.py:32-37 | can_enable depends on the dependency identifiers only, the default on those of the default clauses |
| Options.DefaultIsTyped | config_system/config_system/general.py:114-128 | defaults that validate have the option's type |
| Evaluation.LogicHolds | config_system/config_system/expr.py:95-112 | on booleans the operators of conditions are those of logic |
| Evaluation.NotOfOthers | config_system/config_system/expr.py:111-112 | a negation takes zero and the empty text for false |
| Evaluation.LogicOfOthers | config_system/config_system/expr.py:95-98 | numbers and texts joined by a logical operator give one of the two, which is no condition that holds |
| Evaluation.NumbersCompare | config_system/config_system/expr.py:99-110 | on numbers the six comparisons are those of integers |
| Evaluation.BoolsCompare | config_system/config_system/expr.py:99-110 | false is less than true |
| Evaluation.LessIsPrecedes | config_system/config_system/expr.py:99-110 | a text is less than another exactly when it ends, or has the lesser character, at the first place where they differ |
| Evaluation.TextsCompare | config_system/config_system/expr.py:99-110 | on texts the six comparisons are those of that order |
| Evaluation.OneOfThree | config_system/config_system/expr.py:99-110 | that order is strict, and of two different texts one precedes the other |
| Evaluation.PrecedesOn | config_system/config_system/expr.py:99-110 | the order is transitive |
| Evaluation.MixedIsFalse | config_system/config_system/expr.py:92-94 | operands of different kinds make every operator but a negation false |
| Evaluation.ErrorIsFalse | config_system/config_system/expr.py:121-138 | an error anywhere makes the whole condition false |
| Evaluation.NumbersAdd | config_system/config_system/expr.py:41-66 | plus adds, in either order, and minus undoes it |
| Evaluation.TextsJoin | config_system/config_system/expr.py:41-66 | plus joins texts; their difference is an error, which gives the empty text |
| Evaluation.BadSumIsEmpty | config_system/config_system/expr.py:50-78 | booleans and operands of different kinds are errors, which give the empty text |
| Evaluation.DependsOn | config_system/config_system/general.py:32-37 | what an option may depend on: nothing, an option, either of two or both, or one being off |
| Evaluation.DefaultIs | docs/config_system.md:187-192 | an option has the first conditional default whose condition holds, else its plain default, else n, 0 or the empty text by its type |
| Indices.BuildIndices | config_system/config_system/general.py:379-403 | k is listed under i exactly when i occurs in k's dependencies, defaults or select conditions, for distinct i and k |
| Indices.DropSelf | config_system/config_system/general.py:395-403 | only the entry of an option under itself goes |
| Indices.IndexCovers | config_system/config_system/general.py:361-403 | a change of i alone can change can_enable, or the default, only of i and what is listed under it |
| Choices.BestIsLeast | config_system/config_system/general.py:413-466 | the default picked ranks lowest, and displaces the selection only by a strictly lower rank; what the ranks are is stated by ChoiceDefaults.PicksTheBest |
| Choices.AskedIsBest | config_system/config_system/general.py:413-466 | the member asked for is the best default as soon as it can be enabled, if no other can be selected |
| ChoiceDefaults.PicksTheBest | config_system/config_system/general.py:413-466 | the member recorded can be enabled and is as good as every other that can: selected before asked for before on by a conditional default before on by a plain one before the rest; within one reason by position, other than that what is recorded stays if as good |
| ChoiceDefaults.OneReason | config_system/config_system/general.py:416-466 | a member that can be enabled never has two of the reasons |
| ChoiceDefaults.FirstThatCan | docs/config_system.md:280-290 | in a choice with nothing recorded, selected or set by the user, one member that can be enabled goes on and all others are off: the first with a conditional default of y that applies, else the first with a plain one, else the first |
| Choices.SetOnStep | config_system/config_system/general.py:634-646 | turning a member on leaves at most one on: this one unless a selected one stays |
| Choices.SetOnFirm | config_system/config_system/general.py:634-646 | a member without rivals that is not blocked goes on; one that is selected and on stays on; the recorded selection is on |
| Choices.LastOffStep | config_system/config_system/general.py:647-662 | when the last member goes off, at most one ends up on: the same one if it can be enabled, else one the choice falls back on, if any can be enabled |
| Choices.SetOwnStep | config_system/config_system/general.py:582-662 | an assignment touches its own level only, keeps its choice exclusive, and leaves no choice without a member on that could have one |
| Choices.SetOwnFirm | config_system/config_system/general.py:582-662 | no assignment in a choice turns off a selected member without rivals, or leaves such a member recorded but off; only a user's y changes which one was asked for |
| Levels.SameUnsetOthers | config_system/config_system/general.py:636-646 | what happens to a choice does not depend on higher levels, which nested calls change |
| Consistency.SameGood | config_system/config_system/general.py:582-690 | a fact depends on levels up to its own |
| Consistency.TouchKeeps | config_system/config_system/general.py:670-690 | a change of one option upsets, above its level, only the facts that its reverse indices lead to, and those of choices whose members depend on it |
| Consistency.OwnStepKeeps | config_system/config_system/general.py:582-662 | a change of one level keeps the facts of that level other than the option's own |
| Effects.AskedSettles | config_system/config_system/general.py:607-630 | after a user's setting an option outside choices meets it as far as it can |
| Effects.OnAsked | config_system/config_system/general.py:607-646 | after a user's y every member of the choice without rivals is as asked for: the one set is on if it can be enabled |
| Effects.OffAsked | config_system/config_system/general.py:636-662 | turning any member off leaves on the one asked for, if it can be enabled |
| Effects.DefaultAsked | config_system/config_system/general.py:413-466 | picking a default brings on the member asked for |
| Effects.OffSettles | config_system/config_system/general.py:674-675 | turning off what cannot be enabled leaves an option outside choices as it should be |
| Effects.DefaultSettles | config_system/config_system/general.py:480-510 | after its default is set an option outside choices meets it |
| Effects.ReselectSettles | config_system/config_system/general.py:717-722 | however the selectors changed, an option outside choices ends up on, as asked for, or at its default |
| Effects.ReselectForces | config_system/config_system/general.py:717-718 | a member of a choice without rivals is on while it is selected |
| Effects.ReselectAsked | config_system/config_system/general.py:717-722 | a change of selectors leaves on the member asked for, if no other can be selected |
| Effects.ForceKeeps | config_system/config_system/general.py:695-722 | forcing keeps every fact of its level but the one about the selector |
| Effects.ForceStep | config_system/config_system/general.py:707-715 | forcing records or drops exactly the given selector |
| ConfigSystems.ConfigSystem.SetConfig | config_system/config_system/general.py:582-690 | ends; nothing below the option's rank changes, its own level becomes SetOwn, no other option's or choice's record of what the user asked for changes, and every good fact stays good but those about its own wanted value and, in a choice, about what was asked for |
| ConfigSystems.ConfigSystem.RegroupChoice | config_system/config_system/general.py:632-662 | the choice part with its nested calls has the effect of Regroup on the level |
| ConfigSystems.ConfigSystem.UnsetOtherMembers | config_system/config_system/general.py:635-646 | the loop over the members with its cascades; when it gives way to a selected member, either a third one has been told to go off before, or nothing but flags has changed |
| Propagation.GaveWayKeeps | config_system/config_system/general.py:642-646 | a member that was off and gives way at once upsets nothing above its level |
| ConfigSystems.ConfigSystem.UpdateChoiceDefault | config_system/config_system/general.py:413-466 | sets the best default (ChoiceDefaults.PicksTheBest), keeps every fact and all records of requests, fills the choice and brings on the member asked for |
| ConfigSystems.ConfigSystem.UpdateDefaults | config_system/config_system/general.py:480-510 | afterwards the option holds its default (Evaluation.DefaultIs) unless the user set it; every fact and all records of requests are kept |
| ConfigSystems.ConfigSystem.DefaultValue | config_system/config_system/general.py:493-510 | the loop over the default clauses ends with the value that Evaluation.DefaultIs describes |
| ConfigSystems.ConfigSystem.ForceConfig | config_system/config_system/general.py:695-722 | selected_by then has the source exactly when forced on; all other facts are kept |
| ConfigSystems.ConfigSystem.SetSelectIfs | config_system/config_system/general.py:570-579 | every conditional select is recorded exactly when the option is on and the last condition for the target holds |
| ConfigSystems.ConfigSystem.ForceSelected | config_system/config_system/general.py:664-666 | every plain select of an option outside choices is recorded exactly when it is on |
| ConfigSystems.ConfigSystem.UpdateDependents | config_system/config_system/general.py:670-681 | all options whose dependencies name the option are as they should be again |
| ConfigSystems.ConfigSystem.UpdateDependent | config_system/config_system/general.py:672-681 | the same for one of them, in each of the four cases, members of choices included |
| ConfigSystems.ConfigSystem.UpdateDefaulted | config_system/config_system/general.py:683-686 | all options whose defaults name the option hold their defaults |
| ConfigSystems.ConfigSystem.UpdateSelectIfs | config_system/config_system/general.py:688-691 | all selects whose conditions name the option are recorded again |
| ConfigSystems.ConfigSystem.Propagate | config_system/config_system/general.py:664-691 | every fact that the option's new value can upset is good again, and no other is lost |
| ConfigSystems.ConfigSystem.SetInitialValues | config_system/config_system/general.py:356-407 | afterwards every fact is good, no option is marked as set by the user, and nothing is asked for |
| ConfigSystems.ConfigSystem.Set | config_system/config_system/general.py:513-545 | fails, and changes nothing, exactly when a prompted option's text does not convert; unknown and unprompted options are passed over; otherwise the setting is taken: the option's level becomes SetOwn, its request is put on record and no other, and a user's setting is met as far as it can be; for a member of a choice, a y |
| ConfigSystems.ConfigSystem.Run | config_system/config_system/general.py:187-228 | takes the settings one after the other, all of them exactly when every text converts and otherwise up to the first that does not; it keeps every fact that no setting of it loosens |
| ConfigSystems.Configure | config_system/config_system/general.py:154-161 | from the initial values through any settings: the user's last text for an option outside choices, or last y in a choice, is on record and met; nothing else is asked for; each choice has at most one member on; every fact no setting loosens is good |
| Settings.LastIsOnRecord | config_system/config_system/general.py:607-618 | after any settings taken, the user's last one of an option outside choices is on record with its mark; without one nothing of it has changed |
| Settings.LastYesIsOnRecord | config_system/config_system/general.py:607-618 | a choice has the member on record to which the user last said y |
| Settings.LastTextIsMet | config_system/config_system/general.py:187-228 | an option outside choices that nothing selects meets the last text the user gave, as far as its dependencies allow, where nothing they name can be displaced and no value of it is restored later |
| Settings.LastYesIsOn | config_system/config_system/general.py:187-228 | the member to which the user last said y is the one on if it can be enabled, under the same conditions and if no other can be selected |
| Settings.NowMet | config_system/config_system/general.py:513-545 | right after a setting, the user's or one that restores a value, an option outside choices that nothing selects meets the text |
| Settings.SignsAndZeros | config_system/config_system/general.py:533-537 | a number may have a sign and leading zeros |
| Propagation.HiddenHoldDefaults | docs/config_system.md:151-163 | after any settings an option outside choices that the user cannot see is on if selected and else holds its default as far as its dependencies allow, where nothing it looks at can be displaced |
| Propagation.SelectedIsOn | docs/config_system.md:311-318 | after any settings a selected option is on, in a choice too if no other member can be selected |
| Propagation.ChoiceHasOneOn | docs/config_system.md:280-308 | after any settings a choice of which a member can be enabled has exactly one member on, where nothing its members depend on can be displaced |
| Propagation.AskedMemberIsOn | docs/config_system.md:280-308 | after any settings the member asked for last is the one on whenever it can be enabled, if no other can be selected and no value in the choice was restored |
| Propagation.DroppedStaysOn | config_system/config_system/general.py:695-722 | a member on that the user marked stays on when its last selector is dropped, whichever member was asked for |
| Rivals.SelectBoth | config_system/config_system/general.py:636-646 | a run of two settings after which both members of a choice are selected and one of them is off |
| Displaced.IsAllowed | config_system/config_system/general.py:642-646 | the database of the example below is sound and ranked |
| Displaced.BeforeIsGood | config_system/config_system/general.py:582-690 | the state of the example has the right shape and every fact but one, that the user set nothing, is good in it |
| Displaced.StaleDefault | config_system/config_system/general.py:642-646 | a choice with a selected member on: turning another member on, which leaves its own level as SetOwn says, leaves an option that looks at it with a default it no longer has |
| Marking.StepKeepsSane | core/build_structs.go:565-582 | every step of every walker keeps: what a walk goes on to is entered or on someone's list |
| Marking.MarksAreRequired | core/build_structs.go:546-583 | in every interleaving the final marks are what can be found from the start modules through dependencies that are not disabled |
| Marking.RunsEnd | core/build_structs.go:565-582 | on acyclic dependencies no run has more steps than the weight it starts with |
| Marking.RunsFinish | core/build_structs.go:565-582 | every run can be carried on to a finished one |
| Disabling.RequiredIsClosed | core/build_structs.go:565-582 | what a required module depends on is required too unless disabled to begin with |
| Disabling.Check.Visit | core/build_structs.go:585-625 | a module goes off, or the build dies naming them, exactly when enabled dependencies are lacking |
| Disabling.Check.VisitAll | core/build_structs.go:585-625 | dependencies first, the build dies exactly when a required module directly needs something disabled to begin with; otherwise required modules stay and the enabled set is the largest sustained one |
| Defaults.ExpandDefault | core/defaults.go:226-238 | the recursive expansion ends and computes the functional one |
| Defaults.ExpansionFails | core/defaults.go:226-238 | it dies exactly when a cycle of defaults is reachable |
| Defaults.ExpandHolds | core/defaults.go:226-238 | it lists exactly what the listed defaults lead to |
| Defaults.ExpandOrders | core/defaults.go:207-225 | every entry is listed itself or stands before one that lists it |
| Defaults.KeepLastIs | core/defaults.go:259-266 | each entry is kept once, in the order of last places |
| Defaults.Flatten | core/defaults.go:247-271 | all of these together for the list a module gets |
| ShellSplit.SplitShell | core/template.go:15-49 | the loop over buffer, quotes and escapes computes the functional splitter |
| ShellSplit.PlainRead | core/template.go:15-49 | on escaped values without backslashes the splitter's quotes are the value's quotes |
| ShellSplit.PlainWords | core/template.go:106-110 | words are not empty, have no white space outside quotes, and together are the value without loose white space |
| ShellSplit.NothingLost | core/template.go:106-110 | that holds for the words of a value exactly when it has no backslash |
| ShellSplit.SplitAgain | core/template.go:106-110 | words joined by spaces split into themselves exactly when they are proper |
| ShellSplit.ProperWords | core/template.go:15-49 | the words of a value are proper exactly when no backslash in it escapes another one or white space outside quotes |
| ShellSplit.SplitIsFinal | core/template.go:106-110 | splitting a value is final exactly when no backslash in it escapes another one or white space outside quotes; without backslashes it always is |
| ShellSplit.EscapedSpaceSplits | core/template.go:15-49 | a value with a backslash whose words split further |
| ConfigFile.WriteConfig | config_system/config_system/general.py:242-270 | the writer's loop produces the file text |
| ConfigFile.ReadConfigFile | config_system/config_system/general.py:187-233 | the reader's loop asks for what stands in the lines before the first malformed one, and fails exactly when there is one |
| ConfigFile.UnescapeQuote | config_system/config_system/general.py:257-258 | unescaping undoes quoting |
| ConfigFile.AssignmentComesBack | config_system/config_system/general.py:211-228 | the line of an option that is not off parses to its key, text, mark and source exactly when its value is no string with a hash |
| ConfigFile.TextHasNoHash | config_system/config_system/general.py:211-228 | no text read from an assignment has a hash |
| ConfigFile.OnlyInSource | config_system/config_system/general.py:198-206 | after the name only the source can match the pattern again |
| ConfigFile.OffComesBack | config_system/config_system/general.py:196-208 | an option that is off comes back exactly when its source does not mislead |
| ConfigFile.FileComesBack | config_system/config_system/general.py:187-270 | a file of any options and menus reads back as written exactly when nothing in it is misread |
| ConfigFile.EntryComesBack | config_system/config_system/general.py:196-228 | an option alone comes back exactly when it takes one line, has no hash in a string value, and does not mislead |
| ConfigFile.BrokenReads | config_system/config_system/general.py:190-228 | the first line of an option that takes more than one asks for something else or does not read |
| ConfigFile.MenuComesBack | config_system/config_system/general.py:196-208 | a menu adds nothing exactly when no line of its title reads as anything |
| ConfigFile.TitleOnOneLine | config_system/config_system/general.py:196-208 | a title on one line is misread exactly when it reads as an option that is not set |
| ConfigFile.MisreadExample | config_system/config_system/general.py:200-201 | a file with a misleading source that does not read back |
| ConfigFile.HashExample | config_system/config_system/general.py:211-228 | a file with a hash in a string value that does not |
| ConfigFile.TitleExample | config_system/config_system/general.py:268-269 | a menu's title that reads as a setting |
| ConfigFile.FormatExample | config_system/config_system/general.py:242-270 | what the lines of a set and of an unset option look like |
| ConfigFile.ValueComesBack | config_system/config_system/general.py:533-537 | the text read stands for the value written |

## Left out

- Locks in the graph: the resolver does not run in parallel.
- Sharing of attribute maps between copied edges: the source stores the same map object on both edges; this shows only when a single property is set on one of them afterwards, which the resolver never does on a copied edge. For this reason `DeleteProxyEdgeSetColor` with a colour is not part of the model.
- Node attributes other than the priority, `Merge`, `GetSubgraphs` and the graph printers: they add nothing harder.
- Graphs.Graph.DeleteProxyEdges: is stated for coloured edges that make no cycle of more than one node; with such a cycle a run may end or not, depending on the order of the map (`ProxyRuns.EndlessRun`). Its passes, and what every run keeps as far as it goes, are stated without that condition.
- Graphs.Graph.CutSubgraph: needs that no cycle is reachable from the root; with one the recursion does not end.
- DepSorter.CycleVerdict: with clashes, whether a cycle of nodes that red edges all enter is found depends on the order of a Go map (`ProxyCollapse.CycleDependsOnOrder`), so the exact verdict is stated without clashes.
- DepSorter.ResolveDependencySort: needs that whole-static edges make no cycle of more than one node below the module, since collapsing them may not end otherwise; lists of libraries come as parameters; target types, variants and the module context are left out.
- Options.Value: integers are unbounded, and strings are compared by code point.
- Consistency.Good: the facts about wanted values, recorded selectors and filled choices say nothing where something they look at is a member of a choice that can be displaced after a third one was told to go off. There the code turns a member off again without telling its dependents (config_system/config_system/general.py:642-646). Of members of a choice that other selected members can keep off nothing is said but that at most one is on.
- ConfigSystems.ConfigSystem.SetConfig: a bool option may be on although its dependencies are not met, after its last selector is dropped; the facts allow for this. Plain selects of members of a choice are not claimed to be recorded.
- ConfigSystems.ConfigSystem.SetInitialValues: the `bob_ignore` check, the `is_new` flags, sources and log messages are left out.
- ConfigSystems.ConfigSystem.Set: an integer text is an optional sign and decimal digits; the blanks, underscores and other digits that Python's int accepts fail here.
- Displaced.StaleDefault: the steps are given on values, one call after the other; that the first state is the one after the settings is not shown.
- ConfigSystems.Configure: the correction of inconsistent values after reading a file (`enforce_dependent_values`) is left out.
- Marking.Step: a walk sees a module's direct dependencies in one fixed order, and Blueprint's order of starting modules is left open, so any interleaving is allowed.
- Disabling.Check.VisitAll: modules are visited one at a time in some order with dependencies first; Blueprint visits unrelated ones in parallel.
- Defaults.ExpandDefault: `defaultsMap` is a parameter; the first stage that fills it is left out.
- ShellSplit.SplitShell: text is a sequence of code points; invalid UTF-8 is left out. The pattern that recognises `{{shlex .name}}` and the loop over a property's strings are left out.
- ConfigFile.ReadConfigFile: a missing file, which is only reported, is left out. Regular expressions are written out as matchers on one line, and keys are names of letters, digits and underscores.
- Menus, the parser of Mconfig files, Ninja and Android output, toolchain probing and plugins are not part of this model.
