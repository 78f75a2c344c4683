# go-didagle DAG builder, modelled in Dafny

go-didagle reads a script that declares a *cluster* of named graphs. Each
graph lists *vertices*: operator calls, sub-graph calls or boolean
conditions. The builder in `toml_script.go` turns those records into a DAG
and can draw the result as a Graphviz document. These Dafny files model
that builder and prove what it guarantees.

- **Pass 1, indexing.** For each declared vertex, in order, the builder:
  - assigns the id: its own, else its processor's name, else
    `<graph>_<counter>`;
  - sets the default cluster of a sub-graph call;
  - checks the `expect` / `expect_config` shorthands;
  - creates one shared condition vertex per `expect` text and makes the
    vertex depend on it with tag OK;
  - in strict mode, completes the vertex's input and output bindings from
    the operator catalog;
  - rejects empty field names and defaults empty data ids;
  - fills two indexes: id → vertex, and data id → producer.

  Duplicate vertex ids are rejected. So are duplicate data ids in strict
  mode. Module `Indexing` states pass 1 as a function (`IndexStep`,
  `IndexAll`). The methods of `Graphs.Graph` are proved to compute exactly
  that function.
- **Pass 2, wiring.** Every vertex is wired with `depend` calls. Each call
  records a producer with a tag, OK (1), ERR (2) or ALL (3), on the
  consumer, and records the consumer as a successor of the producer. The
  calls come from three sources:
  - the data bindings;
  - the `deps_on_err`, `deps_on_ok` and `deps` lists;
  - the `else`, `if` and `successor` lists.

  Module `Wiring` lists the calls one vertex makes, in order (`VertexEdges`)
  and performs such a list (`ApplyEdges`).
- **Checks.** Every vertex that is not a condition vertex must pass
  `verify`. Then a depth-first search looks for a cycle (module `Cycles`).
- **Cluster.** `GraphCluster.build` indexes the operator catalog
  (last-wins). It builds the graphs in order and stops at a repeated graph
  name or at the first failing build (module `Clusters`).
- **Rendering.** The `dumpDot` functions write the DOT document, modelled
  as a list of statements (module `Render`). `StmtText` and `DigraphText`
  give the lines the statements are written as.

Go maps are walked in an unspecified order. The wiring loop, the `verify`
loop, the cycle search and both rendering walks are therefore written as
`var x :| x in todo`, so every contract holds for every order. For pass 2
this is proved outright:
- wiring succeeds exactly when every vertex wires without error, whatever
  the order;
- a failure reports the error of one vertex that fails;
- the (consumer, producer) pairs recorded are the same in every order
  (`Graphs.WireVerdict`, `Graphs.WiredRelation`);
- the tag a pair ends with is not: when two vertices' calls record the same
  pair with different tags, the call made later in the walk wins. Vertex
  `c` with `deps_on_err = ["p"]` and vertex `p` with `successor = ["c"]`
  leave `c` depending on `p` with ALL when `c` is walked first and with ERR
  when `p` is (`Graphs.WireTagOrderDependent`, `Graphs.WireTagsFollowOrder`).

Files:
- `records.dfy`: the entity records and the error kinds.
- `naming.dfy`: generated ids and text helpers.
- `catalog.dfy`: config settings and the operator catalog.
- `index.dfy`: pass 1.
- `wiring.dfy`: `depend` and the edges of `Vertex.build`.
- `cycles.dfy`: `CheckCyclic` and `testCircle`.
- `render.dfy`: DOT statements.
- `graph.dfy`: the `Graph` class.
- `cluster.dfy`: the `GraphCluster` class.

The model departs from the code in one place: `genCondVertex` is modelled
with a check that its generated id is free (see "## Findings" and the
`Indexing.AddCond` line under "## Left out"). Where the repository's own
description of the builder differs from the code, the model follows the
code:
- A vertex with a processor is labelled by its id when the id was declared,
  and by the processor when the id was generated.
- A plain operator node gets no shape attribute (only
  `color=black fillcolor=linen style=filled`).
- A generated condition vertex gets a node definition but no edges of its
  own.
- Graphs already built when a duplicate graph name is found stay built and
  indexed by name.
- Neither the order of the DOT statements nor their text is deterministic,
  because they follow map order; the contracts hold for every order.

## Model

| member | source | states |
|---|---|---|
| Naming.NatToStringInjective | toml_script.go:372-376 | distinct counter values print as distinct decimal texts |
| Naming.GenIdInjective | toml_script.go:372-376 | `<graph>_<n>` ids made from distinct counter values are distinct, so successive generated ids never repeat |
| Naming.EscapeQuotes | toml_script.go:160 | the label text grows by exactly one character per `"`, every `"` in it is preceded by a backslash, and text without `"` is unchanged |
| Naming.EscapeQuotesRoundTrip | toml_script.go:160 | dropping the backslash before each `"` of the escaped text gives back the original text, so escaping loses nothing |
| Naming.EscapeQuotesAppend | toml_script.go:160 | escaping works character by character: the escape of a concatenation is the concatenation of the escapes |
| Naming.RemoveBang | toml_script.go:78 | the config node id contains no `!`, is shorter by exactly the number of `!` removed, and text without `!` is unchanged |
| Naming.RemoveBangAppend | toml_script.go:78 | removal works character by character, so every other character is kept, in order |
| Catalog.ContainsConfigSetting | toml_script.go:570-584 | true exactly when some setting's name equals the reference with one leading `!` stripped |
| Catalog.IndexOpsDomain | toml_script.go:595-598 | a name is in the operator map exactly when some catalog record has it |
| Catalog.IndexOpsLastWins | toml_script.go:595-598 | the map holds, for each name, the last record carrying it |
| Catalog.CompleteExtends | toml_script.go:185-220 | completion only appends: the original bindings are a prefix, and at most one binding is added per catalog field |
| Catalog.CompleteCovers | toml_script.go:185-220 | after completion, every catalog field name is the field of some binding |
| Catalog.CompleteSynthesises | toml_script.go:193-218 | every appended binding is the synthesised binding of some catalog field, copying its extern, in-out and aggregate flags for inputs, and its name was unbound when appended |
| Catalog.BuildInputOutput | toml_script.go:177-222 | fails exactly when the processor is set but missing from the catalog, with that error; a vertex without a processor is unchanged; on success the bindings are completed, every catalog field is bound and the old bindings are kept as a prefix |
| Catalog.AppendMissing | toml_script.go:185-203 | the scan-and-append loop computes the completion function |
| Indexing.AddCond | toml_script.go:470-474 | an `expect` text already seen reuses its condition vertex and changes nothing; a new text gets a vertex. Corrected behaviour (see Findings): when the generated id is taken, the error names that id |
| Indexing.AppendAbsent | toml_script.go:474-484 | the condition id is in `deps_on_ok` afterwards; a list already holding it is unchanged, and otherwise it is extended by exactly that one entry |
| Indexing.NormalizedProps | toml_script.go:498-517 | defaulting keeps every field name and every bound field, and when all fields are set, all ids are set |
| Indexing.RegisterOutputsMap | toml_script.go:510-528 | a successful output loop requires every field to be set, and maps each (defaulted) output data id to this vertex while keeping every other entry |
| Indexing.RegisterOutputsStrict | toml_script.go:510-522 | in strict mode the output loop succeeds exactly when all fields are set, no data id is already mapped, and no two outputs share a data id |
| Indexing.RegisterOutputsLoose | toml_script.go:510-528 | outside strict mode the output loop fails only on an empty field name, and a later producer overwrites |
| Indexing.RegisterOutputsErrors | toml_script.go:512-521 | the output loop reports only an empty field of this vertex or, in strict mode, a duplicate data id that names this vertex |
| Indexing.AddCondInv | toml_script.go:470-474 | adding a condition vertex keeps the pass-1 invariant, changes no existing entry, and adds exactly one vertex for a new text and nothing for a known one |
| Indexing.CompletedCovers | toml_script.go:491-496 | in strict mode a completed declaration binds every field of its operator |
| Indexing.InsertShape | toml_script.go:486-528 | a successful insertion had a new id, a catalogued processor (strict mode), set input fields and a successful output loop, and files the defaulted declaration under its id |
| Indexing.InsertStepInv | toml_script.go:486-528 | filing one declared vertex keeps the pass-1 invariant, keeps every existing entry, adds exactly one non-generated vertex with the declared processor, and leaves the condition map alone |
| Indexing.StepUnfold | toml_script.go:444-485 | a successful loop step had no conflicting shorthand and a known `expect_config`, and an `expect` text always got its condition vertex and the OK dependency on it |
| Indexing.IndexStepInv | toml_script.go:444-529 | one loop step keeps the invariant, keeps every entry and condition already made, and adds the declared vertex under its assigned id plus at most one condition vertex |
| Indexing.IndexAllInv | toml_script.go:444-530 | pass 1 keeps the invariant, which states that: every key of the id index is the vertex's own id and nothing is wired yet; the generated vertices are exactly one expression vertex per `expect` text; every declared vertex has set fields and ids, valid shorthands and an OK dependency on its condition; the data index points at producers of each id. Each declaration adds one vertex |
| Indexing.CondUnique | toml_script.go:470-474 | two generated condition vertices with the same condition text are the same vertex |
| Indexing.SingleProducer | toml_script.go:518-522 | in strict mode, each data id is the output of exactly one binding of one declared vertex |
| Indexing.AddCondAsWritten | toml_script.go:392-403 | the code as written records a condition vertex for the text, without checking its id (see Findings) |
| Indexing.AsWrittenCondReplacesDeclared | toml_script.go:470-488 | a declared vertex `g_0` followed by an `expect` shorthand: as written, the condition vertex replaces the declared one; the corrected step reports the duplicate id |
| Wiring.DependOn | toml_script.go:223-233 | `depend` keeps the set of indexed ids |
| Wiring.DependOnFrame | toml_script.go:223-233 | `depend` records the tag on the consumer and the consumer among the producer's successors, and changes nothing else in any vertex |
| Wiring.DependLastWriteWins | toml_script.go:227 | depending twice on one producer is the same as depending once with the later tag |
| Wiring.ApplyEdgesShape | toml_script.go:223-233 | any sequence of `depend` calls keeps every declaration and flag |
| Wiring.ApplyEdgesAppend | toml_script.go:223-233 | performing two call lists one after the other is performing their concatenation |
| Wiring.ApplyEdgesTags | toml_script.go:227 | after a call list, a consumer's tags are its old tags overwritten in call order by the calls it makes |
| Wiring.DependKeepsSymmetric | toml_script.go:223-233 | `depend` keeps every edge recorded on both of its ends |
| Wiring.ApplyEdgesKeepsSymmetric | toml_script.go:223-233 | any call list keeps every edge recorded on both ends |
| Wiring.RelApplyEdges | toml_script.go:223-233 | the recorded (consumer, producer) pairs grow by exactly the pairs of the calls performed |
| Wiring.Then | toml_script.go:297-314 | a sequence of steps succeeds exactly when both parts do, concatenating their calls; otherwise the first error is reported |
| Wiring.AggregateEdges | toml_script.go:280-295 | an aggregate input fails exactly when it is not extern and some listed id has no producer; otherwise there is one edge to each existing producer, with tag OK if required and ALL if not |
| Wiring.InputEdges | toml_script.go:263-296 | the input loop succeeds exactly when every input resolves, and each edge points from this vertex to an indexed producer |
| Wiring.DepEdges | toml_script.go:234-243 | a dependency list succeeds exactly when every id is indexed, adding one edge per id, in order, with the list's tag; otherwise the error names a missing id |
| Wiring.SuccEdges | toml_script.go:245-254 | a successor list succeeds exactly when every id is indexed, making each named vertex depend on this one with the list's tag; otherwise the error names a missing id |
| Wiring.SelectArgsCheck | toml_script.go:257-261 | the select-args check passes exactly when every match names an existing config setting, and it adds no edge |
| Wiring.VertexEdgesParts | toml_script.go:256-317 | `Vertex.build` succeeds exactly when all eight steps do, and then makes their calls in source order |
| Wiring.VertexEdgesOk | toml_script.go:256-317 | a vertex wires without error exactly when its select-args, inputs and six lists all resolve |
| Wiring.VertexEdgesWithin | toml_script.go:256-317 | every call a vertex makes joins two indexed ids, one of them the vertex itself |
| Wiring.DepsListOrder | toml_script.go:297-305 | among one vertex's own calls, a producer named in several of its dependency lists gets the tag of the last list (on-err, then on-ok, then all); calls of other vertices walked later can still overwrite it |
| Cycles.BackEdgeCycle | toml_script.go:412-413 | a successor still on the recursion stack closes a cycle |
| Cycles.NoCycleWhenFinished | toml_script.go:430-436 | when the search has finished every vertex without a back edge, the graph has no cycle |
| Cycles.CheckCyclic | toml_script.go:405-419 | a true result means the successor relation has a cycle; a false result leaves the start vertex and everything reachable from it finished, with the stack restored |
| Cycles.TestCircle | toml_script.go:421-437 | true exactly when the successor relation has a cycle, a self-edge included, whatever order the vertices are tried in |
| Render.DotIdInjective | toml_script.go:155-157 | distinct vertices of a graph get distinct DOT ids |
| Render.TagStyle | toml_script.go:105-112 | a dependency edge is dashed or bold "all", never styled like the bold "ok" edge of a config setting and never unstyled |
| Render.DumpDotEdgeHead | toml_script.go:76-99 | writes the config edges, the STOP edge and the START edge in source order |
| Render.DumpDotEdge | toml_script.go:74-115 | writes the head statements, then exactly one edge per dependency entry, in some order |
| Render.StopEdgeRule | toml_script.go:94-96 | the edge block has a `→ STOP` edge for the vertex exactly when it has no successors |
| Render.StartEdgeRule | toml_script.go:97-99 | the edge block has a `START →` edge for the vertex exactly when it has no dependencies |
| Render.TailArrows | toml_script.go:101-114 | every statement after the head is a dependency edge into this vertex, styled by a tag |
| Render.DepEdgeRule | toml_script.go:101-114 | after the head there is an edge from a node into the vertex with a style exactly when some dependency entry names that producer with that tag |
| Render.DrawnEdgeIsDep | toml_script.go:101-114 | every dependency edge drawn comes from some dependency entry |
| Render.Defines | toml_script.go:350-352 | one node definition per walked vertex, in walk order |
| Render.DefinesEvery | toml_script.go:350-352 | a full walk defines every vertex of the index, one statement per vertex |
| Render.DefinesOnly | toml_script.go:350-352 | every definition is that of some indexed vertex |
| Render.DefinesDistinct | toml_script.go:350-352 | no two definitions share a node id |
| Render.Own | toml_script.go:363-366 | the second walk skips exactly the generated condition vertices |
| Render.BlockDrawsDep | toml_script.go:101-114 | a vertex's edge block draws each of its dependencies |
| Render.DepsDrawn | toml_script.go:363-368 | every dependency of every declared vertex is drawn in the edge section |
| Render.EdgeBlocksStep | toml_script.go:363-368 | appending one vertex's block to the edge section extends the section with exactly that block |
| Graphs.VerifyVertex | toml_script.go:142-153 | passes exactly when a start vertex has no dependencies and any other vertex has a dependency or a successor; the error names the vertex and the violated rule |
| Graphs.IndexedReady | toml_script.go:439-530 | after pass 1, no vertex is wired yet, every key is the vertex's own id, and the data index names indexed vertices |
| Graphs.EdgesInOrderOk | toml_script.go:532-537 | the wiring loop, in a given order, succeeds exactly when each vertex walked wires without error |
| Graphs.EdgesInOrderPairs | toml_script.go:532-537 | the wiring loop records exactly the union of the pairs of the vertices walked, in whatever order |
| Graphs.EdgesInOrderFail | toml_script.go:532-537 | a failing wiring loop reports the error of some vertex it walked |
| Graphs.FoldOk | toml_script.go:532-537 | a loop of first-error steps succeeds exactly when every step does |
| Graphs.FoldFail | toml_script.go:532-537 | a failing loop of first-error steps reports the error of one of its steps |
| Graphs.WireVerdict | toml_script.go:532-537 | after a complete walk, wiring succeeds exactly when every vertex wires, with the same pairs in every order; a failure reports the error of a failing vertex |
| Graphs.WiredRelation | toml_script.go:532-537 | after wiring, every edge is recorded on both ends, and after a complete walk the recorded pairs are exactly those of all vertices' calls |
| Graphs.WireTagOrderDependent | toml_script.go:532-537 | on the two-vertex input above, both walk orders wire without error and make the same two calls for the pair (c, p), in opposite orders |
| Graphs.WireTagsFollowOrder | toml_script.go:227 | performing those calls leaves tag ALL when `c` was walked first and ERR when `p` was |
| Graphs.CondLabel | toml_script.go:158-175 | after pass 1, a declared vertex with an `expect` text depends with tag OK on a generated diamond labelled with that text, escaped |
| Graphs.GenLabel | toml_script.go:158-175 | after pass 1, every generated vertex is the diamond of some `expect` text, labelled with that text escaped, and the label reads back as the text |
| Graphs.SymmetricClosed | toml_script.go:228-231 | when edges are recorded on both ends, every successor is indexed, so the cycle search is defined |
| Graphs.Graph.constructor | toml_script.go:325-335 | a graph starts with empty indexes and counter 0 |
| Graphs.Graph.GenVertexId | toml_script.go:372-376 | returns `<graph>_<counter>`, increments the counter by exactly one, and changes nothing else |
| Graphs.Graph.ByIdAfterIndexing | toml_script.go:384-390 | on the index pass 1 leaves, the id lookup finds a vertex exactly for the ids inserted, that vertex carries the id, and the condition id of an `expect` text finds the expression vertex of that text |
| Graphs.Graph.ByDataAfterIndexing | toml_script.go:377-383 | on the index pass 1 leaves, the data lookup finds only declared vertices outputting that data id, finds something for every declared output, and in strict mode finds exactly the vertex that outputs it |
| Graphs.Graph.GenCondVertex | toml_script.go:392-403 | spends one counter value and files the condition vertex, with the default expression processor and the text, as a generated vertex under the new id. Corrected behaviour (see Findings): a taken id is reported instead of overwritten |
| Graphs.Graph.MapOutputs | toml_script.go:510-528 | the output loop on the data index computes the output-registration function |
| Graphs.Graph.AssignId | toml_script.go:447-454 | the assigned id is the declared id, else the processor, else a generated id that spends one counter value |
| Graphs.Graph.InsertVertex | toml_script.go:486-528 | the duplicate check, completion and binding loops leave the state of the insertion function, or report its error |
| Graphs.Graph.FillVertex | toml_script.go:491-528 | past the duplicate check, leaves the state of the fill function, or reports its error |
| Graphs.Graph.FinishVertex | toml_script.go:498-528 | the input and output loops leave the state of the finishing function, or report its error |
| Graphs.Graph.PlaceVertex | toml_script.go:470-528 | the `expect` shorthand plus insertion leave the state of one placement, or report its error |
| Graphs.Graph.IndexVertex | toml_script.go:444-529 | one pass-1 loop body leaves the state of `IndexStep`, or reports its error |
| Graphs.Graph.IndexDecls | toml_script.go:440-530 | pass 1 leaves the state of `IndexAll` from an empty index, or reports its first error |
| Graphs.Graph.Depend | toml_script.go:223-233 | performs one `depend` on the id index and changes nothing else |
| Graphs.Graph.BuildDeps | toml_script.go:234-243 | performs the calls of the dependency list, or reports its first unknown id |
| Graphs.Graph.BuildSuccessor | toml_script.go:245-254 | performs the calls of the successor list, or reports its first unknown id |
| Graphs.Graph.BuildAggregate | toml_script.go:280-295 | performs the calls of an aggregate input, or reports its missing non-extern producer |
| Graphs.Graph.BuildInput | toml_script.go:263-296 | performs the calls of one input binding, or reports its error |
| Graphs.Graph.BuildInputs | toml_script.go:263-296 | performs the calls of the input loop, or reports its first error |
| Graphs.Graph.BuildLists | toml_script.go:297-314 | performs the six lists in source order, or reports the first error |
| Graphs.Graph.BuildVertex | toml_script.go:256-317 | performs exactly the calls `Vertex.build` makes, or reports its first error |
| Graphs.Graph.Wire | toml_script.go:532-537 | walks every vertex once and performs its calls; on success the result is the wiring of a complete walk; on failure it reports the error of the walk |
| Graphs.Graph.WireOne | toml_script.go:533-536 | one trip of the wiring loop extends the walk by one vertex and the calls by that vertex's calls |
| Graphs.Graph.CheckVertices | toml_script.go:538-549 | passes exactly when every non-condition vertex passes `verify`; a failure is the verdict of one such vertex |
| Graphs.Graph.Build | toml_script.go:439-554 | with the corrected `genCondVertex` (see Findings): a failing pass 1 reports its error. Otherwise: the index is pass 1's index with the wiring calls performed; the build passes exactly when every vertex wires, every non-condition vertex passes `verify` and there is no cycle; and the failure reported is the first of wiring, `verify` and "Circle Exist" |
| Graphs.Graph.DumpDot | toml_script.go:337-370 | the subgraph holds START and STOP, one definition per vertex, one diamond per config setting in order, then the edge block of every declared (non-generated) vertex |
| Graphs.Graph.DumpDotDefines | toml_script.go:350-352 | one definition per vertex, over a complete walk of the id index |
| Graphs.Graph.DumpDotConfigs | toml_script.go:354-361 | one diamond per config setting, in declaration order |
| Graphs.Graph.DumpDotEdges | toml_script.go:363-368 | over a complete walk, the edge blocks of exactly the declared vertices, concatenated |
| Clusters.GraphCluster.constructor | toml_script.go:556-568 | a cluster of fresh, distinct, unbuilt graphs, one per declaration, in order |
| Clusters.GraphCluster.Register | toml_script.go:603-606 | reports a duplicate exactly when an earlier graph has the same name; otherwise the name index covers one more graph |
| Clusters.GraphCluster.BuildFresh | toml_script.go:607-610 | builds graph `i` and records what its build promises |
| Clusters.GraphCluster.BuildNext | toml_script.go:601-610 | one loop step: stops at a duplicate name without building, else builds the graph and stops if the build failed |
| Clusters.GraphCluster.BuildGraphs | toml_script.go:599-611 | builds graphs in order while names are new and builds pass; the verdict is the first duplicate name or the first failing build; later graphs are untouched |
| Clusters.GraphCluster.Build | toml_script.go:594-613 | the operator map is the catalog indexed last-wins, and the graphs are built as above, each against that catalog and the cluster's settings |
| Clusters.GraphCluster.DumpDot | toml_script.go:615-622 | one subgraph per graph, last graph first, each as `Graph.dumpDot` draws it |

## Left out

- Decoding the script (TOML) and the operator file (JSON), writing the `.dot` file and running the `dot` rasterizer (didagle.go): I/O and foreign libraries. The command-line tool and web server (cmd/gen_png.go, web/main.go) are not part of this model.
- `log.Printf` calls and the text of error messages: an error is an `Error` value naming its kind and the ids involved.
- `findVertexInSuccessors` (toml_script.go:117-133): it is never called.
- `CondParams.Args`, `GraphCluster.Desc` and `DefaultDefaultPoolSize`: untyped or unused by the builder. `GraphData.cond` and `GraphData.move` are carried but not read.
- The Go map iteration order itself: the model takes an arbitrary key each time. The DOT statement order therefore depends on the walk, and the walks are ghost results of the rendering methods.
- The pointers: the vertex's graph pointer and the graph's cluster pointer are replaced by a `Context` value (cluster name, strictness, expression processor, config settings, operator map). `successorVertex` holds ids instead of pointers, and `genVertexs` is a set of ids.
- Write-back into the declared records: pass 1 edits `p.Vertex[i]` in place (id, cluster, `DepsOnOk`, bindings). The model files the edited copy in the id index and leaves the declared sequence as decoded. Nothing later reads the declared records.
- The ghost field `order` of `Graph` records the order in which keys were inserted, for the proofs only; the code keeps no such list.
- Integer width: `genIdx` is an unbounded `nat`, so overflow of Go's `int` counter is not modelled.
- Indexing.AddCond: models the corrected `genCondVertex` of the Findings row, which reports a taken generated id; the code as written (toml_script.go:400) overwrites the vertex holding it and goes on. The code as written is `Indexing.AddCondAsWritten`. Through `AddCond`, `Indexing.Place`, `Indexing.IndexStep` and `Indexing.IndexAll` fail on that input where the code does not.
- Graphs.Graph.GenCondVertex: the corrected `genCondVertex`, as for `Indexing.AddCond`; so `Graphs.Graph.PlaceVertex`, `Graphs.Graph.IndexVertex` and `Graphs.Graph.IndexDecls` report `DuplicateVertex` where the code replaces the declared vertex.
- Graphs.Graph.Build: with the corrected `genCondVertex` it reports `DuplicateVertex` for a generated condition id that a declared vertex already holds, where the code replaces that vertex and the build goes on.
- Graphs.Graph.Build: after a failing pass 1 the contract states the error reported, but not the partly filled indexes left behind.
- Render.StartEdgeRule: it assumes the config node id of an `expect_config` vertex differs from the vertex's own DOT id. If they coincide (vertex `a` with `expect_config = "a"`), the `START → <config node>` edge the code writes is also a `START →` edge into the vertex.
- Rendering text: `StmtText`, `SubgraphText` and `DigraphText` give the lines written. The properties are proved on the statement lists, not on the text.
- Sub-graph references to other clusters are recorded, not resolved; the code does not resolve them either.

## Findings

| source | as written | input that shows it | evidently intended | confidence | as-written member | corrected member |
|---|---|---|---|---|---|---|
| toml_script.go:392-403 | `genCondVertex` stores the condition vertex under `<graph>_<genIdx>` without checking whether that id is taken | graph `g`: vertex 1 declares id `g_0` with processor `p`; vertex 2 has no id, processor `q` and `expect = "x"`. The condition vertex gets id `g_0` and silently replaces vertex 1 | a taken id is reported as a duplicate vertex id, as line 486 does for declared vertices | medium; not executed | Indexing.AsWrittenCondReplacesDeclared | Indexing.AddCondInv |
