/** Graphviz rendering of a built graph. The output is modelled as a list of
    DOT statements; `StmtText` gives the line each statement is written as. */
module Render {
  import opened Records
  import opened Naming

  /** How a node is drawn: condition vertices as diamonds, sub-graph
      vertices as 3-d boxes, operators plainly. */
  datatype Shape = Diamond | Box3d | PlainNode

  /** Edge attributes: the three dependency tags, the bold "ok" of a
      non-negated config edge, or no attributes. */
  datatype EdgeStyle = OkDashed | ErrDashed | AllBold | OkBold | NoStyle

  datatype DotStmt =
    | Terminal(id: string, caption: string)           // the START and STOP nodes of a graph
    | Node(id: string, caption: string, shape: Shape)
    | Arrow(src: string, dst: string, style: EdgeStyle)
    | FromStart(graph: string, dst: string)          // `<graph>__START__ -> dst`
    | ToStop(graph: string, src: string)             // `src -> <graph>__STOP__`

  /** One `subgraph cluster_<name>` block. */
  datatype Subgraph = Subgraph(name: string, stmts: seq<DotStmt>)

  function StartId(g: string): string { g + "__START__" }
  function StopId(g: string): string { g + "__STOP__" }

  /** `Vertex.getDotId`. */
  function DotId(g: string, id: string): string
  {
    g + "_" + id
  }

  /** Node ids of distinct vertices of a graph are distinct. */
  lemma DotIdInjective(g: string, a: string, b: string)
    requires DotId(g, a) == DotId(g, b)
    ensures a == b
  {
    assert DotId(g, a)[|g| + 1..] == a;
    assert DotId(g, b)[|g| + 1..] == b;
  }

  /** `Vertex.getDotLabel`. */
  function DotLabel(v: Vertex): string
  {
    if |v.decl.cond| > 0 then EscapeQuotes(v.decl.cond)
    else if |v.decl.processor| > 0 then (if !v.isIdGenerated then v.decl.id else v.decl.processor)
    else if |v.decl.graph| > 0 then v.decl.cluster + "::" + v.decl.graph
    else "unknown"
  }

  function ShapeOf(d: VertexDecl): Shape
  {
    if |d.cond| > 0 then Diamond else if |d.graph| > 0 then Box3d else PlainNode
  }

  /** `Vertex.dumpDotDefine`. */
  function DefineStmt(g: string, v: Vertex): DotStmt
  {
    Node(DotId(g, v.decl.id), DotLabel(v), ShapeOf(v.decl))
  }

  /** The node id of a config setting reference, with every `!` removed. */
  function ConfigId(g: string, expectConfig: string): string
  {
    RemoveBang(g + "_" + expectConfig)
  }

  /** The style of a dependency edge by its tag: never the bold "ok" of a
      config edge, and never unstyled. */
  function TagStyle(t: int): (s: EdgeStyle)
    ensures s != OkBold && s != NoStyle
  {
    if t == ResultOk then OkDashed else if t == ResultErr then ErrDashed else AllBold
  }

  /** The `expect_config` edges: the setting node into the vertex (red "err"
      when the reference is negated, bold "ok" otherwise), then START into the
      setting node. */
  function ConfigStmts(g: string, v: Vertex): seq<DotStmt>
  {
    var ec := v.decl.expectConfig;
    if |ec| == 0 then []
    else
      var cid := ConfigId(g, ec);
      [Arrow(cid, DotId(g, v.decl.id), if ec[0] == '!' then ErrDashed else OkBold), FromStart(g, cid)]
  }

  /** The statements `dumpDotEdge` writes before the dependency edges. */
  function HeadStmts(g: string, v: Vertex): seq<DotStmt>
  {
    var me := DotId(g, v.decl.id);
    ConfigStmts(g, v)
      + (if |v.successors| == 0 then [ToStop(g, me)] else [])
      + (if |v.depsResults| == 0 then [FromStart(g, me)] else [])
  }

  /** Every producer named in the vertex's dependency map is indexed. */
  predicate DepsIndexed(vm: map<string, Vertex>, id: string)
    requires id in vm
  {
    forall k :: k in vm[id].depsResults ==> k in vm
  }

  /** The edge drawn for the dependency of vertex `id` on producer `k`. */
  function DepArrow(g: string, vm: map<string, Vertex>, id: string, k: string): DotStmt
    requires id in vm && k in vm[id].depsResults && k in vm
  {
    Arrow(DotId(g, vm[k].decl.id), DotId(g, vm[id].decl.id), TagStyle(vm[id].depsResults[k]))
  }

  /** The statements written once the dependencies in `done` are drawn. */
  predicate PartialBlock(g: string, vm: map<string, Vertex>, id: string, out: seq<DotStmt>, done: set<string>)
    requires id in vm && DepsIndexed(vm, id) && done <= vm[id].depsResults.Keys
  {
    var head := HeadStmts(g, vm[id]);
    && |out| == |head| + |done|
    && out[..|head|] == head
    && (forall k :: k in done ==> DepArrow(g, vm, id, k) in out[|head|..])
    && (forall i :: |head| <= i < |out| ==> exists k :: k in done && out[i] == DepArrow(g, vm, id, k))
  }

  /** What `dumpDotEdge` writes for vertex `id`: the head statements, then
      exactly one edge per dependency entry, in some order. */
  predicate EdgeBlock(g: string, vm: map<string, Vertex>, id: string, out: seq<DotStmt>)
    requires id in vm && DepsIndexed(vm, id)
  {
    PartialBlock(g, vm, id, out, vm[id].depsResults.Keys)
  }

  lemma PartialBlockStep(g: string, vm: map<string, Vertex>, id: string, out: seq<DotStmt>, done: set<string>, k: string)
    requires id in vm && DepsIndexed(vm, id) && done <= vm[id].depsResults.Keys
    requires k in vm[id].depsResults && k !in done
    requires PartialBlock(g, vm, id, out, done)
    ensures PartialBlock(g, vm, id, out + [DepArrow(g, vm, id, k)], done + {k})
  {
    var head := HeadStmts(g, vm[id]);
    var a := DepArrow(g, vm, id, k);
    var out' := out + [a];
    SliceAppend(out, a, |head|);
    CardAdd(done, k);
    TailStep(g, vm, id, out, done, k, |head|);
  }

  /** The edges past the head, one more dependency drawn. */
  lemma TailStep(g: string, vm: map<string, Vertex>, id: string, out: seq<DotStmt>, done: set<string>, k: string, h: nat)
    requires id in vm && DepsIndexed(vm, id) && done <= vm[id].depsResults.Keys && k in vm[id].depsResults
    requires h <= |out|
    requires forall i :: h <= i < |out| ==> exists j :: j in done && out[i] == DepArrow(g, vm, id, j)
    ensures forall i :: h <= i < |out| + 1 ==>
      exists j :: j in done + {k} && (out + [DepArrow(g, vm, id, k)])[i] == DepArrow(g, vm, id, j)
  {
    var out' := out + [DepArrow(g, vm, id, k)];
    forall i | h <= i < |out'|
      ensures exists j :: j in done + {k} && out'[i] == DepArrow(g, vm, id, j)
    {
      if i < |out| {
        assert out'[i] == out[i];
        var j :| j in done && out[i] == DepArrow(g, vm, id, j);
      } else {
        assert out'[i] == DepArrow(g, vm, id, k);
      }
    }
  }

  /** The first part of `Vertex.dumpDotEdge`: the `expect_config` edges and
      the STOP and START edges. */
  method DumpDotEdgeHead(g: string, v: Vertex) returns (out: seq<DotStmt>)
    ensures out == HeadStmts(g, v)
  {
    var me := DotId(g, v.decl.id);
    out := [];
    if |v.decl.expectConfig| > 0 {
      var cid := RemoveBang(g + "_" + v.decl.expectConfig);
      if v.decl.expectConfig[0] == '!' {
        out := out + [Arrow(cid, me, ErrDashed)];
      } else {
        out := out + [Arrow(cid, me, OkBold)];
      }
      out := out + [FromStart(g, cid)];
    }
    if |v.successors| == 0 {
      out := out + [ToStop(g, me)];
    }
    if |v.depsResults| == 0 {
      out := out + [FromStart(g, me)];
    }
  }

  /** `Vertex.dumpDotEdge`: the map of dependencies is walked in no particular order. */
  method DumpDotEdge(g: string, vm: map<string, Vertex>, id: string) returns (out: seq<DotStmt>)
    requires id in vm && DepsIndexed(vm, id)
    ensures EdgeBlock(g, vm, id, out)
  {
    var v := vm[id];
    var me := DotId(g, v.decl.id);
    out := DumpDotEdgeHead(g, v);
    var todo := v.depsResults.Keys;
    ghost var done: set<string> := {};
    while todo != {}
      invariant todo <= v.depsResults.Keys && done == v.depsResults.Keys - todo
      invariant PartialBlock(g, vm, id, out, done)
      decreases todo
    {
      var k :| k in todo;
      var dep := vm[k];
      var style := TagStyle(v.depsResults[k]);
      PartialBlockStep(g, vm, id, out, done, k);
      out := out + [Arrow(DotId(g, dep.decl.id), me, style)];
      todo := todo - {k};
      done := done + {k};
    }
  }

  /** Past the head statements there are only dependency edges. */
  lemma TailArrows(g: string, vm: map<string, Vertex>, id: string, out: seq<DotStmt>)
    requires id in vm && DepsIndexed(vm, id) && EdgeBlock(g, vm, id, out)
    ensures forall i :: |HeadStmts(g, vm[id])| <= i < |out| ==>
      out[i].Arrow? && out[i].dst == DotId(g, vm[id].decl.id) && out[i].style != OkBold && out[i].style != NoStyle
  {
    var head := HeadStmts(g, vm[id]);
    forall i | |head| <= i < |out|
      ensures out[i].Arrow? && out[i].dst == DotId(g, vm[id].decl.id) && out[i].style != OkBold && out[i].style != NoStyle
    {
      var k :| k in vm[id].depsResults && out[i] == DepArrow(g, vm, id, k);
    }
  }

  /** A vertex has an edge into STOP exactly when no vertex depends on it. */
  lemma StopEdgeRule(g: string, vm: map<string, Vertex>, id: string, out: seq<DotStmt>)
    requires id in vm && DepsIndexed(vm, id) && EdgeBlock(g, vm, id, out)
    ensures ToStop(g, DotId(g, vm[id].decl.id)) in out <==> |vm[id].successors| == 0
  {
    var v := vm[id];
    var head := HeadStmts(g, v);
    var stop := ToStop(g, DotId(g, v.decl.id));
    TailArrows(g, vm, id, out);
    if |v.successors| == 0 {
      assert out[|ConfigStmts(g, v)|] == head[|ConfigStmts(g, v)|] == stop;
    } else {
      forall i | 0 <= i < |out| ensures out[i] != stop {
        if i < |head| {
          assert out[i] == head[i];
        }
      }
    }
  }

  /** A vertex has an edge from START exactly when it depends on nothing,
      provided its `expect_config` node is not drawn under its own node id. */
  lemma StartEdgeRule(g: string, vm: map<string, Vertex>, id: string, out: seq<DotStmt>)
    requires id in vm && DepsIndexed(vm, id) && EdgeBlock(g, vm, id, out)
    requires vm[id].decl.expectConfig != "" ==> ConfigId(g, vm[id].decl.expectConfig) != DotId(g, vm[id].decl.id)
    ensures FromStart(g, DotId(g, vm[id].decl.id)) in out <==> |vm[id].depsResults| == 0
  {
    if |vm[id].depsResults| == 0 {
      var head := HeadStmts(g, vm[id]);
      assert out[|head| - 1] == head[|head| - 1];
    } else {
      NoStartEdge(g, vm, id, out);
    }
  }

  lemma NoStartEdge(g: string, vm: map<string, Vertex>, id: string, out: seq<DotStmt>)
    requires id in vm && DepsIndexed(vm, id) && EdgeBlock(g, vm, id, out) && |vm[id].depsResults| != 0
    requires vm[id].decl.expectConfig != "" ==> ConfigId(g, vm[id].decl.expectConfig) != DotId(g, vm[id].decl.id)
    ensures FromStart(g, DotId(g, vm[id].decl.id)) !in out
  {
    var head := HeadStmts(g, vm[id]);
    var start := FromStart(g, DotId(g, vm[id].decl.id));
    TailArrows(g, vm, id, out);
    NoStartInHead(g, vm[id]);
    forall i | 0 <= i < |out| ensures out[i] != start {
      if i < |head| {
        assert out[i] == head[i];
      }
    }
  }

  lemma NoStartInHead(g: string, v: Vertex)
    requires |v.depsResults| != 0
    requires v.decl.expectConfig != "" ==> ConfigId(g, v.decl.expectConfig) != DotId(g, v.decl.id)
    ensures FromStart(g, DotId(g, v.decl.id)) !in HeadStmts(g, v)
  {
    assert HeadStmts(g, v) == ConfigStmts(g, v) + (if |v.successors| == 0 then [ToStop(g, DotId(g, v.decl.id))] else []);
  }

  /** Past the head statements, each dependency is drawn as one edge from the
      producer's node, styled by its tag, and every edge drawn there is one of
      these. */
  lemma DepEdgeRule(g: string, vm: map<string, Vertex>, id: string, out: seq<DotStmt>, src: string, style: EdgeStyle)
    requires id in vm && DepsIndexed(vm, id) && EdgeBlock(g, vm, id, out)
    requires forall k :: k in vm ==> vm[k].decl.id == k
    ensures Arrow(src, DotId(g, id), style) in out[|HeadStmts(g, vm[id])|..] <==>
      exists k :: k in vm[id].depsResults && src == DotId(g, k) && style == TagStyle(vm[id].depsResults[k])
  {
    var v := vm[id];
    var a := Arrow(src, DotId(g, id), style);
    if a in out[|HeadStmts(g, v)|..] {
      DrawnEdgeIsDep(g, vm, id, out, a);
    }
    if exists k :: k in v.depsResults && src == DotId(g, k) && style == TagStyle(v.depsResults[k]) {
      var k :| k in v.depsResults && src == DotId(g, k) && style == TagStyle(v.depsResults[k]);
      assert DepArrow(g, vm, id, k) == a;
    }
  }

  lemma DrawnEdgeIsDep(g: string, vm: map<string, Vertex>, id: string, out: seq<DotStmt>, a: DotStmt)
    requires id in vm && DepsIndexed(vm, id) && EdgeBlock(g, vm, id, out)
    requires forall k :: k in vm ==> vm[k].decl.id == k
    requires a in out[|HeadStmts(g, vm[id])|..]
    ensures exists k :: k in vm[id].depsResults && a == DepArrow(g, vm, id, k)
  {
    var h := |HeadStmts(g, vm[id])|;
    var j :| 0 <= j < |out[h..]| && out[h..][j] == a;
    assert out[h + j] == a;
  }

  // ---------------------------------------------------------------------
  // A graph's subgraph.

  /** Every producer any vertex names is indexed. */
  predicate AllDepsIndexed(vm: map<string, Vertex>)
  {
    forall x :: x in vm ==> DepsIndexed(vm, x)
  }

  /** The define statements of the vertices `ids`, in that order. */
  function Defines(g: string, vm: map<string, Vertex>, ids: seq<string>): (r: seq<DotStmt>)
    requires forall i :: 0 <= i < |ids| ==> ids[i] in vm
    ensures |r| == |ids|
    ensures forall i :: 0 <= i < |ids| ==> r[i] == DefineStmt(g, vm[ids[i]])
  {
    if ids == [] then [] else Defines(g, vm, ids[..|ids| - 1]) + [DefineStmt(g, vm[ids[|ids| - 1]])]
  }

  /** The diamond drawn for a config setting. */
  function ConfigNode(g: string, c: ConfigSetting): DotStmt
  {
    Node(g + "_" + c.name, c.name, Diamond)
  }

  function ConfigNodes(g: string, cs: seq<ConfigSetting>): seq<DotStmt>
  {
    if cs == [] then [] else ConfigNodes(g, cs[..|cs| - 1]) + [ConfigNode(g, cs[|cs| - 1])]
  }

  /** The vertices of `ids` that were declared, not generated, in order. */
  function Own(vm: map<string, Vertex>, ids: seq<string>): (r: seq<string>)
    requires forall i :: 0 <= i < |ids| ==> ids[i] in vm
    ensures forall i :: 0 <= i < |r| ==> r[i] in vm
    ensures forall x :: x in r <==> x in ids && x in vm && !vm[x].isGenerated
  {
    if ids == [] then []
    else
      var x := ids[|ids| - 1];
      Own(vm, ids[..|ids| - 1]) + (if vm[x].isGenerated then [] else [x])
  }

  function Flatten(bs: seq<seq<DotStmt>>): seq<DotStmt>
  {
    if bs == [] then [] else Flatten(bs[..|bs| - 1]) + bs[|bs| - 1]
  }

  /** Block `j` of the edge section is the edge block of the `j`-th own vertex. */
  ghost predicate EdgeBlocks(g: string, vm: map<string, Vertex>, own: seq<string>, bs: seq<seq<DotStmt>>)
    requires forall i :: 0 <= i < |own| ==> own[i] in vm
    requires AllDepsIndexed(vm)
  {
    && |bs| == |own|
    && forall j :: 0 <= j < |bs| ==> EdgeBlock(g, vm, own[j], bs[j])
  }

  /** Taking one more vertex into a walk extends its define statements, its
      own vertices and, for an own vertex, its edge blocks. */
  lemma WalkStep(g: string, vm: map<string, Vertex>, ids: seq<string>, x: string)
    requires (forall i :: 0 <= i < |ids| ==> ids[i] in vm) && x in vm
    ensures Defines(g, vm, ids + [x]) == Defines(g, vm, ids) + [DefineStmt(g, vm[x])]
    ensures Own(vm, ids + [x]) == Own(vm, ids) + (if vm[x].isGenerated then [] else [x])
  {
    assert (ids + [x])[..|ids|] == ids;
  }

  lemma EdgeBlocksStep(g: string, vm: map<string, Vertex>, own: seq<string>, bs: seq<seq<DotStmt>>, x: string, b: seq<DotStmt>)
    requires (forall i :: 0 <= i < |own| ==> own[i] in vm) && x in vm && AllDepsIndexed(vm)
    requires EdgeBlocks(g, vm, own, bs) && EdgeBlock(g, vm, x, b)
    ensures EdgeBlocks(g, vm, own + [x], bs + [b])
    ensures Flatten(bs + [b]) == Flatten(bs) + b
  {
    assert (bs + [b])[..|bs|] == bs;
  }

  /** A listing of the whole index defines every vertex and no other node,
      one statement per vertex. */
  lemma {:induction false} DefinesEvery(g: string, vm: map<string, Vertex>, ids: seq<string>)
    requires Enumerates(ids, vm.Keys)
    ensures |Defines(g, vm, ids)| == |vm|
    ensures forall x :: x in vm ==> DefineStmt(g, vm[x]) in Defines(g, vm, ids)
  {
    EnumeratesSize(ids, vm.Keys);
    var r := Defines(g, vm, ids);
    forall x | x in vm ensures DefineStmt(g, vm[x]) in r {
      var i :| 0 <= i < |ids| && ids[i] == x;
      assert r[i] == DefineStmt(g, vm[x]);
    }
  }

  /** Every define statement is that of an indexed vertex. */
  lemma DefinesOnly(g: string, vm: map<string, Vertex>, ids: seq<string>)
    requires forall i :: 0 <= i < |ids| ==> ids[i] in vm
    ensures forall t :: t in Defines(g, vm, ids) ==> exists x :: x in vm && t == DefineStmt(g, vm[x])
  {
    var r := Defines(g, vm, ids);
    forall t | t in r ensures exists x :: x in vm && t == DefineStmt(g, vm[x]) {
      var i :| 0 <= i < |r| && r[i] == t;
      assert t == DefineStmt(g, vm[ids[i]]);
    }
  }

  /** A list of distinct keys is as long as the set it enumerates. */
  lemma {:induction false} EnumeratesSize(xs: seq<string>, keys: set<string>)
    requires Enumerates(xs, keys)
    ensures |xs| == |keys|
    decreases |xs|
  {
    if xs != [] {
      var y := xs[|xs| - 1];
      var xs' := xs[..|xs| - 1];
      assert forall z :: z in xs' <==> z in xs && z != y;
      EnumeratesSize(xs', keys - {y});
    }
  }

  /** When every vertex is indexed under its own id, no two define
      statements share a node id. */
  lemma DefinesDistinct(g: string, vm: map<string, Vertex>, ids: seq<string>)
    requires Enumerates(ids, vm.Keys)
    requires forall x :: x in vm ==> vm[x].decl.id == x
    ensures forall i, j :: 0 <= i < j < |Defines(g, vm, ids)| ==>
      Defines(g, vm, ids)[i].id != Defines(g, vm, ids)[j].id
  {
    var r := Defines(g, vm, ids);
    forall i, j | 0 <= i < j < |r| ensures r[i].id != r[j].id {
      if r[i].id == r[j].id {
        DotIdInjective(g, ids[i], ids[j]);
      }
    }
  }

  lemma FlattenMember(bs: seq<seq<DotStmt>>, j: nat, t: DotStmt)
    requires j < |bs| && t in bs[j]
    ensures t in Flatten(bs)
    decreases |bs|
  {
    if j < |bs| - 1 {
      FlattenMember(bs[..|bs| - 1], j, t);
    }
  }

  /** An edge block draws each dependency of its vertex. */
  lemma BlockDrawsDep(g: string, vm: map<string, Vertex>, c: string, b: seq<DotStmt>, p: string)
    requires c in vm && DepsIndexed(vm, c) && EdgeBlock(g, vm, c, b) && p in vm[c].depsResults
    ensures DepArrow(g, vm, c, p) in b
  {
    var head := HeadStmts(g, vm[c]);
    assert DepArrow(g, vm, c, p) in b[|head|..];
  }

  /** Every dependency of every declared vertex is drawn once its edge
      blocks are written. */
  lemma DepsDrawn(g: string, vm: map<string, Vertex>, ids: seq<string>, bs: seq<seq<DotStmt>>, c: string, p: string)
    requires Enumerates(ids, vm.Keys) && AllDepsIndexed(vm)
    requires EdgeBlocks(g, vm, Own(vm, ids), bs)
    requires c in vm && !vm[c].isGenerated && p in vm[c].depsResults
    ensures DepArrow(g, vm, c, p) in Flatten(bs)
  {
    var own := Own(vm, ids);
    assert c in own;
    var j :| 0 <= j < |own| && own[j] == c;
    BlockDrawsDep(g, vm, c, bs[j], p);
    FlattenMember(bs, j, DepArrow(g, vm, c, p));
  }

  // ---------------------------------------------------------------------
  // Text.

  function StyleText(s: EdgeStyle): string
  {
    match s
    case OkDashed => " [style=dashed label=\"ok\"]"
    case ErrDashed => " [style=dashed color=red label=\"err\"]"
    case AllBold => " [style=bold label=\"all\"]"
    case OkBold => " [style=bold label=\"ok\"]"
    case NoStyle => ""
  }

  function ShapeText(s: Shape): string
  {
    match s
    case Diamond => " shape=diamond color=black fillcolor=aquamarine style=filled"
    case Box3d => " shape=box3d, color=blue fillcolor=aquamarine style=filled"
    case PlainNode => " color=black fillcolor=linen style=filled"
  }

  /** The line a statement is written as. */
  function StmtText(s: DotStmt): string
  {
    match s
    case Terminal(id, caption) =>
      "    " + id + "[color=black fillcolor=deepskyblue style=filled shape=Msquare label=\"" + caption + "\"];\n"
    case Node(id, caption, shape) => "    " + id + " [label=\"" + caption + "\"" + ShapeText(shape) + "];\n"
    case Arrow(src, dst, style) => "    " + src + " -> " + dst + StyleText(style) + ";\n"
    case FromStart(g, dst) => "    " + StartId(g) + " -> " + dst + ";\n"
    case ToStop(g, src) => "    " + src + " -> " + StopId(g) + ";\n"
  }

  function StmtsText(ss: seq<DotStmt>): string
  {
    if ss == [] then "" else StmtText(ss[0]) + StmtsText(ss[1..])
  }

  function SubgraphText(s: Subgraph): string
  {
    "  subgraph cluster_" + s.name + "{\n" + "    style = rounded;\n"
      + "    label = \"" + s.name + "\";\n" + StmtsText(s.stmts) + "};\n"
  }

  function SubgraphsText(gs: seq<Subgraph>): string
  {
    if gs == [] then "" else SubgraphText(gs[0]) + SubgraphsText(gs[1..])
  }

  /** The whole document `GraphCluster.dumpDot` writes. */
  function DigraphText(gs: seq<Subgraph>): string
  {
    "digraph G {\n" + "    rankdir=LR;\n" + SubgraphsText(gs) + "}\n"
  }
}
