/** `GraphCluster`: the graphs of one script, the operator catalog they are
    built against, and the document that draws them all. */
module Clusters {
  import opened Records
  import opened Catalog
  import opened Wiring
  import opened Render
  import opened Graphs

  /** What one graph's build reported, with the ghost record of its wiring
      walk and the edges it added. */
  datatype Trace = Trace(outcome: Outcome, seen: seq<string>, log: seq<Edge>)

  /** A graph as decoded from the script: its name and its vertex records. */
  datatype GraphDecl = GraphDecl(name: string, vertex: seq<VertexDecl>)

  class GraphCluster {
    const name: string
    const strictDsl: bool
    const defaultExprProcessor: string
    const configSetting: seq<ConfigSetting>
    const graph: seq<Graph>

    /** The operator catalog by name, filled by `build`. */
    var opsMap: map<string, OperatorMeta>
    /** The graphs by name, filled by `build`. */
    var graphMap: map<string, Graph>

    /** The graphs are distinct objects. */
    ghost predicate Distinct()
    {
      forall i, j :: 0 <= i < j < |graph| ==> graph[i] != graph[j]
    }

    /** A cluster of fresh, unbuilt graphs, one per declaration, in order. */
    constructor (name: string, strictDsl: bool, defaultExprProcessor: string,
                 configSetting: seq<ConfigSetting>, decls: seq<GraphDecl>)
      ensures this.name == name && this.strictDsl == strictDsl
      ensures this.defaultExprProcessor == defaultExprProcessor && this.configSetting == configSetting
      ensures |graph| == |decls| && Distinct()
      ensures forall i :: 0 <= i < |graph| ==>
        && fresh(graph[i]) && graph[i].name == decls[i].name && graph[i].vertex == decls[i].vertex
        && graph[i].vertexMap == map[] && graph[i].genIdx == 0 && graph[i].Valid()
      ensures opsMap == map[] && graphMap == map[]
    {
      var gs: seq<Graph> := [];
      for i := 0 to |decls|
        invariant |gs| == i
        invariant forall j, k :: 0 <= j < k < i ==> gs[j] != gs[k]
        invariant forall j :: 0 <= j < i ==>
          && fresh(gs[j]) && gs[j].name == decls[j].name && gs[j].vertex == decls[j].vertex
          && gs[j].vertexMap == map[] && gs[j].genIdx == 0 && gs[j].Valid()
      {
        var g := new Graph(decls[i].name, decls[i].vertex);
        gs := gs + [g];
      }
      this.name := name;
      this.strictDsl := strictDsl;
      this.defaultExprProcessor := defaultExprProcessor;
      this.configSetting := configSetting;
      graph := gs;
      opsMap := map[];
      graphMap := map[];
    }

    /** What a graph of this cluster sees of it while it is built. */
    function Ctx(): Context
      reads this
    {
      Context(name, strictDsl, defaultExprProcessor, configSetting, opsMap)
    }

    /** The names of the first `n` graphs are distinct. */
    ghost predicate NamesDistinct(n: nat)
      requires n <= |graph|
    {
      forall i, j :: 0 <= i < j < n ==> graph[i].name != graph[j].name
    }

    /** The names of the first `n` graphs. */
    ghost function Names(n: nat): set<string>
      requires n <= |graph|
    {
      if n == 0 then {} else Names(n - 1) + {graph[n - 1].name}
    }

    lemma {:induction false} NamesMember(n: nat, x: string)
      requires n <= |graph|
      ensures x in Names(n) <==> exists j :: 0 <= j < n && graph[j].name == x
    {
      if n > 0 {
        NamesMember(n - 1, x);
      }
    }

    /** The name index holds exactly the first `n` graphs. */
    ghost predicate MapsFirst(n: nat)
      requires n <= |graph|
      reads this
    {
      && graphMap.Keys == Names(n)
      && (forall i :: 0 <= i < n ==> graph[i].name in graphMap && graphMap[graph[i].name] == graph[i])
    }

    /** The counters the graphs' id generators stand at. */
    ghost function GenIdxs(): (r: seq<nat>)
      reads graph
      ensures |r| == |graph| && forall j :: 0 <= j < |graph| ==> r[j] == graph[j].genIdx
    {
      seq(|graph|, j reads graph requires 0 <= j < |graph| => graph[j].genIdx)
    }

    /** Graph `j` was built, from counter `g0` under `ctx`, and reported `t`. */
    ghost predicate GraphBuilt(j: nat, g0: nat, ctx: Context, t: Trace)
      requires j < |graph|
      reads graph[j]
    {
      graph[j].BuiltFrom(g0, ctx, t.outcome, t.seen, t.log) && graph[j].Valid()
    }

    /** Graph `j` was built, from counter `g0s[j]` under `ctx`, and reported
      `ts[j]`, for each `j` below `|ts|`. */
    ghost predicate GraphsBuilt(g0s: seq<nat>, ctx: Context, ts: seq<Trace>)
      requires |ts| <= |graph| && |ts| <= |g0s|
      reads set j | 0 <= j < |ts| :: graph[j]
    {
      forall j {:trigger GraphBuilt(j, g0s[j], ctx, ts[j])} :: 0 <= j < |ts| ==> GraphBuilt(j, g0s[j], ctx, ts[j])
    }

    /** What `GraphsBuilt` says of one graph. */
    lemma GraphsBuiltAt(g0s: seq<nat>, ctx: Context, ts: seq<Trace>, j: nat)
      requires |ts| <= |graph| && |ts| <= |g0s| && GraphsBuilt(g0s, ctx, ts) && j < |ts|
      ensures graph[j].BuiltFrom(g0s[j], ctx, ts[j].outcome, ts[j].seen, ts[j].log) && graph[j].Valid()
    {
      assert GraphBuilt(j, g0s[j], ctx, ts[j]);
    }

    /** The verdict of `build` given the reports `ts` of the graphs it
      built: it goes on while names are new and builds pass, and reports
      the first repeated name or the first failing build. */
    ghost predicate Verdict(r: Outcome, ts: seq<Trace>)
    {
      && |ts| <= |graph|
      && (forall i :: 0 <= i < |ts| - 1 ==> ts[i].outcome == Pass)
      && (r.Pass? ==> |ts| == |graph| && forall i :: 0 <= i < |ts| ==> ts[i].outcome == Pass)
      && (r.Failed? ==>
        || (|ts| > 0 && ts[|ts| - 1].outcome == r)
        || (&& |ts| < |graph| && r == Failed(DuplicateGraph(graph[|ts|].name))
            && (exists j :: 0 <= j < |ts| && graph[j].name == graph[|ts|].name)
            && forall i :: 0 <= i < |ts| ==> ts[i].outcome == Pass))
    }

    /** A repeated name after passing builds gives the duplicate verdict. */
    lemma DuplicateVerdict(ts: seq<Trace>)
      requires |ts| < |graph| && exists j :: 0 <= j < |ts| && graph[j].name == graph[|ts|].name
      requires forall j :: 0 <= j < |ts| ==> ts[j].outcome == Pass
      ensures Verdict(Failed(DuplicateGraph(graph[|ts|].name)), ts)
    {
    }

    /** A failing build after passing ones gives its own verdict. */
    lemma FailedVerdict(ts: seq<Trace>)
      requires 0 < |ts| <= |graph| && ts[|ts| - 1].outcome.Failed?
      requires forall j :: 0 <= j < |ts| - 1 ==> ts[j].outcome == Pass
      ensures Verdict(ts[|ts| - 1].outcome, ts)
    {
    }

    /** Recording one more graph's report. */
    lemma GraphsBuiltSnoc(g0s: seq<nat>, ctx: Context, ts: seq<Trace>, t: Trace)
      requires |ts| < |graph| && |ts| < |g0s| && GraphsBuilt(g0s, ctx, ts)
      requires GraphBuilt(|ts|, g0s[|ts|], ctx, t)
      ensures GraphsBuilt(g0s, ctx, ts + [t])
    {
      var ts' := ts + [t];
      forall j | 0 <= j < |ts'| ensures GraphBuilt(j, g0s[j], ctx, ts'[j]) {
        if j < |ts| {
          assert ts'[j] == ts[j];
          assert GraphBuilt(j, g0s[j], ctx, ts[j]);
        } else {
          assert ts'[j] == t;
        }
      }
    }

    /** `GraphCluster.build`: index the operator catalog (a later record of
      a name replaces an earlier one), then build the graphs in declaration
      order. `results` holds what each graph built reported, in order; the
      graphs not reached are left as they were. */
    method Build(ops: seq<OperatorMeta>) returns (r: Outcome, ghost results: seq<Trace>)
      requires Distinct()
      modifies this, graph
      ensures opsMap == IndexOps(ops)
      ensures Verdict(r, results) && NamesDistinct(|results|) && MapsFirst(|results|)
      ensures GraphsBuilt(old(GenIdxs()), Ctx(), results)
      ensures forall i :: |results| <= i < |graph| ==> graph[i].Untouched()
    {
      opsMap := IndexCatalog(ops);
      r, results := BuildGraphs();
    }

    /** The graph loop of `build`. */
    method BuildGraphs() returns (r: Outcome, ghost results: seq<Trace>)
      requires Distinct()
      modifies this`graphMap, graph
      ensures Verdict(r, results) && NamesDistinct(|results|) && MapsFirst(|results|)
      ensures GraphsBuilt(old(GenIdxs()), Ctx(), results)
      ensures forall i :: |results| <= i < |graph| ==> graph[i].Untouched()
    {
      ghost var g0s := GenIdxs();
      ghost var ctx := Ctx();
      graphMap := map[];
      results := [];
      r := Pass;
      for i := 0 to |graph|
        invariant r == Pass && |results| == i && NamesDistinct(i) && MapsFirst(i) && Ctx() == ctx
        invariant GraphsBuilt(g0s, ctx, results)
        invariant forall j :: i <= j < |graph| ==> graph[j].Untouched()
        invariant forall j :: 0 <= j < i ==> results[j].outcome == Pass
      {
        var stop;
        stop, r, results := BuildNext(i, g0s, ctx, results);
        if stop {
          return;
        }
      }
    }

    /** One round of the graph loop of `build`: the name check of graph `i`,
      then its build. */
    method BuildNext(i: nat, ghost g0s: seq<nat>, ghost ctx: Context, ghost results: seq<Trace>)
      returns (stop: bool, r: Outcome, ghost ts: seq<Trace>)
      requires i < |graph| && |results| == i && |g0s| == |graph| && Distinct()
      requires NamesDistinct(i) && MapsFirst(i) && Ctx() == ctx
      requires GraphsBuilt(g0s, ctx, results) && graph[i].genIdx == g0s[i]
      requires forall j :: 0 <= j < i ==> results[j].outcome == Pass
      modifies this`graphMap, graph[i]
      ensures i <= |ts| <= i + 1
      ensures NamesDistinct(|ts|) && MapsFirst(|ts|) && GraphsBuilt(g0s, ctx, ts)
      ensures |ts| == i ==> stop && unchanged(graph[i])
      ensures !stop ==> r == Pass && |ts| == i + 1 && forall j :: 0 <= j < i + 1 ==> ts[j].outcome == Pass
      ensures stop ==> Verdict(r, ts)
    {
      var dup := Register(i);
      if dup {
        DuplicateVerdict(results);
        return true, Failed(DuplicateGraph(graph[i].name)), results;
      }
      var o;
      ghost var t;
      o, t := BuildFresh(i, g0s, ctx, results);
      ts := results + [t];
      if o.Failed? {
        FailedVerdict(ts);
      }
      return o.Failed?, o, ts;
    }

    /** The build of graph `i`, once its name is indexed. */
    method BuildFresh(i: nat, ghost g0s: seq<nat>, ghost ctx: Context, ghost results: seq<Trace>)
      returns (o: Outcome, ghost t: Trace)
      requires i < |graph| && |results| == i && |g0s| == |graph| && Distinct() && Ctx() == ctx
      requires GraphsBuilt(g0s, ctx, results) && graph[i].genIdx == g0s[i]
      modifies graph[i]
      ensures t.outcome == o && GraphsBuilt(g0s, ctx, results + [t])
    {
      o, t := BuildGraph(graph[i], Ctx());
      GraphsBuiltSnoc(g0s, ctx, results, t);
    }

    /** The operator index of `build`, record by record. */
    static method IndexCatalog(ops: seq<OperatorMeta>) returns (m: map<string, OperatorMeta>)
      ensures m == IndexOps(ops)
    {
      m := map[];
      for i := 0 to |ops|
        invariant m == IndexOps(ops[..i])
      {
        assert ops[..i + 1][..i] == ops[..i];
        m := m[ops[i].name := ops[i]];
      }
      assert ops[..|ops|] == ops;
    }

    /** The name check of `build` for graph `i`: a name already indexed is a
      duplicate, otherwise the graph is indexed under its name. */
    method Register(i: nat) returns (dup: bool)
      requires i < |graph| && NamesDistinct(i) && MapsFirst(i)
      modifies this`graphMap
      ensures dup <==> exists j :: 0 <= j < i && graph[j].name == graph[i].name
      ensures dup ==> graphMap == old(graphMap)
      ensures !dup ==> NamesDistinct(i + 1) && MapsFirst(i + 1)
    {
      NamesMember(i, graph[i].name);
      dup := graph[i].name in graphMap;
      if !dup {
        graphMap := graphMap[graph[i].name := graph[i]];
      }
    }

    /** One graph's `build` under this cluster. */
    static method BuildGraph(g: Graph, ctx: Context) returns (o: Outcome, ghost t: Trace)
      modifies g
      ensures t.outcome == o && g.BuiltFrom(old(g.genIdx), ctx, o, t.seen, t.log) && g.Valid()
    {
      ghost var seen, log;
      o, seen, log := g.Build(ctx);
      t := Trace(o, seen, log);
    }

    /** `GraphCluster.dumpDot`: the subgraphs of the graphs, last graph
      first; `DigraphText` is the document they are written into. */
    method DumpDot() returns (doc: seq<Subgraph>, ghost walks1: seq<seq<string>>, ghost walks2: seq<seq<string>>,
                              ghost blocks: seq<seq<seq<DotStmt>>>)
      requires forall i :: 0 <= i < |graph| ==> AllDepsIndexed(graph[i].vertexMap)
      ensures |doc| == |walks1| == |walks2| == |blocks| == |graph|
      ensures forall k :: 0 <= k < |doc| ==>
        graph[|graph| - 1 - k].Rendered(configSetting, doc[k], walks1[k], walks2[k], blocks[k])
    {
      doc, walks1, walks2, blocks := [], [], [], [];
      var i := |graph|;
      while i > 0
        invariant 0 <= i <= |graph| && |doc| == |walks1| == |walks2| == |blocks| == |graph| - i
        invariant forall k :: 0 <= k < |doc| ==>
          graph[|graph| - 1 - k].Rendered(configSetting, doc[k], walks1[k], walks2[k], blocks[k])
        decreases i
      {
        i := i - 1;
        var s;
        ghost var ids1, ids2, bs;
        s, ids1, ids2, bs := graph[i].DumpDot(configSetting);
        doc, walks1, walks2, blocks := doc + [s], walks1 + [ids1], walks2 + [ids2], blocks + [bs];
      }
    }
  }
}
