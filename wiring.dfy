/** Edge wiring (pass 2) on the id index. `DependOn` is `Vertex.depend`;
    `VertexEdges` lists, in order, the `depend` calls `Vertex.build` makes,
    or the first error it reports; `ApplyEdges` performs such a list. */
module Wiring {
  import opened Records
  import opened Catalog

  /** One `depend` call: `consumer` depends on `producer`, expecting `tag`. */
  datatype Edge = Edge(consumer: string, producer: string, tag: int)

  /** Same keys, and every vertex keeps its declaration and flags. */
  ghost predicate SameShape(a: map<string, Vertex>, b: map<string, Vertex>)
  {
    && a.Keys == b.Keys
    && forall x :: x in a ==>
         b[x].decl == a[x].decl && b[x].isIdGenerated == a[x].isIdGenerated && b[x].isGenerated == a[x].isGenerated
  }

  /** `Vertex.depend`: `c` records `p` with tag `t`, `p` records `c` as a successor. */
  function DependOn(vm: map<string, Vertex>, c: string, p: string, t: int): (r: map<string, Vertex>)
    requires c in vm && p in vm
    ensures r.Keys == vm.Keys
  {
    var vm1 := vm[c := vm[c].(depsResults := vm[c].depsResults[p := t])];
    vm1[p := vm1[p].(successors := vm1[p].successors + {c})]
  }

  /** `depend` records the edge on both ends and changes nothing else. */
  lemma DependOnFrame(vm: map<string, Vertex>, c: string, p: string, t: int)
    requires c in vm && p in vm
    ensures var r := DependOn(vm, c, p, t);
      && SameShape(vm, r)
      && r[c].depsResults == vm[c].depsResults[p := t]
      && r[p].successors == vm[p].successors + {c}
      && (forall x :: x in vm && x != c ==> r[x].depsResults == vm[x].depsResults)
      && (forall x :: x in vm && x != p ==> r[x].successors == vm[x].successors)
  {
  }

  /** Depending twice on the same producer keeps one entry with the later tag. */
  lemma DependLastWriteWins(vm: map<string, Vertex>, c: string, p: string, t1: int, t2: int)
    requires c in vm && p in vm
    ensures DependOn(DependOn(vm, c, p, t1), c, p, t2) == DependOn(vm, c, p, t2)
  {
    var a := DependOn(DependOn(vm, c, p, t1), c, p, t2);
    var b := DependOn(vm, c, p, t2);
    forall x | x in a ensures a[x] == b[x] {
      if x == c {
        assert a[x].depsResults == b[x].depsResults;
      }
    }
  }

  /** Every edge connects two ids of the index. */
  predicate Within(es: seq<Edge>, keys: set<string>)
  {
    forall k :: 0 <= k < |es| ==> es[k].consumer in keys && es[k].producer in keys
  }

  /** Performing a list of `depend` calls in order. */
  function ApplyEdges(vm: map<string, Vertex>, es: seq<Edge>): (r: map<string, Vertex>)
    requires Within(es, vm.Keys)
    ensures r.Keys == vm.Keys
    decreases |es|
  {
    if es == [] then vm
    else
      var n := |es| - 1;
      assert Within(es[..n], vm.Keys);
      DependOn(ApplyEdges(vm, es[..n]), es[n].consumer, es[n].producer, es[n].tag)
  }

  /** Performing edges changes no declaration, no flag and no key. */
  lemma {:induction false} ApplyEdgesShape(vm: map<string, Vertex>, es: seq<Edge>)
    requires Within(es, vm.Keys)
    ensures SameShape(vm, ApplyEdges(vm, es))
    decreases |es|
  {
    if es != [] {
      var n := |es| - 1;
      assert Within(es[..n], vm.Keys);
      ApplyEdgesShape(vm, es[..n]);
      DependOnFrame(ApplyEdges(vm, es[..n]), es[n].consumer, es[n].producer, es[n].tag);
    }
  }

  lemma {:induction false} ApplyEdgesAppend(vm: map<string, Vertex>, a: seq<Edge>, b: seq<Edge>)
    requires Within(a, vm.Keys) && Within(b, vm.Keys)
    ensures Within(a + b, vm.Keys)
    ensures ApplyEdges(vm, a + b) == ApplyEdges(ApplyEdges(vm, a), b)
    decreases |b|
  {
    WithinAppend(a, b, vm.Keys);
    if b == [] {
      assert a + b == a;
    } else {
      var n := |b| - 1;
      SnocSplit(a, b);
      WithinAppend(a, b[..n], vm.Keys);
      ApplyEdgesAppend(vm, a, b[..n]);
    }
  }

  lemma WithinAppend(a: seq<Edge>, b: seq<Edge>, keys: set<string>)
    requires Within(a, keys) && Within(b, keys)
    ensures Within(a + b, keys)
    ensures b != [] ==> Within(b[..|b| - 1], keys)
  {
    assert forall k :: 0 <= k < |a + b| ==> (a + b)[k] == if k < |a| then a[k] else b[k - |a|];
  }

  /** Performing one more edge. */
  lemma ApplyEdgesSnoc(vm: map<string, Vertex>, es: seq<Edge>, e: Edge)
    requires Within(es, vm.Keys) && e.consumer in vm && e.producer in vm
    ensures Within(es + [e], vm.Keys)
    ensures ApplyEdges(vm, es + [e]) == DependOn(ApplyEdges(vm, es), e.consumer, e.producer, e.tag)
  {
    assert forall k :: 0 <= k < |es| ==> (es + [e])[k] == es[k];
    assert (es + [e])[..|es|] == es;
  }

  /** The per-consumer fold of the tags a list of edges writes. */
  function FoldTags(m: map<string, int>, es: seq<Edge>, c: string): map<string, int>
  {
    if es == [] then m
    else
      var n := |es| - 1;
      var acc := FoldTags(m, es[..n], c);
      if es[n].consumer == c then acc[es[n].producer := es[n].tag] else acc
  }

  /** The dependency map of each consumer after a list of edges is the fold of its tags. */
  lemma {:induction false} ApplyEdgesTags(vm: map<string, Vertex>, es: seq<Edge>, c: string)
    requires Within(es, vm.Keys) && c in vm
    ensures ApplyEdges(vm, es)[c].depsResults == FoldTags(vm[c].depsResults, es, c)
    decreases |es|
  {
    if es != [] {
      var n := |es| - 1;
      assert Within(es[..n], vm.Keys);
      ApplyEdgesTags(vm, es[..n], c);
    }
  }

  /** Last write wins: when the tail `b` names producer `p` for consumer `c`
      and always with tag `t`, the consumer ends with `p` tagged `t`. */
  lemma {:induction false} FoldTagsSuffix(m: map<string, int>, a: seq<Edge>, b: seq<Edge>, c: string, p: string, t: int)
    requires HasPair(b, c, p) && TagFor(b, c, p, t)
    ensures p in FoldTags(m, a + b, c) && FoldTags(m, a + b, c)[p] == t
    decreases |b|
  {
    var n := |b| - 1;
    assert (a + b)[..|a| + n] == a + b[..n];
    assert (a + b)[|a| + n] == b[n];
    if !(b[n].consumer == c && b[n].producer == p) {
      var k :| 0 <= k < |b| && b[k].consumer == c && b[k].producer == p;
      assert k < n && b[..n][k] == b[k];
      FoldTagsSuffix(m, a, b[..n], c, p, t);
    }
  }

  /** The tail `b` writes no tag for `p` on `c`: the fold of `a` decides. */
  lemma {:induction false} FoldTagsUntouched(m: map<string, int>, a: seq<Edge>, b: seq<Edge>, c: string, p: string)
    requires forall k :: 0 <= k < |b| ==> !(b[k].consumer == c && b[k].producer == p)
    ensures (p in FoldTags(m, a + b, c)) == (p in FoldTags(m, a, c))
    ensures p in FoldTags(m, a, c) ==> FoldTags(m, a + b, c)[p] == FoldTags(m, a, c)[p]
    decreases |b|
  {
    if b == [] {
      assert a + b == a;
    } else {
      var n := |b| - 1;
      assert (a + b)[..|a| + n] == a + b[..n];
      assert (a + b)[|a| + n] == b[n];
      FoldTagsUntouched(m, a, b[..n], c, p);
    }
  }

  // ---------------------------------------------------------------------
  // The edge lists `Vertex.build` produces, step by step, first error wins.

  /** Sequential composition of two wiring steps: the first failure is reported. */
  function Then(a: Result<seq<Edge>>, b: Result<seq<Edge>>): (r: Result<seq<Edge>>)
    ensures r.Ok? <==> a.Ok? && b.Ok?
    ensures r.Ok? ==> r.value == a.value + b.value
    ensures a.Fail? ==> r == a
    ensures a.Ok? && b.Fail? ==> r == b
  {
    if a.Fail? then a else if b.Fail? then b else Ok(a.value + b.value)
  }

  /** The tag a data edge carries: OK for a required input, ALL otherwise. */
  function InputTag(required: bool): int
  {
    if required then ResultOk else ResultAll
  }

  /** The producers of the index named in `dm`. */
  predicate DataWithin(dm: map<string, string>, keys: set<string>)
  {
    forall x :: x in dm ==> dm[x] in keys
  }

  /** One aggregate entry: its producer, or nothing when missing and extern. */
  function AggregateStep(vid: string, d: GraphData, x: string, dm: map<string, string>): (r: Result<seq<Edge>>)
  {
    if x !in dm then (if d.isExtern then Ok([]) else Fail(UnknownInput(vid, d.id)))
    else Ok([Edge(vid, dm[x], InputTag(d.required))])
  }

  function AggregateEdges(vid: string, d: GraphData, xs: seq<string>, dm: map<string, string>): (r: Result<seq<Edge>>)
    ensures r.Ok? <==> d.isExtern || forall k :: 0 <= k < |xs| ==> xs[k] in dm
    ensures r.Fail? ==> r.error == UnknownInput(vid, d.id)
    ensures r.Ok? ==> forall e :: e in r.value ==>
      e.consumer == vid && e.tag == InputTag(d.required) && exists k :: 0 <= k < |xs| && xs[k] in dm && e.producer == dm[xs[k]]
    ensures r.Ok? ==> forall k :: 0 <= k < |xs| && xs[k] in dm ==> Edge(vid, dm[xs[k]], InputTag(d.required)) in r.value
  {
    if xs == [] then Ok([])
    else
      var r := Then(AggregateStep(vid, d, xs[0], dm), AggregateEdges(vid, d, xs[1..], dm));
      assert forall k :: 1 <= k < |xs| ==> xs[k] == xs[1..][k - 1];
      r
  }

  /** Whether an input binding is a plain (single-producer) one. */
  predicate IsPlainInput(d: GraphData)
  {
    |d.aggregate| == 0 && !d.isMapInput
  }

  /** The edges of one input binding (`Vertex.build`, its input loop body). */
  function InputEdgesOf(vid: string, d: GraphData, dm: map<string, string>): Result<seq<Edge>>
  {
    if IsPlainInput(d) then
      if d.id !in dm then (if d.isExtern then Ok([]) else Fail(UnknownInput(vid, d.id)))
      else if d.isInOut && dm[d.id] == vid then Ok([])
      else Ok([Edge(vid, dm[d.id], InputTag(d.required))])
    else AggregateEdges(vid, d, d.aggregate, dm)
  }

  /** An input binding is wired without error: a producer exists or it is extern. */
  predicate InputResolves(d: GraphData, dm: map<string, string>)
  {
    if IsPlainInput(d) then d.id in dm || d.isExtern
    else d.isExtern || forall k :: 0 <= k < |d.aggregate| ==> d.aggregate[k] in dm
  }

  function InputEdges(vid: string, ds: seq<GraphData>, dm: map<string, string>): (r: Result<seq<Edge>>)
    ensures r.Ok? <==> forall k :: 0 <= k < |ds| ==> InputResolves(ds[k], dm)
    ensures r.Ok? ==> forall e :: e in r.value ==> e.consumer == vid && e.producer in dm.Values
  {
    if ds == [] then Ok([])
    else
      var r := Then(InputEdgesOf(vid, ds[0], dm), InputEdges(vid, ds[1..], dm));
      assert forall k :: 1 <= k < |ds| ==> ds[k] == ds[1..][k - 1];
      r
  }

  /** `Vertex.buildDeps`: each listed id must be indexed; this vertex depends on it. */
  function DepEdges(vid: string, ids: seq<string>, tag: int, keys: set<string>): (r: Result<seq<Edge>>)
    ensures r.Ok? <==> forall k :: 0 <= k < |ids| ==> ids[k] in keys
    ensures r.Ok? ==> |r.value| == |ids| && forall k :: 0 <= k < |ids| ==> r.value[k] == Edge(vid, ids[k], tag)
    ensures r.Fail? ==> exists k :: 0 <= k < |ids| && ids[k] !in keys && r.error == UnknownDep(vid, ids[k])
  {
    if ids == [] then Ok([])
    else
      var step := if ids[0] in keys then Ok([Edge(vid, ids[0], tag)]) else Fail(UnknownDep(vid, ids[0]));
      var r := Then(step, DepEdges(vid, ids[1..], tag, keys));
      assert forall k :: 1 <= k < |ids| ==> ids[k] == ids[1..][k - 1];
      r
  }

  /** `Vertex.buildSuccessor`: each listed id must be indexed; it depends on this vertex. */
  function SuccEdges(vid: string, ids: seq<string>, tag: int, keys: set<string>): (r: Result<seq<Edge>>)
    ensures r.Ok? <==> forall k :: 0 <= k < |ids| ==> ids[k] in keys
    ensures r.Ok? ==> |r.value| == |ids| && forall k :: 0 <= k < |ids| ==> r.value[k] == Edge(ids[k], vid, tag)
    ensures r.Fail? ==> exists k :: 0 <= k < |ids| && ids[k] !in keys && r.error == UnknownSuccessor(vid, ids[k])
  {
    if ids == [] then Ok([])
    else
      var step := if ids[0] in keys then Ok([Edge(ids[0], vid, tag)]) else Fail(UnknownSuccessor(vid, ids[0]));
      var r := Then(step, SuccEdges(vid, ids[1..], tag, keys));
      assert forall k :: 1 <= k < |ids| ==> ids[k] == ids[1..][k - 1];
      r
  }

  /** The suffix of a dependency list from position `i` on. */
  lemma DepEdgesAt(vid: string, ids: seq<string>, i: nat, tag: int, keys: set<string>)
    requires i < |ids|
    ensures DepEdges(vid, ids[i..], tag, keys)
            == Then(if ids[i] in keys then Ok([Edge(vid, ids[i], tag)]) else Fail(UnknownDep(vid, ids[i])),
                    DepEdges(vid, ids[i + 1..], tag, keys))
  {
    assert ids[i..][0] == ids[i] && ids[i..][1..] == ids[i + 1..];
  }

  /** The suffix of a successor list from position `i` on. */
  lemma SuccEdgesAt(vid: string, ids: seq<string>, i: nat, tag: int, keys: set<string>)
    requires i < |ids|
    ensures SuccEdges(vid, ids[i..], tag, keys)
            == Then(if ids[i] in keys then Ok([Edge(ids[i], vid, tag)]) else Fail(UnknownSuccessor(vid, ids[i])),
                    SuccEdges(vid, ids[i + 1..], tag, keys))
  {
    assert ids[i..][0] == ids[i] && ids[i..][1..] == ids[i + 1..];
  }

  /** The suffix of an aggregate binding's data list from position `i` on. */
  lemma AggregateEdgesAt(vid: string, d: GraphData, xs: seq<string>, i: nat, dm: map<string, string>)
    requires i < |xs|
    ensures AggregateEdges(vid, d, xs[i..], dm)
            == Then(AggregateStep(vid, d, xs[i], dm), AggregateEdges(vid, d, xs[i + 1..], dm))
  {
    assert xs[i..][0] == xs[i] && xs[i..][1..] == xs[i + 1..];
  }

  /** The `select_args` check: every match must name a config setting. No edges. */
  function SelectArgsCheck(args: seq<CondParams>, settings: seq<ConfigSetting>): (r: Result<seq<Edge>>)
    ensures r.Ok? <==> forall k :: 0 <= k < |args| ==> ContainsConfigSetting(settings, args[k].matchName)
    ensures r.Ok? ==> r.value == []
    ensures r.Fail? ==> exists k :: 0 <= k < |args| && r.error == UnknownConfigSetting(args[k].matchName)
  {
    if args == [] then Ok([])
    else
      var step := if ContainsConfigSetting(settings, args[0].matchName) then Ok([])
                  else Fail(UnknownConfigSetting(args[0].matchName));
      var r := Then(step, SelectArgsCheck(args[1..], settings));
      assert forall k :: 1 <= k < |args| ==> args[k] == args[1..][k - 1];
      r
  }

  /** Everything `Vertex.build` does for vertex `d`, in its order. */
  function VertexEdges(d: VertexDecl, keys: set<string>, dm: map<string, string>, settings: seq<ConfigSetting>): Result<seq<Edge>>
  {
    var vid := d.id;
    Then(SelectArgsCheck(d.selectArgs, settings),
    Then(InputEdges(vid, d.input, dm),
    Then(DepEdges(vid, d.depsOnErr, ResultErr, keys),
    Then(DepEdges(vid, d.depsOnOk, ResultOk, keys),
    Then(DepEdges(vid, d.deps, ResultAll, keys),
    Then(SuccEdges(vid, d.successorOnErr, ResultErr, keys),
    Then(SuccEdges(vid, d.successorOnOk, ResultOk, keys),
         SuccEdges(vid, d.successor, ResultAll, keys))))))))
  }

  /** Every id of the dependency and successor lists is indexed. */
  predicate ListsResolve(d: VertexDecl, keys: set<string>)
  {
    && (forall k :: 0 <= k < |d.depsOnErr| ==> d.depsOnErr[k] in keys)
    && (forall k :: 0 <= k < |d.depsOnOk| ==> d.depsOnOk[k] in keys)
    && (forall k :: 0 <= k < |d.deps| ==> d.deps[k] in keys)
    && (forall k :: 0 <= k < |d.successorOnErr| ==> d.successorOnErr[k] in keys)
    && (forall k :: 0 <= k < |d.successorOnOk| ==> d.successorOnOk[k] in keys)
    && (forall k :: 0 <= k < |d.successor| ==> d.successor[k] in keys)
  }

  /** The eight steps of `Vertex.build`, concatenated when all succeed. */
  lemma VertexEdgesParts(d: VertexDecl, keys: set<string>, dm: map<string, string>, settings: seq<ConfigSetting>)
    ensures var vid := d.id;
      var sel := SelectArgsCheck(d.selectArgs, settings);
      var inp := InputEdges(vid, d.input, dm);
      var e1 := DepEdges(vid, d.depsOnErr, ResultErr, keys);
      var e2 := DepEdges(vid, d.depsOnOk, ResultOk, keys);
      var e3 := DepEdges(vid, d.deps, ResultAll, keys);
      var s1 := SuccEdges(vid, d.successorOnErr, ResultErr, keys);
      var s2 := SuccEdges(vid, d.successorOnOk, ResultOk, keys);
      var s3 := SuccEdges(vid, d.successor, ResultAll, keys);
      var r := VertexEdges(d, keys, dm, settings);
      && (r.Ok? <==> sel.Ok? && inp.Ok? && e1.Ok? && e2.Ok? && e3.Ok? && s1.Ok? && s2.Ok? && s3.Ok?)
      && (r.Ok? ==> r.value == sel.value + (inp.value + (e1.value + (e2.value + (e3.value + (s1.value + (s2.value + s3.value)))))))
  {
    var vid := d.id;
    var sel := SelectArgsCheck(d.selectArgs, settings);
    var inp := InputEdges(vid, d.input, dm);
    var e1 := DepEdges(vid, d.depsOnErr, ResultErr, keys);
    var e2 := DepEdges(vid, d.depsOnOk, ResultOk, keys);
    var e3 := DepEdges(vid, d.deps, ResultAll, keys);
    var s1 := SuccEdges(vid, d.successorOnErr, ResultErr, keys);
    var s2 := SuccEdges(vid, d.successorOnOk, ResultOk, keys);
    var s3 := SuccEdges(vid, d.successor, ResultAll, keys);
    var t6 := Then(s2, s3);
    var t5 := Then(s1, t6);
    var t4 := Then(e3, t5);
    var t3 := Then(e2, t4);
    var t2 := Then(e1, t3);
    var t1 := Then(inp, t2);
    var t0 := Then(sel, t1);
    assert t0 == VertexEdges(d, keys, dm, settings);
  }

  /** Wiring a vertex fails exactly when a select_args match names no setting,
      an input has no producer and is not extern, or a dependency or successor
      list names an unknown id. */
  lemma VertexEdgesOk(d: VertexDecl, keys: set<string>, dm: map<string, string>, settings: seq<ConfigSetting>)
    ensures VertexEdges(d, keys, dm, settings).Ok? <==>
        && (forall k :: 0 <= k < |d.selectArgs| ==> ContainsConfigSetting(settings, d.selectArgs[k].matchName))
        && (forall k :: 0 <= k < |d.input| ==> InputResolves(d.input[k], dm))
        && ListsResolve(d, keys)
  {
    VertexEdgesParts(d, keys, dm, settings);
  }

  /** Every edge has the vertex at one end. */
  predicate Touches(es: seq<Edge>, vid: string)
  {
    forall k :: 0 <= k < |es| ==> es[k].consumer == vid || es[k].producer == vid
  }

  lemma JoinWithin(a: seq<Edge>, b: seq<Edge>, keys: set<string>, vid: string)
    requires Within(a, keys) && Touches(a, vid) && Within(b, keys) && Touches(b, vid)
    ensures Within(a + b, keys) && Touches(a + b, vid)
  {
    assert forall k :: 0 <= k < |a + b| ==> (a + b)[k] == if k < |a| then a[k] else b[k - |a|];
  }

  lemma InputEdgesWithin(vid: string, ds: seq<GraphData>, dm: map<string, string>, keys: set<string>)
    requires InputEdges(vid, ds, dm).Ok? && vid in keys && DataWithin(dm, keys)
    ensures Within(InputEdges(vid, ds, dm).value, keys) && Touches(InputEdges(vid, ds, dm).value, vid)
  {
    var es := InputEdges(vid, ds, dm).value;
    forall k | 0 <= k < |es| ensures es[k].consumer == vid && es[k].producer in keys {
      assert es[k] in es;
      var x :| x in dm && dm[x] == es[k].producer;
    }
  }

  lemma DepEdgesWithin(vid: string, ids: seq<string>, tag: int, keys: set<string>)
    requires DepEdges(vid, ids, tag, keys).Ok? && vid in keys
    ensures Within(DepEdges(vid, ids, tag, keys).value, keys) && Touches(DepEdges(vid, ids, tag, keys).value, vid)
  {
  }

  lemma SuccEdgesWithin(vid: string, ids: seq<string>, tag: int, keys: set<string>)
    requires SuccEdges(vid, ids, tag, keys).Ok? && vid in keys
    ensures Within(SuccEdges(vid, ids, tag, keys).value, keys) && Touches(SuccEdges(vid, ids, tag, keys).value, vid)
  {
  }

  /** On success every edge of a vertex's build touches the vertex and
      connects indexed vertices. */
  lemma VertexEdgesWithin(d: VertexDecl, keys: set<string>, dm: map<string, string>, settings: seq<ConfigSetting>)
    requires VertexEdges(d, keys, dm, settings).Ok? && d.id in keys && DataWithin(dm, keys)
    ensures var es := VertexEdges(d, keys, dm, settings).value;
      Within(es, keys) && Touches(es, d.id)
  {
    VertexEdgesParts(d, keys, dm, settings);
    var vid := d.id;
    InputEdgesWithin(vid, d.input, dm, keys);
    DepEdgesWithin(vid, d.depsOnErr, ResultErr, keys);
    DepEdgesWithin(vid, d.depsOnOk, ResultOk, keys);
    DepEdgesWithin(vid, d.deps, ResultAll, keys);
    SuccEdgesWithin(vid, d.successorOnErr, ResultErr, keys);
    SuccEdgesWithin(vid, d.successorOnOk, ResultOk, keys);
    SuccEdgesWithin(vid, d.successor, ResultAll, keys);
    var inp := InputEdges(vid, d.input, dm).value;
    var e1 := DepEdges(vid, d.depsOnErr, ResultErr, keys).value;
    var e2 := DepEdges(vid, d.depsOnOk, ResultOk, keys).value;
    var e3 := DepEdges(vid, d.deps, ResultAll, keys).value;
    var s1 := SuccEdges(vid, d.successorOnErr, ResultErr, keys).value;
    var s2 := SuccEdges(vid, d.successorOnOk, ResultOk, keys).value;
    var s3 := SuccEdges(vid, d.successor, ResultAll, keys).value;
    JoinWithin(s2, s3, keys, vid);
    JoinWithin(s1, s2 + s3, keys, vid);
    JoinWithin(e3, s1 + (s2 + s3), keys, vid);
    JoinWithin(e2, e3 + (s1 + (s2 + s3)), keys, vid);
    JoinWithin(e1, e2 + (e3 + (s1 + (s2 + s3))), keys, vid);
    JoinWithin(inp, e1 + (e2 + (e3 + (s1 + (s2 + s3)))), keys, vid);
    assert SelectArgsCheck(d.selectArgs, settings).value == [];
  }

  /** Every edge from `c` to `p` in the list carries tag `t`. */
  predicate TagFor(es: seq<Edge>, c: string, p: string, t: int)
  {
    forall k :: 0 <= k < |es| && es[k].consumer == c && es[k].producer == p ==> es[k].tag == t
  }

  /** Some edge of the list goes from `c` to `p`. */
  predicate HasPair(es: seq<Edge>, c: string, p: string)
  {
    exists k :: 0 <= k < |es| && es[k].consumer == c && es[k].producer == p
  }

  lemma JoinTag(a: seq<Edge>, b: seq<Edge>, c: string, p: string, t: int)
    requires TagFor(a, c, p, t) && TagFor(b, c, p, t)
    ensures TagFor(a + b, c, p, t)
    ensures HasPair(a, c, p) ==> HasPair(a + b, c, p)
  {
    assert forall k :: 0 <= k < |a + b| ==> (a + b)[k] == if k < |a| then a[k] else b[k - |a|];
    if HasPair(a, c, p) {
      var k :| 0 <= k < |a| && a[k].consumer == c && a[k].producer == p;
      assert (a + b)[k] == a[k];
    }
  }

  /** The edges of a dependency list name `x` exactly when the list does, always with the list's tag. */
  lemma DepEdgesTag(vid: string, ids: seq<string>, tag: int, keys: set<string>, x: string, t: int)
    requires DepEdges(vid, ids, tag, keys).Ok?
    requires x in ids ==> t == tag
    ensures TagFor(DepEdges(vid, ids, tag, keys).value, vid, x, t)
    ensures x in ids ==> HasPair(DepEdges(vid, ids, tag, keys).value, vid, x)
  {
    if x in ids {
      var j :| 0 <= j < |ids| && ids[j] == x;
      assert DepEdges(vid, ids, tag, keys).value[j] == Edge(vid, x, tag);
    }
  }

  /** Successor-list edges have the vertex as producer, so none goes from it to another `x`. */
  lemma SuccEdgesTag(vid: string, ids: seq<string>, tag: int, keys: set<string>, x: string, t: int)
    requires SuccEdges(vid, ids, tag, keys).Ok? && x != vid
    ensures TagFor(SuccEdges(vid, ids, tag, keys).value, vid, x, t)
  {
  }

  /** A list name applied later overrides an earlier one: after wiring, a
      producer named in `deps` is tagged ALL, else one named in `deps_on_ok` is
      tagged OK, else one named in `deps_on_err` is tagged ERR (for a producer
      other than the vertex itself, which successor lists could also tag). */
  lemma DepsListOrder(vm: map<string, Vertex>, d: VertexDecl, dm: map<string, string>, settings: seq<ConfigSetting>, x: string)
    requires d.id in vm && DataWithin(dm, vm.Keys)
    requires VertexEdges(d, vm.Keys, dm, settings).Ok?
    requires x != d.id && (x in d.deps || x in d.depsOnOk || x in d.depsOnErr)
    ensures var es := VertexEdges(d, vm.Keys, dm, settings).value;
      && Within(es, vm.Keys)
      && var r := ApplyEdges(vm, es)[d.id].depsResults;
      x in r && r[x] == if x in d.deps then ResultAll else if x in d.depsOnOk then ResultOk else ResultErr
  {
    VertexEdgesWithin(d, vm.Keys, dm, settings);
    ApplyEdgesTags(vm, VertexEdges(d, vm.Keys, dm, settings).value, d.id);
    ListsFoldTag(d, vm.Keys, dm, settings, vm[d.id].depsResults, x);
  }

  /** The tag folding of the vertex's own calls leaves on producer `x`. */
  lemma ListsFoldTag(d: VertexDecl, keys: set<string>, dm: map<string, string>, settings: seq<ConfigSetting>,
                     m: map<string, int>, x: string)
    requires VertexEdges(d, keys, dm, settings).Ok?
    requires x != d.id && (x in d.deps || x in d.depsOnOk || x in d.depsOnErr)
    ensures var r := FoldTags(m, VertexEdges(d, keys, dm, settings).value, d.id);
      x in r && r[x] == if x in d.deps then ResultAll else if x in d.depsOnOk then ResultOk else ResultErr
  {
    var vid := d.id;
    var t := if x in d.deps then ResultAll else if x in d.depsOnOk then ResultOk else ResultErr;
    VertexEdgesParts(d, keys, dm, settings);
    var es := VertexEdges(d, keys, dm, settings).value;
    var inp := InputEdges(vid, d.input, dm).value;
    var e1 := DepEdges(vid, d.depsOnErr, ResultErr, keys).value;
    var e2 := DepEdges(vid, d.depsOnOk, ResultOk, keys).value;
    var e3 := DepEdges(vid, d.deps, ResultAll, keys).value;
    var s1 := SuccEdges(vid, d.successorOnErr, ResultErr, keys).value;
    var s2 := SuccEdges(vid, d.successorOnOk, ResultOk, keys).value;
    var s3 := SuccEdges(vid, d.successor, ResultAll, keys).value;
    assert SelectArgsCheck(d.selectArgs, settings).value == [];
    SuccEdgesTag(vid, d.successorOnErr, ResultErr, keys, x, t);
    SuccEdgesTag(vid, d.successorOnOk, ResultOk, keys, x, t);
    SuccEdgesTag(vid, d.successor, ResultAll, keys, x, t);
    JoinTag(s2, s3, vid, x, t);
    JoinTag(s1, s2 + s3, vid, x, t);
    var ss := s1 + (s2 + s3);
    DepEdgesTag(vid, d.deps, ResultAll, keys, x, t);
    if x !in d.deps {
      DepEdgesTag(vid, d.depsOnOk, ResultOk, keys, x, t);
      if x !in d.depsOnOk {
        DepEdgesTag(vid, d.depsOnErr, ResultErr, keys, x, t);
      }
    }
    assert es == inp + (e1 + (e2 + (e3 + ss)));
    ListOrderCore(m, inp, e1, e2, e3, ss, vid, x, t, x in d.deps, x in d.depsOnOk);
  }

  /** The fold of `inp + e1 + e2 + e3 + ss` on `c`: the last list naming `x` decides its tag. */
  lemma ListOrderCore(m: map<string, int>, inp: seq<Edge>, e1: seq<Edge>, e2: seq<Edge>, e3: seq<Edge>, ss: seq<Edge>,
                      c: string, x: string, t: int, inDeps: bool, inOk: bool)
    requires TagFor(ss, c, x, t) && TagFor(e3, c, x, t)
    requires inDeps ==> HasPair(e3, c, x)
    requires !inDeps ==> TagFor(e2, c, x, t)
    requires !inDeps && inOk ==> HasPair(e2, c, x)
    requires !inDeps && !inOk ==> TagFor(e1, c, x, t) && HasPair(e1, c, x)
    ensures x in FoldTags(m, inp + (e1 + (e2 + (e3 + ss))), c) && FoldTags(m, inp + (e1 + (e2 + (e3 + ss))), c)[x] == t
  {
    var es := inp + (e1 + (e2 + (e3 + ss)));
    JoinTag(e3, ss, c, x, t);
    if inDeps {
      assert es == (inp + (e1 + e2)) + (e3 + ss);
      FoldTagsSuffix(m, inp + (e1 + e2), e3 + ss, c, x, t);
    } else {
      JoinTag(e2, e3 + ss, c, x, t);
      if inOk {
        assert es == (inp + e1) + (e2 + (e3 + ss));
        FoldTagsSuffix(m, inp + e1, e2 + (e3 + ss), c, x, t);
      } else {
        JoinTag(e1, e2 + (e3 + ss), c, x, t);
        FoldTagsSuffix(m, inp, e1 + (e2 + (e3 + ss)), c, x, t);
      }
    }
  }

  // ---------------------------------------------------------------------
  // The edge relation of an index.

  /** Dependency edges recorded on one end are recorded on the other. */
  ghost predicate Symmetric(vm: map<string, Vertex>)
  {
    && (forall c, p :: c in vm && p in vm[c].depsResults ==> p in vm && c in vm[p].successors)
    && (forall p, c :: p in vm && c in vm[p].successors ==> c in vm && p in vm[c].depsResults)
  }

  lemma DependKeepsSymmetric(vm: map<string, Vertex>, c: string, p: string, t: int)
    requires c in vm && p in vm && Symmetric(vm)
    ensures Symmetric(DependOn(vm, c, p, t))
  {
  }

  lemma {:induction false} ApplyEdgesKeepsSymmetric(vm: map<string, Vertex>, es: seq<Edge>)
    requires Within(es, vm.Keys) && Symmetric(vm)
    ensures Symmetric(ApplyEdges(vm, es))
    decreases |es|
  {
    if es != [] {
      var n := |es| - 1;
      assert Within(es[..n], vm.Keys);
      ApplyEdgesKeepsSymmetric(vm, es[..n]);
      DependKeepsSymmetric(ApplyEdges(vm, es[..n]), es[n].consumer, es[n].producer, es[n].tag);
    }
  }

  /** The (consumer, producer) pairs recorded in the index. */
  ghost function Rel(vm: map<string, Vertex>): set<(string, string)>
  {
    set c, p | c in vm && p in vm[c].depsResults :: (c, p)
  }

  ghost function Pairs(es: seq<Edge>): set<(string, string)>
  {
    set e | e in es :: (e.consumer, e.producer)
  }

  lemma PairsSnoc(es: seq<Edge>)
    requires es != []
    ensures Pairs(es) == Pairs(es[..|es| - 1]) + {(es[|es| - 1].consumer, es[|es| - 1].producer)}
  {
    var n := |es| - 1;
    forall q | q in Pairs(es) ensures q in Pairs(es[..n]) + {(es[n].consumer, es[n].producer)} {
      var e :| e in es && q == (e.consumer, e.producer);
      var k :| 0 <= k < |es| && es[k] == e;
      if k < n {
        assert es[..n][k] == e;
      }
    }
    forall q | q in Pairs(es[..n]) + {(es[n].consumer, es[n].producer)} ensures q in Pairs(es) {
      if q in Pairs(es[..n]) {
        var e :| e in es[..n] && q == (e.consumer, e.producer);
        assert e in es;
      } else {
        assert es[n] in es;
      }
    }
  }

  lemma RelDepend(vm: map<string, Vertex>, c: string, p: string, t: int)
    requires c in vm && p in vm
    ensures Rel(DependOn(vm, c, p, t)) == Rel(vm) + {(c, p)}
  {
    var r := DependOn(vm, c, p, t);
    forall q | q in Rel(r) ensures q in Rel(vm) + {(c, p)} {
      var x, y := q.0, q.1;
      assert x in r && y in r[x].depsResults;
      if q != (c, p) {
        assert y in vm[x].depsResults;
      }
    }
    forall q | q in Rel(vm) + {(c, p)} ensures q in Rel(r) {
      var x, y := q.0, q.1;
      assert x in r && y in r[x].depsResults;
    }
  }

  /** Performing a list of edges adds exactly their pairs to the relation. */
  lemma {:induction false} RelApplyEdges(vm: map<string, Vertex>, es: seq<Edge>)
    requires Within(es, vm.Keys)
    ensures Rel(ApplyEdges(vm, es)) == Rel(vm) + Pairs(es)
    decreases |es|
  {
    if es != [] {
      var n := |es| - 1;
      assert Within(es[..n], vm.Keys);
      RelApplyEdges(vm, es[..n]);
      RelDepend(ApplyEdges(vm, es[..n]), es[n].consumer, es[n].producer, es[n].tag);
      PairsSnoc(es);
    }
  }
}
