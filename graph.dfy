/** `Graph`: one named graph of a cluster, its build (pass 1 indexing,
    pass 2 wiring, the per-vertex checks, the cycle test) and its DOT
    rendering. The cluster a graph belongs to is the `Context` passed in. */
module Graphs {
  import opened Records
  import opened Naming
  import opened Catalog
  import opened Indexing
  import opened Wiring
  import opened Cycles
  import opened Render

  /** `Vertex.verify`: a start vertex must have no dependencies; any other
      vertex must have a dependency or a successor. */
  function VerifyVertex(v: Vertex): (r: Outcome)
    ensures r.Pass? <==> (v.decl.start ==> |v.depsResults| == 0) && (!v.decl.start ==> |v.depsResults| + |v.successors| > 0)
    ensures r.Failed? && v.decl.start ==> r.error == StartWithDeps(v.decl.id)
    ensures r.Failed? && !v.decl.start ==> r.error == NoDepsAndSuccessors(v.decl.id)
  {
    if !v.decl.start then
      (if |v.depsResults| == 0 && |v.successors| == 0 then Failed(NoDepsAndSuccessors(v.decl.id)) else Pass)
    else if |v.depsResults| > 0 then Failed(StartWithDeps(v.decl.id))
    else Pass
  }

  /** Every vertex that is not a condition vertex passes `verify`. */
  ghost predicate AllVerified(vm: map<string, Vertex>)
  {
    forall x :: x in vm && |vm[x].decl.cond| == 0 ==> VerifyVertex(vm[x]).Pass?
  }

  /** Every vertex of the id index wires without error. */
  predicate Resolved(vm: map<string, Vertex>, dm: map<string, string>, settings: seq<ConfigSetting>)
  {
    forall x :: x in vm ==> VertexEdges(vm[x].decl, vm.Keys, dm, settings).Ok?
  }

  /** The (consumer, producer) pairs the wiring of the vertices `xs` records. */
  ghost function WiredPairs(vm: map<string, Vertex>, dm: map<string, string>, xs: set<string>,
                            settings: seq<ConfigSetting>): set<(string, string)>
  {
    set x, q | x in xs && x in vm && VertexEdges(vm[x].decl, vm.Keys, dm, settings).Ok?
                 && q in Pairs(VertexEdges(vm[x].decl, vm.Keys, dm, settings).value) :: q
  }

  /** The six dependency and successor lists of `Vertex.build`, in its order. */
  function ListEdges(d: VertexDecl, keys: set<string>): Result<seq<Edge>>
  {
    var vid := d.id;
    Then(DepEdges(vid, d.depsOnErr, ResultErr, keys),
    Then(DepEdges(vid, d.depsOnOk, ResultOk, keys),
    Then(DepEdges(vid, d.deps, ResultAll, keys),
    Then(SuccEdges(vid, d.successorOnErr, ResultErr, keys),
    Then(SuccEdges(vid, d.successorOnOk, ResultOk, keys),
         SuccEdges(vid, d.successor, ResultAll, keys))))))
  }

  lemma VertexEdgesSplit(d: VertexDecl, keys: set<string>, dm: map<string, string>, settings: seq<ConfigSetting>)
    ensures VertexEdges(d, keys, dm, settings)
            == Then(SelectArgsCheck(d.selectArgs, settings), Then(InputEdges(d.id, d.input, dm), ListEdges(d, keys)))
  {
  }

  /** What wiring needs of a successful pass 1: each vertex filed under its
    own id, nothing wired yet, and every data id mapped to an indexed vertex. */
  lemma IndexedReady(genIdx: nat, name: string, ctx: Context, ds: seq<VertexDecl>)
    requires IndexAll(Start(genIdx), name, ctx, ds).Ok?
    ensures var s := IndexAll(Start(genIdx), name, ctx, ds).value;
      && Inv(s, ctx) && DataWithin(s.dm, s.vm.Keys) && Symmetric(s.vm) && Rel(s.vm) == {}
      && forall x :: x in s.vm ==> s.vm[x].decl.id == x
  {
    StartInv(genIdx, ctx);
    IndexAllInv(Start(genIdx), name, ctx, ds);
    var s := IndexAll(Start(genIdx), name, ctx, ds).value;
    UnwiredReady(s, ctx.strictDsl);
  }

  lemma UnwiredReady(s: Index, strict: bool)
    requires Unwired(s)
    ensures Symmetric(s.vm) && Rel(s.vm) == {}
    ensures DataOk(s, strict) ==> DataWithin(s.dm, s.vm.Keys)
  {
  }

  /** The key bookkeeping survives wiring, which changes no key. */
  lemma FiledValid(vm0: map<string, Vertex>, vm: map<string, Vertex>, order: seq<string>, dm: map<string, string>,
                   gen: set<string>, genIdx: nat)
    requires FiledOk(vm0, order) && vm.Keys == vm0.Keys
    ensures OrderOk(Index(vm, order, dm, gen, genIdx, map[]))
    ensures vm == vm0 ==> Symmetric(vm)
  {
  }

  /** The outcome of `Vertex.build` for every indexed vertex. */
  function Attempts(vm: map<string, Vertex>, dm: map<string, string>, settings: seq<ConfigSetting>)
    : (m: map<string, Result<seq<Edge>>>)
    ensures m.Keys == vm.Keys
  {
    map x | x in vm :: VertexEdges(vm[x].decl, vm.Keys, dm, settings)
  }

  /** The recorded outcomes `rm` of the vertices `xs` joined in that order:
    their edges one after the other, or the first error. */
  function Fold(rm: map<string, Result<seq<Edge>>>, xs: seq<string>): Result<seq<Edge>>
    requires forall k :: 0 <= k < |xs| ==> xs[k] in rm
    decreases |xs|
  {
    if xs == [] then Ok([])
    else
      var n := |xs| - 1;
      Then(Fold(rm, xs[..n]), rm[xs[n]])
  }

  /** The `depend` calls of wiring the vertices `xs` in that order, or the
    first error. */
  function EdgesInOrder(vm: map<string, Vertex>, dm: map<string, string>, settings: seq<ConfigSetting>,
                        xs: seq<string>): Result<seq<Edge>>
    requires forall k :: 0 <= k < |xs| ==> xs[k] in vm
  {
    Fold(Attempts(vm, dm, settings), xs)
  }

  /** The pairs recorded outcomes `rm` of the vertices `xs` carry. */
  ghost function PairsOf(rm: map<string, Result<seq<Edge>>>, xs: set<string>): set<(string, string)>
  {
    set x, q | x in xs && x in rm && rm[x].Ok? && q in Pairs(rm[x].value) :: q
  }

  lemma PairsOfAdd(rm: map<string, Result<seq<Edge>>>, xs: set<string>, x: string)
    requires x in rm && rm[x].Ok?
    ensures PairsOf(rm, xs + {x}) == PairsOf(rm, xs) + Pairs(rm[x].value)
  {
  }

  lemma WiredPairsOf(vm: map<string, Vertex>, dm: map<string, string>, xs: set<string>, settings: seq<ConfigSetting>)
    ensures WiredPairs(vm, dm, xs, settings) == PairsOf(Attempts(vm, dm, settings), xs)
  {
  }

  /** Joining succeeds exactly when every outcome joined does. */
  lemma {:induction false} FoldOk(rm: map<string, Result<seq<Edge>>>, xs: seq<string>)
    requires forall k :: 0 <= k < |xs| ==> xs[k] in rm
    ensures Fold(rm, xs).Ok? <==> forall k :: 0 <= k < |xs| ==> rm[xs[k]].Ok?
    decreases |xs|
  {
    if xs != [] {
      var n := |xs| - 1;
      var pre := xs[..n];
      assert forall k :: 0 <= k < n ==> pre[k] == xs[k];
      FoldOk(rm, pre);
    }
  }

  /** A successful join carries exactly the pairs of the outcomes joined. */
  lemma {:induction false} FoldPairs(rm: map<string, Result<seq<Edge>>>, xs: seq<string>)
    requires forall k :: 0 <= k < |xs| ==> xs[k] in rm
    requires Fold(rm, xs).Ok?
    ensures Pairs(Fold(rm, xs).value) == PairsOf(rm, set k | 0 <= k < |xs| :: xs[k])
    decreases |xs|
  {
    if xs != [] {
      var n := |xs| - 1;
      var pre := xs[..n];
      assert forall k :: 0 <= k < n ==> pre[k] == xs[k];
      FoldPairs(rm, pre);
      PairsJoin(Fold(rm, pre).value, rm[xs[n]].value);
      ElemsSnoc(xs, pre);
      PairsOfAdd(rm, set k | 0 <= k < n :: pre[k], xs[n]);
    }
  }

  /** A failed join fails with the error of one of the outcomes joined. */
  lemma {:induction false} FoldFail(rm: map<string, Result<seq<Edge>>>, xs: seq<string>)
    requires forall k :: 0 <= k < |xs| ==> xs[k] in rm
    requires Fold(rm, xs).Fail?
    ensures exists k :: 0 <= k < |xs| && rm[xs[k]] == Fail(Fold(rm, xs).error)
    decreases |xs|
  {
    var n := |xs| - 1;
    var pre := xs[..n];
    assert forall k :: 0 <= k < n ==> pre[k] == xs[k];
    if Fold(rm, pre).Fail? {
      FoldFail(rm, pre);
      var k :| 0 <= k < n && rm[pre[k]] == Fail(Fold(rm, pre).error);
      assert xs[k] == pre[k];
    }
  }

  /** The state of the wiring loop: the vertices `seen` (each once) are
    wired, by performing `log`. */
  ghost predicate WireState(vm0: map<string, Vertex>, vm: map<string, Vertex>, dm: map<string, string>,
                            settings: seq<ConfigSetting>, seen: seq<string>, log: seq<Edge>)
  {
    && (forall k :: 0 <= k < |seen| ==> seen[k] in vm0)
    && (forall i, j :: 0 <= i < j < |seen| ==> seen[i] != seen[j])
    && Within(log, vm0.Keys) && vm == ApplyEdges(vm0, log)
    && EdgesInOrder(vm0, dm, settings, seen) == Ok(log)
  }

  /** In a graph whose edges are recorded at both ends every producer a
    vertex names is indexed, so the graph can be drawn. */
  lemma SymmetricIndexed(vm: map<string, Vertex>)
    requires Symmetric(vm)
    ensures AllDepsIndexed(vm)
  {
  }

  /** Wiring in order succeeds exactly when every vertex wires. */
  lemma EdgesInOrderOk(vm: map<string, Vertex>, dm: map<string, string>,
                       settings: seq<ConfigSetting>, xs: seq<string>)
    requires forall k :: 0 <= k < |xs| ==> xs[k] in vm
    ensures EdgesInOrder(vm, dm, settings, xs).Ok?
            <==> forall k :: 0 <= k < |xs| ==> VertexEdges(vm[xs[k]].decl, vm.Keys, dm, settings).Ok?
  {
    FoldOk(Attempts(vm, dm, settings), xs);
  }

  /** Wiring in order records exactly the pairs of each vertex's edges. */
  lemma EdgesInOrderPairs(vm: map<string, Vertex>, dm: map<string, string>,
                          settings: seq<ConfigSetting>, xs: seq<string>)
    requires forall k :: 0 <= k < |xs| ==> xs[k] in vm
    requires EdgesInOrder(vm, dm, settings, xs).Ok?
    ensures Pairs(EdgesInOrder(vm, dm, settings, xs).value) == WiredPairs(vm, dm, set k | 0 <= k < |xs| :: xs[k], settings)
  {
    FoldPairs(Attempts(vm, dm, settings), xs);
    WiredPairsOf(vm, dm, set k | 0 <= k < |xs| :: xs[k], settings);
  }

  /** A failed wiring names the vertex whose `Vertex.build` failed. */
  lemma EdgesInOrderFail(vm: map<string, Vertex>, dm: map<string, string>,
                         settings: seq<ConfigSetting>, xs: seq<string>)
    requires forall k :: 0 <= k < |xs| ==> xs[k] in vm
    requires EdgesInOrder(vm, dm, settings, xs).Fail?
    ensures exists k :: 0 <= k < |xs| && VertexEdges(vm[xs[k]].decl, vm.Keys, dm, settings) == Fail(EdgesInOrder(vm, dm, settings, xs).error)
  {
    var rm := Attempts(vm, dm, settings);
    FoldFail(rm, xs);
    var k :| 0 <= k < |xs| && rm[xs[k]] == Fail(Fold(rm, xs).error);
    assert VertexEdges(vm[xs[k]].decl, vm.Keys, dm, settings) == rm[xs[k]];
  }

  /** The verdict of the wiring loop: it passes exactly when every vertex
    wires, and when it passes it records exactly the pairs of every
    vertex's edges; when it fails, the error is that of some vertex. */
  lemma WireVerdict(vm: map<string, Vertex>, dm: map<string, string>, settings: seq<ConfigSetting>, seen: seq<string>)
    requires forall k :: 0 <= k < |seen| ==> seen[k] in vm
    ensures EdgesInOrder(vm, dm, settings, seen).Ok? && Enumerates(seen, vm.Keys) ==>
              Resolved(vm, dm, settings) && Pairs(EdgesInOrder(vm, dm, settings, seen).value) == WiredPairs(vm, dm, vm.Keys, settings)
    ensures EdgesInOrder(vm, dm, settings, seen).Fail? ==>
              !Resolved(vm, dm, settings)
              && exists x :: x in vm && VertexEdges(vm[x].decl, vm.Keys, dm, settings) == Fail(EdgesInOrder(vm, dm, settings, seen).error)
  {
    if EdgesInOrder(vm, dm, settings, seen).Ok? && Enumerates(seen, vm.Keys) {
      WireVerdictOk(vm, dm, settings, seen);
    }
    if EdgesInOrder(vm, dm, settings, seen).Fail? {
      WireVerdictFail(vm, dm, settings, seen);
    }
  }

  lemma WireVerdictOk(vm: map<string, Vertex>, dm: map<string, string>, settings: seq<ConfigSetting>, seen: seq<string>)
    requires forall k :: 0 <= k < |seen| ==> seen[k] in vm
    requires EdgesInOrder(vm, dm, settings, seen).Ok? && Enumerates(seen, vm.Keys)
    ensures Resolved(vm, dm, settings)
    ensures Pairs(EdgesInOrder(vm, dm, settings, seen).value) == WiredPairs(vm, dm, vm.Keys, settings)
  {
    EdgesInOrderOk(vm, dm, settings, seen);
    EdgesInOrderPairs(vm, dm, settings, seen);
    EnumeratesElems(seen, vm.Keys);
    forall y | y in vm ensures VertexEdges(vm[y].decl, vm.Keys, dm, settings).Ok? {
      var k :| 0 <= k < |seen| && seen[k] == y;
    }
  }

  lemma WireVerdictFail(vm: map<string, Vertex>, dm: map<string, string>, settings: seq<ConfigSetting>, seen: seq<string>)
    requires forall k :: 0 <= k < |seen| ==> seen[k] in vm
    requires EdgesInOrder(vm, dm, settings, seen).Fail?
    ensures !Resolved(vm, dm, settings)
    ensures exists x :: x in vm && VertexEdges(vm[x].decl, vm.Keys, dm, settings) == Fail(EdgesInOrder(vm, dm, settings, seen).error)
  {
    EdgesInOrderFail(vm, dm, settings, seen);
    var k :| 0 <= k < |seen| && VertexEdges(vm[seen[k]].decl, vm.Keys, dm, settings) == Fail(EdgesInOrder(vm, dm, settings, seen).error);
    assert seen[k] in vm;
  }

  lemma PairsJoin(a: seq<Edge>, b: seq<Edge>)
    ensures Pairs(a + b) == Pairs(a) + Pairs(b)
  {
    forall q | q in Pairs(a + b) ensures q in Pairs(a) + Pairs(b) {
      var e :| e in a + b && q == (e.consumer, e.producer);
    }
  }

  /** The id index after wiring: the same vertices, each dependency recorded
    on both ends, and, when every vertex wired, exactly the pairs of every
    vertex's edges. */
  lemma WiredRelation(s: Index, settings: seq<ConfigSetting>, seen: seq<string>, log: seq<Edge>)
    requires Unwired(s) && Within(log, s.vm.Keys)
    requires forall k :: 0 <= k < |seen| ==> seen[k] in s.vm
    ensures SameShape(s.vm, ApplyEdges(s.vm, log)) && Symmetric(ApplyEdges(s.vm, log))
    ensures Enumerates(seen, s.vm.Keys) && EdgesInOrder(s.vm, s.dm, settings, seen) == Ok(log) ==>
              Rel(ApplyEdges(s.vm, log)) == WiredPairs(s.vm, s.dm, s.vm.Keys, settings)
  {
    UnwiredReady(s, false);
    ApplyEdgesShape(s.vm, log);
    ApplyEdgesKeepsSymmetric(s.vm, log);
    RelApplyEdges(s.vm, log);
    WireVerdict(s.vm, s.dm, settings, seen);
  }

  /** A symmetric index names only indexed successors. */
  lemma SymmetricClosed(vm: map<string, Vertex>)
    requires Symmetric(vm)
    ensures Closed(vm)
  {
  }

  /** The key bookkeeping of pass 1 on the id index and the order alone. */
  ghost predicate FiledOk(vm: map<string, Vertex>, order: seq<string>)
  {
    OrderOk(Index(vm, order, map[], {}, 0, map[])) && Unwired(Index(vm, order, map[], {}, 0, map[]))
  }

  lemma FiledState(s: Index)
    ensures FiledOk(s.vm, s.order) <==> OrderOk(s) && Unwired(s)
  {
  }

  predicate Blank(v: Vertex, x: string)
  {
    v.decl.id == x && v.depsResults == map[] && v.successors == {}
  }

  lemma FiledAdd(vm: map<string, Vertex>, order: seq<string>, x: string, v: Vertex)
    requires FiledOk(vm, order) && x !in vm && Blank(v, x)
    ensures FiledOk(vm[x := v], order + [x])
  {
    var o := order + [x];
    assert forall i :: 0 <= i < |order| ==> o[i] == order[i];
    assert x !in order;
  }

  lemma FiledSet(vm: map<string, Vertex>, order: seq<string>, x: string, v: Vertex)
    requires FiledOk(vm, order) && x in vm && Blank(v, x)
    ensures FiledOk(vm[x := v], order)
  {
  }

  lemma Overwrite<V>(m: map<string, V>, k: string, a: V, b: V)
    ensures m[k := a][k := b] == m[k := b]
  {
  }

  lemma ThenNil(x: Result<seq<Edge>>)
    ensures Then(Ok([]), x) == x
  {
    if x.Ok? {
      assert [] + x.value == x.value;
    }
  }

  /** Two performed parts of a wiring chain combine into one. */
  lemma ThenOk(acc: seq<Edge>, p: seq<Edge>, rest: Result<seq<Edge>>)
    ensures Then(Ok(acc), Then(Ok(p), rest)) == Then(Ok(acc + p), rest)
  {
    if rest.Ok? {
      assert acc + (p + rest.value) == (acc + p) + rest.value;
    }
  }

  /** Joining one more outcome. */
  lemma FoldSnoc(rm: map<string, Result<seq<Edge>>>, xs: seq<string>, x: string)
    requires x in rm && forall k :: 0 <= k < |xs| ==> xs[k] in rm
    ensures Fold(rm, xs + [x]) == Then(Fold(rm, xs), rm[x])
  {
    assert (xs + [x])[..|xs|] == xs;
  }

  /** Wiring one more vertex `x` after the vertices `seen`. */
  lemma WireOrderStep(vm0: map<string, Vertex>, dm: map<string, string>, settings: seq<ConfigSetting>,
                      seen: seq<string>, log: seq<Edge>, x: string)
    requires x in vm0 && forall k :: 0 <= k < |seen| ==> seen[k] in vm0
    requires EdgesInOrder(vm0, dm, settings, seen) == Ok(log)
    ensures forall k :: 0 <= k < |seen + [x]| ==> (seen + [x])[k] in vm0
    ensures EdgesInOrder(vm0, dm, settings, seen + [x]) == Then(Ok(log), VertexEdges(vm0[x].decl, vm0.Keys, dm, settings))
  {
    forall k | 0 <= k < |seen + [x]|
      ensures (seen + [x])[k] in vm0
    {
      if k < |seen| {
        assert (seen + [x])[k] == seen[k];
      }
    }
    var rm := Attempts(vm0, dm, settings);
    FoldSnoc(rm, seen, x);
    assert rm[x] == VertexEdges(vm0[x].decl, vm0.Keys, dm, settings);
  }

  /** One trip through the wiring loop, performing `done` for the vertex `x`. */
  lemma WireStep(vm0: map<string, Vertex>, dm: map<string, string>, settings: seq<ConfigSetting>,
                 seen: seq<string>, log: seq<Edge>, x: string, done: seq<Edge>)
    requires x in vm0 && x !in seen && Within(done, vm0.Keys) && Within(log, vm0.Keys)
    requires WireState(vm0, ApplyEdges(vm0, log), dm, settings, seen, log)
    ensures Within(log + done, vm0.Keys) && ApplyEdges(vm0, log + done) == ApplyEdges(ApplyEdges(vm0, log), done)
    ensures forall k :: 0 <= k < |seen + [x]| ==> (seen + [x])[k] in vm0
    ensures EdgesInOrder(vm0, dm, settings, seen + [x]) == Then(Ok(log), VertexEdges(vm0[x].decl, vm0.Keys, dm, settings))
    ensures VertexEdges(vm0[x].decl, vm0.Keys, dm, settings) == Ok(done) ==>
              WireState(vm0, ApplyEdges(vm0, log + done), dm, settings, seen + [x], log + done)
  {
    Advance(vm0, log, done, Ok([]));
    WireOrderStep(vm0, dm, settings, seen, log, x);
    DistinctSnoc(seen, x);
  }

  /** One trip through the loop of `Vertex.buildDeps`. */
  lemma DepStep(vm0: map<string, Vertex>, done: seq<Edge>, vid: string, ids: seq<string>, i: nat, tag: int)
    requires vid in vm0 && i < |ids| && Within(done, vm0.Keys)
    requires DepEdges(vid, ids, tag, vm0.Keys) == Then(Ok(done), DepEdges(vid, ids[i..], tag, vm0.Keys))
    ensures ids[i] !in vm0 ==> DepEdges(vid, ids, tag, vm0.Keys) == Fail(UnknownDep(vid, ids[i]))
    ensures ids[i] in vm0 ==>
      var e := Edge(vid, ids[i], tag);
      && Within(done + [e], vm0.Keys)
      && ApplyEdges(vm0, done + [e]) == DependOn(ApplyEdges(vm0, done), vid, ids[i], tag)
      && DepEdges(vid, ids, tag, vm0.Keys) == Then(Ok(done + [e]), DepEdges(vid, ids[i + 1..], tag, vm0.Keys))
  {
    DepEdgesAt(vid, ids, i, tag, vm0.Keys);
    if ids[i] in vm0 {
      var e := Edge(vid, ids[i], tag);
      ApplyEdgesSnoc(vm0, done, e);
      ThenOk(done, [e], DepEdges(vid, ids[i + 1..], tag, vm0.Keys));
    }
  }

  /** One trip through the loop of `Vertex.buildSuccessor`. */
  lemma SuccStep(vm0: map<string, Vertex>, done: seq<Edge>, vid: string, ids: seq<string>, i: nat, tag: int)
    requires vid in vm0 && i < |ids| && Within(done, vm0.Keys)
    requires SuccEdges(vid, ids, tag, vm0.Keys) == Then(Ok(done), SuccEdges(vid, ids[i..], tag, vm0.Keys))
    ensures ids[i] !in vm0 ==> SuccEdges(vid, ids, tag, vm0.Keys) == Fail(UnknownSuccessor(vid, ids[i]))
    ensures ids[i] in vm0 ==>
      var e := Edge(ids[i], vid, tag);
      && Within(done + [e], vm0.Keys)
      && ApplyEdges(vm0, done + [e]) == DependOn(ApplyEdges(vm0, done), ids[i], vid, tag)
      && SuccEdges(vid, ids, tag, vm0.Keys) == Then(Ok(done + [e]), SuccEdges(vid, ids[i + 1..], tag, vm0.Keys))
  {
    SuccEdgesAt(vid, ids, i, tag, vm0.Keys);
    if ids[i] in vm0 {
      var e := Edge(ids[i], vid, tag);
      ApplyEdgesSnoc(vm0, done, e);
      ThenOk(done, [e], SuccEdges(vid, ids[i + 1..], tag, vm0.Keys));
    }
  }

  /** One trip through the loop over an aggregate binding's data ids. */
  lemma AggregateLoopStep(vm0: map<string, Vertex>, dm: map<string, string>, done: seq<Edge>, vid: string,
                          d: GraphData, xs: seq<string>, i: nat)
    requires vid in vm0 && i < |xs| && Within(done, vm0.Keys) && DataWithin(dm, vm0.Keys)
    requires AggregateEdges(vid, d, xs, dm) == Then(Ok(done), AggregateEdges(vid, d, xs[i..], dm))
    ensures xs[i] !in dm && !d.isExtern ==> AggregateEdges(vid, d, xs, dm) == Fail(UnknownInput(vid, d.id))
    ensures xs[i] !in dm && d.isExtern ==> AggregateEdges(vid, d, xs, dm) == Then(Ok(done), AggregateEdges(vid, d, xs[i + 1..], dm))
    ensures xs[i] in dm ==>
      var e := Edge(vid, dm[xs[i]], InputTag(d.required));
      && Within(done + [e], vm0.Keys)
      && ApplyEdges(vm0, done + [e]) == DependOn(ApplyEdges(vm0, done), vid, dm[xs[i]], InputTag(d.required))
      && AggregateEdges(vid, d, xs, dm) == Then(Ok(done + [e]), AggregateEdges(vid, d, xs[i + 1..], dm))
  {
    AggregateEdgesAt(vid, d, xs, i, dm);
    var rest := AggregateEdges(vid, d, xs[i + 1..], dm);
    if xs[i] in dm {
      var e := Edge(vid, dm[xs[i]], InputTag(d.required));
      ApplyEdgesSnoc(vm0, done, e);
      ThenOk(done, [e], rest);
    } else if d.isExtern {
      ThenOk(done, [], rest);
      assert done + [] == done;
    }
  }

  /** Advancing a wiring loop by one performed part `p`. */
  lemma Advance(vm0: map<string, Vertex>, acc: seq<Edge>, p: seq<Edge>, rest: Result<seq<Edge>>)
    requires Within(acc, vm0.Keys) && Within(p, vm0.Keys)
    ensures Within(acc + p, vm0.Keys)
    ensures Then(Ok(acc), Then(Ok(p), rest)) == Then(Ok(acc + p), rest)
    ensures ApplyEdges(vm0, acc + p) == ApplyEdges(ApplyEdges(vm0, acc), p)
  {
    ApplyEdgesAppend(vm0, acc, p);
    ThenOk(acc, p, rest);
  }

  // ---------------------------------------------------------------------
  // The tags depend on the walk order.

  function PlainDecl(id: string, successor: seq<string>, depsOnErr: seq<string>): VertexDecl
  {
    VertexDecl(id, "", "", "", "", [], "", "", successor, [], [], [], [], depsOnErr, [], [], false)
  }

  /** Vertex `c` lists `p` in `deps_on_err`; vertex `p` lists `c` in `successor`. */
  function ConflictingTags(): map<string, Vertex>
  {
    map["c" := Vertex(PlainDecl("c", [], ["p"]), map[], {}, false, false),
        "p" := Vertex(PlainDecl("p", ["c"], []), map[], {}, false, false)]
  }

  lemma ConflictingTagsEdges()
    ensures Attempts(ConflictingTags(), map[], [])["c"] == Ok([Edge("c", "p", ResultErr)])
    ensures Attempts(ConflictingTags(), map[], [])["p"] == Ok([Edge("c", "p", ResultAll)])
  {
    var keys := ConflictingTags().Keys;
    var z: Result<seq<Edge>> := Ok([]);
    var none: seq<Edge> := [];
    var a := DepEdges("c", ["p"], ResultErr, keys);
    assert a.value[0] == Edge("c", "p", ResultErr) && a.value == [Edge("c", "p", ResultErr)];
    var b := SuccEdges("p", ["c"], ResultAll, keys);
    assert b.value[0] == Edge("c", "p", ResultAll) && b.value == [Edge("c", "p", ResultAll)];
    assert none + none == none && a.value + none == a.value && none + a.value == a.value && none + b.value == b.value;
    assert InputEdges("c", [], map[]) == z && InputEdges("p", [], map[]) == z && SelectArgsCheck([], []) == z;
    assert DepEdges("c", [], ResultOk, keys) == z && SuccEdges("c", [], ResultOk, keys) == z;
    assert DepEdges("p", [], ResultOk, keys) == z && SuccEdges("p", [], ResultOk, keys) == z;
    assert Then(z, z) == z && Then(a, z) == a && Then(z, a) == a && Then(z, b) == b;
  }

  /** Both walk orders of `ConflictingTags` wire without error and make the
    same two calls for the pair (c, p), in opposite orders;
    `WireTagsFollowOrder` gives the tags they leave. */
  lemma WireTagOrderDependent()
    ensures var vm := ConflictingTags();
      && EdgesInOrder(vm, map[], [], ["c", "p"]) == Ok([Edge("c", "p", ResultErr), Edge("c", "p", ResultAll)])
      && EdgesInOrder(vm, map[], [], ["p", "c"]) == Ok([Edge("c", "p", ResultAll), Edge("c", "p", ResultErr)])
  {
    ConflictingTagsEdges();
    var ec, ep := [Edge("c", "p", ResultErr)], [Edge("c", "p", ResultAll)];
    PairInOrder(ConflictingTags(), map[], [], "c", "p", ec, ep);
    PairInOrder(ConflictingTags(), map[], [], "p", "c", ep, ec);
    assert ec + ep == [Edge("c", "p", ResultErr), Edge("c", "p", ResultAll)];
    assert ep + ec == [Edge("c", "p", ResultAll), Edge("c", "p", ResultErr)];
  }

  lemma PairInOrder(vm: map<string, Vertex>, dm: map<string, string>, settings: seq<ConfigSetting>,
                    x: string, y: string, a: seq<Edge>, b: seq<Edge>)
    requires x in vm && y in vm
    requires Attempts(vm, dm, settings)[x] == Ok(a) && Attempts(vm, dm, settings)[y] == Ok(b)
    ensures EdgesInOrder(vm, dm, settings, [x, y]) == Ok(a + b)
  {
    FoldPair(Attempts(vm, dm, settings), x, y, a, b);
  }

  lemma FoldPair(rm: map<string, Result<seq<Edge>>>, x: string, y: string, a: seq<Edge>, b: seq<Edge>)
    requires x in rm && y in rm && rm[x] == Ok(a) && rm[y] == Ok(b)
    ensures Fold(rm, [x, y]) == Ok(a + b)
  {
    assert [x, y][..1] == [x] && [x][..0] == [];
    assert Fold(rm, [x]) == Then(Fold(rm, []), rm[x]);
    assert [] + a == a;
  }

  /** Performing those calls: walking `c` first leaves tag ALL on `c`'s
    dependency on `p`, walking `p` first leaves ERR. */
  lemma WireTagsFollowOrder()
    ensures ApplyEdges(ConflictingTags(), [Edge("c", "p", ResultErr), Edge("c", "p", ResultAll)])["c"].depsResults["p"] == ResultAll
    ensures ApplyEdges(ConflictingTags(), [Edge("c", "p", ResultAll), Edge("c", "p", ResultErr)])["c"].depsResults["p"] == ResultErr
  {
  }

  /** A declared vertex with an `expect` text depends with tag OK on a
    generated diamond labelled with that text, escaped. */
  lemma CondLabel(s: Index, ctx: Context, x: string)
    requires Inv(s, ctx) && x in s.vm && !s.vm[x].isGenerated && |s.vm[x].decl.expectText| > 0
    ensures var e := s.vm[x].decl.expectText;
      && e in s.conds && s.conds[e] in s.vm[x].decl.depsOnOk
      && s.conds[e] in s.vm && s.vm[s.conds[e]].isGenerated
      && DotLabel(s.vm[s.conds[e]]) == EscapeQuotes(e)
      && ShapeOf(s.vm[s.conds[e]].decl) == Diamond
  {
  }

  /** Every generated vertex is the diamond of some `expect` text and is
    labelled with that text, escaped; the escaped text reads back as the
    original, so distinct texts get distinct labels. */
  lemma GenLabel(s: Index, ctx: Context, c: string)
    requires Inv(s, ctx) && c in s.vm && s.vm[c].isGenerated
    ensures exists e :: (e in s.conds && s.conds[e] == c
      && DotLabel(s.vm[c]) == EscapeQuotes(e) && UnescapeQuotes(DotLabel(s.vm[c])) == e)
  {
    var e :| e in s.conds && s.conds[e] == c;
    EscapeQuotesRoundTrip(e);
  }

  class Graph {
    const name: string
    /** The declared vertices, in script order. */
    const vertex: seq<VertexDecl>
    /** The id index. */
    var vertexMap: map<string, Vertex>
    /** The order the keys of the id index were inserted in. The source
      keeps no such list; it is recorded for the proofs only. */
    ghost var order: seq<string>
    /** The data index: data id to the id of its producer. */
    var dataMapping: map<string, string>
    var genVertexs: set<string>
    var genIdx: nat

    constructor (name: string, vertex: seq<VertexDecl>)
      ensures this.name == name && this.vertex == vertex
      ensures vertexMap == map[] && order == [] && dataMapping == map[] && genVertexs == {} && genIdx == 0
      ensures Valid()
    {
      this.name := name;
      this.vertex := vertex;
      vertexMap := map[];
      order := [];
      dataMapping := map[];
      genVertexs := {};
      genIdx := 0;
    }

    /** The indexing state, with the build loop's condition map `conds`. */
    ghost function State(conds: map<string, string>): Index
      reads this
    {
      Index(vertexMap, order, dataMapping, genVertexs, genIdx, conds)
    }

    /** What rendering relies on: `order` lists each key once, and every
      dependency is recorded on both of its ends. */
    ghost predicate Valid()
      reads this
    {
      OrderOk(State(map[])) && Symmetric(vertexMap)
    }

    /** `genVertexId`: `<graph>_<counter>`, then the counter moves on. */
    method GenVertexId() returns (id: string)
      modifies this
      ensures id == GenId(name, old(genIdx)) && genIdx == old(genIdx) + 1
      ensures vertexMap == old(vertexMap) && order == old(order)
      ensures dataMapping == old(dataMapping) && genVertexs == old(genVertexs)
    {
      id := name + "_" + NatToString(genIdx);
      genIdx := genIdx + 1;
    }

    /** `getVertexById`. */
    function GetVertexById(id: string): Option<Vertex>
      reads this
    {
      if id in vertexMap then Some(vertexMap[id]) else None
    }

    /** `getVertexByData`: the producer of a data id. */
    function GetVertexByData(data: string): Option<string>
      reads this
    {
      if data in dataMapping then Some(dataMapping[data]) else None
    }

    /** On the index pass 1 leaves, an id lookup finds the vertex filed under
      that id, finds nothing for an id never inserted, and finds for the
      condition id of an `expect` text the expression vertex of that text. */
    lemma ByIdAfterIndexing(ctx: Context, conds: map<string, string>, id: string)
      requires Inv(State(conds), ctx)
      ensures GetVertexById(id).Some? <==> id in order
      ensures GetVertexById(id).Some? ==> GetVertexById(id).value.decl.id == id
      ensures forall e :: e in conds && conds[e] == id ==>
        GetVertexById(id) == Some(CondVertex(id, ctx.defaultExprProcessor, e))
    {
    }

    /** On the index pass 1 leaves, a data lookup finds a declared vertex that
      outputs that data id; every declared output is found; and in strict mode
      the vertex found is exactly the one that outputs it. */
    lemma ByDataAfterIndexing(ctx: Context, conds: map<string, string>, data: string, x: string)
      requires Inv(State(conds), ctx)
      ensures GetVertexByData(data) == Some(x) ==>
        x in vertexMap && !vertexMap[x].isGenerated && data in DataIds(vertexMap[x].decl.output)
      ensures x in vertexMap && !vertexMap[x].isGenerated && data in DataIds(vertexMap[x].decl.output) ==>
        GetVertexByData(data).Some? && (ctx.strictDsl ==> GetVertexByData(data) == Some(x))
    {
      if x in vertexMap && !vertexMap[x].isGenerated && data in DataIds(vertexMap[x].decl.output) {
        var k :| 0 <= k < |vertexMap[x].decl.output| && vertexMap[x].decl.output[k].id == data;
      }
    }

    /** `genCondVertex`, with the collision check: a generated id that an
      earlier declared vertex already holds is reported instead of
      overwriting that vertex. */
    method GenCondVertex(cond: string, processor: string) returns (r: Result<string>)
      modifies this
      ensures var cid := GenId(name, old(genIdx));
        && genIdx == old(genIdx) + 1 && dataMapping == old(dataMapping)
        && (cid in old(vertexMap) ==>
              r == Fail(DuplicateVertex(cid)) && vertexMap == old(vertexMap)
              && order == old(order) && genVertexs == old(genVertexs))
        && (cid !in old(vertexMap) ==>
              && r == Ok(cid)
              && vertexMap == old(vertexMap)[cid := CondVertex(cid, processor, cond)]
              && order == old(order) + [cid] && genVertexs == old(genVertexs) + {cid})
    {
      var id := GenVertexId();
      if id in vertexMap {
        return Fail(DuplicateVertex(id));
      }
      vertexMap := vertexMap[id := Vertex(CondDecl(id, processor, cond), map[], {}, true, true)];
      order := order + [id];
      genVertexs := genVertexs + {id};
      return Ok(id);
    }

    /** The search of `deps_on_ok` for the condition vertex's id. */
    static method AppendCondDep(deps: seq<string>, cid: string) returns (r: seq<string>)
      ensures r == AppendAbsent(deps, cid)
    {
      var found := false;
      for i := 0 to |deps|
        invariant !found <==> forall k :: 0 <= k < i ==> deps[k] != cid
      {
        if deps[i] == cid {
          found := true;
          break;
        }
      }
      r := if found then deps else deps + [cid];
    }

    /** The input loop of pass 1: every binding names a field; an empty data
      id takes the field name. */
    static method NormalizeInputs(ds: seq<GraphData>, vid: string) returns (r: Result<seq<GraphData>>)
      ensures r.Ok? <==> FieldsSet(ds)
      ensures r.Fail? ==> r.error == EmptyInputField(vid)
      ensures r.Ok? ==> r.value == Normalized(ds)
    {
      var out := ds;
      for i := 0 to |ds|
        invariant |out| == |ds|
        invariant forall k :: 0 <= k < i ==> |ds[k].field| > 0 && out[k] == DefaultId(ds[k])
        invariant forall k :: i <= k < |ds| ==> out[k] == ds[k]
      {
        if |out[i].field| == 0 {
          return Fail(EmptyInputField(vid));
        }
        if |out[i].id| == 0 {
          out := out[i := out[i].(id := out[i].field)];
        }
      }
      return Ok(out);
    }

    /** The output loop of pass 1: as the input loop, and each data id is
      mapped to this vertex; in strict mode a data id already mapped is an
      error naming its earlier producer. */
    method MapOutputs(vid: string, ds: seq<GraphData>, strict: bool) returns (r: Result<seq<GraphData>>)
      modifies this
      ensures var o := RegisterOutputs(old(dataMapping), vid, ds, strict);
        && (r.Fail? <==> o.Fail?) && (r.Fail? ==> r.error == o.error)
        && (r.Ok? ==> r.value == Normalized(ds) && dataMapping == o.value)
      ensures vertexMap == old(vertexMap) && order == old(order)
      ensures genVertexs == old(genVertexs) && genIdx == old(genIdx)
    {
      var out := ds;
      for i := 0 to |ds|
        invariant |out| == |ds|
        invariant forall k :: 0 <= k < i ==> out[k] == DefaultId(ds[k])
        invariant forall k :: i <= k < |ds| ==> out[k] == ds[k]
        invariant RegisterOutputs(old(dataMapping), vid, ds, strict) == RegisterOutputs(dataMapping, vid, ds[i..], strict)
        invariant vertexMap == old(vertexMap) && order == old(order)
        invariant genVertexs == old(genVertexs) && genIdx == old(genIdx)
      {
        assert ds[i..][1..] == ds[i + 1..];
        if |out[i].field| == 0 {
          return Fail(EmptyOutputField(vid));
        }
        if |out[i].id| == 0 {
          out := out[i := out[i].(id := out[i].field)];
        }
        var id := out[i].id;
        if strict && id in dataMapping {
          return Fail(DuplicateData(id, vid, dataMapping[id]));
        }
        dataMapping := dataMapping[id := vid];
      }
      return Ok(out);
    }

    /** The part of the pass-1 loop body from the duplicate-id check on: the
      vertex is filed, completed from the catalog in strict mode, and its
      bindings are normalized and its outputs mapped. */
    method InsertVertex(d1: VertexDecl, ctx: Context, isIdGen: bool, ghost conds: map<string, string>) returns (r: Outcome)
      modifies this
      requires FiledOk(vertexMap, order)
      ensures FiledOk(vertexMap, order)
      ensures var o := Insert(old(State(conds)), ctx, d1, isIdGen);
        && (r.Failed? <==> o.Fail?) && (r.Failed? ==> r.error == o.error)
        && (r.Pass? ==> State(conds) == o.value)
    {
      ghost var s0 := State(conds);
      var vid := d1.id;
      if vid in vertexMap {
        return Failed(DuplicateVertex(vid));
      }
      FiledAdd(vertexMap, order, vid, Fresh(d1, isIdGen));
      vertexMap := vertexMap[vid := Fresh(d1, isIdGen)];
      order := order + [vid];
      r := FillVertex(d1, ctx, isIdGen, s0);
    }

    /** The rest of `InsertVertex`, once the new vertex is filed: the
      strict-mode catalog completion. */
    method FillVertex(d1: VertexDecl, ctx: Context, isIdGen: bool, ghost s0: Index) returns (r: Outcome)
      modifies this
      requires d1.id !in s0.vm && FiledOk(vertexMap, order)
      requires vertexMap == s0.vm[d1.id := Fresh(d1, isIdGen)] && order == s0.order + [d1.id]
      requires dataMapping == s0.dm && genVertexs == s0.gen && genIdx == s0.genIdx
      ensures FiledOk(vertexMap, order)
      ensures var o := Fill(s0, ctx, d1, isIdGen);
        && (r.Failed? <==> o.Fail?) && (r.Failed? ==> r.error == o.error)
        && (r.Pass? ==> State(s0.conds) == o.value)
    {
      var d2 := d1;
      if ctx.strictDsl {
        var b := BuildInputOutput(d1, ctx.ops);
        if b.Fail? {
          return Failed(b.error);
        }
        d2 := b.value;
      }
      r := FinishVertex(d1, d2, ctx.strictDsl, isIdGen, s0);
    }

    /** The input and output loops, and the completed entry. */
    method FinishVertex(d1: VertexDecl, d2: VertexDecl, strict: bool, isIdGen: bool, ghost s0: Index) returns (r: Outcome)
      modifies this
      requires d2.id == d1.id && d1.id !in s0.vm && FiledOk(vertexMap, order)
      requires vertexMap == s0.vm[d1.id := Fresh(d1, isIdGen)] && order == s0.order + [d1.id]
      requires dataMapping == s0.dm && genVertexs == s0.gen && genIdx == s0.genIdx
      ensures FiledOk(vertexMap, order)
      ensures var o := Finish(s0, strict, d2, isIdGen);
        && (r.Failed? <==> o.Fail?) && (r.Failed? ==> r.error == o.error)
        && (r.Pass? ==> State(s0.conds) == o.value)
    {
      var vid := d2.id;
      var ins := NormalizeInputs(d2.input, vid);
      if ins.Fail? {
        return Failed(ins.error);
      }
      var outs := MapOutputs(vid, d2.output, strict);
      if outs.Fail? {
        return Failed(outs.error);
      }
      var v := Fresh(d2.(input := ins.value, output := outs.value), isIdGen);
      FiledSet(vertexMap, order, vid, v);
      Overwrite(s0.vm, vid, Fresh(d1, isIdGen), v);
      vertexMap := vertexMap[vid := v];
      return Pass;
    }

    /** A declaration without an id takes its processor's name, or else a
      generated id. */
    method AssignId(d: VertexDecl) returns (vid: string, isIdGen: bool)
      modifies this
      ensures vid == AssignedId(d, name, old(genIdx)) && isIdGen == IdGenerated(d)
      ensures genIdx == if isIdGen then old(genIdx) + 1 else old(genIdx)
      ensures vertexMap == old(vertexMap) && order == old(order)
      ensures dataMapping == old(dataMapping) && genVertexs == old(genVertexs)
    {
      vid, isIdGen := d.id, false;
      if |vid| == 0 {
        if |d.processor| > 0 {
          vid := d.processor;
        } else {
          vid := GenVertexId();
          isIdGen := true;
        }
      }
    }

    /** One trip through the pass-1 loop body; on success the new condition
      map is returned. */
    method IndexVertex(d: VertexDecl, ctx: Context, conds: map<string, string>) returns (r: Result<map<string, string>>)
      modifies this
      requires FiledOk(vertexMap, order)
      ensures FiledOk(vertexMap, order)
      ensures var o := IndexStep(old(State(conds)), name, ctx, d);
        && (r.Fail? <==> o.Fail?) && (r.Fail? ==> r.error == o.error)
        && (r.Ok? ==> State(r.value) == o.value)
    {
      ghost var s0 := State(conds);
      var vid, isIdGen := AssignId(d);
      assert State(conds) == Bumped(s0, d);
      var d1 := d.(id := vid);
      if |d.graph| > 0 && (|d.cluster| == 0 || d.cluster == ".") {
        d1 := d1.(cluster := ctx.clusterName);
      }
      assert d1 == Named(d, name, ctx, s0.genIdx);
      if |d.expectText| > 0 && |d.expectConfig| > 0 {
        return Fail(ConflictingShorthand(vid));
      }
      if |d.expectConfig| > 0 && !ContainsConfigSetting(ctx.configSettings, d.expectConfig) {
        return Fail(UnknownConfigSetting(d.expectConfig));
      }
      r := PlaceVertex(d1, ctx, isIdGen, conds);
    }

    /** The `expect` shorthand, then `InsertVertex`. */
    method PlaceVertex(d1: VertexDecl, ctx: Context, isIdGen: bool, conds: map<string, string>) returns (r: Result<map<string, string>>)
      modifies this
      requires FiledOk(vertexMap, order)
      ensures FiledOk(vertexMap, order)
      ensures var o := Place(old(State(conds)), name, ctx, d1, isIdGen);
        && (r.Fail? <==> o.Fail?) && (r.Fail? ==> r.error == o.error)
        && (r.Ok? ==> State(r.value) == o.value)
    {
      var e := d1.expectText;
      var d2 := d1;
      var conds' := conds;
      if |e| > 0 {
        ghost var s1 := State(conds);
        if e !in conds {
          var c := GenCondVertex(e, ctx.defaultExprProcessor);
          if c.Fail? {
            return Fail(c.error);
          }
          FiledAdd(old(vertexMap), old(order), c.value, CondVertex(c.value, ctx.defaultExprProcessor, e));
          conds' := conds[e := c.value];
        }
        assert State(conds') == AddCond(s1, name, ctx.defaultExprProcessor, e).value;
        var deps := AppendCondDep(d1.depsOnOk, conds'[e]);
        d2 := d1.(depsOnOk := deps);
      }
      var o := InsertVertex(d2, ctx, isIdGen, conds');
      if o.Failed? {
        return Fail(o.error);
      }
      return Ok(conds');
    }

    /** Pass 1: the declarations in script order, stopping at the first
      error. The index starts empty; the id counter carries on from any
      earlier build. */
    method IndexDecls(ctx: Context) returns (r: Outcome)
      modifies this
      ensures FiledOk(vertexMap, order)
      ensures var o := IndexAll(Start(old(genIdx)), name, ctx, vertex);
        && (r.Failed? <==> o.Fail?) && (r.Failed? ==> r.error == o.error)
        && (r.Pass? ==> State(o.value.conds) == o.value)
    {
      vertexMap := map[];
      order := [];
      dataMapping := map[];
      genVertexs := {};
      var conds: map<string, string> := map[];
      for i := 0 to |vertex|
        invariant FiledOk(vertexMap, order)
        invariant IndexAll(Start(old(genIdx)), name, ctx, vertex) == IndexAll(State(conds), name, ctx, vertex[i..])
      {
        assert vertex[i..][1..] == vertex[i + 1..];
        var c := IndexVertex(vertex[i], ctx, conds);
        if c.Fail? {
          return Failed(c.error);
        }
        conds := c.value;
      }
      assert vertex[|vertex|..] == [];
      return Pass;
    }

    // -------------------------------------------------------------------
    // Pass 2: wiring. Only `vertexMap` changes. Each method returns, as a
    // ghost, the `depend` calls it made, on the error paths too.

    twostate predicate WiringOnly()
      reads this
    {
      order == old(order) && dataMapping == old(dataMapping) && genVertexs == old(genVertexs) && genIdx == old(genIdx)
    }

    /** `Vertex.depend`. */
    method Depend(c: string, p: string, t: int)
      modifies this
      requires c in vertexMap && p in vertexMap
      ensures vertexMap == DependOn(old(vertexMap), c, p, t) && WiringOnly()
    {
      var vc := vertexMap[c];
      vertexMap := vertexMap[c := vc.(depsResults := vc.depsResults[p := t])];
      var vp := vertexMap[p];
      vertexMap := vertexMap[p := vp.(successors := vp.successors + {c})];
    }

    /** `Vertex.buildDeps`. */
    method BuildDeps(vid: string, ids: seq<string>, tag: int) returns (r: Outcome, ghost done: seq<Edge>)
      modifies this
      requires vid in vertexMap
      ensures WiringOnly() && Within(done, old(vertexMap).Keys) && vertexMap == ApplyEdges(old(vertexMap), done)
      ensures var spec := DepEdges(vid, ids, tag, old(vertexMap).Keys);
        && (r.Failed? <==> spec.Fail?) && (r.Failed? ==> r.error == spec.error) && (r.Pass? ==> spec == Ok(done))
    {
      ghost var vm0 := vertexMap;
      done := [];
      ThenNil(DepEdges(vid, ids, tag, vm0.Keys));
      for i := 0 to |ids|
        invariant WiringOnly() && Within(done, vm0.Keys) && vertexMap == ApplyEdges(vm0, done)
        invariant DepEdges(vid, ids, tag, vm0.Keys) == Then(Ok(done), DepEdges(vid, ids[i..], tag, vm0.Keys))
      {
        DepStep(vm0, done, vid, ids, i, tag);
        var dep := GetVertexById(ids[i]);
        if dep.None? {
          return Failed(UnknownDep(vid, ids[i])), done;
        }
        Depend(vid, ids[i], tag);
        done := done + [Edge(vid, ids[i], tag)];
      }
      assert done + [] == done;
      return Pass, done;
    }

    /** `Vertex.buildSuccessor`: each listed vertex depends on this one. */
    method BuildSuccessor(vid: string, ids: seq<string>, tag: int) returns (r: Outcome, ghost done: seq<Edge>)
      modifies this
      requires vid in vertexMap
      ensures WiringOnly() && Within(done, old(vertexMap).Keys) && vertexMap == ApplyEdges(old(vertexMap), done)
      ensures var spec := SuccEdges(vid, ids, tag, old(vertexMap).Keys);
        && (r.Failed? <==> spec.Fail?) && (r.Failed? ==> r.error == spec.error) && (r.Pass? ==> spec == Ok(done))
    {
      ghost var vm0 := vertexMap;
      done := [];
      ThenNil(SuccEdges(vid, ids, tag, vm0.Keys));
      for i := 0 to |ids|
        invariant WiringOnly() && Within(done, vm0.Keys) && vertexMap == ApplyEdges(vm0, done)
        invariant SuccEdges(vid, ids, tag, vm0.Keys) == Then(Ok(done), SuccEdges(vid, ids[i..], tag, vm0.Keys))
      {
        SuccStep(vm0, done, vid, ids, i, tag);
        var successor := GetVertexById(ids[i]);
        if successor.None? {
          return Failed(UnknownSuccessor(vid, ids[i])), done;
        }
        Depend(ids[i], vid, tag);
        done := done + [Edge(ids[i], vid, tag)];
      }
      assert done + [] == done;
      return Pass, done;
    }

    /** The aggregate branch of the input loop of `Vertex.build`. */
    method BuildAggregate(vid: string, d: GraphData) returns (r: Outcome, ghost done: seq<Edge>)
      modifies this
      requires vid in vertexMap && DataWithin(dataMapping, vertexMap.Keys)
      ensures WiringOnly() && Within(done, old(vertexMap).Keys) && vertexMap == ApplyEdges(old(vertexMap), done)
      ensures var spec := AggregateEdges(vid, d, d.aggregate, dataMapping);
        && (r.Failed? <==> spec.Fail?) && (r.Failed? ==> r.error == spec.error) && (r.Pass? ==> spec == Ok(done))
    {
      ghost var vm0 := vertexMap;
      var xs := d.aggregate;
      done := [];
      ThenNil(AggregateEdges(vid, d, xs, dataMapping));
      for i := 0 to |xs|
        invariant WiringOnly() && Within(done, vm0.Keys) && vertexMap == ApplyEdges(vm0, done)
        invariant AggregateEdges(vid, d, xs, dataMapping) == Then(Ok(done), AggregateEdges(vid, d, xs[i..], dataMapping))
      {
        AggregateLoopStep(vm0, dataMapping, done, vid, d, xs, i);
        var dep := GetVertexByData(xs[i]);
        if dep.None? && !d.isExtern {
          return Failed(UnknownInput(vid, d.id)), done;
        }
        if dep.None? {
          continue;
        }
        var tag := if d.required then ResultOk else ResultAll;
        Depend(vid, dep.value, tag);
        done := done + [Edge(vid, dep.value, tag)];
      }
      assert done + [] == done;
      return Pass, done;
    }

    /** The body of the input loop of `Vertex.build`: a plain binding
      depends on the producer of its data, unless it has none and is extern,
      or it is an in-out binding this vertex produces itself. */
    method BuildInput(vid: string, data: GraphData) returns (r: Outcome, ghost done: seq<Edge>)
      modifies this
      requires vid in vertexMap && DataWithin(dataMapping, vertexMap.Keys)
      ensures WiringOnly() && Within(done, old(vertexMap).Keys) && vertexMap == ApplyEdges(old(vertexMap), done)
      ensures var spec := InputEdgesOf(vid, data, dataMapping);
        && (r.Failed? <==> spec.Fail?) && (r.Failed? ==> r.error == spec.error) && (r.Pass? ==> spec == Ok(done))
    {
      if |data.aggregate| == 0 && !data.isMapInput {
        var dep := GetVertexByData(data.id);
        if dep.None? && !data.isExtern {
          return Failed(UnknownInput(vid, data.id)), [];
        }
        if dep.None? || (data.isInOut && dep.value == vid) {
          return Pass, [];
        }
        var tag := if data.required then ResultOk else ResultAll;
        Depend(vid, dep.value, tag);
        return Pass, [Edge(vid, dep.value, tag)];
      }
      r, done := BuildAggregate(vid, data);
    }

    /** The input loop of `Vertex.build`. */
    method BuildInputs(vid: string, ds: seq<GraphData>) returns (r: Outcome, ghost done: seq<Edge>)
      modifies this
      requires vid in vertexMap && DataWithin(dataMapping, vertexMap.Keys)
      ensures WiringOnly() && Within(done, old(vertexMap).Keys) && vertexMap == ApplyEdges(old(vertexMap), done)
      ensures var spec := InputEdges(vid, ds, dataMapping);
        && (r.Failed? <==> spec.Fail?) && (r.Failed? ==> r.error == spec.error) && (r.Pass? ==> spec == Ok(done))
    {
      ghost var vm0 := vertexMap;
      done := [];
      ThenNil(InputEdges(vid, ds, dataMapping));
      for i := 0 to |ds|
        invariant WiringOnly() && Within(done, vm0.Keys) && vertexMap == ApplyEdges(vm0, done)
        invariant InputEdges(vid, ds, dataMapping) == Then(Ok(done), InputEdges(vid, ds[i..], dataMapping))
      {
        assert ds[i..][0] == ds[i] && ds[i..][1..] == ds[i + 1..];
        var a, part := BuildInput(vid, ds[i]);
        Advance(vm0, done, part, InputEdges(vid, ds[i + 1..], dataMapping));
        done := done + part;
        if a.Failed? {
          return a, done;
        }
      }
      assert done + [] == done;
      return Pass, done;
    }

    /** The `select_args` loop of `Vertex.build`. */
    static method CheckSelectArgs(args: seq<CondParams>, settings: seq<ConfigSetting>) returns (r: Outcome)
      ensures var spec := SelectArgsCheck(args, settings);
        && (r.Failed? <==> spec.Fail?) && (r.Failed? ==> r.error == spec.error)
    {
      for i := 0 to |args|
        invariant SelectArgsCheck(args, settings) == SelectArgsCheck(args[i..], settings)
      {
        assert args[i..][0] == args[i] && args[i..][1..] == args[i + 1..];
        if !ContainsConfigSetting(settings, args[i].matchName) {
          return Failed(UnknownConfigSetting(args[i].matchName));
        }
      }
      return Pass;
    }

    /** The dependency and successor lists of `Vertex.build`. */
    method BuildLists(d: VertexDecl) returns (r: Outcome, ghost done: seq<Edge>)
      modifies this
      requires d.id in vertexMap
      ensures WiringOnly() && Within(done, old(vertexMap).Keys) && vertexMap == ApplyEdges(old(vertexMap), done)
      ensures var spec := ListEdges(d, old(vertexMap).Keys);
        && (r.Failed? <==> spec.Fail?) && (r.Failed? ==> r.error == spec.error) && (r.Pass? ==> spec == Ok(done))
    {
      ghost var vm0 := vertexMap;
      ghost var keys := vm0.Keys;
      var vid := d.id;
      ghost var r5 := SuccEdges(vid, d.successor, ResultAll, keys);
      ghost var r4 := Then(SuccEdges(vid, d.successorOnOk, ResultOk, keys), r5);
      ghost var r3 := Then(SuccEdges(vid, d.successorOnErr, ResultErr, keys), r4);
      ghost var r2 := Then(DepEdges(vid, d.deps, ResultAll, keys), r3);
      ghost var r1 := Then(DepEdges(vid, d.depsOnOk, ResultOk, keys), r2);
      ghost var part;
      r, done := BuildDeps(vid, d.depsOnErr, ResultErr);
      if r.Failed? {
        return;
      }
      ThenNil(ListEdges(d, keys));
      r, part := BuildDeps(vid, d.depsOnOk, ResultOk);
      Advance(vm0, done, part, r2);
      done := done + part;
      if r.Failed? {
        return;
      }
      r, part := BuildDeps(vid, d.deps, ResultAll);
      Advance(vm0, done, part, r3);
      done := done + part;
      if r.Failed? {
        return;
      }
      r, part := BuildSuccessor(vid, d.successorOnErr, ResultErr);
      Advance(vm0, done, part, r4);
      done := done + part;
      if r.Failed? {
        return;
      }
      r, part := BuildSuccessor(vid, d.successorOnOk, ResultOk);
      Advance(vm0, done, part, r5);
      done := done + part;
      if r.Failed? {
        return;
      }
      r, part := BuildSuccessor(vid, d.successor, ResultAll);
      Advance(vm0, done, part, Ok([]));
      done := done + part;
      if r.Pass? {
        assert done + [] == done;
      }
    }

    /** `Vertex.build` for the vertex filed under `vid`. */
    method BuildVertex(vid: string, settings: seq<ConfigSetting>) returns (r: Outcome, ghost done: seq<Edge>)
      modifies this
      requires vid in vertexMap && vertexMap[vid].decl.id == vid && DataWithin(dataMapping, vertexMap.Keys)
      ensures WiringOnly() && Within(done, old(vertexMap).Keys) && vertexMap == ApplyEdges(old(vertexMap), done)
      ensures var spec := VertexEdges(old(vertexMap)[vid].decl, old(vertexMap).Keys, dataMapping, settings);
        && (r.Failed? <==> spec.Fail?) && (r.Failed? ==> r.error == spec.error) && (r.Pass? ==> spec == Ok(done))
    {
      ghost var vm0 := vertexMap;
      var d := vertexMap[vid].decl;
      VertexEdgesSplit(d, vm0.Keys, dataMapping, settings);
      ghost var rest := ListEdges(d, vm0.Keys);
      done := [];
      r := CheckSelectArgs(d.selectArgs, settings);
      if r.Failed? {
        return;
      }
      ghost var part;
      r, part := BuildInputs(vid, d.input);
      ThenNil(Then(InputEdges(vid, d.input, dataMapping), rest));
      Advance(vm0, done, part, rest);
      done := done + part;
      if r.Failed? {
        return;
      }
      r, part := BuildLists(d);
      Advance(vm0, done, part, Ok([]));
      done := done + part;
      if r.Pass? {
        assert done + [] == done;
      }
    }

    /** The wiring loop of `build`: `Vertex.build` for every vertex, in the
      order the map happens to yield (`seen`), stopping at the first error.
      The new index is the old one with the `depend` calls `log` performed. */
    method Wire(settings: seq<ConfigSetting>) returns (r: Outcome, ghost seen: seq<string>, ghost log: seq<Edge>)
      modifies this
      requires forall x :: x in vertexMap ==> vertexMap[x].decl.id == x
      requires DataWithin(dataMapping, vertexMap.Keys)
      ensures WiringOnly() && Within(log, old(vertexMap).Keys) && vertexMap == ApplyEdges(old(vertexMap), log)
      ensures forall k :: 0 <= k < |seen| ==> seen[k] in old(vertexMap)
      ensures r.Pass? ==> Enumerates(seen, old(vertexMap).Keys)
                          && EdgesInOrder(old(vertexMap), dataMapping, settings, seen) == Ok(log)
      ensures r.Failed? ==> EdgesInOrder(old(vertexMap), dataMapping, settings, seen) == Fail(r.error)
    {
      ghost var vm0 := vertexMap;
      seen, log := [], [];
      var todo := vertexMap.Keys;
      while todo != {}
        invariant todo <= vm0.Keys && WiringOnly()
        invariant WireState(vm0, vertexMap, dataMapping, settings, seen, log)
        invariant forall y :: y in seen <==> y in vm0 && y !in todo
        decreases todo
      {
        var x :| x in todo;
        var b;
        b, seen, log := WireOne(x, settings, vm0, seen, log);
        if b.Failed? {
          return b, seen, log;
        }
        todo := todo - {x};
      }
      return Pass, seen, log;
    }

    /** One trip through the wiring loop. */
    method WireOne(x: string, settings: seq<ConfigSetting>, ghost vm0: map<string, Vertex>,
                   ghost seen: seq<string>, ghost log: seq<Edge>)
      returns (r: Outcome, ghost seen': seq<string>, ghost log': seq<Edge>)
      modifies this
      requires x in vm0 && x !in seen && vm0[x].decl.id == x && DataWithin(dataMapping, vm0.Keys)
      requires WireState(vm0, vertexMap, dataMapping, settings, seen, log)
      ensures WiringOnly() && seen' == seen + [x]
      ensures Within(log', vm0.Keys) && vertexMap == ApplyEdges(vm0, log')
      ensures forall k :: 0 <= k < |seen'| ==> seen'[k] in vm0
      ensures r.Pass? ==> WireState(vm0, vertexMap, dataMapping, settings, seen', log')
      ensures r.Failed? ==> EdgesInOrder(vm0, dataMapping, settings, seen') == Fail(r.error)
    {
      ApplyEdgesShape(vm0, log);
      ghost var done;
      r, done := BuildVertex(x, settings);
      WireStep(vm0, dataMapping, settings, seen, log, x, done);
      seen', log' := seen + [x], log + done;
    }

    /** The `verify` loop of `build`, over every vertex that is not a
      condition vertex, in any order. */
    method CheckVertices() returns (r: Outcome)
      ensures r.Pass? <==> AllVerified(vertexMap)
      ensures r.Failed? ==> exists x :: x in vertexMap && |vertexMap[x].decl.cond| == 0 && VerifyVertex(vertexMap[x]) == r
    {
      var todo := vertexMap.Keys;
      while todo != {}
        invariant todo <= vertexMap.Keys
        invariant forall x :: x in vertexMap.Keys - todo && |vertexMap[x].decl.cond| == 0 ==> VerifyVertex(vertexMap[x]).Pass?
        decreases todo
      {
        var x :| x in todo;
        todo := todo - {x};
        if |vertexMap[x].decl.cond| > 0 {
          continue;
        }
        r := VerifyVertex(vertexMap[x]);
        if r.Failed? {
          return;
        }
      }
      return Pass;
    }

    /** What `build` leaves after a pass 1 that produced `s`: the index of
      pass 1 with the `depend` calls of the wiring loop performed, and the
      verdict of wiring, `verify` and the cycle test, in that order. */
    ghost predicate Built(s: Index, settings: seq<ConfigSetting>, r: Outcome, seen: seq<string>, log: seq<Edge>)
      reads this
    {
      && order == s.order && dataMapping == s.dm && genVertexs == s.gen && genIdx == s.genIdx
      && Within(log, s.vm.Keys) && vertexMap == ApplyEdges(s.vm, log)
      && (forall k :: 0 <= k < |seen| ==> seen[k] in s.vm)
      && (Resolved(s.vm, s.dm, settings) ==>
            Enumerates(seen, s.vm.Keys) && EdgesInOrder(s.vm, s.dm, settings, seen) == Ok(log))
      && (!Resolved(s.vm, s.dm, settings) ==>
            r.Failed? && exists x :: x in s.vm && VertexEdges(s.vm[x].decl, s.vm.Keys, s.dm, settings) == Fail(r.error))
      && (r.Pass? <==> Resolved(s.vm, s.dm, settings) && AllVerified(vertexMap) && !HasCycle(vertexMap))
      && (Resolved(s.vm, s.dm, settings) && !AllVerified(vertexMap) ==>
            r.Failed? && exists x :: x in vertexMap && |vertexMap[x].decl.cond| == 0 && VerifyVertex(vertexMap[x]) == r)
      && (Resolved(s.vm, s.dm, settings) && AllVerified(vertexMap) && HasCycle(vertexMap) ==> r == Failed(CircleExist))
    }

    /** Nothing of the graph has changed. */
    twostate predicate Untouched()
      reads this
    {
      && vertexMap == old(vertexMap) && order == old(order) && dataMapping == old(dataMapping)
      && genVertexs == old(genVertexs) && genIdx == old(genIdx)
    }

    /** What `build` promises when started with counter `g0` under `ctx`:
      a failing pass 1 is reported as it is; otherwise the state and the
      verdict are those of `Built`, with wiring walk `seen` and edges `log`. */
    ghost predicate BuiltFrom(g0: nat, ctx: Context, r: Outcome, seen: seq<string>, log: seq<Edge>)
      reads this
    {
      var o := IndexAll(Start(g0), name, ctx, vertex);
      && (o.Fail? ==> r == Failed(o.error))
      && (o.Ok? ==> Built(o.value, ctx.configSettings, r, seen, log))
    }

    /** `Graph.build`: pass 1, then wiring, `verify` and the cycle test; the
      first error ends it. */
    method Build(ctx: Context) returns (r: Outcome, ghost seen: seq<string>, ghost log: seq<Edge>)
      modifies this
      ensures Valid() && BuiltFrom(old(genIdx), ctx, r, seen, log)
    {
      ghost var g0 := genIdx;
      seen, log := [], [];
      r := IndexDecls(ctx);
      if r.Failed? {
        FiledValid(vertexMap, vertexMap, order, dataMapping, genVertexs, genIdx);
        return;
      }
      IndexedReady(g0, name, ctx, vertex);
      ghost var s := IndexAll(Start(g0), name, ctx, vertex).value;
      r, seen, log := Wire(ctx.configSettings);
      WiredRelation(s, ctx.configSettings, seen, log);
      FiledValid(s.vm, vertexMap, order, dataMapping, genVertexs, genIdx);
      WireVerdict(s.vm, s.dm, ctx.configSettings, seen);
      if r.Failed? {
        return;
      }
      r := CheckVertices();
      if r.Failed? {
        return;
      }
      SymmetricClosed(vertexMap);
      var circle := TestCircle(vertexMap);
      if circle {
        return Failed(CircleExist), seen, log;
      }
    }

    // Rendering.

    /** The subgraph `s` drawn for this graph, with the two walks of the id
      index (`ids1`, `ids2`) and the edge blocks written in the second. */
    ghost predicate Rendered(settings: seq<ConfigSetting>, s: Subgraph, ids1: seq<string>, ids2: seq<string>,
                             blocks: seq<seq<DotStmt>>)
      reads this
    {
      && AllDepsIndexed(vertexMap)
      && Enumerates(ids1, vertexMap.Keys) && Enumerates(ids2, vertexMap.Keys)
      && s.name == name
      && s.stmts == [Terminal(StartId(name), "START"), Terminal(StopId(name), "STOP")]
        + Defines(name, vertexMap, ids1) + ConfigNodes(name, settings) + Flatten(blocks)
      && EdgeBlocks(name, vertexMap, Own(vertexMap, ids2), blocks)
    }

    /** `Graph.dumpDot`: the subgraph of this graph. The id index is walked
      twice, in two orders that need not agree: once to define every vertex
      (`ids1`), once to write the edge block of every vertex that was not
      generated from an `expect` shorthand (`ids2`). Between the two come
      the diamonds of the cluster's config settings, in their order. */
    method DumpDot(settings: seq<ConfigSetting>)
      returns (s: Subgraph, ghost ids1: seq<string>, ghost ids2: seq<string>, ghost blocks: seq<seq<DotStmt>>)
      requires AllDepsIndexed(vertexMap)
      ensures Rendered(settings, s, ids1, ids2, blocks)
    {
      var defines, configs, edges;
      defines, ids1 := DumpDotDefines();
      configs := DumpDotConfigs(name, settings);
      edges, ids2, blocks := DumpDotEdges();
      s := Subgraph(name, [Terminal(StartId(name), "START"), Terminal(StopId(name), "STOP")] + defines + configs + edges);
    }

    /** The first walk of `dumpDot`: one define statement per vertex. */
    method DumpDotDefines() returns (out: seq<DotStmt>, ghost ids: seq<string>)
      ensures Enumerates(ids, vertexMap.Keys)
      ensures out == Defines(name, vertexMap, ids)
    {
      out, ids := [], [];
      var todo := vertexMap.Keys;
      while todo != {}
        invariant Walking(ids, todo, vertexMap.Keys)
        invariant out == Defines(name, vertexMap, ids)
        decreases todo
      {
        var x :| x in todo;
        WalkingStep(ids, todo, vertexMap.Keys, x);
        WalkStep(name, vertexMap, ids, x);
        todo := todo - {x};
        out := out + [DefineStmt(name, vertexMap[x])];
        ids := ids + [x];
      }
      WalkingDone(ids, vertexMap.Keys);
    }

    /** The config setting diamonds of `dumpDot`, in the cluster's order. */
    static method DumpDotConfigs(g: string, settings: seq<ConfigSetting>) returns (out: seq<DotStmt>)
      ensures out == ConfigNodes(g, settings)
    {
      out := [];
      for i := 0 to |settings|
        invariant out == ConfigNodes(g, settings[..i])
      {
        assert settings[..i + 1][..i] == settings[..i];
        out := out + [ConfigNode(g, settings[i])];
      }
      assert settings[..|settings|] == settings;
    }

    /** The second walk of `dumpDot`: the edge block of every vertex not
      generated from a shorthand. */
    method DumpDotEdges() returns (out: seq<DotStmt>, ghost ids: seq<string>, ghost blocks: seq<seq<DotStmt>>)
      requires AllDepsIndexed(vertexMap)
      ensures Enumerates(ids, vertexMap.Keys)
      ensures EdgeBlocks(name, vertexMap, Own(vertexMap, ids), blocks)
      ensures out == Flatten(blocks)
    {
      out, ids, blocks := [], [], [];
      var todo := vertexMap.Keys;
      while todo != {}
        invariant Walking(ids, todo, vertexMap.Keys)
        invariant EdgeBlocks(name, vertexMap, Own(vertexMap, ids), blocks)
        invariant out == Flatten(blocks)
        decreases todo
      {
        var x :| x in todo;
        WalkingStep(ids, todo, vertexMap.Keys, x);
        WalkStep(name, vertexMap, ids, x);
        todo := todo - {x};
        if !vertexMap[x].isGenerated {
          var b := DumpDotEdge(name, vertexMap, x);
          EdgeBlocksStep(name, vertexMap, Own(vertexMap, ids), blocks, x, b);
          out := out + b;
          blocks := blocks + [b];
        }
        ids := ids + [x];
      }
      WalkingDone(ids, vertexMap.Keys);
    }
  }
}
