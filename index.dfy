/** Pass 1 of `Graph.build` as a function on the graph's indexing state:
    `IndexStep` is one trip through the loop body for one declared vertex,
    `IndexAll` the whole loop (the first error stops it). The imperative
    methods of `Graphs.Graph` are proved to compute exactly these. */
module Indexing {
  import opened Records
  import opened Naming
  import opened Catalog

  /** The indexing state of one graph: the id index, the order its keys were
      inserted in, the data index (data id to producer id), the generated
      condition vertices, the id counter, and the condition vertex made for
      each `expect` text so far (a local map of the build loop). */
  datatype Index = Index(
    vm: map<string, Vertex>,
    order: seq<string>,
    dm: map<string, string>,
    gen: set<string>,
    genIdx: nat,
    conds: map<string, string>)

  /** The declaration `genCondVertex` makes: an expression vertex. */
  function CondDecl(id: string, processor: string, cond: string): VertexDecl
  {
    VertexDecl(id, processor, cond, "", "", [], "", "", [], [], [], [], [], [], [], [], false)
  }

  function CondVertex(id: string, processor: string, cond: string): Vertex
  {
    Vertex(CondDecl(id, processor, cond), map[], {}, true, true)
  }

  /** A sub-graph vertex naming no cluster, or `.`, refers to its own cluster. */
  function ClusterOf(d: VertexDecl, clusterName: string): string
  {
    if |d.graph| > 0 && (|d.cluster| == 0 || d.cluster == ".") then clusterName else d.cluster
  }

  /** The id a declared vertex receives: its own, else its processor's name,
      else a generated one from the counter. */
  function AssignedId(d: VertexDecl, name: string, genIdx: nat): string
  {
    if |d.id| > 0 then d.id else if |d.processor| > 0 then d.processor else GenId(name, genIdx)
  }

  predicate IdGenerated(d: VertexDecl)
  {
    |d.id| == 0 && |d.processor| == 0
  }

  /** `genCondVertex` for `expect` text `e`, made once per text. A generated id
      that is already taken is reported (the declared vertex holding it was
      indexed earlier). */
  function AddCond(s: Index, name: string, processor: string, e: string): (r: Result<Index>)
    ensures r.Ok? ==> e in r.value.conds
    ensures e in s.conds ==> r == Ok(s)
    ensures r.Fail? <==> e !in s.conds && GenId(name, s.genIdx) in s.vm
    ensures r.Fail? ==> r.error == DuplicateVertex(GenId(name, s.genIdx))
  {
    if e in s.conds then Ok(s)
    else
      var cid := GenId(name, s.genIdx);
      if cid in s.vm then Fail(DuplicateVertex(cid)) else Ok(WithCond(s, cid, processor, e))
  }

  /** The state with condition vertex `cid` for text `e` added. */
  function WithCond(s: Index, cid: string, processor: string, e: string): Index
  {
    s.(vm := s.vm[cid := CondVertex(cid, processor, e)], order := s.order + [cid],
       gen := s.gen + {cid}, genIdx := s.genIdx + 1, conds := s.conds[e := cid])
  }

  /** The state with vertex `v` filed under `vid` and the data index `dm`. */
  function WithVertex(s: Index, vid: string, v: Vertex, dm: map<string, string>): Index
  {
    s.(vm := s.vm[vid := v], order := s.order + [vid], dm := dm)
  }

  /** The condition vertex's id is added to `deps_on_ok` unless already there. */
  function AppendAbsent(ids: seq<string>, x: string): (r: seq<string>)
    ensures x in r
    ensures x in ids ==> r == ids
    ensures |ids| <= |r| <= |ids| + 1 && r[..|ids|] == ids
  {
    if x in ids then ids else ids + [x]
  }

  /** What a successful `buildInputOutput` leaves in the declaration. */
  function Completed(d: VertexDecl, ops: map<string, OperatorMeta>): VertexDecl
    requires |d.processor| == 0 || d.processor in ops
  {
    if |d.processor| == 0 then d
    else d.(input := Complete(ops[d.processor].input, d.input, true),
            output := Complete(ops[d.processor].output, d.output, false))
  }

  /** A binding with no data id takes its field name as id. */
  function DefaultId(b: GraphData): GraphData
  {
    if |b.id| == 0 then b.(id := b.field) else b
  }

  function Normalized(ds: seq<GraphData>): (r: seq<GraphData>)
    ensures |r| == |ds| && forall k :: 0 <= k < |ds| ==> r[k] == DefaultId(ds[k])
  {
    seq(|ds|, k requires 0 <= k < |ds| => DefaultId(ds[k]))
  }

  predicate FieldsSet(ds: seq<GraphData>)
  {
    forall k :: 0 <= k < |ds| ==> |ds[k].field| > 0
  }

  predicate IdsSet(ds: seq<GraphData>)
  {
    forall k :: 0 <= k < |ds| ==> |ds[k].id| > 0
  }

  function DataIds(ds: seq<GraphData>): set<string>
  {
    set k | 0 <= k < |ds| :: ds[k].id
  }

  predicate DistinctIds(ds: seq<GraphData>)
  {
    forall i, j :: 0 <= i < j < |ds| ==> ds[i].id != ds[j].id
  }

  /** Defaulting keeps every field and, where fields are set, sets every id. */
  lemma NormalizedProps(ds: seq<GraphData>)
    ensures forall k :: 0 <= k < |ds| ==> Normalized(ds)[k].field == ds[k].field
    ensures FieldsSet(ds) ==> FieldsSet(Normalized(ds)) && IdsSet(Normalized(ds))
    ensures forall name :: HasField(ds, name) ==> HasField(Normalized(ds), name)
  {
    forall name | HasField(ds, name) ensures HasField(Normalized(ds), name) {
      var k :| 0 <= k < |ds| && ds[k].field == name;
      assert Normalized(ds)[k].field == name;
    }
  }

  /** The output loop of pass 1: each binding must name a field; its data id
      (defaulted) is mapped to this vertex; in strict mode a data id already
      mapped is an error. */
  function RegisterOutputs(dm: map<string, string>, vid: string, ds: seq<GraphData>, strict: bool): Result<map<string, string>>
    decreases |ds|
  {
    if ds == [] then Ok(dm)
    else if |ds[0].field| == 0 then Fail(EmptyOutputField(vid))
    else
      var id := DefaultId(ds[0]).id;
      if strict && id in dm then Fail(DuplicateData(id, vid, dm[id]))
      else RegisterOutputs(dm[id := vid], vid, ds[1..], strict)
  }

  /** Defaulting distributes over the head of the list. */
  lemma NormalizedCons(ds: seq<GraphData>)
    requires ds != []
    ensures Normalized(ds) == [DefaultId(ds[0])] + Normalized(ds[1..])
  {
    assert forall k :: 1 <= k < |ds| ==> ds[k] == ds[1..][k - 1];
  }

  lemma DataIdsCons(h: GraphData, t: seq<GraphData>)
    ensures DataIds([h] + t) == {h.id} + DataIds(t)
  {
    var l := [h] + t;
    forall x | x in DataIds(l) ensures x in {h.id} + DataIds(t) {
      var k :| 0 <= k < |l| && l[k].id == x;
      if k > 0 {
        assert t[k - 1].id == x;
      }
    }
    forall x | x in DataIds(t) ensures x in DataIds(l) {
      var k :| 0 <= k < |t| && t[k].id == x;
      assert l[k + 1].id == x;
    }
    assert l[0].id == h.id;
  }

  lemma DistinctIdsCons(h: GraphData, t: seq<GraphData>)
    ensures DistinctIds([h] + t) <==> h.id !in DataIds(t) && DistinctIds(t)
  {
    var l := [h] + t;
    if DistinctIds(l) {
      forall k | 0 <= k < |t| ensures t[k].id != h.id {
        assert l[k + 1] == t[k] && l[0] == h;
      }
      forall i, j | 0 <= i < j < |t| ensures t[i].id != t[j].id {
        assert l[i + 1] == t[i] && l[j + 1] == t[j];
      }
    }
    if h.id !in DataIds(t) && DistinctIds(t) {
      forall i, j | 0 <= i < j < |l| ensures l[i].id != l[j].id {
        assert l[j] == t[j - 1];
        if i > 0 {
          assert l[i] == t[i - 1];
        }
      }
    }
  }

  /** None of the data ids is in the index yet. */
  predicate FreshIds(ds: seq<GraphData>, dm: map<string, string>)
  {
    forall k :: 0 <= k < |ds| ==> ds[k].id !in dm
  }

  lemma FreshIdsCons(h: GraphData, t: seq<GraphData>, dm: map<string, string>)
    ensures FreshIds([h] + t, dm) <==> h.id !in dm && FreshIds(t, dm)
  {
    var l := [h] + t;
    assert l[0] == h;
    assert forall k :: 0 <= k < |t| ==> l[k + 1] == t[k];
  }

  /** On success every output's data id names this vertex and every other
      entry is as before. */
  lemma {:induction false} RegisterOutputsMap(dm: map<string, string>, vid: string, ds: seq<GraphData>, strict: bool)
    requires RegisterOutputs(dm, vid, ds, strict).Ok?
    ensures var r := RegisterOutputs(dm, vid, ds, strict).value;
      && FieldsSet(ds)
      && r.Keys == dm.Keys + DataIds(Normalized(ds))
      && (forall x :: x in r ==> r[x] == if x in DataIds(Normalized(ds)) then vid else dm[x])
    decreases |ds|
  {
    if ds != [] {
      var id := DefaultId(ds[0]).id;
      RegisterOutputsMap(dm[id := vid], vid, ds[1..], strict);
      NormalizedCons(ds);
      DataIdsCons(DefaultId(ds[0]), Normalized(ds[1..]));
      assert forall k :: 1 <= k < |ds| ==> ds[k] == ds[1..][k - 1];
    }
  }

  lemma FieldsSetCons(ds: seq<GraphData>)
    requires ds != []
    ensures FieldsSet(ds) <==> |ds[0].field| > 0 && FieldsSet(ds[1..])
  {
    assert forall k :: 1 <= k < |ds| ==> ds[k] == ds[1..][k - 1];
  }

  lemma FreshIdsUpdate(ds: seq<GraphData>, dm: map<string, string>, id: string, vid: string)
    ensures FreshIds(ds, dm[id := vid]) <==> FreshIds(ds, dm) && id !in DataIds(ds)
  {
  }

  /** In strict mode success means the data ids were new and distinct. */
  lemma {:induction false} RegisterOutputsStrict(dm: map<string, string>, vid: string, ds: seq<GraphData>)
    ensures RegisterOutputs(dm, vid, ds, true).Ok? <==>
      FieldsSet(ds) && FreshIds(Normalized(ds), dm) && DistinctIds(Normalized(ds))
    decreases |ds|
  {
    if ds != [] {
      var h := DefaultId(ds[0]);
      var tl := ds[1..];
      var nt := Normalized(tl);
      NormalizedCons(ds);
      FieldsSetCons(ds);
      FreshIdsCons(h, nt, dm);
      if |ds[0].field| > 0 && h.id !in dm {
        RegisterOutputsStrict(dm[h.id := vid], vid, tl);
        DistinctIdsCons(h, nt);
        FreshIdsUpdate(nt, dm, h.id, vid);
      }
    }
  }

  /** Outside strict mode the loop fails only on an empty field. */
  lemma {:induction false} RegisterOutputsLoose(dm: map<string, string>, vid: string, ds: seq<GraphData>)
    ensures RegisterOutputs(dm, vid, ds, false).Ok? <==> FieldsSet(ds)
    decreases |ds|
  {
    if ds != [] {
      RegisterOutputsLoose(dm[DefaultId(ds[0]).id := vid], vid, ds[1..]);
      assert forall k :: 1 <= k < |ds| ==> ds[k] == ds[1..][k - 1];
    }
  }

  /** The errors the loop reports. */
  lemma {:induction false} RegisterOutputsErrors(dm: map<string, string>, vid: string, ds: seq<GraphData>, strict: bool)
    requires RegisterOutputs(dm, vid, ds, strict).Fail?
    ensures var e := RegisterOutputs(dm, vid, ds, strict).error;
      e == EmptyOutputField(vid) || (strict && e.DuplicateData? && e.vertex == vid)
    decreases |ds|
  {
    if ds != [] && |ds[0].field| > 0 && !(strict && DefaultId(ds[0]).id in dm) {
      RegisterOutputsErrors(dm[DefaultId(ds[0]).id := vid], vid, ds[1..], strict);
    }
  }

  /** One trip through the pass-1 loop body for declaration `d`: the id,
      the cluster default, the two shorthand checks and the condition
      vertex; `Insert` does the rest. */
  function IndexStep(s: Index, name: string, ctx: Context, d: VertexDecl): Result<Index>
  {
    var vid := AssignedId(d, name, s.genIdx);
    if |d.expectText| > 0 && |d.expectConfig| > 0 then Fail(ConflictingShorthand(vid))
    else if |d.expectConfig| > 0 && !ContainsConfigSetting(ctx.configSettings, d.expectConfig) then
      Fail(UnknownConfigSetting(d.expectConfig))
    else Place(Bumped(s, d), name, ctx, Named(d, name, ctx, s.genIdx), IdGenerated(d))
  }

  /** The loop body past the shorthand checks: the condition vertex of an
      `expect` text and the dependency on it, then the vertex itself. */
  function Place(s1: Index, name: string, ctx: Context, d1: VertexDecl, isIdGen: bool): Result<Index>
  {
    var e := d1.expectText;
    if |e| == 0 then Insert(s1, ctx, d1, isIdGen)
    else
      var c := AddCond(s1, name, ctx.defaultExprProcessor, e);
      if c.Fail? then Fail(c.error)
      else Insert(c.value, ctx, d1.(depsOnOk := AppendAbsent(d1.depsOnOk, c.value.conds[e])), isIdGen)
  }

  /** The rest of the loop body: the duplicate-id check, the strict-mode
      catalog completion, the input and output loops, and the new entry. */
  function Insert(s: Index, ctx: Context, d1: VertexDecl, isIdGen: bool): Result<Index>
  {
    if d1.id in s.vm then Fail(DuplicateVertex(d1.id)) else Fill(s, ctx, d1, isIdGen)
  }

  /** Insert, past the duplicate-id check. */
  function Fill(s: Index, ctx: Context, d1: VertexDecl, isIdGen: bool): Result<Index>
  {
    if ctx.strictDsl && |d1.processor| > 0 && d1.processor !in ctx.ops then Fail(UnknownProcessor(d1.processor))
    else Finish(s, ctx.strictDsl, if ctx.strictDsl then Completed(d1, ctx.ops) else d1, isIdGen)
  }

  /** Insert, once the declaration is completed from the catalog. */
  function Finish(s: Index, strict: bool, d2: VertexDecl, isIdGen: bool): Result<Index>
  {
    var vid := d2.id;
    if !FieldsSet(d2.input) then Fail(EmptyInputField(vid))
    else
      var o := RegisterOutputs(s.dm, vid, d2.output, strict);
      if o.Fail? then Fail(o.error)
      else Ok(WithVertex(s, vid, Fresh(d2.(input := Normalized(d2.input), output := Normalized(d2.output)), isIdGen), o.value))
  }

  /** The pass-1 loop over the declarations, stopping at the first error. */
  function IndexAll(s: Index, name: string, ctx: Context, ds: seq<VertexDecl>): Result<Index>
    decreases |ds|
  {
    if ds == [] then Ok(s)
    else
      var r := IndexStep(s, name, ctx, ds[0]);
      if r.Fail? then r else IndexAll(r.value, name, ctx, ds[1..])
  }

  /** The state pass 1 starts from; the id counter is not reset. */
  function Start(genIdx: nat): Index
  {
    Index(map[], [], map[], {}, genIdx, map[])
  }

  // ---------------------------------------------------------------------
  // What pass 1 establishes.

  /** The order lists every key of the index exactly once. */
  ghost predicate OrderOk(s: Index)
  {
    && (forall i, j :: 0 <= i < j < |s.order| ==> s.order[i] != s.order[j])
    && (forall x :: x in s.vm <==> x in s.order)
  }

  /** Each vertex is filed under its own id and nothing is wired yet. */
  ghost predicate Unwired(s: Index)
  {
    forall x :: x in s.vm ==> s.vm[x].decl.id == x && s.vm[x].depsResults == map[] && s.vm[x].successors == {}
  }

  /** The generated vertices are exactly the condition vertices, one per
      `expect` text, each an expression vertex for that text. */
  ghost predicate CondsOk(s: Index, processor: string)
  {
    && (forall x :: x in s.vm ==> (s.vm[x].isGenerated <==> x in s.gen))
    && (forall e :: e in s.conds ==> |e| > 0 && s.conds[e] in s.vm && s.vm[s.conds[e]] == CondVertex(s.conds[e], processor, e))
    && (forall x :: x in s.gen ==> exists e :: e in s.conds && s.conds[e] == x)
  }

  /** The catalog's field names are all bound by the declaration. */
  predicate Covers(m: OperatorMeta, d: VertexDecl)
  {
    && (forall i :: 0 <= i < |m.input| ==> HasField(d.input, m.input[i].name))
    && (forall i :: 0 <= i < |m.output| ==> HasField(d.output, m.output[i].name))
  }

  /** What pass 1 guarantees of an indexed declared vertex. */
  ghost predicate Declared(conds: map<string, string>, ctx: Context, d: VertexDecl)
  {
    && FieldsSet(d.input) && IdsSet(d.input) && FieldsSet(d.output) && IdsSet(d.output)
    && !(|d.expectText| > 0 && |d.expectConfig| > 0)
    && (|d.expectConfig| > 0 ==> ContainsConfigSetting(ctx.configSettings, d.expectConfig))
    && (|d.expectText| > 0 ==> d.expectText in conds && conds[d.expectText] in d.depsOnOk)
    && (ctx.strictDsl && |d.processor| > 0 ==> d.processor in ctx.ops && Covers(ctx.ops[d.processor], d))
    && (ctx.strictDsl ==> DistinctIds(d.output))
  }

  ghost predicate DeclsOk(s: Index, ctx: Context)
  {
    forall x :: x in s.vm && !s.vm[x].isGenerated ==> Declared(s.conds, ctx, s.vm[x].decl)
  }

  /** The data index names declared producers of each data id; every output
      of a declared vertex is indexed, and in strict mode indexed to that
      vertex (so each data id has one producer). */
  ghost predicate DataOk(s: Index, strict: bool)
  {
    && (forall data :: data in s.dm ==>
          s.dm[data] in s.vm && !s.vm[s.dm[data]].isGenerated && data in DataIds(s.vm[s.dm[data]].decl.output))
    && (forall x :: x in s.vm && !s.vm[x].isGenerated ==>
          forall k :: 0 <= k < |s.vm[x].decl.output| ==>
            s.vm[x].decl.output[k].id in s.dm && (strict ==> s.dm[s.vm[x].decl.output[k].id] == x))
  }

  ghost predicate Inv(s: Index, ctx: Context)
  {
    OrderOk(s) && Unwired(s) && CondsOk(s, ctx.defaultExprProcessor) && DeclsOk(s, ctx) && DataOk(s, ctx.strictDsl)
  }

  lemma StartInv(genIdx: nat, ctx: Context)
    ensures Inv(Start(genIdx), ctx)
  {
  }

  // Making a condition vertex, one part of the invariant at a time.

  lemma WithCondOrder(s: Index, cid: string, processor: string, e: string)
    requires OrderOk(s) && cid !in s.vm
    ensures OrderOk(WithCond(s, cid, processor, e))
  {
    assert cid !in s.order;
  }

  lemma WithCondUnwired(s: Index, cid: string, processor: string, e: string)
    requires Unwired(s)
    ensures Unwired(WithCond(s, cid, processor, e))
  {
  }

  lemma WithCondConds(s: Index, cid: string, processor: string, e: string)
    requires CondsOk(s, processor) && cid !in s.vm && e !in s.conds && |e| > 0
    requires forall x :: x in s.gen ==> x in s.vm
    ensures CondsOk(WithCond(s, cid, processor, e), processor)
  {
    var t := WithCond(s, cid, processor, e);
    forall x | x in t.gen ensures exists e0 :: e0 in t.conds && t.conds[e0] == x {
      if x == cid {
        assert t.conds[e] == cid;
      } else {
        var e0 :| e0 in s.conds && s.conds[e0] == x;
        assert t.conds[e0] == x;
      }
    }
  }

  lemma WithCondDecls(s: Index, ctx: Context, cid: string, e: string)
    requires DeclsOk(s, ctx) && cid !in s.vm && e !in s.conds
    ensures DeclsOk(WithCond(s, cid, ctx.defaultExprProcessor, e), ctx)
  {
    var t := WithCond(s, cid, ctx.defaultExprProcessor, e);
    forall x | x in t.vm && !t.vm[x].isGenerated ensures Declared(t.conds, ctx, t.vm[x].decl) {
      assert x in s.vm && t.vm[x] == s.vm[x];
      assert Declared(s.conds, ctx, s.vm[x].decl);
    }
  }

  lemma WithCondData(s: Index, cid: string, processor: string, e: string, strict: bool)
    requires DataOk(s, strict) && cid !in s.vm
    ensures DataOk(WithCond(s, cid, processor, e), strict)
  {
  }

  /** What making a condition vertex leaves in place. */
  lemma WithCondFacts(s: Index, cid: string, processor: string, e: string)
    requires cid !in s.vm && e !in s.conds
    ensures var t := WithCond(s, cid, processor, e);
      && t.dm == s.dm
      && (forall x :: x in s.vm ==> x in t.vm && t.vm[x] == s.vm[x])
      && (forall t0 :: t0 in s.conds ==> t0 in t.conds && t.conds[t0] == s.conds[t0])
      && |t.vm| == |s.vm| + 1 && |t.conds| == |s.conds| + 1
  {
  }

  /** Condition vertices are indexed. */
  lemma GenIndexed(s: Index, processor: string)
    requires CondsOk(s, processor)
    ensures forall x :: x in s.gen ==> x in s.vm
  {
    forall x | x in s.gen ensures x in s.vm {
      var e0 :| e0 in s.conds && s.conds[e0] == x;
    }
  }

  /** Making a condition vertex keeps the invariant, adds one key and
      changes no earlier entry. */
  lemma AddCondInv(s: Index, name: string, ctx: Context, e: string)
    requires Inv(s, ctx) && |e| > 0
    requires AddCond(s, name, ctx.defaultExprProcessor, e).Ok?
    ensures var t := AddCond(s, name, ctx.defaultExprProcessor, e).value;
      && Inv(t, ctx) && t.dm == s.dm
      && (forall x :: x in s.vm ==> x in t.vm && t.vm[x] == s.vm[x])
      && (forall t0 :: t0 in s.conds ==> t0 in t.conds && t.conds[t0] == s.conds[t0])
      && (e in s.conds ==> t == s)
      && (e !in s.conds ==> |t.vm| == |s.vm| + 1 && |t.conds| == |s.conds| + 1)
  {
    if e !in s.conds {
      var cid := GenId(name, s.genIdx);
      var p := ctx.defaultExprProcessor;
      assert AddCond(s, name, p, e).value == WithCond(s, cid, p, e);
      GenIndexed(s, p);
      WithCondFacts(s, cid, p, e);
      WithCondOrder(s, cid, p, e);
      WithCondUnwired(s, cid, p, e);
      WithCondConds(s, cid, p, e);
      WithCondDecls(s, ctx, cid, e);
      WithCondData(s, cid, p, e, ctx.strictDsl);
    }
  }

  // Inserting a declared vertex, one part of the invariant at a time.

  lemma InsertOrder(s: Index, vid: string, v: Vertex, dm: map<string, string>)
    requires OrderOk(s) && vid !in s.vm
    ensures OrderOk(WithVertex(s, vid, v, dm))
  {
    assert vid !in s.order;
  }

  lemma InsertUnwired(s: Index, vid: string, v: Vertex, dm: map<string, string>)
    requires Unwired(s) && v.decl.id == vid && v.depsResults == map[] && v.successors == {}
    ensures Unwired(WithVertex(s, vid, v, dm))
  {
  }

  lemma InsertConds(s: Index, vid: string, v: Vertex, dm: map<string, string>, processor: string)
    requires CondsOk(s, processor) && vid !in s.vm && !v.isGenerated && vid !in s.gen
    ensures CondsOk(WithVertex(s, vid, v, dm), processor)
  {
  }

  lemma InsertDecls(s: Index, ctx: Context, vid: string, v: Vertex, dm: map<string, string>)
    requires DeclsOk(s, ctx) && Declared(s.conds, ctx, v.decl)
    ensures DeclsOk(WithVertex(s, vid, v, dm), ctx)
  {
  }

  /** The data index after registering `v`'s outputs. */
  predicate Registered(dm: map<string, string>, dm': map<string, string>, vid: string, out: seq<GraphData>)
  {
    && dm'.Keys == dm.Keys + DataIds(out)
    && (forall x :: x in dm' ==> dm'[x] == if x in DataIds(out) then vid else dm[x])
  }

  lemma InsertData(s: Index, vid: string, v: Vertex, dm': map<string, string>, strict: bool)
    requires DataOk(s, strict) && vid !in s.vm && !v.isGenerated
    requires Registered(s.dm, dm', vid, v.decl.output)
    requires strict ==> FreshIds(v.decl.output, s.dm)
    ensures DataOk(WithVertex(s, vid, v, dm'), strict)
  {
    var t := WithVertex(s, vid, v, dm');
    var ids := DataIds(v.decl.output);
    forall data | data in dm'
      ensures dm'[data] in t.vm && !t.vm[dm'[data]].isGenerated && data in DataIds(t.vm[dm'[data]].decl.output)
    {
      if data !in ids {
        assert dm'[data] == s.dm[data];
      }
    }
    forall x, k | x in t.vm && !t.vm[x].isGenerated && 0 <= k < |t.vm[x].decl.output|
      ensures t.vm[x].decl.output[k].id in dm' && (strict ==> dm'[t.vm[x].decl.output[k].id] == x)
    {
      var id := t.vm[x].decl.output[k].id;
      if x == vid {
        assert id in ids;
      } else {
        assert t.vm[x] == s.vm[x];
      }
    }
  }

  /** A declaration that passed every check of the step satisfies `Declared`
      once its bindings are defaulted. */
  lemma CheckedDeclared(conds: map<string, string>, ctx: Context, d2: VertexDecl, dm: map<string, string>, vid: string)
    requires FieldsSet(d2.input)
    requires RegisterOutputs(dm, vid, d2.output, ctx.strictDsl).Ok?
    requires !(|d2.expectText| > 0 && |d2.expectConfig| > 0)
    requires |d2.expectConfig| > 0 ==> ContainsConfigSetting(ctx.configSettings, d2.expectConfig)
    requires |d2.expectText| > 0 ==> d2.expectText in conds && conds[d2.expectText] in d2.depsOnOk
    requires ctx.strictDsl && |d2.processor| > 0 ==> d2.processor in ctx.ops && Covers(ctx.ops[d2.processor], d2)
    ensures Declared(conds, ctx, d2.(input := Normalized(d2.input), output := Normalized(d2.output)))
    ensures Registered(dm, RegisterOutputs(dm, vid, d2.output, ctx.strictDsl).value, vid, Normalized(d2.output))
    ensures ctx.strictDsl ==> FreshIds(Normalized(d2.output), dm)
  {
    RegisterOutputsMap(dm, vid, d2.output, ctx.strictDsl);
    if ctx.strictDsl {
      RegisterOutputsStrict(dm, vid, d2.output);
    }
    NormalizedProps(d2.input);
    NormalizedProps(d2.output);
  }

  /** Inserting a declared vertex that passed every check keeps the invariant. */
  lemma InsertInv(s2: Index, ctx: Context, vid: string, d2: VertexDecl, isIdGen: bool)
    requires Inv(s2, ctx) && vid !in s2.vm && d2.id == vid
    requires FieldsSet(d2.input)
    requires RegisterOutputs(s2.dm, vid, d2.output, ctx.strictDsl).Ok?
    requires !(|d2.expectText| > 0 && |d2.expectConfig| > 0)
    requires |d2.expectConfig| > 0 ==> ContainsConfigSetting(ctx.configSettings, d2.expectConfig)
    requires |d2.expectText| > 0 ==> d2.expectText in s2.conds && s2.conds[d2.expectText] in d2.depsOnOk
    requires ctx.strictDsl && |d2.processor| > 0 ==> d2.processor in ctx.ops && Covers(ctx.ops[d2.processor], d2)
    ensures var d3 := d2.(input := Normalized(d2.input), output := Normalized(d2.output));
      var t := WithVertex(s2, vid, Fresh(d3, isIdGen), RegisterOutputs(s2.dm, vid, d2.output, ctx.strictDsl).value);
      Inv(t, ctx) && |t.vm| == |s2.vm| + 1
  {
    var d3 := d2.(input := Normalized(d2.input), output := Normalized(d2.output));
    var v := Fresh(d3, isIdGen);
    var dm' := RegisterOutputs(s2.dm, vid, d2.output, ctx.strictDsl).value;
    CheckedDeclared(s2.conds, ctx, d2, s2.dm, vid);
    InsertOrder(s2, vid, v, dm');
    InsertUnwired(s2, vid, v, dm');
    InsertConds(s2, vid, v, dm', ctx.defaultExprProcessor);
    InsertDecls(s2, ctx, vid, v, dm');
    InsertData(s2, vid, v, dm', ctx.strictDsl);
  }

  /** What filing a new vertex leaves in place. */
  lemma WithVertexFacts(s: Index, vid: string, v: Vertex, dm: map<string, string>)
    requires vid !in s.vm
    ensures var t := WithVertex(s, vid, v, dm);
      && (forall x :: x in s.vm ==> x in t.vm && t.vm[x] == s.vm[x])
      && t.conds == s.conds && |t.vm| == |s.vm| + 1 && vid in t.vm && t.vm[vid] == v
  {
  }

  /** The catalog completion of strict mode covers the operator's fields. */
  lemma CompletedCovers(d1: VertexDecl, ops: map<string, OperatorMeta>)
    requires |d1.processor| > 0 && d1.processor in ops
    ensures Covers(ops[d1.processor], Completed(d1, ops))
  {
    var m := ops[d1.processor];
    CompleteCovers(m.input, d1.input, true);
    CompleteCovers(m.output, d1.output, false);
  }

  /** Filing a declaration that passed the shorthand checks keeps the
      invariant and adds exactly its key. */
  lemma InsertStepInv(s: Index, ctx: Context, d1: VertexDecl, isIdGen: bool)
    requires Inv(s, ctx) && Insert(s, ctx, d1, isIdGen).Ok?
    requires !(|d1.expectText| > 0 && |d1.expectConfig| > 0)
    requires |d1.expectConfig| > 0 ==> ContainsConfigSetting(ctx.configSettings, d1.expectConfig)
    requires |d1.expectText| > 0 ==> d1.expectText in s.conds && s.conds[d1.expectText] in d1.depsOnOk
    ensures var r := Insert(s, ctx, d1, isIdGen).value;
      && Inv(r, ctx)
      && (forall x :: x in s.vm ==> x in r.vm && r.vm[x] == s.vm[x])
      && r.conds == s.conds && |r.vm| == |s.vm| + 1
      && d1.id in r.vm && !r.vm[d1.id].isGenerated && r.vm[d1.id].decl.processor == d1.processor
  {
    InsertShape(s, ctx, d1, isIdGen);
    var vid := d1.id;
    var d2 := if ctx.strictDsl then Completed(d1, ctx.ops) else d1;
    var dm' := RegisterOutputs(s.dm, vid, d2.output, ctx.strictDsl).value;
    var d3 := d2.(input := Normalized(d2.input), output := Normalized(d2.output));
    if ctx.strictDsl && |d1.processor| > 0 {
      CompletedCovers(d1, ctx.ops);
    }
    InsertInv(s, ctx, vid, d2, isIdGen);
    WithVertexFacts(s, vid, Fresh(d3, isIdGen), dm');
  }

  /** What a successful insertion has passed, and the entry it files. */
  lemma InsertShape(s: Index, ctx: Context, d1: VertexDecl, isIdGen: bool)
    requires Insert(s, ctx, d1, isIdGen).Ok?
    ensures d1.id !in s.vm
    ensures ctx.strictDsl && |d1.processor| > 0 ==> d1.processor in ctx.ops
    ensures var d2 := if ctx.strictDsl then Completed(d1, ctx.ops) else d1;
      && d2 == d1.(input := d2.input, output := d2.output)
      && FieldsSet(d2.input) && RegisterOutputs(s.dm, d1.id, d2.output, ctx.strictDsl).Ok?
      && Insert(s, ctx, d1, isIdGen).value
         == WithVertex(s, d1.id, Fresh(d2.(input := Normalized(d2.input), output := Normalized(d2.output)), isIdGen),
                       RegisterOutputs(s.dm, d1.id, d2.output, ctx.strictDsl).value)
  {
  }

  /** A step with an `expect` text: the condition vertex, then the entry. */
  lemma CondStepInv(s1: Index, name: string, ctx: Context, d2: VertexDecl, isIdGen: bool)
    requires Inv(s1, ctx) && |d2.expectText| > 0 && |d2.expectConfig| == 0
    requires AddCond(s1, name, ctx.defaultExprProcessor, d2.expectText).Ok?
    requires var s2 := AddCond(s1, name, ctx.defaultExprProcessor, d2.expectText).value;
      && s2.conds[d2.expectText] in d2.depsOnOk
      && Insert(s2, ctx, d2, isIdGen).Ok?
    ensures var s2 := AddCond(s1, name, ctx.defaultExprProcessor, d2.expectText).value;
      var r := Insert(s2, ctx, d2, isIdGen).value;
      && Inv(r, ctx)
      && (forall x :: x in s1.vm ==> x in r.vm && r.vm[x] == s1.vm[x])
      && (forall t0 :: t0 in s1.conds ==> t0 in r.conds && r.conds[t0] == s1.conds[t0])
      && |r.vm| + |s1.conds| == |s1.vm| + 1 + |r.conds|
      && d2.id in r.vm && !r.vm[d2.id].isGenerated && r.vm[d2.id].decl.processor == d2.processor
  {
    AddCondInv(s1, name, ctx, d2.expectText);
    var s2 := AddCond(s1, name, ctx.defaultExprProcessor, d2.expectText).value;
    InsertStepInv(s2, ctx, d2, isIdGen);
  }

  /** The state and the declaration handed on to the insertion part. */
  function Bumped(s: Index, d: VertexDecl): Index
  {
    if IdGenerated(d) then s.(genIdx := s.genIdx + 1) else s
  }

  function Named(d: VertexDecl, name: string, ctx: Context, genIdx: nat): VertexDecl
  {
    d.(id := AssignedId(d, name, genIdx), cluster := ClusterOf(d, ctx.clusterName))
  }

  /** A successful step, split into its two parts. */
  lemma StepUnfold(s: Index, name: string, ctx: Context, d: VertexDecl)
    requires IndexStep(s, name, ctx, d).Ok?
    ensures var s1 := Bumped(s, d);
      var d1 := Named(d, name, ctx, s.genIdx);
      && !(|d.expectText| > 0 && |d.expectConfig| > 0)
      && (|d.expectConfig| > 0 ==> ContainsConfigSetting(ctx.configSettings, d.expectConfig))
      && (|d.expectText| == 0 ==> IndexStep(s, name, ctx, d) == Insert(s1, ctx, d1, IdGenerated(d)))
      && (|d.expectText| > 0 ==>
            && AddCond(s1, name, ctx.defaultExprProcessor, d.expectText).Ok?
            && var s2 := AddCond(s1, name, ctx.defaultExprProcessor, d.expectText).value;
            && IndexStep(s, name, ctx, d)
               == Insert(s2, ctx, d1.(depsOnOk := AppendAbsent(d.depsOnOk, s2.conds[d.expectText])), IdGenerated(d)))
  {
  }

  /** The invariant does not mention the id counter. */
  lemma InvBumped(s: Index, ctx: Context, d: VertexDecl)
    requires Inv(s, ctx)
    ensures Inv(Bumped(s, d), ctx)
  {
  }

  /** One step of pass 1 keeps the invariant, changes no entry already
      indexed, and adds the declared vertex plus at most one condition
      vertex, each under a new key. */
  lemma IndexStepInv(s: Index, name: string, ctx: Context, d: VertexDecl)
    requires Inv(s, ctx) && IndexStep(s, name, ctx, d).Ok?
    ensures var r := IndexStep(s, name, ctx, d).value;
      && Inv(r, ctx)
      && (forall x :: x in s.vm ==> x in r.vm && r.vm[x] == s.vm[x])
      && (forall t0 :: t0 in s.conds ==> t0 in r.conds && r.conds[t0] == s.conds[t0])
      && |r.vm| + |s.conds| == |s.vm| + 1 + |r.conds|
      && var vid := AssignedId(d, name, s.genIdx);
      && vid in r.vm && !r.vm[vid].isGenerated && r.vm[vid].decl.processor == d.processor
  {
    if |d.expectText| == 0 {
      PlainStepInv(s, name, ctx, d);
    } else {
      ExpectStepInv(s, name, ctx, d);
    }
  }

  /** What one step of pass 1 guarantees (see `IndexStepInv`). */
  ghost predicate StepOk(s: Index, name: string, ctx: Context, d: VertexDecl, r: Index)
  {
    && Inv(r, ctx)
    && (forall x :: x in s.vm ==> x in r.vm && r.vm[x] == s.vm[x])
    && (forall t0 :: t0 in s.conds ==> t0 in r.conds && r.conds[t0] == s.conds[t0])
    && |r.vm| + |s.conds| == |s.vm| + 1 + |r.conds|
    && var vid := AssignedId(d, name, s.genIdx);
    && vid in r.vm && !r.vm[vid].isGenerated && r.vm[vid].decl.processor == d.processor
  }

  lemma PlainStepInv(s: Index, name: string, ctx: Context, d: VertexDecl)
    requires Inv(s, ctx) && IndexStep(s, name, ctx, d).Ok? && |d.expectText| == 0
    ensures StepOk(s, name, ctx, d, IndexStep(s, name, ctx, d).value)
  {
    StepUnfold(s, name, ctx, d);
    InvBumped(s, ctx, d);
    InsertStepInv(Bumped(s, d), ctx, Named(d, name, ctx, s.genIdx), IdGenerated(d));
  }

  lemma ExpectStepInv(s: Index, name: string, ctx: Context, d: VertexDecl)
    requires Inv(s, ctx) && IndexStep(s, name, ctx, d).Ok? && |d.expectText| > 0
    ensures StepOk(s, name, ctx, d, IndexStep(s, name, ctx, d).value)
  {
    StepUnfold(s, name, ctx, d);
    InvBumped(s, ctx, d);
    var s1 := Bumped(s, d);
    var s2 := AddCond(s1, name, ctx.defaultExprProcessor, d.expectText).value;
    CondStepInv(s1, name, ctx, Named(d, name, ctx, s.genIdx).(depsOnOk := AppendAbsent(d.depsOnOk, s2.conds[d.expectText])), IdGenerated(d));
  }

  /** The pass-1 loop keeps the invariant and loses nothing: every
      declaration and every new condition text adds one key. */
  lemma {:induction false} IndexAllInv(s: Index, name: string, ctx: Context, ds: seq<VertexDecl>)
    requires Inv(s, ctx) && IndexAll(s, name, ctx, ds).Ok?
    ensures var r := IndexAll(s, name, ctx, ds).value;
      && Inv(r, ctx)
      && (forall x :: x in s.vm ==> x in r.vm && r.vm[x] == s.vm[x])
      && (forall t0 :: t0 in s.conds ==> t0 in r.conds && r.conds[t0] == s.conds[t0])
      && |r.vm| + |s.conds| == |s.vm| + |ds| + |r.conds|
    decreases |ds|
  {
    if ds != [] {
      IndexStepInv(s, name, ctx, ds[0]);
      IndexAllInv(IndexStep(s, name, ctx, ds[0]).value, name, ctx, ds[1..]);
    }
  }

  /** After pass 1 each condition text has exactly one vertex: two condition
      vertices with the same text are the same vertex. */
  lemma CondUnique(s: Index, processor: string, x: string, y: string)
    requires CondsOk(s, processor) && x in s.gen && y in s.gen
    requires s.vm[x].decl.cond == s.vm[y].decl.cond
    ensures x == y
  {
    var ex :| ex in s.conds && s.conds[ex] == x;
    var ey :| ey in s.conds && s.conds[ey] == y;
  }

  /** In strict mode each data id has a single producer. */
  lemma SingleProducer(s: Index, ctx: Context, x: string, y: string, i: nat, j: nat)
    requires Inv(s, ctx) && ctx.strictDsl
    requires x in s.vm && !s.vm[x].isGenerated && i < |s.vm[x].decl.output|
    requires y in s.vm && !s.vm[y].isGenerated && j < |s.vm[y].decl.output|
    requires s.vm[x].decl.output[i].id == s.vm[y].decl.output[j].id
    ensures x == y && i == j
  {
  }

  // ---------------------------------------------------------------------
  // genCondVertex as written: no check that the generated id is free.

  function AddCondAsWritten(s: Index, name: string, processor: string, e: string): (r: Index)
    ensures e in r.conds
  {
    if e in s.conds then s else WithCond(s, GenId(name, s.genIdx), processor, e)
  }

  /** A declared vertex named `g_0` is indexed first; the second declaration's
      `expect` then makes a condition vertex whose generated id is `g_0`.
      As written the declared vertex is silently replaced and the order lists
      `g_0` twice; the corrected step reports the collision. */
  lemma AsWrittenCondReplacesDeclared()
    ensures var ctx := Context("c", false, "expr", [], map[]);
      var d1 := VertexDecl("g_0", "p", "", "", "", [], "", "", [], [], [], [], [], [], [], [], false);
      var d2 := VertexDecl("", "q", "", "x", "", [], "", "", [], [], [], [], [], [], [], [], false);
      var s1 := IndexStep(Start(0), "g", ctx, d1);
      && s1.Ok?
      && var w := AddCondAsWritten(s1.value, "g", "expr", "x");
      && "g_0" in s1.value.vm && s1.value.vm["g_0"].decl.processor == "p"
      && w.vm["g_0"].decl.processor == "expr"
      && |w.vm| == |s1.value.vm|
      && !OrderOk(w)
      && AddCond(s1.value, "g", "expr", "x") == Fail(DuplicateVertex("g_0"))
      && IndexAll(Start(0), "g", ctx, [d1, d2]) == Fail(DuplicateVertex("g_0"))
  {
    var ctx := Context("c", false, "expr", [], map[]);
    var d1 := VertexDecl("g_0", "p", "", "", "", [], "", "", [], [], [], [], [], [], [], [], false);
    var d2 := VertexDecl("", "q", "", "x", "", [], "", "", [], [], [], [], [], [], [], [], false);
    assert NatToString(0) == "0";
    assert GenId("g", 0) == "g_0";
    assert Normalized([]) == [];
    assert Named(d1, "g", ctx, 0) == d1;
    var s1v := WithVertex(Start(0), "g_0", Fresh(d1, false), map[]);
    assert IndexStep(Start(0), "g", ctx, d1) == Insert(Start(0), ctx, d1, false) == Ok(s1v);
    var w := AddCondAsWritten(s1v, "g", "expr", "x");
    assert w == WithCond(s1v, "g_0", "expr", "x");
    assert w.order[0] == w.order[1];
    assert [d1, d2][1..] == [d2];
    assert IndexStep(s1v, "g", ctx, d2) == Fail(DuplicateVertex("g_0"));
  }
}
