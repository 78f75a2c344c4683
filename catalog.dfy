/** The cluster's catalogs as the builder uses them: config-setting lookup,
    the operator index (later records overwrite earlier ones) and the
    completion of a vertex's bindings from its operator's declared fields. */
module Catalog {
  import opened Records
  import opened Naming

  /** `GraphCluster.ContainsConfigSetting`: a reference names a setting once
      its leading negation marker is removed. */
  function ContainsConfigSetting(settings: seq<ConfigSetting>, name: string): (r: bool)
    ensures r <==> exists i :: 0 <= i < |settings| && settings[i].name == StripNegation(name)
  {
    if settings == [] then false
    else
      var hit := if |name| > 0 && name[0] == '!' then settings[0].name == name[1..]
                 else settings[0].name == name;
      hit || ContainsConfigSetting(settings[1..], name)
  }

  /** The operator index built from the catalog records, record by record. */
  function IndexOps(ops: seq<OperatorMeta>): map<string, OperatorMeta>
  {
    if ops == [] then map[]
    else IndexOps(ops[..|ops| - 1])[ops[|ops| - 1].name := ops[|ops| - 1]]
  }

  /** The index holds exactly the names of the catalog records. */
  lemma {:induction false} IndexOpsDomain(ops: seq<OperatorMeta>, name: string)
    ensures name in IndexOps(ops) <==> exists i :: 0 <= i < |ops| && ops[i].name == name
  {
    if ops != [] {
      var n := |ops| - 1;
      IndexOpsDomain(ops[..n], name);
      if name in IndexOps(ops[..n]) {
        var i :| 0 <= i < n && ops[..n][i].name == name;
        assert ops[i].name == name;
      }
      if exists i :: 0 <= i < |ops| && ops[i].name == name {
        var i :| 0 <= i < |ops| && ops[i].name == name;
        if i < n {
          assert ops[..n][i].name == name;
        }
      }
    }
  }

  /** Each name is bound to the LAST catalog record of that name. */
  lemma {:induction false} IndexOpsLastWins(ops: seq<OperatorMeta>, i: nat)
    requires i < |ops|
    requires forall j :: i < j < |ops| ==> ops[j].name != ops[i].name
    ensures ops[i].name in IndexOps(ops) && IndexOps(ops)[ops[i].name] == ops[i]
  {
    var n := |ops| - 1;
    if i < n {
      assert ops[..n][i] == ops[i];
      forall j | i < j < n ensures ops[..n][j].name != ops[..n][i].name {
        assert ops[..n][j] == ops[j];
      }
      IndexOpsLastWins(ops[..n], i);
    }
  }

  /** `GraphCluster.getOpMeta`. */
  function GetOpMeta(opsMap: map<string, OperatorMeta>, name: string): Option<OperatorMeta>
  {
    if name in opsMap then Some(opsMap[name]) else None
  }

  /** Some binding of the list has this field name. */
  predicate HasField(ds: seq<GraphData>, name: string)
  {
    exists k :: 0 <= k < |ds| && ds[k].field == name
  }

  /** The binding synthesised for a catalog field the vertex does not bind:
      inputs copy the extern, in-out and aggregate flags; outputs copy none. */
  function Synth(m: FieldMeta, forInput: bool): GraphData
  {
    if forInput then
      GraphData(m.name, m.name, [], "", false, false, m.flags.extern > 0, m.flags.inOut > 0, m.flags.aggregate > 0)
    else
      GraphData(m.name, m.name, [], "", false, false, false, false, false)
  }

  /** The bindings after walking the catalog fields in order and appending a
      synthesised binding for each field name not yet bound. */
  function Complete(ms: seq<FieldMeta>, local: seq<GraphData>, forInput: bool): seq<GraphData>
  {
    if ms == [] then local
    else
      var acc := Complete(ms[..|ms| - 1], local, forInput);
      var m := ms[|ms| - 1];
      if HasField(acc, m.name) then acc else acc + [Synth(m, forInput)]
  }

  /** Completion only appends: the declared bindings stay first and untouched. */
  lemma {:induction false} CompleteExtends(ms: seq<FieldMeta>, local: seq<GraphData>, forInput: bool)
    ensures var r := Complete(ms, local, forInput);
      |local| <= |r| <= |local| + |ms| && r[..|local|] == local
  {
    if ms != [] {
      CompleteExtends(ms[..|ms| - 1], local, forInput);
    }
  }

  /** After completion every catalog field name is bound. */
  lemma {:induction false} CompleteCovers(ms: seq<FieldMeta>, local: seq<GraphData>, forInput: bool)
    ensures forall i :: 0 <= i < |ms| ==> HasField(Complete(ms, local, forInput), ms[i].name)
  {
    if ms != [] {
      var n := |ms| - 1;
      var acc := Complete(ms[..n], local, forInput);
      var r := Complete(ms, local, forInput);
      CompleteCovers(ms[..n], local, forInput);
      assert acc == r[..|acc|];
      forall i | 0 <= i < |ms| ensures HasField(r, ms[i].name) {
        if i < n {
          assert ms[..n][i] == ms[i];
          var k :| 0 <= k < |acc| && acc[k].field == ms[i].name;
          assert r[k] == acc[k];
        } else if !HasField(acc, ms[n].name) {
          assert r[|acc|] == Synth(ms[n], forInput);
        }
      }
    }
  }

  /** Each appended binding is the synthesised binding of some catalog field,
      and it is appended only when its field name was not bound before it. */
  lemma {:induction false} CompleteSynthesises(ms: seq<FieldMeta>, local: seq<GraphData>, forInput: bool)
    ensures var r := Complete(ms, local, forInput);
      forall k :: |local| <= k < |r| ==>
        (exists i :: 0 <= i < |ms| && r[k] == Synth(ms[i], forInput)) && !HasField(r[..k], r[k].field)
  {
    if ms != [] {
      var n := |ms| - 1;
      var acc := Complete(ms[..n], local, forInput);
      var r := Complete(ms, local, forInput);
      CompleteSynthesises(ms[..n], local, forInput);
      CompleteExtends(ms[..n], local, forInput);
      forall k | |local| <= k < |r|
        ensures (exists i :: 0 <= i < |ms| && r[k] == Synth(ms[i], forInput)) && !HasField(r[..k], r[k].field)
      {
        if k < |acc| {
          assert r[k] == acc[k] && r[..k] == acc[..k];
          var i :| 0 <= i < n && acc[k] == Synth(ms[..n][i], forInput);
          assert ms[..n][i] == ms[i];
        } else {
          assert r[k] == Synth(ms[n], forInput) && r[..k] == acc;
        }
      }
    }
  }

  /** `Vertex.buildInputOutput`: a vertex with a processor absent from the
      catalog is an error; otherwise its inputs and outputs are completed from
      the operator's declared fields and nothing else about it changes. */
  method BuildInputOutput(v: VertexDecl, opsMap: map<string, OperatorMeta>) returns (r: Result<VertexDecl>)
    ensures r.Fail? <==> v.processor != "" && v.processor !in opsMap
    ensures r.Fail? ==> r.error == UnknownProcessor(v.processor)
    ensures v.processor == "" ==> r == Ok(v)
    ensures r.Ok? && v.processor != "" ==>
      var meta := opsMap[v.processor];
      && r.value == v.(input := Complete(meta.input, v.input, true), output := Complete(meta.output, v.output, false))
      && (forall i :: 0 <= i < |meta.input| ==> HasField(r.value.input, meta.input[i].name))
      && (forall i :: 0 <= i < |meta.output| ==> HasField(r.value.output, meta.output[i].name))
      && |v.input| <= |r.value.input| && |v.output| <= |r.value.output|
      && r.value.input[..|v.input|] == v.input && r.value.output[..|v.output|] == v.output
  {
    if |v.processor| == 0 {
      return Ok(v);
    }
    var meta := GetOpMeta(opsMap, v.processor);
    if meta.None? {
      return Fail(UnknownProcessor(v.processor));
    }
    var inputs := AppendMissing(meta.value.input, v.input, true);
    var outputs := AppendMissing(meta.value.output, v.output, false);
    CompleteCovers(meta.value.input, v.input, true);
    CompleteCovers(meta.value.output, v.output, false);
    CompleteExtends(meta.value.input, v.input, true);
    CompleteExtends(meta.value.output, v.output, false);
    r := Ok(v.(input := inputs, output := outputs));
  }

  /** One of the two loops of `buildInputOutput`: for each catalog field in
      order, scan the current bindings for its name and append a synthesised
      binding when none matches. */
  method AppendMissing(ms: seq<FieldMeta>, local: seq<GraphData>, forInput: bool) returns (ds: seq<GraphData>)
    ensures ds == Complete(ms, local, forInput)
  {
    ds := local;
    for i := 0 to |ms|
      invariant ds == Complete(ms[..i], local, forInput)
    {
      var m := ms[i];
      var found := false;
      var j := 0;
      while j < |ds|
        invariant 0 <= j <= |ds|
        invariant !found
        invariant forall k :: 0 <= k < j ==> ds[k].field != m.name
      {
        if ds[j].field == m.name {
          found := true;
          break;
        }
        j := j + 1;
      }
      assert found <==> HasField(ds, m.name);
      assert ms[..i + 1][..i] == ms[..i];
      if !found {
        ds := ds + [Synth(m, forInput)];
      }
    }
    assert ms[..|ms|] == ms;
  }
}
