/** Entity records of the DAG script: operator catalog entries, field bindings,
    vertices, config settings, and the error kinds a build can report. */
module Records {

  /** Expected upstream result tags stored on dependency edges. */
  const ResultOk: int := 1
  const ResultErr: int := 2
  const ResultAll: int := 3

  /** Capability flags of a catalog field; a flag is set when its value is positive. */
  datatype FieldFlags = FieldFlags(extern: int, inOut: int, aggregate: int)

  /** One declared input or output field of an operator. */
  datatype FieldMeta = FieldMeta(name: string, id: int, typ: string, flags: FieldFlags)

  /** An operator of the catalog with its declared input and output fields. */
  datatype OperatorMeta = OperatorMeta(name: string, input: seq<FieldMeta>, output: seq<FieldMeta>)

  /** A field binding of a vertex (one `input` or `output` entry of the script). */
  datatype GraphData = GraphData(
    id: string,
    field: string,
    aggregate: seq<string>,
    cond: string,
    required: bool,
    move: bool,
    isExtern: bool,
    isInOut: bool,
    isMapInput: bool)

  /** A `select_args` entry; only its `match` name (`matchName`) takes part in the build. */
  datatype CondParams = CondParams(matchName: string)

  /** A named boolean toggle of the cluster. */
  datatype ConfigSetting = ConfigSetting(name: string, cond: string, processor: string)

  /** The declared part of a vertex, as decoded from the script. */
  datatype VertexDecl = VertexDecl(
    id: string,
    processor: string,
    cond: string,
    expectText: string,
    expectConfig: string,
    selectArgs: seq<CondParams>,
    cluster: string,
    graph: string,
    successor: seq<string>,
    successorOnOk: seq<string>,
    successorOnErr: seq<string>,
    deps: seq<string>,
    depsOnOk: seq<string>,
    depsOnErr: seq<string>,
    input: seq<GraphData>,
    output: seq<GraphData>,
    start: bool)

  /** A vertex of a graph: its declaration plus what the build resolves for it.
      `depsResults` maps a producer id to the expected result tag; `successors`
      holds the ids of the vertices that depend on this one. */
  datatype Vertex = Vertex(
    decl: VertexDecl,
    depsResults: map<string, int>,
    successors: set<string>,
    isIdGenerated: bool,
    isGenerated: bool)

  /** What a graph sees of its cluster while it is built. */
  datatype Context = Context(
    clusterName: string,
    strictDsl: bool,
    defaultExprProcessor: string,
    configSettings: seq<ConfigSetting>,
    ops: map<string, OperatorMeta>)

  /** The error kinds a build reports (the message texts are not modelled). */
  datatype Error =
    | ConflictingShorthand(vertex: string)
    | UnknownConfigSetting(name: string)
    | DuplicateVertex(id: string)
    | UnknownProcessor(processor: string)
    | EmptyInputField(vertex: string)
    | EmptyOutputField(vertex: string)
    | DuplicateData(data: string, vertex: string, prev: string)
    | UnknownDep(vertex: string, dep: string)
    | UnknownSuccessor(vertex: string, successor: string)
    | UnknownInput(vertex: string, data: string)
    | NoDepsAndSuccessors(vertex: string)
    | StartWithDeps(vertex: string)
    | CircleExist
    | DuplicateGraph(name: string)

  datatype Option<T> = None | Some(value: T)

  datatype Result<T> = Ok(value: T) | Fail(error: Error)

  datatype Outcome = Pass | Failed(error: Error)

  /** A vertex as it enters the id index: nothing wired yet. */
  function Fresh(d: VertexDecl, isIdGenerated: bool): Vertex
  {
    Vertex(d, map[], {}, isIdGenerated, false)
  }

  /** `xs` lists every key of `keys` exactly once. */
  ghost predicate Enumerates(xs: seq<string>, keys: set<string>)
  {
    && (forall i, j :: 0 <= i < j < |xs| ==> xs[i] != xs[j])
    && (forall y :: y in keys <==> y in xs)
  }

  /** Part way through a walk of `keys`: `xs` lists the keys taken so far,
      each once, and `todo` holds the rest. */
  ghost predicate Walking(xs: seq<string>, todo: set<string>, keys: set<string>)
  {
    && todo <= keys
    && (forall i :: 0 <= i < |xs| ==> xs[i] in keys && xs[i] !in todo)
    && (forall i, j :: 0 <= i < j < |xs| ==> xs[i] != xs[j])
    && (forall y :: y in keys <==> y in todo || y in xs)
  }

  lemma WalkingStep(xs: seq<string>, todo: set<string>, keys: set<string>, x: string)
    requires Walking(xs, todo, keys) && x in todo
    ensures Walking(xs + [x], todo - {x}, keys)
  {
  }

  lemma WalkingDone(xs: seq<string>, keys: set<string>)
    requires Walking(xs, {}, keys)
    ensures Enumerates(xs, keys)
  {
  }

  lemma SliceAppend<T>(s: seq<T>, a: T, h: nat)
    requires h <= |s|
    ensures (s + [a])[h..] == s[h..] + [a]
    ensures (s + [a])[..h] == s[..h]
  {
  }

  lemma CardAdd(xs: set<string>, x: string)
    requires x !in xs
    ensures |xs + {x}| == |xs| + 1
  {
  }

  /** The elements of a non-empty sequence are those of its prefix and its
    last element. */
  lemma ElemsSnoc(xs: seq<string>, pre: seq<string>)
    requires xs != [] && pre == xs[..|xs| - 1]
    ensures (set k | 0 <= k < |xs| :: xs[k]) == (set k | 0 <= k < |pre| :: pre[k]) + {xs[|xs| - 1]}
  {
    var x := xs[|xs| - 1];
    var all := set k | 0 <= k < |xs| :: xs[k];
    var some := set k | 0 <= k < |pre| :: pre[k];
    forall y | y in all ensures y in some + {x} {
      var k :| 0 <= k < |xs| && xs[k] == y;
      if k < |pre| {
        assert pre[k] == y;
      }
    }
    forall y | y in some ensures y in all {
      var k :| 0 <= k < |pre| && pre[k] == y;
      assert xs[k] == y;
    }
    assert x in all;
    assert all == some + {x};
  }

  lemma DistinctSnoc(xs: seq<string>, x: string)
    requires x !in xs && forall i, j :: 0 <= i < j < |xs| ==> xs[i] != xs[j]
    ensures forall i, j :: 0 <= i < j < |xs + [x]| ==> (xs + [x])[i] != (xs + [x])[j]
  {
  }

  /** The last element and the prefix of a concatenation that ends in `b`. */
  lemma SnocSplit<T>(a: seq<T>, b: seq<T>)
    requires b != []
    ensures (a + b)[..|a + b| - 1] == a + b[..|b| - 1]
    ensures (a + b)[|a + b| - 1] == b[|b| - 1]
  {
  }

  lemma EnumeratesElems(xs: seq<string>, keys: set<string>)
    requires Enumerates(xs, keys)
    ensures (set k | 0 <= k < |xs| :: xs[k]) == keys
  {
    var e := set k | 0 <= k < |xs| :: xs[k];
    forall y | y in keys ensures y in e {
      var k :| 0 <= k < |xs| && xs[k] == y;
    }
  }
}
