/** Cycle detection over the successor relation of a graph's id index:
    `CheckCyclic` is the depth-first search with a visited set and a
    recursion stack, `TestCircle` runs it from every vertex. */
module Cycles {
  import opened Records

  /** A walk along successor edges through indexed vertices. */
  ghost predicate IsPath(vm: map<string, Vertex>, p: seq<string>)
  {
    && |p| >= 1
    && (forall i :: 0 <= i < |p| ==> p[i] in vm)
    && (forall i :: 0 <= i < |p| - 1 ==> p[i + 1] in vm[p[i]].successors)
  }

  /** A walk of at least one edge that comes back to where it started
      (a self-edge `[x, x]` is one). */
  ghost predicate IsCycle(vm: map<string, Vertex>, p: seq<string>)
  {
    IsPath(vm, p) && |p| >= 2 && p[0] == p[|p| - 1]
  }

  ghost predicate HasCycle(vm: map<string, Vertex>)
  {
    exists p :: IsCycle(vm, p)
  }

  /** Every successor id names an indexed vertex. */
  predicate Closed(vm: map<string, Vertex>)
  {
    forall x, y :: x in vm && y in vm[x].successors ==> y in vm
  }

  /** The search state between steps. Vertices visited and no longer on the
      stack are finished: each has a finish time, and all its successors are
      finished earlier. */
  ghost predicate DfsState(vm: map<string, Vertex>, visited: set<string>, stack: set<string>,
                           finish: map<string, nat>, clock: nat)
  {
    && stack <= visited <= vm.Keys
    && finish.Keys == visited - stack
    && (forall x :: x in finish ==> finish[x] < clock)
    && (forall x, y :: x in finish && y in vm[x].successors ==> y in finish && finish[y] < finish[x])
  }

  /** The recursion stack is the set of vertices of a walk. */
  ghost predicate StackPath(vm: map<string, Vertex>, path: seq<string>, stack: set<string>)
  {
    && (forall i :: 0 <= i < |path| ==> path[i] in vm)
    && (forall i :: 0 <= i < |path| - 1 ==> path[i + 1] in vm[path[i]].successors)
    && (forall x :: x in stack <==> x in path)
  }

  /** An edge from the top of the stack back into the stack closes a cycle. */
  lemma BackEdgeCycle(vm: map<string, Vertex>, path: seq<string>, s: string)
    requires path != [] && (forall i :: 0 <= i < |path| ==> path[i] in vm)
    requires forall i :: 0 <= i < |path| - 1 ==> path[i + 1] in vm[path[i]].successors
    requires s in path && s in vm[path[|path| - 1]].successors
    ensures HasCycle(vm)
  {
    var i :| 0 <= i < |path| && path[i] == s;
    var c := path[i..] + [s];
    assert forall k :: 0 <= k < |c| - 1 ==> c[k] == path[i + k];
    assert IsCycle(vm, c);
  }

  /** Finish times strictly decrease along every walk of finished vertices. */
  lemma {:induction false} PathDecreases(vm: map<string, Vertex>, finish: map<string, nat>, p: seq<string>)
    requires finish.Keys <= vm.Keys
    requires forall x, y :: x in finish && y in vm[x].successors ==> y in finish && finish[y] < finish[x]
    requires IsPath(vm, p) && |p| >= 2 && p[0] in finish
    ensures p[|p| - 1] in finish && finish[p[|p| - 1]] < finish[p[0]]
    decreases |p|
  {
    if |p| > 2 {
      var q := p[1..];
      assert forall i :: 0 <= i < |q| ==> q[i] == p[i + 1];
      assert IsPath(vm, q);
      PathDecreases(vm, finish, q);
    }
  }

  /** When every vertex is finished there is no cycle. */
  lemma NoCycleWhenFinished(vm: map<string, Vertex>, finish: map<string, nat>)
    requires vm.Keys == finish.Keys
    requires forall x, y :: x in finish && y in vm[x].successors ==> y in finish && finish[y] < finish[x]
    ensures !HasCycle(vm)
  {
    if HasCycle(vm) {
      var p :| IsCycle(vm, p);
      PathDecreases(vm, finish, p);
    }
  }

  /** `CheckCyclic`: depth-first search from `v`. It reports true when it
      meets a successor that is still on the recursion stack, which closes a
      cycle; when it reports false, `v` and everything reached from it is
      finished and the stack is as it was. */
  method CheckCyclic(vm: map<string, Vertex>, v: string, visited0: set<string>, stack0: set<string>,
                     ghost path: seq<string>, ghost finish0: map<string, nat>, ghost clock0: nat)
    returns (found: bool, visited: set<string>, stack: set<string>, ghost finish: map<string, nat>, ghost clock: nat)
    requires Closed(vm) && v in vm && v !in stack0
    requires DfsState(vm, visited0, stack0, finish0, clock0)
    requires StackPath(vm, path, stack0)
    requires path != [] ==> v in vm[path[|path| - 1]].successors
    ensures visited0 <= visited <= vm.Keys
    ensures found ==> HasCycle(vm)
    ensures !found ==> && stack == stack0 && v in finish
                       && DfsState(vm, visited, stack, finish, clock)
                       && forall x :: x in finish0 ==> x in finish && finish[x] == finish0[x]
    decreases vm.Keys - visited0
  {
    found, visited, stack, finish, clock := false, visited0, stack0, finish0, clock0;
    if v in visited {
      return;
    }
    visited := visited + {v};
    stack := stack + {v};
    ghost var path' := path + [v];
    var todo := vm[v].successors;
    while todo != {}
      invariant todo <= vm[v].successors
      invariant visited0 + {v} <= visited <= vm.Keys
      invariant stack == stack0 + {v}
      invariant StackPath(vm, path', stack)
      invariant DfsState(vm, visited, stack, finish, clock)
      invariant forall x :: x in finish0 ==> x in finish && finish[x] == finish0[x]
      invariant forall y :: y in vm[v].successors - todo ==> y in finish
      decreases todo
    {
      var s :| s in todo;
      todo := todo - {s};
      var hit := false;
      if s !in visited {
        hit, visited, stack, finish, clock := CheckCyclic(vm, s, visited, stack, path', finish, clock);
      }
      if hit {
        return true, visited, stack, finish, clock;
      }
      if s in stack {
        BackEdgeCycle(vm, path', s);
        return true, visited, stack, finish, clock;
      }
    }
    finish := finish[v := clock];
    clock := clock + 1;
    stack := stack - {v};
  }

  /** `Graph.testCircle`: true exactly when the successor relation has a cycle,
      whatever order the vertices are tried in. */
  method TestCircle(vm: map<string, Vertex>) returns (c: bool)
    requires Closed(vm)
    ensures c <==> HasCycle(vm)
  {
    var visited: set<string>, stack: set<string> := {}, {};
    ghost var finish: map<string, nat> := map[];
    ghost var clock: nat := 0;
    var todo := vm.Keys;
    while todo != {}
      invariant todo <= vm.Keys
      invariant stack == {}
      invariant DfsState(vm, visited, stack, finish, clock)
      invariant vm.Keys - todo <= visited
      decreases todo
    {
      var v :| v in todo;
      todo := todo - {v};
      var f;
      f, visited, stack, finish, clock := CheckCyclic(vm, v, visited, stack, [], finish, clock);
      if f {
        return true;
      }
    }
    NoCycleWhenFinished(vm, finish);
    return false;
  }
}
