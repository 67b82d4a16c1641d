// src/cloud/invoke-operation.ts: isJsonValue and isJsonObject over an object graph
// with sharing and cycles. The heap is fixed while the check runs; a property whose
// getter throws is a child of its own kind.
module JsonGraph {
  import opened Wrappers

  type Ref = nat

  datatype Number = Finite(n: real) | NaN | Infinite

  datatype Value =
    | Null | Str(s: string) | Bool(b: bool) | Num(number: Number)
    | Undefined | Function | Symbol | BigInt
    | Throws                     // reading it throws
    | Obj(ref: Ref)

  // Plain: prototype Object.prototype, own enumerable keys in order. Other: any other
  // prototype, class instances among them.
  datatype Node = Array(items: seq<Value>) | Plain(fields: seq<(string, Value)>) | Date | Other

  type Heap = map<Ref, Node>

  function Children(n: Node): seq<Value> {
    match n
    case Array(items) => items
    case Plain(fields) => seq(|fields|, i requires 0 <= i < |fields| => fields[i].1)
    case _ => []
  }

  predicate InHeap(h: Heap, v: Value) {
    v.Obj? ==> v.ref in h
  }

  // No reference of the heap dangles.
  ghost predicate Closed(h: Heap) {
    forall r :: r in h ==> forall i :: 0 <= i < |Children(h[r])| ==> InHeap(h, Children(h[r])[i])
  }

  predicate LeafOk(v: Value) {
    v.Null? || v.Str? || v.Bool? || (v.Num? && v.number.Finite?)
  }

  // ---- the check as a function of the stack ----

  ghost function Unvisited(h: Heap, stack: set<Ref>): nat {
    |h.Keys - stack|
  }

  lemma VisitingShrinks(h: Heap, stack: set<Ref>, r: Ref)
    requires r in h && r !in stack
    ensures Unvisited(h, stack + {r}) < Unvisited(h, stack)
  {
    assert h.Keys - (stack + {r}) == (h.Keys - stack) - {r};
  }

  ghost predicate Accepts(h: Heap, v: Value, stack: set<Ref>)
    decreases Unvisited(h, stack)
  {
    if !v.Obj? then LeafOk(v)
    else
      && v.ref in h && (h[v.ref].Array? || h[v.ref].Plain?) && v.ref !in stack
      && (VisitingShrinks(h, stack, v.ref);
          forall i :: 0 <= i < |Children(h[v.ref])| ==> Accepts(h, Children(h[v.ref])[i], stack + {v.ref}))
  }

  lemma AcceptsObject(h: Heap, r: Ref, stack: set<Ref>)
    requires r in h
    ensures Accepts(h, Obj(r), stack) <==>
              && (h[r].Array? || h[r].Plain?) && r !in stack
              && forall i :: 0 <= i < |Children(h[r])| ==> Accepts(h, Children(h[r])[i], stack + {r})
  {
    hide Children;
  }

  lemma AcceptsLeaf(h: Heap, v: Value, stack: set<Ref>)
    requires !v.Obj?
    ensures Accepts(h, v, stack) <==> LeafOk(v)
  {
  }

  // ---- what the graph is like ----

  predicate Edge(h: Heap, a: Ref, b: Ref) {
    a in h && Obj(b) in Children(h[a])
  }

  ghost predicate IsPath(h: Heap, p: seq<Ref>) {
    p != [] && forall i :: 0 <= i < |p| - 1 ==> Edge(h, p[i], p[i + 1])
  }

  ghost predicate Reaches(h: Heap, a: Ref, b: Ref) {
    exists p :: IsPath(h, p) && p[0] == a && p[|p| - 1] == b
  }

  ghost predicate OnCycle(h: Heap, r: Ref) {
    exists p :: IsPath(h, p) && |p| > 1 && p[0] == r && p[|p| - 1] == r
  }

  // An array or plain object whose own leaves are all JSON leaves.
  ghost predicate GoodNode(h: Heap, r: Ref) {
    && r in h && (h[r].Array? || h[r].Plain?)
    && forall v :: v in Children(h[r]) && !v.Obj? ==> LeafOk(v)
  }

  ghost predicate JsonGraphFrom(h: Heap, v: Value) {
    if !v.Obj? then LeafOk(v)
    else forall r :: Reaches(h, v.ref, r) ==> GoodNode(h, r) && !OnCycle(h, r)
  }

  // Paths without repeats and off the stack, ending in a good node.
  ghost predicate GoodPath(h: Heap, p: seq<Ref>, stack: set<Ref>) {
    && p != [] && GoodNode(h, p[|p| - 1])
    && (forall i, j :: 0 <= i < j < |p| ==> p[i] != p[j])
    && (forall i :: 0 <= i < |p| ==> p[i] !in stack)
  }

  lemma {:induction false} AcceptedPathsAreGood(h: Heap, v: Value, stack: set<Ref>, p: seq<Ref>)
    requires Accepts(h, v, stack) && v.Obj? && IsPath(h, p) && p[0] == v.ref
    ensures GoodPath(h, p, stack)
    decreases p
  {
    var children := Children(h[v.ref]);
    if |p| == 1 {
      forall c | c in children && !c.Obj? ensures LeafOk(c) {
        var i :| 0 <= i < |children| && children[i] == c;
        assert Accepts(h, children[i], stack + {v.ref});
      }
    } else {
      assert Edge(h, p[0], p[1]);
      var i :| 0 <= i < |children| && children[i] == Obj(p[1]);
      assert Accepts(h, children[i], stack + {v.ref});
      TailIsPath(h, p);
      AcceptedPathsAreGood(h, children[i], stack + {v.ref}, p[1..]);
      GoodPathCons(h, p, stack);
    }
  }

  lemma TailIsPath(h: Heap, p: seq<Ref>)
    requires IsPath(h, p) && |p| > 1
    ensures IsPath(h, p[1..]) && p[1..][0] == p[1]
  {
    forall i | 0 <= i < |p[1..]| - 1 ensures Edge(h, p[1..][i], p[1..][i + 1]) {
      assert Edge(h, p[i + 1], p[i + 2]);
    }
  }

  lemma GoodPathCons(h: Heap, p: seq<Ref>, stack: set<Ref>)
    requires |p| > 1 && p[0] !in stack
    ensures GoodPath(h, p[1..], stack + {p[0]}) <==> GoodPath(h, p, stack)
  {
    var q := p[1..];
    assert forall i :: 0 < i < |p| ==> p[i] == q[i - 1];
    if GoodPath(h, q, stack + {p[0]}) {
      forall i, j | 0 <= i < j < |p| ensures p[i] != p[j] {
        assert p[j] == q[j - 1] && q[j - 1] !in stack + {p[0]};
      }
    }
  }

  ghost predicate AllPathsGood(h: Heap, r: Ref, stack: set<Ref>) {
    forall p :: IsPath(h, p) && p[0] == r ==> GoodPath(h, p, stack)
  }

  lemma ConsPath(h: Heap, r: Ref, q: seq<Ref>)
    requires IsPath(h, q) && Edge(h, r, q[0])
    ensures IsPath(h, [r] + q)
  {
    var p := [r] + q;
    forall i | 0 <= i < |p| - 1 ensures Edge(h, p[i], p[i + 1]) {
      assert i > 0 ==> Edge(h, q[i - 1], q[i]);
    }
  }

  lemma {:induction false} GoodPathsAreAccepted(h: Heap, v: Value, stack: set<Ref>)
    requires if v.Obj? then AllPathsGood(h, v.ref, stack) else LeafOk(v)
    ensures Accepts(h, v, stack)
    decreases Unvisited(h, stack)
  {
    if v.Obj? {
      var r := v.ref;
      assert IsPath(h, [r]);
      assert GoodPath(h, [r], stack);
      assert [r][0] !in stack;
      VisitingShrinks(h, stack, r);
      forall i | 0 <= i < |Children(h[r])| ensures Accepts(h, Children(h[r])[i], stack + {r}) {
        var c := Children(h[r])[i];
        if c.Obj? {
          ChildPathsGood(h, r, c.ref, stack);
        }
        GoodPathsAreAccepted(h, c, stack + {r});
      }
    }
  }

  lemma ChildPathsGood(h: Heap, r: Ref, c: Ref, stack: set<Ref>)
    requires AllPathsGood(h, r, stack) && Edge(h, r, c) && r !in stack
    ensures AllPathsGood(h, c, stack + {r})
  {
    forall q | IsPath(h, q) && q[0] == c ensures GoodPath(h, q, stack + {r}) {
      ConsPath(h, r, q);
      assert ([r] + q)[1..] == q;
      GoodPathCons(h, [r] + q, stack);
    }
  }

  // ---- paths and cycles ----

  lemma SlicePath(h: Heap, p: seq<Ref>, i: nat, j: nat)
    requires IsPath(h, p) && i < j <= |p|
    ensures IsPath(h, p[i..j])
  {
    forall k | 0 <= k < j - i - 1 ensures Edge(h, p[i..j][k], p[i..j][k + 1]) {
      assert Edge(h, p[i + k], p[i + k + 1]);
    }
  }

  lemma JoinPaths(h: Heap, p: seq<Ref>, q: seq<Ref>)
    requires IsPath(h, p) && IsPath(h, q) && p[|p| - 1] == q[0]
    ensures IsPath(h, p + q[1..])
  {
    var s := p + q[1..];
    forall i | 0 <= i < |s| - 1 ensures Edge(h, s[i], s[i + 1]) {
      if i < |p| - 1 {
        assert Edge(h, p[i], p[i + 1]);
      } else {
        assert s[i] == q[i - (|p| - 1)];
        assert Edge(h, q[i - (|p| - 1)], q[i - (|p| - 1) + 1]);
      }
    }
  }

  lemma CycleRepeatsOnPath(h: Heap, p: seq<Ref>) returns (q: seq<Ref>)
    requires IsPath(h, p) && OnCycle(h, p[|p| - 1])
    ensures IsPath(h, q) && q[0] == p[0] && !GoodPath(h, q, {})
  {
    var s := p[|p| - 1];
    var loop :| IsPath(h, loop) && |loop| > 1 && loop[0] == s && loop[|loop| - 1] == s;
    JoinPaths(h, p, loop);
    q := p + loop[1..];
    assert q[|p| - 1] == s && q[|q| - 1] == s && |p| - 1 < |q| - 1;
  }

  lemma RepeatMakesCycle(h: Heap, p: seq<Ref>, i: nat, j: nat)
    requires IsPath(h, p) && i < j < |p| && p[i] == p[j]
    ensures Reaches(h, p[0], p[i]) && OnCycle(h, p[i])
  {
    SlicePath(h, p, 0, i + 1);
    var before := p[0..i + 1];
    assert before[0] == p[0] && before[|before| - 1] == p[i];
    SlicePath(h, p, i, j + 1);
    var loop := p[i..j + 1];
    assert loop[0] == p[i] && loop[|loop| - 1] == p[j];
  }

  lemma PathsGoodIffGraphGood(h: Heap, r: Ref)
    ensures AllPathsGood(h, r, {}) <==> JsonGraphFrom(h, Obj(r))
  {
    hide OnCycle;
    if AllPathsGood(h, r, {}) {
      forall s | Reaches(h, r, s) ensures GoodNode(h, s) && !OnCycle(h, s) {
        var p :| IsPath(h, p) && p[0] == r && p[|p| - 1] == s;
        assert GoodPath(h, p, {});
        if OnCycle(h, s) {
          var q := CycleRepeatsOnPath(h, p);
        }
      }
    }
    if JsonGraphFrom(h, Obj(r)) {
      forall p | IsPath(h, p) && p[0] == r ensures GoodPath(h, p, {}) {
        assert Reaches(h, r, p[|p| - 1]);
        forall i, j | 0 <= i < j < |p| ensures p[i] != p[j] {
          if p[i] == p[j] {
            RepeatMakesCycle(h, p, i, j);
          }
        }
      }
    }
  }

  // With an empty stack the recursive check accepts a value exactly when everything
  // reachable from it is an array or plain object with JSON leaves, and none of it lies
  // on a cycle. Objects that several paths share are no obstacle.
  lemma AcceptsMeansGraph(h: Heap, v: Value)
    ensures Accepts(h, v, {}) <==> JsonGraphFrom(h, v)
  {
    if v.Obj? {
      PathsGoodIffGraphGood(h, v.ref);
      if Accepts(h, v, {}) {
        forall p | IsPath(h, p) && p[0] == v.ref ensures GoodPath(h, p, {}) {
          AcceptedPathsAreGood(h, v, {}, p);
        }
      }
      if AllPathsGood(h, v.ref, {}) {
        GoodPathsAreAccepted(h, v, {});
      }
    }
  }

  // ---- the JSON text a graph stands for ----

  datatype Json =
    | JNull | JStr(s: string) | JBool(b: bool) | JNum(n: real)
    | JArr(items: seq<Json>) | JObj(fields: seq<(string, Json)>)

  // The graph below v, written out as a tree, is t.
  ghost predicate Unfolds(h: Heap, v: Value, t: Json)
    decreases t
  {
    match t
    case JNull => v.Null?
    case JStr(s) => v == Str(s)
    case JBool(b) => v == Bool(b)
    case JNum(n) => v == Num(Finite(n))
    case JArr(ts) =>
      && v.Obj? && v.ref in h && h[v.ref].Array? && |h[v.ref].items| == |ts|
      && forall i :: 0 <= i < |ts| ==> Unfolds(h, h[v.ref].items[i], ts[i])
    case JObj(fs) =>
      && v.Obj? && v.ref in h && h[v.ref].Plain? && |h[v.ref].fields| == |fs|
      && forall i :: 0 <= i < |fs| ==> h[v.ref].fields[i].0 == fs[i].0 && Unfolds(h, h[v.ref].fields[i].1, fs[i].1)
  }

  lemma {:induction false} UnfoldingIsUnique(h: Heap, v: Value, t: Json, t': Json)
    requires Unfolds(h, v, t) && Unfolds(h, v, t')
    ensures t == t'
    decreases t
  {
    match t
    case JArr(ts) =>
      forall i | 0 <= i < |ts| ensures ts[i] == t'.items[i] {
        UnfoldingIsUnique(h, h[v.ref].items[i], ts[i], t'.items[i]);
      }
      assert ts == t'.items;
    case JObj(fs) =>
      forall i | 0 <= i < |fs| ensures fs[i] == t'.fields[i] {
        UnfoldingIsUnique(h, h[v.ref].fields[i].1, fs[i].1, t'.fields[i].1);
      }
      assert fs == t'.fields;
    case _ =>
  }

  lemma ChildUnfolds(h: Heap, r: Ref, c: Value, t: Json) returns (u: Json)
    requires r in h && c in Children(h[r]) && Unfolds(h, Obj(r), t)
    ensures Unfolds(h, c, u) && u < t
  {
    match t
    case JArr(ts) =>
      var i :| 0 <= i < |Children(h[r])| && Children(h[r])[i] == c;
      u := ts[i];
    case JObj(fs) =>
      var i :| 0 <= i < |Children(h[r])| && Children(h[r])[i] == c;
      u := fs[i].1;
      assert fs[i] in fs;
  }

  lemma {:induction false} UnfoldsAreAccepted(h: Heap, v: Value, stack: set<Ref>, t: Json)
    requires Unfolds(h, v, t)
    requires forall r :: r in stack ==> OutOf(h, r, v)
    ensures Accepts(h, v, stack)
    decreases t
  {
    if v.Obj? {
      var r := v.ref;
      if r in stack {
        assert IsPath(h, [r]);
        assert Reaches(h, r, r);
        assert false;
      }
      VisitingShrinks(h, stack, r);
      forall i | 0 <= i < |Children(h[r])| ensures Accepts(h, Children(h[r])[i], stack + {r}) {
        var c := Children(h[r])[i];
        var u := ChildUnfolds(h, r, c, t);
        forall s | s in stack + {r} ensures OutOf(h, s, c) {
          if s == r {
            NotBelowItself(h, r, c, t);
          } else {
            OutOfChild(h, s, r, c);
          }
        }
        UnfoldsAreAccepted(h, c, stack + {r}, u);
      }
    }
  }

  // s is not reachable from v.
  ghost predicate OutOf(h: Heap, s: Ref, v: Value) {
    v.Obj? ==> !Reaches(h, v.ref, s)
  }

  lemma ReachesThrough(h: Heap, r: Ref, c: Ref, s: Ref)
    requires Edge(h, r, c) && Reaches(h, c, s)
    ensures Reaches(h, r, s)
  {
    var p :| IsPath(h, p) && p[0] == c && p[|p| - 1] == s;
    ConsPath(h, r, p);
    assert ([r] + p)[0] == r && ([r] + p)[|p|] == s;
  }

  lemma OutOfChild(h: Heap, s: Ref, r: Ref, c: Value)
    requires r in h && c in Children(h[r]) && OutOf(h, s, Obj(r))
    ensures OutOf(h, s, c)
  {
    if c.Obj? && Reaches(h, c.ref, s) {
      ReachesThrough(h, r, c.ref, s);
    }
  }

  lemma NotBelowItself(h: Heap, r: Ref, c: Value, t: Json)
    requires r in h && c in Children(h[r]) && Unfolds(h, Obj(r), t)
    ensures OutOf(h, r, c)
  {
    if c.Obj? && Reaches(h, c.ref, r) {
      var u := ChildUnfolds(h, r, c, t);
      var p :| IsPath(h, p) && p[0] == c.ref && p[|p| - 1] == r;
      var w := PathUnfolds(h, p, u);
      UnfoldingIsUnique(h, Obj(r), t, w);
      assert false;
    }
  }

  lemma {:induction false} PathUnfolds(h: Heap, p: seq<Ref>, t: Json) returns (u: Json)
    requires IsPath(h, p) && Unfolds(h, Obj(p[0]), t)
    ensures Unfolds(h, Obj(p[|p| - 1]), u) && (u == t || u < t)
    decreases p
  {
    if |p| == 1 {
      u := t;
    } else {
      assert Edge(h, p[0], p[1]);
      var w := ChildUnfolds(h, p[0], Obj(p[1]), t);
      TailIsPath(h, p);
      u := PathUnfolds(h, p[1..], w);
    }
  }

  function Assembled(n: Node, ts: seq<Json>): Json
    requires |ts| == |Children(n)|
  {
    match n
    case Array(items) => JArr(ts)
    case Plain(fields) => JObj(seq(|fields|, i requires 0 <= i < |fields| => (fields[i].0, ts[i])))
    case _ => JNull
  }

  lemma AssembledUnfolds(h: Heap, r: Ref, ts: seq<Json>)
    requires r in h && (h[r].Array? || h[r].Plain?) && |ts| == |Children(h[r])|
    requires forall i :: 0 <= i < |ts| ==> Unfolds(h, Children(h[r])[i], ts[i])
    ensures Unfolds(h, Obj(r), Assembled(h[r], ts))
  {
    if h[r].Array? {
      assert Assembled(h[r], ts) == JArr(ts);
    } else {
      var fs := Assembled(h[r], ts).fields;
      assert forall i :: 0 <= i < |fs| ==> h[r].fields[i].1 == Children(h[r])[i];
    }
  }

  lemma {:induction false} AcceptedUnfolds(h: Heap, v: Value, stack: set<Ref>) returns (t: Json)
    requires Accepts(h, v, stack)
    ensures Unfolds(h, v, t)
    decreases Unvisited(h, stack)
  {
    match v
    case Null => t := JNull;
    case Str(s) => t := JStr(s);
    case Bool(b) => t := JBool(b);
    case Num(n) => t := JNum(n.n);
    case Obj(r) =>
      VisitingShrinks(h, stack, r);
      hide Children, Assembled, Unfolds;
      var ts := ChildTrees(h, r, stack, Children(h[r]));
      AssembledUnfolds(h, r, ts);
      t := Assembled(h[r], ts);
    case _ =>
  }

  lemma {:induction false} ChildTrees(h: Heap, r: Ref, stack: set<Ref>, vs: seq<Value>) returns (ts: seq<Json>)
    requires r in h && r !in stack && forall i :: 0 <= i < |vs| ==> Accepts(h, vs[i], stack + {r})
    ensures |ts| == |vs| && forall i :: 0 <= i < |vs| ==> Unfolds(h, vs[i], ts[i])
    decreases Unvisited(h, stack), 0, |vs|
  {
    VisitingShrinks(h, stack, r);
    if vs == [] {
      ts := [];
    } else {
      var first := AcceptedUnfolds(h, vs[0], stack + {r});
      var rest := ChildTrees(h, r, stack, vs[1..]);
      ts := [first] + rest;
    }
  }

  // Equivalently, the check accepts exactly the values that stand for one finite JSON
  // tree: what it lets through can be written out as JSON, and nothing that can be is
  // refused.
  lemma AcceptsMeansJson(h: Heap, v: Value)
    ensures Accepts(h, v, {}) <==> exists t :: Unfolds(h, v, t)
  {
    hide Accepts, Unfolds;
    if Accepts(h, v, {}) {
      var t := AcceptedUnfolds(h, v, {});
      assert Unfolds(h, v, t);
    }
    if exists t :: Unfolds(h, v, t) {
      var t :| Unfolds(h, v, t);
      UnfoldsAreAccepted(h, v, {}, t);
    }
  }

  // ---- the code ----

  datatype Outcome = Returned(value: bool) | Thrown

  class JsonCheck {
    const heap: Heap
    var stack: set<Ref>

    constructor (heap: Heap)
      ensures this.heap == heap && stack == {}
    {
      this.heap := heap;
      stack := {};
    }

    // isJsonValue. Whatever the outcome, the path stack is restored.
    method IsJsonValue(v: Value) returns (r: Outcome)
      requires Closed(heap) && InHeap(heap, v) && !v.Throws?
      modifies this
      ensures stack == old(stack)
      ensures r == Returned(true) <==> Accepts(heap, v, old(stack))
      decreases Unvisited(heap, stack), 1
    {
      hide Accepts, Children;
      if !v.Obj? {
        AcceptsLeaf(heap, v, stack);
        r := Returned(v.Null? || v.Str? || v.Bool? || (v.Num? && v.number.Finite?));
        return;
      }
      var ref := v.ref;
      AcceptsObject(heap, ref, stack);
      if heap[ref].Date? || heap[ref].Other? || ref in stack {
        return Returned(false);
      }
      VisitingShrinks(heap, stack, ref);
      stack := stack + {ref};
      r := AllChildren(ref);
      stack := stack - {ref};
    }

    // The loop over the items of an array or the values of a plain object.
    method AllChildren(ref: Ref) returns (r: Outcome)
      requires Closed(heap) && ref in heap && ref in stack
      modifies this
      ensures stack == old(stack)
      ensures r == Returned(true) <==>
                forall i :: 0 <= i < |Children(heap[ref])| ==> Accepts(heap, Children(heap[ref])[i], old(stack))
      decreases Unvisited(heap, stack), 2
    {
      var children := Children(heap[ref]);
      var i := 0;
      while i < |children|
        invariant 0 <= i <= |children| && stack == old(stack)
        invariant forall j :: 0 <= j < i ==> Accepts(heap, children[j], old(stack))
      {
        if children[i].Throws? {
          assert !Accepts(heap, children[i], stack);
          return Thrown;
        }
        r := IsJsonValue(children[i]);
        if r != Returned(true) {
          return;
        }
        i := i + 1;
      }
      return Returned(true);
    }
  }

  // isJsonObject: a plain root, and a throw counts as false.
  method IsJsonObject(h: Heap, v: Value) returns (r: bool)
    requires Closed(h) && InHeap(h, v) && !v.Throws?
    ensures r <==> v.Obj? && h[v.ref].Plain? && JsonGraphFrom(h, v)
    ensures r <==> exists fields :: Unfolds(h, v, JObj(fields))
  {
    ghost var plain := v.Obj? && h[v.ref].Plain?;
    AcceptsMeansGraph(h, v);
    AcceptsMeansJson(h, v);
    if !v.Obj? || !h[v.ref].Plain? {
      return false;
    }
    var check := new JsonCheck(h);
    var outcome := check.IsJsonValue(v);
    r := outcome == Returned(true);
    if r {
      ghost var t :| Unfolds(h, v, t);
      assert t == JObj(t.fields);
    }
  }
}
