// terminate_descendants: a process snapshot with parent pointers, walked with an
// explicit stack and no visited set, then killed in reverse order.

module Descendants {

  type Pid = nat

  datatype Entry = Entry(pid: Pid, parent: Pid)

  ghost predicate UniquePids(snap: seq<Entry>) {
    forall i, j :: 0 <= i < j < |snap| ==> snap[i].pid != snap[j].pid
  }

  /** The parent pointers of the snapshot. */
  function Parents(snap: seq<Entry>): (m: map<Pid, Pid>)
    ensures forall p :: p in m <==> exists e :: e in snap && e.pid == p
  {
    if snap == [] then map[] else
    var last := snap[|snap| - 1];
    assert snap == snap[..|snap| - 1] + [last];
    Parents(snap[..|snap| - 1])[last.pid := last.parent]
  }

  /** n parent pointers lead from p to root. */
  ghost predicate Climbs(parent: map<Pid, Pid>, p: Pid, root: Pid, n: nat)
    decreases n
  {
    n > 0 && p in parent && if n == 1 then parent[p] == root else Climbs(parent, parent[p], root, n - 1)
  }

  ghost predicate Descendant(parent: map<Pid, Pid>, p: Pid, root: Pid) {
    exists n: nat :: Climbs(parent, p, root, n)
  }

  // ----- the children map -----

  /** The vector that push_back builds for p. */
  function ChildrenOf(snap: seq<Entry>, p: Pid): seq<Pid> {
    if snap == [] then [] else
    var last := snap[|snap| - 1];
    ChildrenOf(snap[..|snap| - 1], p) + if last.parent == p then [last.pid] else []
  }

  method CollectChildren(snap: seq<Entry>) returns (children: map<Pid, seq<Pid>>)
    ensures forall p :: p in children <==> ChildrenOf(snap, p) != []
    ensures forall p :: p in children ==> children[p] == ChildrenOf(snap, p)
  {
    children := map[];
    for i := 0 to |snap|
      invariant forall p :: p in children <==> ChildrenOf(snap[..i], p) != []
      invariant forall p :: p in children ==> children[p] == ChildrenOf(snap[..i], p)
    {
      var e := snap[i];
      assert snap[..i + 1][..i] == snap[..i];
      var siblings := if e.parent in children then children[e.parent] else [];
      children := children[e.parent := siblings + [e.pid]];
    }
    assert snap[..|snap|] == snap;
  }

  ghost predicate Distinct(s: seq<Pid>) {
    forall i, j :: 0 <= i < j < |s| ==> s[i] != s[j]
  }

  /** With unique pids the vector of p lists, once each, the pids whose parent is p. */
  lemma {:induction false} ChildrenAreChildren(snap: seq<Entry>, p: Pid)
    requires UniquePids(snap)
    ensures Distinct(ChildrenOf(snap, p))
    ensures forall c :: c in ChildrenOf(snap, p) <==> c in Parents(snap) && Parents(snap)[c] == p
  {
    if snap != [] {
      var init, last := snap[..|snap| - 1], snap[|snap| - 1];
      ChildrenAreChildren(init, p);
      assert last.pid !in Parents(init);
      assert Parents(snap) == Parents(init)[last.pid := last.parent];
    }
  }

  // ----- one turn of the worklist -----

  /** The stack grows at its end; order is what has been popped. */
  datatype Walk = Walk(stack: seq<Pid>, order: seq<Pid>)

  function Start(snap: seq<Entry>, root: Pid): Walk {
    Walk(ChildrenOf(snap, root), [])
  }

  function Turn(snap: seq<Entry>, w: Walk): Walk {
    if w.stack == [] then w else
    var pid := w.stack[|w.stack| - 1];
    Walk(w.stack[..|w.stack| - 1] + ChildrenOf(snap, pid), w.order + [pid])
  }

  function After(snap: seq<Entry>, root: Pid, n: nat): Walk {
    if n == 0 then Start(snap, root) else Turn(snap, After(snap, root, n - 1))
  }

  ghost predicate Found(parent: map<Pid, Pid>, root: Pid, order: seq<Pid>, p: Pid) {
    p in parent && (parent[p] == root || parent[p] in order)
  }

  /** What every turn keeps. No visited set is needed: a pid could come up twice only if
      its parent did, and so on up to the root. */
  ghost predicate Sound(parent: map<Pid, Pid>, root: Pid, w: Walk)
  {
    var all := w.order + w.stack;
    && (forall p :: p in all ==> p in parent && Descendant(parent, p, root))
    && Distinct(all)
    && (forall i :: 0 <= i < |w.order| ==> Found(parent, root, w.order[..i], w.order[i]))
    && (forall p :: p in w.stack ==> Found(parent, root, w.order, p))
    && (forall c :: Found(parent, root, w.order, c) ==> c in all)
  }

  lemma StartSound(snap: seq<Entry>, root: Pid)
    requires UniquePids(snap)
    ensures Sound(Parents(snap), root, Start(snap, root))
  {
    var parent, kids := Parents(snap), ChildrenOf(snap, root);
    ChildrenAreChildren(snap, root);
    var w := Start(snap, root);
    assert w.order + w.stack == kids;
    forall p | p in kids ensures Descendant(parent, p, root) {
      assert Climbs(parent, p, root, 1);
    }
  }

  lemma ChildDescends(parent: map<Pid, Pid>, c: Pid, root: Pid)
    requires c in parent && Descendant(parent, parent[c], root)
    ensures Descendant(parent, c, root)
  {
    var n: nat :| Climbs(parent, parent[c], root, n);
    assert Climbs(parent, c, root, n + 1);
  }

  /** The children of a popped pid are new. */
  lemma ChildrenNew(parent: map<Pid, Pid>, root: Pid, w: Walk, pid: Pid, c: Pid)
    requires Sound(parent, root, w) && !Descendant(parent, root, root)
    requires pid in w.stack && c in parent && parent[c] == pid
    ensures c !in w.order && c !in w.stack
  {
    var all := w.order + w.stack;
    assert pid in all;
    var k :| 0 <= k < |w.stack| && w.stack[k] == pid;
    assert all[|w.order| + k] == pid;
    assert forall i :: 0 <= i < |w.order| ==> all[i] == w.order[i];
    assert pid !in w.order;
    forall i | 0 <= i < |w.order| ensures w.order[i] != c {
      assert Found(parent, root, w.order[..i], w.order[i]);
      assert parent[w.order[i]] == root || parent[w.order[i]] in w.order;
    }
  }

  lemma TurnDistinct(parent: map<Pid, Pid>, root: Pid, w: Walk, pid: Pid, rest: seq<Pid>, kids: seq<Pid>)
    requires Sound(parent, root, w) && !Descendant(parent, root, root)
    requires w.stack == rest + [pid]
    requires Distinct(kids) && forall c :: c in kids <==> c in parent && parent[c] == pid
    ensures Distinct(w.order + [pid] + (rest + kids))
  {
    var all := w.order + w.stack;
    var next := w.order + [pid] + (rest + kids);
    forall c | c in kids ensures c !in w.order && c !in w.stack {
      ChildrenNew(parent, root, w, pid, c);
    }
    var o, s := |w.order|, |w.stack|;
    var was := (i: int) => if i < o then i else if i == o then o + s - 1 else i - 1;
    assert forall i :: 0 <= i < o + s ==> next[i] == all[was(i)];
    assert forall i :: o + s <= i < |next| ==> next[i] == kids[i - o - s];
    forall i, j | 0 <= i < j < |next| ensures next[i] != next[j] {
      if j < o + s {
        assert was(i) != was(j);
      } else if i < o + s {
        assert next[i] in all && next[j] in kids;
      }
    }
  }

  lemma TurnSound(snap: seq<Entry>, root: Pid, w: Walk)
    requires UniquePids(snap) && w.stack != []
    requires !Descendant(Parents(snap), root, root)
    requires Sound(Parents(snap), root, w)
    ensures Sound(Parents(snap), root, Turn(snap, w))
  {
    var parent := Parents(snap);
    var pid, rest := w.stack[|w.stack| - 1], w.stack[..|w.stack| - 1];
    var kids := ChildrenOf(snap, pid);
    var v := Turn(snap, w);
    assert w.stack == rest + [pid];
    ChildrenAreChildren(snap, pid);
    TurnDistinct(parent, root, w, pid, rest, kids);
    TurnFound(parent, root, w, pid, rest, kids);
    var all, next := w.order + w.stack, v.order + v.stack;
    assert forall p :: p in next <==> p in all || p in kids;
    forall p | p in next ensures p in parent && Descendant(parent, p, root) {
      if p in kids {
        assert pid in all;
        ChildDescends(parent, p, root);
      }
    }
    forall c | Found(parent, root, v.order, c) ensures c in next {
      if parent[c] != pid {
        assert Found(parent, root, w.order, c);
      }
    }
  }

  lemma TurnFound(parent: map<Pid, Pid>, root: Pid, w: Walk, pid: Pid, rest: seq<Pid>, kids: seq<Pid>)
    requires Sound(parent, root, w) && w.stack == rest + [pid]
    requires forall c :: c in kids ==> c in parent && parent[c] == pid
    ensures var order := w.order + [pid];
            && (forall i :: 0 <= i < |order| ==> Found(parent, root, order[..i], order[i]))
            && (forall p :: p in rest + kids ==> Found(parent, root, order, p))
  {
    var order := w.order + [pid];
    assert pid in w.stack;
    forall i | 0 <= i < |order| ensures Found(parent, root, order[..i], order[i]) {
      assert order[..i] == w.order[..i];
      assert w.order[..|w.order|] == w.order;
    }
  }

  lemma {:induction false} DistinctFits(s: seq<Pid>, t: set<Pid>)
    requires Distinct(s) && forall p :: p in s ==> p in t
    ensures |s| <= |t|
  {
    if s != [] {
      var last := s[|s| - 1];
      DistinctFits(s[..|s| - 1], t - {last});
    }
  }

  /** When the stack is empty nothing was missed. */
  lemma {:induction false} EmptyStackComplete(parent: map<Pid, Pid>, root: Pid, w: Walk, p: Pid, n: nat)
    requires Sound(parent, root, w) && w.stack == []
    requires Climbs(parent, p, root, n)
    ensures p in w.order
    decreases n
  {
    if n > 1 {
      EmptyStackComplete(parent, root, w, parent[p], n - 1);
    }
    assert Found(parent, root, w.order, p);
  }

  // ----- the method -----

  /** Every proper descendant exactly once, parents before children. */
  ghost predicate Enumerates(parent: map<Pid, Pid>, root: Pid, order: seq<Pid>) {
    && Distinct(order)
    && (forall p :: p in order <==> Descendant(parent, p, root))
    && (forall p :: p in order ==> p in parent)
    && (forall i, j :: 0 <= i < |order| && 0 <= j < |order| && parent[order[i]] == order[j] ==> j < i)
  }

  lemma SoundEnumerates(parent: map<Pid, Pid>, root: Pid, w: Walk)
    requires Sound(parent, root, w) && w.stack == [] && !Descendant(parent, root, root)
    ensures Enumerates(parent, root, w.order)
  {
    assert w.order + w.stack == w.order;
    forall p | Descendant(parent, p, root) ensures p in w.order {
      var n: nat :| Climbs(parent, p, root, n);
      EmptyStackComplete(parent, root, w, p, n);
    }
    forall i, j | 0 <= i < |w.order| && 0 <= j < |w.order| && parent[w.order[i]] == w.order[j]
      ensures j < i
    {
      assert w.order[j] in w.order;
      assert Found(parent, root, w.order[..i], w.order[i]);
      var k :| 0 <= k < i && w.order[..i][k] == w.order[j];
    }
  }

  method Traverse(snap: seq<Entry>, root: Pid) returns (order: seq<Pid>)
    requires UniquePids(snap) && !Descendant(Parents(snap), root, root)
    ensures Enumerates(Parents(snap), root, order)
  {
    ghost var parent := Parents(snap);
    var children := CollectChildren(snap);
    var stack: seq<Pid> := [];
    order := [];
    if root in children {
      stack := children[root];
    }
    StartSound(snap, root);
    ghost var w := Start(snap, root);
    while stack != []
      invariant w == Walk(stack, order) && Sound(parent, root, w)
      decreases |parent.Keys| - |order|
    {
      TurnSound(snap, root, w);
      w := Turn(snap, w);
      SoundFits(parent, root, w);
      var pid := stack[|stack| - 1];
      stack := stack[..|stack| - 1];
      order := order + [pid];
      if pid in children {
        stack := stack + children[pid];
      }
    }
    SoundEnumerates(parent, root, w);
  }

  /** The pids handed to TerminateProcess, in order. */
  method TerminateDescendants(snap: seq<Entry>, root: Pid, self: Pid) returns (killed: seq<Pid>)
    requires UniquePids(snap) && !Descendant(Parents(snap), root, root)
    ensures Distinct(killed)
    ensures forall p :: p in killed <==> Descendant(Parents(snap), p, root) && p != 0 && p != self
    ensures forall p :: p in killed ==> p in Parents(snap)
    ensures forall i, j :: 0 <= i < |killed| && 0 <= j < |killed| ==>
                             Parents(snap)[killed[i]] == killed[j] ==> i < j
  {
    var order := Traverse(snap, root);
    ghost var at;
    killed, at := ReversePass(order, self);
  }

  method ReversePass(order: seq<Pid>, self: Pid) returns (killed: seq<Pid>, ghost at: seq<nat>)
    ensures Reverse(order, killed, at, 0, self)
  {
    killed, at := [], [];
    for r := |order| downto 0
      invariant Reverse(order, killed, at, r, self)
    {
      var pid := order[r];
      if pid != 0 && pid != self {
        killed := killed + [pid];
        at := at + [r];
      }
    }
  }

  /** What the reverse pass has picked from order[r..], at which positions. */
  ghost predicate Reverse(order: seq<Pid>, killed: seq<Pid>, at: seq<nat>, r: nat, self: Pid) {
    && |at| == |killed|
    && (forall i :: 0 <= i < |at| ==> r <= at[i] < |order| && killed[i] == order[at[i]])
    && (forall i, j :: 0 <= i < j < |at| ==> at[i] > at[j])
    && (forall k :: r <= k < |order| && order[k] != 0 && order[k] != self ==> order[k] in killed)
    && 0 !in killed && self !in killed
  }

  // ----- the cycle through the root -----

  /** The last pointer of a climb from a to x. */
  lemma {:induction false} LastPointer(parent: map<Pid, Pid>, a: Pid, x: Pid, n: nat) returns (c: Pid)
    requires Climbs(parent, a, x, n)
    ensures c in parent && parent[c] == x && (c == a || Descendant(parent, a, c))
    decreases n
  {
    if n == 1 {
      c := a;
    } else {
      c := LastPointer(parent, parent[a], x, n - 1);
      if c == parent[a] {
        assert Climbs(parent, a, c, 1);
      } else {
        var k: nat :| Climbs(parent, parent[a], c, k);
        assert Climbs(parent, a, c, k + 1);
      }
    }
  }

  lemma CyclePushes(snap: seq<Entry>, root: Pid, x: Pid) returns (c: Pid)
    requires UniquePids(snap)
    requires Descendant(Parents(snap), root, root) && Descendant(Parents(snap), root, x)
    ensures c in ChildrenOf(snap, x) && Descendant(Parents(snap), root, c)
  {
    var parent := Parents(snap);
    var n: nat :| Climbs(parent, root, x, n);
    c := LastPointer(parent, root, x, n);
    ChildrenAreChildren(snap, x);
  }

  lemma TurnKeepsCycle(snap: seq<Entry>, root: Pid, w: Walk, x: Pid) returns (y: Pid)
    requires UniquePids(snap) && Descendant(Parents(snap), root, root)
    requires x in w.stack && Descendant(Parents(snap), root, x)
    ensures y in Turn(snap, w).stack && Descendant(Parents(snap), root, y)
  {
    var pid, rest := w.stack[|w.stack| - 1], w.stack[..|w.stack| - 1];
    assert w.stack == rest + [pid];
    y := x;
    if x == pid {
      y := CyclePushes(snap, root, x);
    }
  }

  /** With the root on a cycle the stack always holds a pid of that cycle. */
  lemma {:induction false} CycleNeverEmpties(snap: seq<Entry>, root: Pid, n: nat) returns (x: Pid)
    requires UniquePids(snap) && Descendant(Parents(snap), root, root)
    ensures x in After(snap, root, n).stack && Descendant(Parents(snap), root, x)
  {
    if n == 0 {
      x := CyclePushes(snap, root, root);
    } else {
      var w := After(snap, root, n - 1);
      x := CycleNeverEmpties(snap, root, n - 1);
      x := TurnKeepsCycle(snap, root, w, x);
      assert After(snap, root, n) == Turn(snap, w);
    }
  }

  /** While it has not ended, the loop pops a new descendant on every turn. */
  lemma {:induction false} AfterSound(snap: seq<Entry>, root: Pid, n: nat)
    requires UniquePids(snap) && !Descendant(Parents(snap), root, root)
    ensures Sound(Parents(snap), root, After(snap, root, n))
    ensures After(snap, root, n).stack == [] || |After(snap, root, n).order| == n
  {
    if n == 0 {
      StartSound(snap, root);
    } else {
      AfterSound(snap, root, n - 1);
      if After(snap, root, n - 1).stack != [] {
        TurnSound(snap, root, After(snap, root, n - 1));
      }
    }
  }

  lemma SoundFits(parent: map<Pid, Pid>, root: Pid, w: Walk)
    requires Sound(parent, root, w)
    ensures |w.order| <= |parent.Keys|
  {
    assert forall i :: 0 <= i < |w.order| ==> (w.order + w.stack)[i] == w.order[i];
    assert forall p :: p in w.order ==> p in w.order + w.stack;
    DistinctFits(w.order, parent.Keys);
  }

  lemma EndsWithoutCycle(snap: seq<Entry>, root: Pid)
    requires UniquePids(snap) && !Descendant(Parents(snap), root, root)
    ensures exists n: nat :: After(snap, root, n).stack == []
  {
    var n := |Parents(snap).Keys| + 1;
    AfterSound(snap, root, n);
    SoundFits(Parents(snap), root, After(snap, root, n));
  }

  /** The loop ends exactly when the root does not descend from itself. */
  lemma EndsUnlessCycle(snap: seq<Entry>, root: Pid)
    requires UniquePids(snap)
    ensures (exists n: nat :: After(snap, root, n).stack == []) <==> !Descendant(Parents(snap), root, root)
  {
    if Descendant(Parents(snap), root, root) {
      forall n: nat ensures After(snap, root, n).stack != [] {
        var x := CycleNeverEmpties(snap, root, n);
      }
    } else {
      EndsWithoutCycle(snap, root);
    }
  }

  /** Two processes that name each other as parent: the stack never empties. */
  lemma TwoInACycle(n: nat)
    ensures After([Entry(1, 2), Entry(2, 1)], 1, n).stack != []
  {
    var snap := [Entry(1, 2), Entry(2, 1)];
    assert snap[..1] == [Entry(1, 2)] && Parents([Entry(1, 2)]) == map[1 := 2];
    assert Climbs(Parents(snap), 1, 1, 2);
    var x := CycleNeverEmpties(snap, 1, n);
  }
}
