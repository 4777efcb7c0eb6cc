/** The subagent registry as a value: who is a child of whom, which frames
    are held for threads nobody has named, and the two bounded walks over the
    parent relation. */
module ChildTree {
  import opened Basics
  import opened Events

  const ORPHAN_THREAD_LIMIT: nat := 32
  const ORPHAN_EVENT_LIMIT: nat := 256
  const CHILD_LIMIT: nat := 1024
  const WALK_LIMIT: nat := 64

  datatype Reg = Reg(
    children: map<Id, Child>,
    childOrder: seq<Id>,
    turns: map<Id, Id>,
    orphans: map<Id, seq<Held>>,
    orphanOrder: seq<Id>)

  const EMPTY_REG := Reg(map[], [], map[], map[], [])

  /** A Go map lookup: an absent thread has turn "". */
  function TurnOf(turns: map<Id, Id>, id: Id): Id {
    if id in turns then turns[id] else NO_ID
  }

  /** order lists exactly keys, each once. */
  ghost predicate Lists(order: seq<Id>, keys: set<Id>) {
    Distinct(order) && Elems(order) == keys
  }

  /** Every child is filed under its own id and is not its own parent. */
  ghost predicate Filed(children: map<Id, Child>) {
    forall k :: k in children ==> children[k].threadID == k && children[k].parentID != k && k != NO_ID
  }

  /** Every held thread holds between 1 and 256 events. */
  ghost predicate Buffered(orphans: map<Id, seq<Held>>) {
    forall k :: k in orphans ==> 1 <= |orphans[k]| <= ORPHAN_EVENT_LIMIT && k != NO_ID
  }

  /** The representation invariant the four linked structures keep. */
  ghost predicate RegOk(r: Reg) {
    && Lists(r.childOrder, r.children.Keys)
    && Lists(r.orphanOrder, r.orphans.Keys)
    && r.children.Keys !! r.orphans.Keys
    && Filed(r.children)
    && Buffered(r.orphans)
    && |r.orphanOrder| <= ORPHAN_THREAD_LIMIT
  }

  /** Drop threads from every structure. */
  function ForgetAll(r: Reg, gone: set<Id>): Reg {
    Reg(r.children - gone, Without(r.childOrder, gone), r.turns - gone, r.orphans - gone, Without(r.orphanOrder, gone))
  }

  lemma ForgetKeepsOk(r: Reg, gone: set<Id>)
    requires RegOk(r)
    ensures RegOk(ForgetAll(r, gone))
  {
    ListsWithout(r.childOrder, r.children.Keys, gone);
    ListsWithout(r.orphanOrder, r.orphans.Keys, gone);
    assert (r.children - gone).Keys == r.children.Keys - gone;
    assert (r.orphans - gone).Keys == r.orphans.Keys - gone;
    WithoutMembers(r.orphanOrder, gone);
  }

  // ---- eviction ----

  /** The first n idle ids of order. */
  function OldestIdle(order: seq<Id>, turns: map<Id, Id>, n: nat): set<Id> {
    if n == 0 || order == [] then {}
    else if TurnOf(turns, order[0]) == NO_ID then {order[0]} + OldestIdle(order[1..], turns, n - 1)
    else OldestIdle(order[1..], turns, n)
  }

  /** How many children a registry of this size has too many. */
  function Excess(n: nat): nat {
    if n <= CHILD_LIMIT then 0 else n - CHILD_LIMIT
  }

  function Evicted(r: Reg, c: Child): set<Id> {
    OldestIdle(r.childOrder + [c.threadID], r.turns, Excess(|r.childOrder| + 1))
  }

  function AddChild(r: Reg, c: Child): Reg {
    var out := Evicted(r, c);
    r.(children := r.children[c.threadID := c] - out, childOrder := Without(r.childOrder + [c.threadID], out))
  }

  /** An evicted thread has no idle elder that stayed. */
  ghost predicate OldestFirst(order: seq<Id>, turns: map<Id, Id>, out: set<Id>) {
    forall i, j :: 0 <= i < j < |order| && order[j] in out && TurnOf(turns, order[i]) == NO_ID ==> order[i] in out
  }

  ghost predicate AllIdle(turns: map<Id, Id>, ids: set<Id>) {
    forall x :: x in ids ==> TurnOf(turns, x) == NO_ID
  }

  ghost predicate AllRunning(turns: map<Id, Id>, ids: set<Id>) {
    forall x :: x in ids ==> TurnOf(turns, x) != NO_ID
  }

  lemma {:induction false} OldestIdleFacts(order: seq<Id>, turns: map<Id, Id>, n: nat)
    requires Distinct(order)
    ensures var out := OldestIdle(order, turns, n);
      && (forall x :: x in out ==> x in order && TurnOf(turns, x) == NO_ID)
      && |out| <= n
      && |Without(order, out)| == |order| - |out|
      && (|out| < n ==> forall x :: x in order && TurnOf(turns, x) == NO_ID ==> x in out)
  {
    if n != 0 && order != [] {
      var rest := order[1..];
      assert order == [order[0]] + rest;
      var m := if TurnOf(turns, order[0]) == NO_ID then n - 1 else n;
      OldestIdleFacts(rest, turns, m);
      WithoutSame(rest, OldestIdle(order, turns, n), OldestIdle(rest, turns, m));
    } else {
      WithoutNothing(order, {});
    }
  }

  lemma {:induction false} OldestIdleFirst(order: seq<Id>, turns: map<Id, Id>, n: nat)
    requires Distinct(order)
    ensures OldestFirst(order, turns, OldestIdle(order, turns, n))
  {
    if n != 0 && order != [] {
      var rest := order[1..];
      assert forall i :: 0 <= i < |rest| ==> rest[i] == order[i + 1];
      var m := if TurnOf(turns, order[0]) == NO_ID then n - 1 else n;
      var out, outRest := OldestIdle(order, turns, n), OldestIdle(rest, turns, m);
      OldestIdleFirst(rest, turns, m);
      forall i, j | 0 <= i < j < |order| && order[j] in out && TurnOf(turns, order[i]) == NO_ID
        ensures order[i] in out
      {
        if i > 0 {
          assert rest[j - 1] in outRest;
          assert rest[i - 1] in outRest;
        }
      }
    }
  }

  lemma {:induction false} WithoutSame<T>(s: seq<T>, d: set<T>, e: set<T>)
    requires forall x :: x in s ==> (x in d <==> x in e)
    ensures Without(s, d) == Without(s, e)
  {
    if s != [] {
      assert forall x :: x in s[1..] ==> x in s;
      WithoutSame(s[1..], d, e);
    }
  }

  lemma ListsAppend(order: seq<Id>, keys: set<Id>, x: Id)
    requires Lists(order, keys) && x !in keys
    ensures Lists(order + [x], keys + {x})
    ensures |order| == |keys|
  {
    DistinctCount(order);
    DistinctAppend(order, x);
    assert Elems(order + [x]) == Elems(order) + {x};
  }

  lemma ListsCount<V>(order: seq<Id>, m: map<Id, V>)
    requires Lists(order, m.Keys)
    ensures |order| == |m|
  {
    DistinctCount(order);
    assert |m| == |m.Keys|;
  }

  lemma ListsWithout(order: seq<Id>, keys: set<Id>, out: set<Id>)
    requires Lists(order, keys)
    ensures Lists(Without(order, out), keys - out)
    ensures |Without(order, out)| == |keys - out|
  {
    WithoutMembers(order, out);
    DistinctCount(Without(order, out));
  }

  lemma {:induction false} AddMembers(r: Reg, c: Child)
    requires Lists(r.childOrder, r.children.Keys) && c.threadID !in r.children
    ensures var after := AddChild(r, c);
      && after.children.Keys == r.children.Keys + {c.threadID} - Evicted(r, c)
      && Lists(after.childOrder, after.children.Keys)
      && |after.children| == |after.childOrder|
  {
    var order, out, after := r.childOrder + [c.threadID], Evicted(r, c), AddChild(r, c);
    assert after.children.Keys == r.children.Keys + {c.threadID} - out;
    ListsAppend(r.childOrder, r.children.Keys, c.threadID);
    ListsWithout(order, r.children.Keys + {c.threadID}, out);
  }

  /** Eviction: only idle children go, oldest first, and what is left is at
      most the limit or entirely running. It never evicts below the limit. */
  lemma {:induction false} AddEvictsOldestIdle(r: Reg, c: Child)
    requires Lists(r.childOrder, r.children.Keys) && c.threadID !in r.children
    ensures AllIdle(r.turns, Evicted(r, c))
    ensures OldestFirst(r.childOrder + [c.threadID], r.turns, Evicted(r, c))
    ensures |AddChild(r, c).children| <= CHILD_LIMIT || AllRunning(r.turns, AddChild(r, c).children.Keys)
    ensures Evicted(r, c) != {} ==> |AddChild(r, c).children| >= CHILD_LIMIT
    ensures c.threadID !in AddChild(r, c).children <==> TurnedAway(r, c.threadID)
  {
    NewcomerEvictedIff(r, c);
    var order, out := r.childOrder + [c.threadID], Evicted(r, c);
    ListsAppend(r.childOrder, r.children.Keys, c.threadID);
    AddMembers(r, c);
    OldestIdleFacts(order, r.turns, Excess(|order|));
    OldestIdleFirst(order, r.turns, Excess(|order|));
    assert out != {} ==> |out| > 0;
    var keys := AddChild(r, c).children.Keys;
    if |AddChild(r, c).children| > CHILD_LIMIT {
      forall x | x in keys ensures TurnOf(r.turns, x) != NO_ID {
        assert x in Elems(order);
      }
    }
  }

  /** How many idle ids a list has. */
  function Idle(order: seq<Id>, turns: map<Id, Id>): nat {
    if order == [] then 0
    else (if TurnOf(turns, order[0]) == NO_ID then 1 else 0) + Idle(order[1..], turns)
  }

  lemma {:induction false} LastEvictedIff(order: seq<Id>, turns: map<Id, Id>, x: Id, n: nat)
    requires x !in order
    ensures x in OldestIdle(order + [x], turns, n) <==> TurnOf(turns, x) == NO_ID && Idle(order, turns) < n
    decreases |order|
  {
    var all := order + [x];
    if order == [] {
      assert all[1..] == [];
    } else {
      assert all[1..] == order[1..] + [x];
      if n > 0 {
        LastEvictedIff(order[1..], turns, x, if TurnOf(turns, order[0]) == NO_ID then n - 1 else n);
      }
    }
  }

  /** A newcomer the registry does not keep: it is idle, and its idle elders
      are too few to make room. */
  predicate TurnedAway(r: Reg, x: Id) {
    TurnOf(r.turns, x) == NO_ID && Idle(r.childOrder, r.turns) < Excess(|r.childOrder| + 1)
  }

  /** The child just added is itself evicted exactly when it is turned away. */
  lemma NewcomerEvictedIff(r: Reg, c: Child)
    requires Lists(r.childOrder, r.children.Keys) && c.threadID !in r.children
    ensures c.threadID !in AddChild(r, c).children <==> TurnedAway(r, c.threadID)
  {
    assert c.threadID !in Elems(r.childOrder);
    LastEvictedIff(r.childOrder, r.turns, c.threadID, Excess(|r.childOrder| + 1));
  }

  // ---- the walk up ----

  function RootWalk(children: map<Id, Child>, id: Id, steps: nat): Id
    decreases steps
  {
    if steps == 0 || id !in children then id else RootWalk(children, children[id].parentID, steps - 1)
  }

  /** The first ancestor that is not a child, giving up after 64 of them. */
  function Root(children: map<Id, Child>, c: Child): Id {
    RootWalk(children, c.parentID, WALK_LIMIT)
  }

  /** The k-th ancestor of x; x itself is its 0-th. */
  ghost function Up(children: map<Id, Child>, x: Id, k: nat): Option<Id>
    decreases k
  {
    if k == 0 then Some(x)
    else if x in children then Up(children, children[x].parentID, k - 1)
    else None
  }

  ghost predicate IsUp(children: map<Id, Child>, x: Id, k: nat, t: Id) {
    Up(children, x, k) == Some(t)
  }

  /** t is a proper ancestor of x at most n steps up. */
  ghost predicate Under(children: map<Id, Child>, x: Id, t: Id, n: nat) {
    exists k: nat :: 1 <= k <= n && IsUp(children, x, k, t)
  }

  /** t is x or an ancestor of it at most n steps up. */
  ghost predicate Within(children: map<Id, Child>, x: Id, t: Id, n: nat) {
    exists k: nat :: k <= n && IsUp(children, x, k, t)
  }

  lemma WithinUnder(children: map<Id, Child>, x: Id, t: Id, n: nat)
    requires x in children
    ensures Under(children, x, t, n + 1) <==> Within(children, children[x].parentID, t, n)
    ensures Within(children, x, t, n + 1) <==> x == t || Under(children, x, t, n + 1)
  {
    var p := children[x].parentID;
    if Under(children, x, t, n + 1) {
      var k: nat :| 1 <= k <= n + 1 && IsUp(children, x, k, t);
      assert IsUp(children, p, k - 1, t);
    }
    if Within(children, p, t, n) {
      var k: nat :| k <= n && IsUp(children, p, k, t);
      assert IsUp(children, x, k + 1, t);
    }
    if Within(children, x, t, n + 1) {
      var k: nat :| k <= n + 1 && IsUp(children, x, k, t);
    }
    if x == t {
      assert IsUp(children, x, 0, t);
    }
  }

  lemma WithinHere(children: map<Id, Child>, x: Id, t: Id, n: nat)
    requires x !in children || n == 0
    ensures Within(children, x, t, n) <==> x == t
  {
    if Within(children, x, t, n) {
      var k: nat :| k <= n && IsUp(children, x, k, t);
    }
    assert IsUp(children, x, 0, x);
  }

  lemma {:induction false} UpCompose(children: map<Id, Child>, x: Id, k: nat, y: Id, m: nat)
    requires Up(children, x, k) == Some(y)
    ensures Up(children, x, k + m) == Up(children, y, m)
    decreases k
  {
    if k > 0 {
      UpCompose(children, children[x].parentID, k - 1, y, m);
    }
  }

  /** A chain reaches a thread that is not a child at one distance only. */
  lemma {:induction false} UpUnique(children: map<Id, Child>, x: Id, k: nat, m: nat, t: Id)
    requires t !in children && Up(children, x, k) == Some(t) && Up(children, x, m) == Some(t)
    ensures k == m
  {
    if k < m {
      UpCompose(children, x, k, t, m - k);
    } else if m < k {
      UpCompose(children, x, m, t, k - m);
    }
  }

  lemma {:induction false} RootWalkReaches(children: map<Id, Child>, id: Id, steps: nat, t: Id)
    requires t !in children
    ensures RootWalk(children, id, steps) == t <==> Within(children, id, t, steps)
    decreases steps
  {
    if steps == 0 || id !in children {
      WithinHere(children, id, t, steps);
    } else {
      RootWalkReaches(children, children[id].parentID, steps - 1, t);
      WithinUnder(children, id, t, steps - 1);
    }
  }

  /** The walk up and the walk down agree: a child's root is t exactly when
      the child lies at most 65 steps under t. */
  lemma RootIffUnder(children: map<Id, Child>, x: Id, t: Id)
    requires x in children && t !in children
    ensures Root(children, children[x]) == t <==> Under(children, x, t, WALK_LIMIT + 1)
  {
    RootWalkReaches(children, children[x].parentID, WALK_LIMIT, t);
    WithinUnder(children, x, t, WALK_LIMIT);
  }

  // ---- making a thread a root ----

  /** id is met among the first steps + 1 threads of the walk. */
  predicate Passes(children: map<Id, Child>, id: Id, steps: nat, x: Id)
    decreases steps
  {
    id == x || (steps > 0 && id in children && Passes(children, children[id].parentID, steps - 1, x))
  }

  lemma {:induction false} DetachWalk(children: map<Id, Child>, id: Id, steps: nat, x: Id)
    ensures RootWalk(children - {x}, id, steps)
         == if Passes(children, id, steps, x) then x else RootWalk(children, id, steps)
    decreases steps
  {
    if id != x && steps > 0 && id in children {
      DetachWalk(children, children[id].parentID, steps - 1, x);
    }
  }

  /** Detaching x makes it the root of exactly the children whose bounded
      chain passes through it, and moves nobody else. */
  lemma DetachMakesRoot(r: Reg, x: Id, y: Id)
    requires y in r.children && y != x
    ensures var after := ForgetAll(r, {x}); var p := r.children[y].parentID;
      && y in after.children && after.children[y] == r.children[y]
      && (Passes(r.children, p, WALK_LIMIT, x) ==> Root(after.children, after.children[y]) == x)
      && (!Passes(r.children, p, WALK_LIMIT, x) ==>
            Root(after.children, after.children[y]) == Root(r.children, r.children[y]))
  {
    DetachWalk(r.children, r.children[y].parentID, WALK_LIMIT, x);
  }

  /** Passes says what its name says: x is id or an ancestor of it within
      reach. */
  lemma {:induction false} PassesIffWithin(children: map<Id, Child>, id: Id, steps: nat, x: Id)
    ensures Passes(children, id, steps, x) <==> Within(children, id, x, steps)
    decreases steps
  {
    if steps == 0 || id !in children {
      WithinHere(children, id, x, steps);
    } else {
      PassesIffWithin(children, children[id].parentID, steps - 1, x);
      WithinUnder(children, id, x, steps - 1);
    }
  }
}
