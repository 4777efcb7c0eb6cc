/** The child registry as the object the connection updates in place, proved
    against the value-level registry of ChildTree. */
module Registry {
  import opened Basics
  import opened Events
  import opened ChildTree
  import opened Fabric

  /** ids without id, which it lists at most once. */
  method RemoveID(ids: seq<Id>, id: Id) returns (r: seq<Id>)
    requires Distinct(ids)
    ensures r == Without(ids, {id})
  {
    for i := 0 to |ids|
      invariant id !in ids[..i]
    {
      if ids[i] == id {
        CutIsWithout(ids, i);
        return ids[..i] + ids[i + 1..];
      }
    }
    WithoutNothing(ids, {id});
    return ids;
  }

  lemma {:induction false} CutIsWithout(ids: seq<Id>, i: nat)
    requires Distinct(ids) && i < |ids|
    ensures Without(ids, {ids[i]}) == ids[..i] + ids[i + 1..]
  {
    if i == 0 {
      WithoutNothing(ids[1..], {ids[0]});
    } else {
      CutIsWithout(ids[1..], i - 1);
      assert ids[..i] == [ids[0]] + ids[1..][..i - 1];
      assert ids[i + 1..] == ids[1..][i..];
    }
  }

  /** Deletes id from a map and from the list of its keys. */
  method RemoveKey<V>(m: map<Id, V>, order: seq<Id>, id: Id) returns (m': map<Id, V>, order': seq<Id>)
    requires Lists(order, m.Keys)
    ensures m' == m - {id} && order' == Without(order, {id})
  {
    if id in m {
      m' := m - {id};
      order' := RemoveID(order, id);
    } else {
      WithoutNothing(order, {id});
      m', order' := m, order;
    }
  }

  /** Each listed thread comes after every listed thread under it. */
  ghost predicate DeepestFirst(children: map<Id, Child>, out: seq<Id>) {
    forall i, j, k: nat :: 0 <= i < j < |out| ==> !IsUp(children, out[j], k, out[i])
  }

  class ChildRegistry {
    var children: map<Id, Child>
    var childOrder: seq<Id>
    var turns: map<Id, Id>
    var orphans: map<Id, seq<Held>>
    var orphanOrder: seq<Id>

    ghost function View(): Reg
      reads this
    {
      Reg(children, childOrder, turns, orphans, orphanOrder)
    }

    constructor ()
      ensures View() == EMPTY_REG
    {
      children, childOrder, turns, orphans, orphanOrder := map[], [], map[], map[], [];
    }

    /** Drops a thread from the tree, as a child and as a held thread. */
    method Forget(id: Id)
      requires RegOk(View())
      modifies this
      ensures View() == ForgetAll(old(View()), {id})
      ensures RegOk(View())
    {
      ForgetKeepsOk(View(), {id});
      children, childOrder := RemoveKey(children, childOrder, id);
      orphans, orphanOrder := RemoveKey(orphans, orphanOrder, id);
      turns := turns - {id};
    }

    /** Drops a thread and then each thread of a list. */
    method ForgetList(id: Id, gone: seq<Id>)
      requires RegOk(View())
      modifies this
      ensures View() == ForgetAll(old(View()), Elems(gone) + {id})
      ensures RegOk(View())
    {
      Forget(id);
      assert Elems(gone[..0]) + {id} == {id};
      for i := 0 to |gone|
        invariant RegOk(View())
        invariant View() == ForgetAll(old(View()), Elems(gone[..i]) + {id})
      {
        ForgetTwice(old(View()), Elems(gone[..i]) + {id}, {gone[i]});
        assert Elems(gone[..i + 1]) + {id} == Elems(gone[..i]) + {id} + {gone[i]};
        Forget(gone[i]);
      }
      assert gone[..|gone|] == gone;
    }

    /** Holds an event for a thread nobody has named. */
    method HoldEvent(t: Id, ev: Event)
      requires RegOk(View()) && t !in children
      modifies this
      ensures View() == Hold(old(View()), t, ev)
    {
      var held := if t in orphans then orphans[t] else [];
      HoldTrims(held, Held(ev, TurnOf(turns, t)));
      if t !in orphans {
        if |orphanOrder| >= ORPHAN_THREAD_LIMIT {
          assert orphanOrder[0] in orphans.Keys;
          Forget(orphanOrder[0]);
        }
        orphanOrder := orphanOrder + [t];
      }
      if |held| >= ORPHAN_EVENT_LIMIT {
        held := held[1..];
      }
      orphans := orphans[t := held + [Held(ev, TurnOf(turns, t))]];
    }

    /** Stops holding for x and hands over what was held. */
    method TakeHeld(x: Id) returns (held: seq<Held>)
      requires Lists(orphanOrder, orphans.Keys) && x in orphans
      modifies `orphans, `orphanOrder
      ensures held == old(orphans)[x]
      ensures orphans == old(orphans) - {x} && orphanOrder == Without(old(orphanOrder), {x})
    {
      held := orphans[x];
      orphans, orphanOrder := RemoveKey(orphans, orphanOrder, x);
    }

    /** Takes in what an item says of the child it names. A child the limit
        evicts at once is still returned, but no longer kept. */
    method AdoptChild(parent: Id, turn: Id, item: Item) returns (child: Child)
      requires Lists(childOrder, children.Keys) && item.activity.Some?
      modifies `children, `childOrder
      ensures (View(), child) == Adopt(old(View()), parent, turn, item)
      ensures var a := item.activity.value;
        child.threadID == a.agentThreadID || a.agentThreadID in old(children)
      ensures var a := item.activity.value; a.agentThreadID !in old(children) ==>
        && child.parentID == parent && child.spawnTurnID == turn && child.agentPath == a.agentPath
        && child.toolCallID == if a.kind == KIND_STARTED then item.id else NO_ID
    {
      var a := item.activity.value;
      var x := a.agentThreadID;
      if x in children {
        child := children[x];
      } else {
        child := Child(x, parent, "", NO_ID, turn);
        Add(child);
      }
      if a.agentPath != "" {
        child := child.(agentPath := a.agentPath);
      }
      if a.kind == KIND_STARTED && child.toolCallID == NO_ID {
        child := child.(toolCallID := item.id);
      }
      if x in children {
        children := children[x := child];
      }
    }

    /** Registers a child, evicting the oldest idle children past the limit. */
    method Add(c: Child)
      requires Lists(childOrder, children.Keys) && c.threadID !in children
      modifies `children, `childOrder
      ensures View() == AddChild(old(View()), c)
    {
      children, childOrder := children[c.threadID := c], childOrder + [c.threadID];
      EvictIdle();
      AddIsScan(old(View()), c);
    }

    method EvictIdle()
      modifies `children, `childOrder
      ensures (children, childOrder) == EvictFrom(old(children), old(childOrder), turns, 0)
    {
      var i: nat := 0;
      while |children| > CHILD_LIMIT && i < |childOrder|
        invariant i <= |childOrder|
        invariant EvictFrom(children, childOrder, turns, i) == EvictFrom(old(children), old(childOrder), turns, 0)
        decreases |childOrder| - i
      {
        i := EvictOne(i);
      }
    }

    /** One turn of the eviction loop: on to the next child, or without this one. */
    method EvictOne(i: nat) returns (j: nat)
      requires |children| > CHILD_LIMIT && i < |childOrder|
      modifies `children, `childOrder
      ensures j <= |childOrder| && |childOrder| - j < |old(childOrder)| - i
      ensures EvictFrom(children, childOrder, turns, j) == EvictFrom(old(children), old(childOrder), turns, i)
    {
      EvictNext(children, childOrder, turns, i);
      var id := childOrder[i];
      if TurnOf(turns, id) != NO_ID {
        j := i + 1;
      } else {
        children := children - {id};
        childOrder := childOrder[..i] + childOrder[i + 1..];
        j := i;
      }
    }

    /** Walks up from a child to the first ancestor that is not one. */
    method RootOf(c: Child) returns (id: Id)
      ensures id == Root(children, c)
    {
      id := c.parentID;
      for n := 0 to WALK_LIMIT
        invariant RootWalk(children, id, WALK_LIMIT - n) == Root(children, c)
      {
        if id !in children {
          return;
        }
        id := children[id].parentID;
      }
    }

    /** The children under parent, each after those under it; top is the
        thread the walk began at, depth steps above parent. */
    method Walk(parent: Id, depth: nat, ghost top: Id) returns (out: seq<Id>)
      requires depth <= WALK_LIMIT + 1 && IsUp(children, parent, depth, top)
      ensures forall x :: x in out <==> x in children && Under(children, x, parent, WALK_LIMIT + 1 - depth)
      ensures top !in children ==> Distinct(out) && DeepestFirst(children, out)
      decreases WALK_LIMIT + 1 - depth
    {
      out := [];
      if depth > WALK_LIMIT {
        return;
      }
      var todo := children.Keys;
      ghost var done: set<Id> := {};
      while todo != {}
        invariant done + todo == children.Keys && done !! todo
        invariant forall x :: x in out <==> x in children && Via(children, x, parent, WALK_LIMIT - depth, done)
        invariant top !in children ==> Distinct(out) && DeepestFirst(children, out)
        decreases todo
      {
        var c :| c in todo;
        todo := todo - {c};
        if children[c].parentID == parent {
          assert Up(children, c, depth + 1) == Up(children, parent, depth);
          var under := Walk(c, depth + 1, top);
          if top !in children {
            SubtreesApart(children, out, under, c, parent, depth, top, done);
          }
          out := out + under + [c];
        }
        ViaMore(children, parent, WALK_LIMIT - depth, done, c);
        done := done + {c};
      }
      ViaAll(children, parent, WALK_LIMIT - depth);
    }

    /** Every child under threadID, deepest first. The two bounded walks
        agree: for a thread that is not a child these are exactly the children
        whose root it is, each listed once. */
    method ListDescendants(threadID: Id) returns (out: seq<Id>)
      ensures forall x :: x in out <==> x in Descendants(children, threadID)
      ensures threadID !in children ==>
        && (forall x :: x in out <==> x in children && Root(children, children[x]) == threadID)
        && Distinct(out) && DeepestFirst(children, out)
    {
      assert IsUp(children, threadID, 0, threadID);
      out := Walk(threadID, 0, threadID);
      if threadID !in children {
        forall x | x in children
          ensures Root(children, children[x]) == threadID <==> Under(children, x, threadID, WALK_LIMIT + 1)
        {
          RootIffUnder(children, x, threadID);
        }
      }
    }
  }

  lemma HoldTrims(held: seq<Held>, h: Held)
    requires |held| <= ORPHAN_EVENT_LIMIT
    ensures LastN(held + [h], ORPHAN_EVENT_LIMIT) == (if |held| >= ORPHAN_EVENT_LIMIT then held[1..] else held) + [h]
  {
  }

  lemma ForgetTwice(r: Reg, d: set<Id>, e: set<Id>)
    ensures ForgetAll(ForgetAll(r, d), e) == ForgetAll(r, d + e)
  {
    WithoutTwice(r.childOrder, d, e);
    WithoutTwice(r.orphanOrder, d, e);
    assert r.children - d - e == r.children - (d + e);
    assert r.turns - d - e == r.turns - (d + e);
    assert r.orphans - d - e == r.orphans - (d + e);
  }

  /** The eviction scan from index i on. */
  function EvictFrom(children: map<Id, Child>, order: seq<Id>, turns: map<Id, Id>, i: nat): (map<Id, Child>, seq<Id>)
    requires i <= |order|
    decreases |order| - i
  {
    if |children| <= CHILD_LIMIT || i == |order| then (children, order)
    else if TurnOf(turns, order[i]) != NO_ID then EvictFrom(children, order, turns, i + 1)
    else EvictFrom(children - {order[i]}, order[..i] + order[i + 1..], turns, i)
  }

  /** One turn of the scan. */
  lemma EvictNext(children: map<Id, Child>, order: seq<Id>, turns: map<Id, Id>, i: nat)
    requires |children| > CHILD_LIMIT && i < |order|
    ensures EvictFrom(children, order, turns, i) ==
      if TurnOf(turns, order[i]) != NO_ID then EvictFrom(children, order, turns, i + 1)
      else EvictFrom(children - {order[i]}, order[..i] + order[i + 1..], turns, i)
  {
  }

  /** The eviction scan has passed over kept and evicted out; rest is still
      to be looked at, and goal is what will have been evicted in the end. */
  ghost predicate Scan(order: seq<Id>, turns: map<Id, Id>, goal: set<Id>,
                       kept: seq<Id>, rest: seq<Id>, out: set<Id>, left: map<Id, Child>) {
    && Distinct(rest) && Elems(rest) <= left.Keys && left.Keys !! out
    && AllIdle(turns, goal)
    && goal == out + OldestIdle(rest, turns, Excess(|left|))
    && Without(order, goal) == kept + Without(rest, goal)
  }

  lemma CutFirst(kept: seq<Id>, rest: seq<Id>)
    requires rest != []
    ensures (kept + rest)[..|kept|] + (kept + rest)[|kept| + 1..] == kept + rest[1..]
  {
  }

  lemma MoveFirst(kept: seq<Id>, rest: seq<Id>)
    requires rest != []
    ensures kept + rest == kept + [rest[0]] + rest[1..]
  {
  }

  lemma ScanStart(r: Reg, c: Child)
    requires Lists(r.childOrder, r.children.Keys) && c.threadID !in r.children
    ensures var order := r.childOrder + [c.threadID];
      Scan(order, r.turns, Evicted(r, c), [], order, {}, r.children[c.threadID := c])
  {
    var order, kids := r.childOrder + [c.threadID], r.children[c.threadID := c];
    ListsAppend(r.childOrder, r.children.Keys, c.threadID);
    assert kids.Keys == r.children.Keys + {c.threadID};
    ListsCount(order, kids);
    OldestIdleFacts(order, r.turns, Excess(|order|));
  }

  lemma ScanKeeps(order: seq<Id>, turns: map<Id, Id>, goal: set<Id>,
                  kept: seq<Id>, rest: seq<Id>, out: set<Id>, left: map<Id, Child>)
    requires Scan(order, turns, goal, kept, rest, out, left)
    requires rest != [] && TurnOf(turns, rest[0]) != NO_ID
    ensures Scan(order, turns, goal, kept + [rest[0]], rest[1..], out, left)
  {
    assert rest[0] !in goal;
    assert Elems(rest[1..]) <= Elems(rest);
    assert kept + ([rest[0]] + Without(rest[1..], goal)) == kept + [rest[0]] + Without(rest[1..], goal);
  }

  lemma ScanEvicts(order: seq<Id>, turns: map<Id, Id>, goal: set<Id>,
                   kept: seq<Id>, rest: seq<Id>, out: set<Id>, left: map<Id, Child>)
    requires Scan(order, turns, goal, kept, rest, out, left)
    requires rest != [] && TurnOf(turns, rest[0]) == NO_ID && |left| > CHILD_LIMIT
    ensures Scan(order, turns, goal, kept, rest[1..], out + {rest[0]}, left - {rest[0]})
  {
    assert rest[0] in Elems(rest);
    assert Elems(rest[1..]) <= Elems(rest) - {rest[0]};
    assert (left - {rest[0]}).Keys == left.Keys - {rest[0]};
    assert |left - {rest[0]}| == |left| - 1;
  }

  lemma ScanEnds(order: seq<Id>, turns: map<Id, Id>, goal: set<Id>,
                 kept: seq<Id>, rest: seq<Id>, out: set<Id>, left: map<Id, Child>)
    requires Scan(order, turns, goal, kept, rest, out, left)
    requires |left| <= CHILD_LIMIT || rest == []
    ensures goal == out && Without(order, goal) == kept + rest
  {
    WithoutNothing(rest, out);
  }

  lemma {:induction false} ScanReachesGoal(order: seq<Id>, turns: map<Id, Id>, goal: set<Id>,
                                           kept: seq<Id>, rest: seq<Id>, out: set<Id>, left: map<Id, Child>)
    requires Scan(order, turns, goal, kept, rest, out, left)
    ensures EvictFrom(left, kept + rest, turns, |kept|) == (left - goal, Without(order, goal))
    decreases |rest|
  {
    if |left| <= CHILD_LIMIT || rest == [] {
      ScanEnds(order, turns, goal, kept, rest, out, left);
      assert left - goal == left;
    } else if TurnOf(turns, rest[0]) != NO_ID {
      ScanKeeps(order, turns, goal, kept, rest, out, left);
      MoveFirst(kept, rest);
      ScanReachesGoal(order, turns, goal, kept + [rest[0]], rest[1..], out, left);
    } else {
      ScanEvicts(order, turns, goal, kept, rest, out, left);
      CutFirst(kept, rest);
      ScanReachesGoal(order, turns, goal, kept, rest[1..], out + {rest[0]}, left - {rest[0]});
      assert left - {rest[0]} - goal == left - goal;
    }
  }

  lemma AddIsScan(r: Reg, c: Child)
    requires Lists(r.childOrder, r.children.Keys) && c.threadID !in r.children
    ensures var (kids, order) := EvictFrom(r.children[c.threadID := c], r.childOrder + [c.threadID], r.turns, 0);
      AddChild(r, c) == r.(children := kids, childOrder := order)
  {
    var kids, order := r.children[c.threadID := c], r.childOrder + [c.threadID];
    ScanStart(r, c);
    ScanReachesGoal(order, r.turns, Evicted(r, c), [], order, {}, kids);
    assert [] + order == order;
  }

  // ---- the walk down ----

  /** x is one of done's children of parent, or lies at most n steps under
      one of them. */
  ghost predicate Via(children: map<Id, Child>, x: Id, parent: Id, n: nat, done: set<Id>) {
    exists c :: c in done && c in children && children[c].parentID == parent && (x == c || Under(children, x, c, n))
  }

  lemma ViaMore(children: map<Id, Child>, parent: Id, n: nat, done: set<Id>, c: Id)
    requires c in children
    ensures forall x :: Via(children, x, parent, n, done + {c}) <==>
      || Via(children, x, parent, n, done)
      || (children[c].parentID == parent && (x == c || Under(children, x, c, n)))
  {
  }

  /** The children of parent and what lies under them is what lies under
      parent. */
  lemma ViaAll(children: map<Id, Child>, parent: Id, n: nat)
    ensures forall x :: (x in children && Via(children, x, parent, n, children.Keys)
                         <==> x in children && Under(children, x, parent, n + 1))
  {
    forall x | x in children ensures Via(children, x, parent, n, children.Keys) <==> Under(children, x, parent, n + 1) {
      if Via(children, x, parent, n, children.Keys) {
        var c :| c in children && children[c].parentID == parent && (x == c || Under(children, x, c, n));
        assert Up(children, c, 1) == Up(children, parent, 0);
        if x == c {
          assert IsUp(children, x, 1, parent);
        } else {
          var k: nat :| 1 <= k <= n && IsUp(children, x, k, c);
          UpCompose(children, x, k, c, 1);
          assert IsUp(children, x, k + 1, parent);
        }
      }
      if Under(children, x, parent, n + 1) {
        var k: nat :| 1 <= k <= n + 1 && IsUp(children, x, k, parent);
        LastHop(children, x, k, parent);
        var c :| c in children && children[c].parentID == parent && IsUp(children, x, k - 1, c);
        if k > 1 {
          assert Under(children, x, c, n);
        }
      }
    }
  }

  lemma {:induction false} LastHop(children: map<Id, Child>, x: Id, k: nat, parent: Id)
    requires k >= 1 && Up(children, x, k) == Some(parent)
    ensures exists c :: c in children && children[c].parentID == parent && IsUp(children, x, k - 1, c)
    decreases k
  {
    var p := children[x].parentID;
    if k == 1 {
      assert Up(children, p, 0) == Some(p);
      assert IsUp(children, x, 0, x);
    } else {
      LastHop(children, p, k - 1, parent);
      var c :| c in children && children[c].parentID == parent && IsUp(children, p, k - 2, c);
      assert IsUp(children, x, k - 1, c);
    }
  }

  /** In one tree, two threads at the same depth with a common descendant are
      the same thread. */
  lemma SameDepthSame(children: map<Id, Child>, x: Id, a: nat, c: Id, b: nat, d: Id, m: nat, top: Id)
    requires top !in children
    requires IsUp(children, x, a, c) && IsUp(children, x, b, d)
    requires IsUp(children, c, m, top) && IsUp(children, d, m, top)
    ensures a == b && c == d
  {
    UpCompose(children, x, a, c, m);
    UpCompose(children, x, b, d, m);
    UpUnique(children, x, a + m, b + m, top);
  }

  /** In a tree, nothing under c is also above it. */
  lemma NoLoop(children: map<Id, Child>, c: Id, k: nat, y: Id, m: nat, top: Id)
    requires top !in children && IsUp(children, c, m, top)
    requires IsUp(children, c, k, y)
    ensures forall n: nat :: !Under(children, y, c, n)
  {
    forall a: nat | 1 <= a && IsUp(children, y, a, c) ensures false {
      UpCompose(children, c, k, y, a);
      UpCompose(children, c, k + a, c, m);
      UpUnique(children, c, k + a + m, m, top);
    }
  }

  lemma InSubtree(children: map<Id, Child>, x: Id, c: Id, n: nat)
    requires x == c || Under(children, x, c, n)
    ensures exists k: nat :: IsUp(children, x, k, c)
  {
    if x == c {
      assert IsUp(children, x, 0, c);
    }
  }

  /** Nothing in the subtree of c has an ancestor in that of a sibling. */
  lemma SiblingsApart(children: map<Id, Child>, x: Id, c: Id, y: Id, d: Id, n: nat, m: nat, k: nat, top: Id)
    requires top !in children && c != d
    requires IsUp(children, c, m, top) && IsUp(children, d, m, top)
    requires x == c || Under(children, x, c, n)
    requires y == d || Under(children, y, d, n)
    ensures !IsUp(children, x, k, y)
  {
    InSubtree(children, x, c, n);
    InSubtree(children, y, d, n);
    var b: nat :| IsUp(children, x, b, c);
    var a: nat :| IsUp(children, y, a, d);
    if IsUp(children, x, k, y) {
      UpCompose(children, x, k, y, a);
      assert IsUp(children, x, k + a, d);
      SameDepthSame(children, x, k + a, d, b, c, m, top);
    }
  }

  /** Appending the subtree of c to those of its elder siblings lists nobody
      twice and keeps descendants first. */
  lemma SubtreesApart(children: map<Id, Child>, out: seq<Id>, under: seq<Id>, c: Id, parent: Id,
                      depth: nat, top: Id, done: set<Id>)
    requires top !in children && depth <= WALK_LIMIT && IsUp(children, parent, depth, top)
    requires c in children && children[c].parentID == parent && c !in done
    requires forall x :: x in out ==> Via(children, x, parent, WALK_LIMIT - depth, done)
    requires forall x :: x in under ==> x in children && Under(children, x, c, WALK_LIMIT - depth)
    requires DeepestFirst(children, out)
    requires DeepestFirst(children, under)
    ensures Distinct(out + under + [c]) && DeepestFirst(children, out + under + [c])
  {
    var all, n := out + under + [c], WALK_LIMIT - depth;
    assert IsUp(children, c, depth + 1, top);
    forall i, j, k: nat | 0 <= i < j < |all| ensures !IsUp(children, all[j], k, all[i]) {
      if j < |out| {
        assert all[i] == out[i] && all[j] == out[j];
      } else if i < |out| {
        assert all[i] == out[i] && out[i] in out;
        assert j < |all| - 1 ==> all[j] == under[j - |out|] && under[j - |out|] in under;
        var d :| d in done && d in children && children[d].parentID == parent
              && (all[i] == d || Under(children, all[i], d, n));
        assert IsUp(children, d, depth + 1, top);
        SiblingsApart(children, all[j], c, all[i], d, n, depth + 1, k, top);
      } else {
        assert all[i] == under[i - |out|] && under[i - |out|] in under;
        if j < |all| - 1 {
          assert all[j] == under[j - |out|];
        } else if IsUp(children, c, k, all[i]) {
          NoLoop(children, c, k, all[i], depth + 1, top);
        }
      }
    }
    forall i, j | 0 <= i < j < |all| ensures all[i] != all[j] {
      assert !IsUp(children, all[j], 0, all[i]);
    }
    DistinctIndices(all);
  }
}
