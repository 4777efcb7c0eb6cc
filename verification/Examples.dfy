/** Inputs at which the limits of the registry show: a newcomer that is turned
    away, and a child named after more frames than are held for it. */
module Examples {
  import opened Basics
  import opened Events
  import opened ChildTree
  import opened Fabric
  import opened LateNaming

  /** Ids enough: the n-th has n characters. */
  function Nth(n: nat): Id {
    Id(seq(n, i => 'c'))
  }

  lemma NthApart(i: nat, j: nat)
    ensures Nth(i) == Nth(j) <==> i == j
    ensures Nth(i) == NO_ID <==> i == 0
  {
    assert |Nth(i).text| == i && |Nth(j).text| == j && |NO_ID.text| == 0;
    assert Nth(0).text == NO_ID.text;
  }

  /** The ids from the 4th on. */
  function Ids(n: nat): seq<Id> {
    if n == 0 then [] else Ids(n - 1) + [Nth(n + 3)]
  }

  lemma {:induction false} IdsDistinct(n: nat)
    ensures Distinct(Ids(n)) && |Ids(n)| == n
    ensures forall x :: x in Ids(n) ==> exists k :: 4 <= k <= n + 3 && x == Nth(k)
  {
    if n > 0 {
      IdsDistinct(n - 1);
      if Nth(n + 3) in Ids(n - 1) {
        var k :| 4 <= k <= n + 2 && Nth(n + 3) == Nth(k);
        NthApart(n + 3, k);
      }
      DistinctAppend(Ids(n - 1), Nth(n + 3));
    }
  }

  /** Running children of one thread. */
  ghost function Crowd(ids: seq<Id>, root: Id, turn: Id): Reg {
    Reg(map x | x in ids :: Child(x, root, "", NO_ID, NO_ID), ids, map x | x in ids :: turn, map[], [])
  }

  lemma CrowdOk(ids: seq<Id>, root: Id, turn: Id)
    requires Distinct(ids) && root !in ids && NO_ID !in ids
    ensures RegOk(Crowd(ids, root, turn))
  {
    assert Elems(ids) == Crowd(ids, root, turn).children.Keys;
  }

  lemma {:induction false} NobodyIdle(order: seq<Id>, turns: map<Id, Id>)
    requires forall x :: x in order ==> TurnOf(turns, x) != NO_ID
    ensures Idle(order, turns) == 0
  {
    if order != [] {
      assert order[0] in order && forall x :: x in order[1..] ==> x in order;
      NobodyIdle(order[1..], turns);
    }
  }

  lemma CrowdTurnsAway(ids: seq<Id>, root: Id, turn: Id, c: Child)
    requires Distinct(ids) && root !in ids && NO_ID !in ids && turn != NO_ID
    requires |ids| == CHILD_LIMIT && c.threadID !in ids
    ensures var r := Crowd(ids, root, turn);
      RegOk(r) && c.threadID !in r.children && c.threadID !in AddChild(r, c).children
  {
    var r := Crowd(ids, root, turn);
    CrowdOk(ids, root, turn);
    NobodyIdle(ids, r.turns);
    NewcomerEvictedIff(r, c);
  }

  /** An item by which r names x. */
  function Naming(x: Id, r: Id): Action {
    Name(r, NO_ID, Item(NO_ID, Some(Activity("", x, ""))))
  }

  /** Each of ids starts a turn and is named by root. */
  function Gather(ids: seq<Id>, root: Id, turn: Id): seq<Action>
    decreases |ids|
  {
    if ids == [] then []
    else
      var x := ids[|ids| - 1];
      Gather(ids[..|ids| - 1], root, turn) + [NoteTurn(x, turn, true), Naming(x, root)]
  }

  /** Below the limit an add evicts nobody. */
  lemma AddWithRoom(r: Reg, c: Child)
    requires |r.childOrder| < CHILD_LIMIT
    ensures AddChild(r, c)
         == r.(children := r.children[c.threadID := c], childOrder := r.childOrder + [c.threadID])
  {
    assert Excess(|r.childOrder| + 1) == 0 && Evicted(r, c) == {};
    WithoutNothing(r.childOrder + [c.threadID], {});
    assert r.children[c.threadID := c] - {} == r.children[c.threadID := c];
  }

  lemma MapsGrow(ids: seq<Id>, x: Id, root: Id, turn: Id)
    ensures var reg, reg' := Crowd(ids, root, turn), Crowd(ids + [x], root, turn);
      && reg.children[x := Child(x, root, "", NO_ID, NO_ID)] == reg'.children
      && reg.turns[x := turn] == reg'.turns
  {
  }

  lemma CrowdAdds(ids: seq<Id>, x: Id, root: Id, turn: Id)
    requires |ids| < CHILD_LIMIT
    ensures var reg := Crowd(ids, root, turn);
      AddChild(reg.(turns := reg.turns[x := turn]), Child(x, root, "", NO_ID, NO_ID)) == Crowd(ids + [x], root, turn)
  {
    var reg := Crowd(ids, root, turn);
    AddWithRoom(reg.(turns := reg.turns[x := turn]), Child(x, root, "", NO_ID, NO_ID));
    MapsGrow(ids, x, root, turn);
  }

  /** Naming an unknown thread nothing is held for adds it as it is named. */
  lemma NamingAdds(s: Sys, x: Id, root: Id)
    requires x !in s.reg.children && x !in s.reg.orphans && x !in s.threads && x != root && x != NO_ID
    requires var after := AddChild(s.reg, Child(x, root, "", NO_ID, NO_ID));
      x in after.children && after.children[x] == Child(x, root, "", NO_ID, NO_ID) && after.orphans == s.reg.orphans
    ensures Step(s, Naming(x, root)) == s.(reg := AddChild(s.reg, Child(x, root, "", NO_ID, NO_ID)))
  {
    var after := AddChild(s.reg, Child(x, root, "", NO_ID, NO_ID));
    assert after.children[x := after.children[x]] == after.children;
  }

  lemma CrowdGrows(ids: seq<Id>, x: Id, root: Id, turn: Id)
    requires x !in ids && x != root && x != NO_ID && |ids| < CHILD_LIMIT
    ensures var s := Sys({root}, Crowd(ids, root, turn), map[]);
      Step(Step(s, NoteTurn(x, turn, true)), Naming(x, root)) == Sys({root}, Crowd(ids + [x], root, turn), map[])
  {
    CrowdAdds(ids, x, root, turn);
    var reg := Crowd(ids, root, turn);
    var noted := Sys({root}, reg.(turns := reg.turns[x := turn]), map[]);
    assert Step(Sys({root}, reg, map[]), NoteTurn(x, turn, true)) == noted;
    NamingAdds(noted, x, root);
  }

  lemma {:induction false} CrowdReached(ids: seq<Id>, root: Id, turn: Id)
    requires Distinct(ids) && root !in ids && NO_ID !in ids && |ids| <= CHILD_LIMIT
    ensures Run(Sys({root}, EMPTY_REG, map[]), Gather(ids, root, turn)) == Sys({root}, Crowd(ids, root, turn), map[])
    decreases |ids|
  {
    var s := Sys({root}, EMPTY_REG, map[]);
    if ids == [] {
      assert Crowd(ids, root, turn) == EMPTY_REG;
    } else {
      var init, x := ids[..|ids| - 1], ids[|ids| - 1];
      assert ids == init + [x];
      DistinctIndices(ids);
      DistinctIndices(init);
      CrowdReached(init, root, turn);
      RunInTurn(s, Gather(init, root, turn), [NoteTurn(x, turn, true), Naming(x, root)]);
      RunSteps(Run(s, Gather(init, root, turn)), [NoteTurn(x, turn, true), Naming(x, root)]);
      CrowdGrows(init, x, root, turn);
    }
  }

  lemma {:induction false} NewcomerTurnedAwayFrom(ids: seq<Id>, root: Id, turn: Id, x: Id)
    requires Distinct(ids) && root !in ids && NO_ID !in ids && turn != NO_ID && |ids| == CHILD_LIMIT
    requires x !in ids && x != root && x != NO_ID
    ensures var s := Run(START, [Register(root)] + Gather(ids, root, turn));
      |s.reg.children| == CHILD_LIMIT && x !in s.reg.children && x !in Step(s, Naming(x, root)).reg.children
  {
    var r := Crowd(ids, root, turn);
    var empty := Sys({root}, EMPTY_REG, map[]);
    assert ForgetAll(EMPTY_REG, {root}) == EMPTY_REG;
    assert Step(START, Register(root)) == empty;
    RunInTurn(START, [Register(root)], Gather(ids, root, turn));
    assert [Register(root)][1..] == [] && Run(empty, []) == empty;
    CrowdReached(ids, root, turn);
    CrowdOk(ids, root, turn);
    ListsCount(ids, r.children);
    CrowdTurnsAway(ids, root, turn, Child(x, root, "", NO_ID, NO_ID));
  }

  /** For instance, once 1024 threads with a turn running have been named, an
      idle newcomer that is named is not kept. */
  lemma NewcomerTurnedAway()
    ensures var root, x, turn := Nth(1), Nth(2), Nth(3);
      var s := Run(START, [Register(root)] + Gather(Ids(CHILD_LIMIT), root, turn));
      |s.reg.children| == CHILD_LIMIT && x !in s.reg.children && x !in Step(s, Naming(x, root)).reg.children
  {
    IdsDistinct(CHILD_LIMIT);
    forall k | 0 <= k <= 3 ensures Nth(k) !in Ids(CHILD_LIMIT) {
      if Nth(k) in Ids(CHILD_LIMIT) {
        var j :| 4 <= j <= CHILD_LIMIT + 3 && Nth(k) == Nth(j);
        NthApart(k, j);
      }
    }
    NthApart(0, 0);
    NthApart(3, 0);
    NthApart(2, 0);
    NthApart(2, 1);
    NewcomerTurnedAwayFrom(Ids(CHILD_LIMIT), Nth(1), Nth(3), Nth(2));
  }

  // ---- naming after n frames ----

  /** A registered thread with an open stream, and nothing else. */
  function Quiet(r: Id): Sys {
    Sys({r}, EMPTY_REG, map[r := Sub([], false)])
  }

  function Frame(x: Id): Action {
    Deliver(x, ThreadEvent(x, 0))
  }

  function Times(n: nat, a: Action): seq<Action> {
    if n == 0 then [] else [a] + Times(n - 1, a)
  }

  /** Nothing is known but the root, and what is held for x. */
  ghost predicate Nameless(s: Sys, x: Id, r: Id) {
    && Inv(s) && s.threads == {r} && s.subs.Keys == {r} && !s.subs[r].closing
    && s.reg.children == map[] && s.reg.childOrder == [] && s.reg.orphans.Keys <= {x}
    && TurnOf(s.reg.turns, x) == NO_ID
  }

  /** x is r's only child. */
  ghost predicate Named(s: Sys, x: Id, r: Id) {
    && Inv(s) && s.threads == {r} && s.subs.Keys == {r} && !s.subs[r].closing
    && s.reg.children.Keys == {x} && s.reg.children[x].parentID == r && s.reg.orphans == map[]
  }

  lemma NothingAbove(s: Sys, a: Action, r: Id)
    requires r !in s.reg.children
    ensures KeepsAbove(s, a, r)
  {
    forall y | y in s.reg.children ensures !Within(s.reg.children, r, y, WALK_LIMIT) {
      WithinHere(s.reg.children, r, y, WALK_LIMIT);
    }
  }

  lemma FrameNamed(s: Sys, x: Id, r: Id)
    requires Named(s, x, r) && x != r && x != NO_ID
    ensures Tended(s, Frame(x), x, r) && Named(Step(s, Frame(x)), x, r)
  {
    NothingAbove(s, Frame(x), r);
    StepKeepsInv(s, Frame(x));
    RootIffUnder(s.reg.children, x, r);
    assert IsUp(s.reg.children, x, 1, r) by {
      assert Up(s.reg.children, r, 0) == Some(r);
    }
  }

  lemma FrameNameless(s: Sys, x: Id, r: Id)
    requires Nameless(s, x, r) && x != r && x != NO_ID
    ensures Tended(s, Frame(x), x, r) && Nameless(Step(s, Frame(x)), x, r)
  {
    StepKeepsInv(s, Frame(x));
    assert forall i :: 0 <= i < |s.reg.orphanOrder| ==> s.reg.orphanOrder[i] in Elems(s.reg.orphanOrder);
  }

  lemma {:induction false} NamingKeeps(s: Sys, x: Id, r: Id)
    requires Nameless(s, x, r) && x != r && x != NO_ID
    ensures Named(Step(s, Naming(x, r)), x, r) && !TurnedAway(s.reg, x)
  {
    var a := Naming(x, r);
    var c := NewChild(r, NO_ID, a.item);
    StepKeepsInv(s, a);
    NobodyEvicted(s.reg, c);
  }

  /** The first child evicts nobody. */
  lemma NobodyEvicted(r: Reg, c: Child)
    requires r.children == map[] && r.childOrder == []
    ensures AddChild(r, c).children == map[c.threadID := c] && !TurnedAway(r, c.threadID)
  {
    AddWithRoom(r, c);
  }

  lemma {:induction false} NamingTended(s: Sys, x: Id, r: Id)
    requires Nameless(s, x, r) && x != r && x != NO_ID
    ensures Tended(s, Naming(x, r), x, r) && Named(Step(s, Naming(x, r)), x, r)
  {
    NothingAbove(s, Naming(x, r), r);
    NamingKeeps(s, x, r);
  }

  lemma {:induction false} FramesNamed(s: Sys, n: nat, x: Id, r: Id)
    requires Named(s, x, r) && x != r && x != NO_ID
    ensures TendedRun(s, Times(n, Frame(x)), x, r)
    decreases n
  {
    if n > 0 {
      FrameNamed(s, x, r);
      FramesNamed(Step(s, Frame(x)), n - 1, x, r);
    }
  }

  lemma {:induction false} FramesThenNaming(s: Sys, n: nat, x: Id, r: Id)
    requires Nameless(s, x, r) && x != r && x != NO_ID
    ensures TendedRun(s, Times(n, Frame(x)) + [Naming(x, r)], x, r)
    decreases n
  {
    var acts := Times(n, Frame(x)) + [Naming(x, r)];
    if n > 0 {
      FrameNameless(s, x, r);
      FramesThenNaming(Step(s, Frame(x)), n - 1, x, r);
      assert acts[1..] == Times(n - 1, Frame(x)) + [Naming(x, r)];
    } else {
      NamingTended(s, x, r);
      assert acts[1..] == [];
    }
  }

  lemma {:induction false} OwnAll(acts: seq<Action>, x: Id)
    requires forall i :: 0 <= i < |acts| ==> Concerns(acts[i], x)
    ensures Own(acts, x) == acts
  {
    if acts != [] {
      OwnAll(acts[1..], x);
    }
  }

  lemma {:induction false} TimesIs(n: nat, x: Id)
    ensures Frames(Times(n, Frame(x)), x) == n && |Times(n, Frame(x))| == n
    ensures forall i :: 0 <= i < n ==> Times(n, Frame(x))[i] == Frame(x)
  {
    if n > 0 {
      TimesIs(n - 1, x);
      assert Times(n, Frame(x))[1..] == Times(n - 1, Frame(x));
    }
  }

  /** Naming x first and then n frames, or n frames and then naming it: both
      runs look after x, and the root is told the same exactly for n up to
      256. */
  lemma NamedEarlyOrLate(n: nat, x: Id, r: Id)
    requires x != r && x != NO_ID && r != NO_ID
    ensures var pre, s := Times(n, Frame(x)), Quiet(r);
      var early, late := [Naming(x, r)] + pre, pre + [Naming(x, r)];
      && Inv(s) && TendedRun(s, early, x, r) && TendedRun(s, late, x, r)
      && r in Run(s, early).subs && r in Run(s, late).subs
      && (About(Run(s, early).subs[r].accepted, x) == About(Run(s, late).subs[r].accepted, x) <==> n <= 256)
  {
    var pre, s := Times(n, Frame(x)), Quiet(r);
    var early, late := [Naming(x, r)] + pre, pre + [Naming(x, r)];
    assert Nameless(s, x, r);
    NamingTended(s, x, r);
    FramesNamed(Step(s, Naming(x, r)), n, x, r);
    assert early[1..] == pre;
    FramesThenNaming(s, n, x, r);
    TimesIs(n, x);
    OwnAll(early, x);
    OwnAll(late, x);
    assert [Naming(x, r)] + pre + [] == early && pre + [Naming(x, r)] + [] == late;
    LateNamingTransparent(s, early, late, pre, Naming(x, r), [], x, r);
  }

  /** For instance the 257th frame before the naming costs the first. */
  lemma NamedTooLate()
    ensures var r, x := Nth(1), Nth(2);
      var pre, s := Times(257, Frame(x)), Quiet(r);
      var early, late := [Naming(x, r)] + pre, pre + [Naming(x, r)];
      && Inv(s) && TendedRun(s, early, x, r) && TendedRun(s, late, x, r)
      && r in Run(s, early).subs && r in Run(s, late).subs
      && About(Run(s, early).subs[r].accepted, x) != About(Run(s, late).subs[r].accepted, x)
  {
    NthApart(1, 2);
    NthApart(1, 0);
    NthApart(2, 0);
    NamedEarlyOrLate(257, Nth(2), Nth(1));
  }
}
