/** Late naming is transparent. A subagent's frames can arrive before the item
    that names it; what its root's subscriber is told about it must not depend
    on how many did. The argument goes through a story: what one child's own
    actions, in order, say its root should be told. */
module LateNaming {
  import opened Basics
  import opened Events
  import opened ChildTree
  import opened Fabric

  /** What is known of one child: its identity once named, its running turn,
      what is held for it, and what its root has been told. */
  datatype Story = Story(child: Option<Child>, turn: Id, pending: seq<Held>, told: seq<Event>)

  predicate NamesChild(a: Action, x: Id) {
    a.Name? && a.item.activity.Some? && a.item.activity.value.agentThreadID == x && a.parent != x
  }

  predicate Concerns(a: Action, x: Id) {
    ((a.NoteTurn? || a.Deliver?) && a.thread == x) || NamesChild(a, x)
  }

  function Tell(st: Story, a: Action, x: Id): Story {
    if !Concerns(a, x) then st
    else match a
      case NoteTurn(_, turn, started) => st.(turn := TurnAfter(st.turn, turn, started))
      case Deliver(_, ev) =>
        if st.child.None? then st.(pending := LastN(st.pending + [Held(ev, st.turn)], ORPHAN_EVENT_LIMIT))
        else st.(told := st.told + [ChildThread(st.child.value, st.turn, ev)])
      case Name(parent, turn, item) =>
        var c := Refine(if st.child.Some? then st.child.value else NewChild(parent, turn, item), item);
        Story(Some(c), st.turn, [], st.told + Replay(c, st.pending))
      case _ => st
  }

  function TellAll(st: Story, acts: seq<Action>, x: Id): Story
    decreases |acts|
  {
    if acts == [] then st else TellAll(Tell(st, acts[0], x), acts[1..], x)
  }

  /** The events of a log that speak of child x. */
  function About(log: seq<Event>, x: Id): seq<Event> {
    if log == [] then []
    else (if log[0].ChildThread? && log[0].child.threadID == x then [log[0]] else []) + About(log[1..], x)
  }

  lemma {:induction false} AboutConcat(a: seq<Event>, b: seq<Event>, x: Id)
    ensures About(a + b, x) == About(a, x) + About(b, x)
  {
    if a == [] {
      assert a + b == b;
    } else {
      assert (a + b)[1..] == a[1..] + b;
      AboutConcat(a[1..], b, x);
    }
  }

  lemma {:induction false} AboutReplay(c: Child, held: seq<Held>, x: Id)
    ensures About(Replay(c, held), x) == if c.threadID == x then Replay(c, held) else []
  {
    if held != [] {
      assert Replay(c, held)[1..] == Replay(c, held[1..]);
      assert Replay(c, held) == [Replay(c, held)[0]] + Replay(c, held[1..]);
      AboutReplay(c, held[1..], x);
    }
  }

  // ---- one run tells the story ----

  /** The state of the connection agrees with x's story so far. */
  ghost predicate Agrees(s: Sys, st: Story, x: Id, r: Id) {
    && r in s.subs && About(s.subs[r].accepted, x) == st.told
    && TurnOf(s.reg.turns, x) == st.turn
    && match st.child
       case None => x !in s.reg.children
         && (if x in s.reg.orphans then s.reg.orphans[x] == st.pending else st.pending == [])
       case Some(c) => x in s.reg.children && s.reg.children[x] == c && x !in s.reg.orphans && st.pending == []
  }

  /** What this step must not do to child x of root r: open, close or replace
      the root's or the child's own subscription, register or delete the
      child, or drop it through a limit; and a step that routes x's events
      finds r at the top of its tree. */
  ghost predicate Calm(s: Sys, a: Action, x: Id, r: Id) {
    && x != NO_ID && x !in s.threads && x !in s.subs
    && r in s.subs && !s.subs[r].closing
    && (a.Deliver? || a.Broadcast? ==> !a.ev.ChildThread?)
    && (a.Register? || a.Delete? ==> a.thread != x)
    && (a.Subscribe? || a.CancelSub? || a.RemoveSub? ==> a.thread != x && a.thread != r)
    && !a.Exit?
    && var s' := Step(s, a);
    && (x in s.reg.orphans ==> x in s'.reg.orphans || x in s'.reg.children)
    && (x in s.reg.children ==> x in s'.reg.children)
    && (NamesChild(a, x) && x !in s.reg.children ==> !TurnedAway(s.reg, x))
    && (Concerns(a, x) && x in s'.reg.children ==> Root(s'.reg.children, s'.reg.children[x]) == r)
  }

  /** A calm step that names x leaves it in the registry. */
  lemma NamedIsKept(s: Sys, a: Action, x: Id, r: Id)
    requires Inv(s) && Calm(s, a, x, r) && NamesChild(a, x)
    ensures x in Step(s, a).reg.children
  {
    if x !in s.reg.children {
      NewcomerEvictedIff(s.reg, NewChild(a.parent, a.turn, a.item));
    }
  }

  ghost predicate CalmRun(s: Sys, acts: seq<Action>, x: Id, r: Id)
    decreases |acts|
  {
    acts == [] || (Calm(s, acts[0], x, r) && CalmRun(Step(s, acts[0]), acts[1..], x, r))
  }

  /** Pushing events that do not speak of x leaves what r was told of x. */
  lemma PushOthers(subs: map<Id, Sub>, t: Id, evs: seq<Event>, x: Id, r: Id)
    requires r in subs && About(evs, x) == []
    ensures r in PushAll(subs, t, evs)
    ensures About(PushAll(subs, t, evs)[r].accepted, x) == About(subs[r].accepted, x)
  {
    if t == r {
      AboutConcat(subs[r].accepted, evs, x);
    }
  }

  lemma {:induction false} DeliverAgrees(s: Sys, t: Id, ev: Event, x: Id, r: Id, st: Story)
    requires Inv(s) && Calm(s, Deliver(t, ev), x, r) && Agrees(s, st, x, r)
    ensures Agrees(DeliverTo(s, t, ev), Tell(st, Deliver(t, ev), x), x, r)
  {
    if t in s.subs {
      PushOthers(s.subs, t, [ev], x, r);
    } else if t == x {
      if x in s.reg.children {
        var told := ChildThread(s.reg.children[x], TurnOf(s.reg.turns, x), ev);
        AboutConcat(s.subs[r].accepted, [told], x);
        assert About([told], x) == [told];
      } else {
        HoldKeepsOk(s.reg, x, ev);
        HoldSelf(s.reg, x, ev, st.pending);
      }
    } else if t != NO_ID && t !in s.threads {
      if t in s.reg.children {
        var c := s.reg.children[t];
        var told := ChildThread(c, TurnOf(s.reg.turns, t), ev);
        assert About([told], x) == [];
        PushOthers(s.subs, Root(s.reg.children, c), [told], x, r);
      } else {
        HoldKeepsOk(s.reg, t, ev);
        HoldSpares(s.reg, t, ev, x);
      }
    }
  }

  lemma HoldSpares(r: Reg, t: Id, ev: Event, x: Id)
    requires RegOk(r) && t != x && (x in r.orphans ==> x in Hold(r, t, ev).orphans)
    ensures TurnOf(Hold(r, t, ev).turns, x) == TurnOf(r.turns, x)
    ensures x in Hold(r, t, ev).orphans <==> x in r.orphans
    ensures x in r.orphans ==> Hold(r, t, ev).orphans[x] == r.orphans[x]
  {
    if t !in r.orphans && |r.orphanOrder| >= ORPHAN_THREAD_LIMIT {
      assert r.orphanOrder[0] in r.orphans.Keys;
    }
  }

  lemma {:induction false} NamedAgrees(s: Sys, parent: Id, turn: Id, item: Item, x: Id, r: Id, st: Story)
    requires Inv(s) && Calm(s, Name(parent, turn, item), x, r) && Agrees(s, st, x, r)
    requires NamesChild(Name(parent, turn, item), x)
    ensures Agrees(NoteSubAgent(s, parent, turn, item), Tell(st, Name(parent, turn, item), x), x, r)
  {
    AdoptKeepsOk(s.reg, parent, turn, item);
    NamedIsKept(s, Name(parent, turn, item), x, r);
    var (reg, c) := Adopt(s.reg, parent, turn, item);
    assert x in reg.children && reg.children[x] == c;
    if x in s.reg.orphans {
      AboutReplay(c, s.reg.orphans[x], x);
      AboutConcat(s.subs[r].accepted, Replay(c, s.reg.orphans[x]), x);
    } else {
      assert Replay(c, []) == [];
    }
  }

  lemma AdoptOthers(r: Reg, parent: Id, turn: Id, item: Item, x: Id)
    requires item.activity.Some? && item.activity.value.agentThreadID != x
    ensures var (r', c) := Adopt(r, parent, turn, item);
      x in r'.children ==> x in r.children && r'.children[x] == r.children[x]
  {
  }

  lemma {:induction false} OtherNamedAgrees(s: Sys, parent: Id, turn: Id, item: Item, x: Id, r: Id, st: Story)
    requires Inv(s) && Calm(s, Name(parent, turn, item), x, r) && Agrees(s, st, x, r)
    requires !NamesChild(Name(parent, turn, item), x)
    ensures Agrees(NoteSubAgent(s, parent, turn, item), st, x, r)
  {
    if Names(s, parent, item) {
      var y := item.activity.value.agentThreadID;
      AdoptKeepsOk(s.reg, parent, turn, item);
      var (reg, c) := Adopt(s.reg, parent, turn, item);
      AdoptOthers(s.reg, parent, turn, item, x);
      if y in s.reg.orphans {
        AboutReplay(c, s.reg.orphans[y], x);
        var reg' := reg.(orphans := reg.orphans - {y}, orphanOrder := Without(reg.orphanOrder, {y}));
        PushOthers(s.subs, Root(reg'.children, c), Replay(c, s.reg.orphans[y]), x, r);
      }
    }
  }

  lemma {:induction false} StepAgrees(s: Sys, a: Action, x: Id, r: Id, st: Story)
    requires Inv(s) && Calm(s, a, x, r) && Agrees(s, st, x, r)
    ensures Agrees(Step(s, a), Tell(st, a, x), x, r)
  {
    match a
    case Deliver(t, ev) => DeliverAgrees(s, t, ev, x, r, st);
    case Name(parent, turn, item) =>
      if NamesChild(a, x) {
        NamedAgrees(s, parent, turn, item, x, r, st);
      } else {
        OtherNamedAgrees(s, parent, turn, item, x, r, st);
      }
    case Broadcast(ev) =>
      AboutConcat(s.subs[r].accepted, [ev], x);
    case _ =>
  }

  /** Over every calm run, what r's subscriber accepted about x is x's story,
      whatever else happened on the connection. */
  lemma {:induction false} RunTellsStory(s: Sys, acts: seq<Action>, x: Id, r: Id, st: Story)
    requires Inv(s) && CalmRun(s, acts, x, r) && Agrees(s, st, x, r)
    ensures Agrees(Run(s, acts), TellAll(st, acts, x), x, r)
    decreases |acts|
  {
    if acts != [] {
      StepAgrees(s, acts[0], x, r, st);
      StepKeepsInv(s, acts[0]);
      RunTellsStory(Step(s, acts[0]), acts[1..], x, r, Tell(st, acts[0], x));
    }
  }

  // ---- stories do not depend on when the child is named ----

  /** The part of a run that concerns x. */
  function Own(acts: seq<Action>, x: Id): seq<Action> {
    if acts == [] then []
    else (if Concerns(acts[0], x) then [acts[0]] else []) + Own(acts[1..], x)
  }

  /** How many events of x a run delivers. */
  function Frames(acts: seq<Action>, x: Id): nat {
    if acts == [] then 0
    else (if acts[0].Deliver? && acts[0].thread == x then 1 else 0) + Frames(acts[1..], x)
  }

  ghost predicate Unnamed(acts: seq<Action>, x: Id) {
    forall i :: 0 <= i < |acts| ==> !NamesChild(acts[i], x)
  }

  lemma {:induction false} TellAllConcat(st: Story, a: seq<Action>, b: seq<Action>, x: Id)
    ensures TellAll(st, a + b, x) == TellAll(TellAll(st, a, x), b, x)
    decreases |a|
  {
    if a == [] {
      assert a + b == b;
    } else {
      assert (a + b)[1..] == a[1..] + b;
      TellAllConcat(Tell(st, a[0], x), a[1..], b, x);
    }
  }

  lemma {:induction false} OwnTellsAll(st: Story, acts: seq<Action>, x: Id)
    ensures TellAll(st, Own(acts, x), x) == TellAll(st, acts, x)
    decreases |acts|
  {
    if acts != [] {
      OwnTellsAll(Tell(st, acts[0], x), acts[1..], x);
      if Concerns(acts[0], x) {
        assert Own(acts, x)[1..] == Own(acts[1..], x);
      } else {
        assert Own(acts, x) == Own(acts[1..], x);
      }
    }
  }

  /** Naming now and then hearing a, or hearing a and then naming. */
  lemma NameCommutes(st: Story, a: Action, n: Action, x: Id)
    requires st.child.None? && NamesChild(n, x) && !NamesChild(a, x)
    requires a.Deliver? && a.thread == x ==> |st.pending| < ORPHAN_EVENT_LIMIT
    ensures Tell(Tell(st, a, x), n, x) == Tell(Tell(st, n, x), a, x)
  {
    if a.Deliver? && a.thread == x {
      var c := Refine(NewChild(n.parent, n.turn, n.item), n.item);
      var h := Held(a.ev, st.turn);
      assert Replay(c, st.pending + [h]) == Replay(c, st.pending) + [ChildThread(c, h.turn, h.ev)];
      assert st.told + (Replay(c, st.pending) + [ChildThread(c, h.turn, h.ev)])
          == st.told + Replay(c, st.pending) + [ChildThread(c, h.turn, h.ev)];
    }
  }

  lemma {:induction false} NameCommutesAll(st: Story, pre: seq<Action>, n: Action, x: Id)
    requires st.child.None? && NamesChild(n, x) && Unnamed(pre, x)
    requires |st.pending| + Frames(pre, x) <= ORPHAN_EVENT_LIMIT
    ensures Tell(TellAll(st, pre, x), n, x) == TellAll(Tell(st, n, x), pre, x)
    decreases |pre|
  {
    if pre != [] {
      assert pre == [pre[0]] + pre[1..];
      assert forall i :: 0 <= i < |pre[1..]| ==> pre[1..][i] == pre[i + 1];
      NameCommutes(st, pre[0], n, x);
      NameCommutesAll(Tell(st, pre[0], x), pre[1..], n, x);
    }
  }

  /** What an unnamed child has pending, and that it stays unnamed. */
  lemma {:induction false} UnnamedPending(st: Story, pre: seq<Action>, x: Id)
    requires st.child.None? && Unnamed(pre, x) && |st.pending| <= ORPHAN_EVENT_LIMIT
    ensures var st' := TellAll(st, pre, x);
      && st'.child.None? && st'.told == st.told
      && |st'.pending| == if |st.pending| + Frames(pre, x) <= ORPHAN_EVENT_LIMIT
                          then |st.pending| + Frames(pre, x) else ORPHAN_EVENT_LIMIT
    decreases |pre|
  {
    if pre != [] {
      assert pre == [pre[0]] + pre[1..];
      assert forall i :: 0 <= i < |pre[1..]| ==> pre[1..][i] == pre[i + 1];
      UnnamedPending(Tell(st, pre[0], x), pre[1..], x);
    }
  }

  /** A named child's root is told every event delivered from then on. */
  lemma {:induction false} NamedTold(st: Story, acts: seq<Action>, x: Id)
    requires st.child.Some? && st.pending == []
    ensures var st' := TellAll(st, acts, x);
      st'.child.Some? && st'.pending == [] && |st'.told| == |st.told| + Frames(acts, x)
    decreases |acts|
  {
    if acts != [] {
      NamedTold(Tell(st, acts[0], x), acts[1..], x);
    }
  }

  /** The stories of naming x before or after pre are the same story exactly
      when pre delivers no more of x's events than are held for it. */
  lemma StoryTransparent(st: Story, pre: seq<Action>, n: Action, post: seq<Action>, x: Id)
    requires st.child.None? && st.pending == [] && NamesChild(n, x) && Unnamed(pre, x)
    ensures TellAll(st, pre + [n] + post, x).told == TellAll(st, [n] + pre + post, x).told
      <==> Frames(pre, x) <= ORPHAN_EVENT_LIMIT
    ensures Frames(pre, x) <= ORPHAN_EVENT_LIMIT ==>
      TellAll(st, pre + [n] + post, x) == TellAll(st, [n] + pre + post, x)
  {
    TellAllConcat(st, pre + [n], post, x);
    TellAllConcat(st, pre, [n], x);
    TellAllConcat(st, [n] + pre, post, x);
    TellAllConcat(st, [n], pre, x);
    var late, early := Tell(TellAll(st, pre, x), n, x), TellAll(Tell(st, n, x), pre, x);
    UnnamedPending(st, pre, x);
    assert Replay(Refine(NewChild(n.parent, n.turn, n.item), n.item), []) == [];
    NamedTold(Tell(st, n, x), pre, x);
    NamedTold(late, post, x);
    NamedTold(early, post, x);
    if Frames(pre, x) <= ORPHAN_EVENT_LIMIT {
      NameCommutesAll(st, pre, n, x);
    }
  }

  /** Take any two calm runs from one state in which x is unknown, whose
      actions on x are the same except that one names x before the frames of
      pre and the other after them. What r's subscriber accepted about x is
      then the same exactly when pre carries at most 256 of x's events. */
  lemma CalmNamingTransparent(s: Sys, early: seq<Action>, late: seq<Action>,
                              pre: seq<Action>, n: Action, post: seq<Action>, x: Id, r: Id)
    requires Inv(s) && r in s.subs && x !in s.reg.children && x !in s.reg.orphans
    requires CalmRun(s, early, x, r) && CalmRun(s, late, x, r)
    requires NamesChild(n, x) && Unnamed(pre, x)
    requires Own(early, x) == [n] + pre + post && Own(late, x) == pre + [n] + post
    ensures r in Run(s, early).subs && r in Run(s, late).subs
    ensures About(Run(s, early).subs[r].accepted, x) == About(Run(s, late).subs[r].accepted, x)
      <==> Frames(pre, x) <= ORPHAN_EVENT_LIMIT
    ensures Frames(pre, x) <= ORPHAN_EVENT_LIMIT ==>
      && x in Run(s, early).reg.children && x in Run(s, late).reg.children
      && Run(s, early).reg.children[x] == Run(s, late).reg.children[x]
      && TurnOf(Run(s, early).reg.turns, x) == TurnOf(Run(s, late).reg.turns, x)
  {
    var st := Story(None, TurnOf(s.reg.turns, x), [], About(s.subs[r].accepted, x));
    RunTellsStory(s, early, x, r, st);
    RunTellsStory(s, late, x, r, st);
    OwnTellsAll(st, early, x);
    OwnTellsAll(st, late, x);
    StoryTransparent(st, pre, n, post, x);
    TellAllConcat(st, [n] + pre, post, x);
    TellAllConcat(st, [n], pre, x);
    NamedTold(Tell(st, n, x), pre, x);
    NamedTold(TellAll(Tell(st, n, x), pre, x), post, x);
  }

  // ---- the child's root, from where it was named ----

  lemma {:induction false} WalkSurvives(children: map<Id, Child>, after: map<Id, Child>, id: Id, steps: nat, r: Id)
    requires r !in children && r !in after && RootWalk(children, id, steps) == r
    requires forall y :: y in children && Within(children, id, y, steps) ==>
      y in after && after[y].parentID == children[y].parentID
    ensures RootWalk(after, id, steps) == r
    decreases steps
  {
    if steps > 0 && id in children {
      assert IsUp(children, id, 0, id);
      var p := children[id].parentID;
      forall y | y in children && Within(children, p, y, steps - 1)
        ensures y in after && after[y].parentID == children[y].parentID
      {
        WithinUnder(children, id, y, steps - 1);
      }
      WalkSurvives(children, after, p, steps - 1, r);
    }
  }

  lemma ChildAfterNaming(s: Sys, parent: Id, turn: Id, item: Item, y: Id)
    requires y in NoteSubAgent(s, parent, turn, item).reg.children
    ensures var c := NoteSubAgent(s, parent, turn, item).reg.children[y];
      if y in s.reg.children then c.parentID == s.reg.children[y].parentID
      else NamesChild(Name(parent, turn, item), y) && c.parentID == parent
  {
    if Names(s, parent, item) {
      var (reg, c) := Adopt(s.reg, parent, turn, item);
      assert y in reg.children;
    }
  }

  /** A child's parent never changes; only naming makes a thread a child, and
      then of the thread that named it. */
  lemma ChildAfter(s: Sys, a: Action, y: Id)
    requires y in Step(s, a).reg.children
    ensures if y in s.reg.children then Step(s, a).reg.children[y].parentID == s.reg.children[y].parentID
            else NamesChild(a, y) && Step(s, a).reg.children[y].parentID == a.parent
  {
    match a
    case Deliver(t, ev) => DeliveryKeepsChild(s, t, ev, y);
    case Name(parent, turn, item) => ChildAfterNaming(s, parent, turn, item, y);
    case _ =>
  }

  /** A child keeps its root through every step that makes no child of the
      root and drops none of the child's own ancestors. */
  lemma RootSurvives(s: Sys, a: Action, x: Id, r: Id)
    requires x in s.reg.children && r !in s.reg.children && Root(s.reg.children, s.reg.children[x]) == r
    requires x in Step(s, a).reg.children && r !in Step(s, a).reg.children
    requires forall y :: y in s.reg.children && Within(s.reg.children, s.reg.children[x].parentID, y, WALK_LIMIT) ==>
      y in Step(s, a).reg.children
    ensures Root(Step(s, a).reg.children, Step(s, a).reg.children[x]) == r
  {
    forall y | y in s.reg.children && y in Step(s, a).reg.children
      ensures Step(s, a).reg.children[y].parentID == s.reg.children[y].parentID
    {
      ChildAfter(s, a, y);
    }
    WalkSurvives(s.reg.children, Step(s, a).reg.children, s.reg.children[x].parentID, WALK_LIMIT, r);
  }

  /** No thread from id up to its root is dropped. */
  ghost predicate KeepsAbove(s: Sys, a: Action, id: Id) {
    forall y :: y in s.reg.children && Within(s.reg.children, id, y, WALK_LIMIT) ==> y in Step(s, a).reg.children
  }

  /** What a step may do while child x is looked after by root r: r is
      registered, and its subscription is open and stays current; x is neither
      registered, subscribed nor deleted, and is not dropped through a limit;
      x is named from r or from a thread already rooted there; and no thread
      between x and r is dropped. Nothing is said of where x's events go. */
  ghost predicate Tended(s: Sys, a: Action, x: Id, r: Id) {
    && x != NO_ID && x !in s.threads && x !in s.subs
    && r in s.threads && r in s.subs && !s.subs[r].closing
    && (a.Deliver? || a.Broadcast? ==> !a.ev.ChildThread?)
    && (a.Register? || a.Delete? ==> a.thread != x)
    && (a.Delete? ==> a.thread != r)
    && (a.Subscribe? || a.CancelSub? || a.RemoveSub? ==> a.thread != x && a.thread != r)
    && !a.Exit?
    && var s' := Step(s, a);
    && (x in s.reg.orphans ==> x in s'.reg.orphans || x in s'.reg.children)
    && (x in s.reg.children ==> x in s'.reg.children && KeepsAbove(s, a, s.reg.children[x].parentID))
    && (NamesChild(a, x) && x !in s.reg.children ==>
          && !TurnedAway(s.reg, x)
          && RootWalk(s.reg.children, a.parent, WALK_LIMIT) == r && KeepsAbove(s, a, a.parent))
  }

  ghost predicate TendedRun(s: Sys, acts: seq<Action>, x: Id, r: Id)
    decreases |acts|
  {
    acts == [] || (Tended(s, acts[0], x, r) && TendedRun(Step(s, acts[0]), acts[1..], x, r))
  }

  ghost predicate Rooted(s: Sys, x: Id, r: Id) {
    x in s.reg.children ==> Root(s.reg.children, s.reg.children[x]) == r
  }

  lemma RootFromParent(s: Sys, a: Action, x: Id, r: Id)
    requires x !in s.reg.children && x in Step(s, a).reg.children
    requires r !in s.reg.children && r !in Step(s, a).reg.children
    requires NamesChild(a, x) ==> RootWalk(s.reg.children, a.parent, WALK_LIMIT) == r && KeepsAbove(s, a, a.parent)
    ensures Root(Step(s, a).reg.children, Step(s, a).reg.children[x]) == r
  {
    ChildAfter(s, a, x);
    forall y | y in s.reg.children && y in Step(s, a).reg.children
      ensures Step(s, a).reg.children[y].parentID == s.reg.children[y].parentID
    {
      ChildAfter(s, a, y);
    }
    WalkSurvives(s.reg.children, Step(s, a).reg.children, a.parent, WALK_LIMIT, r);
  }

  lemma {:induction false} RootKept(s: Sys, a: Action, x: Id, r: Id)
    requires Inv(s) && Tended(s, a, x, r) && Rooted(s, x, r)
    ensures Rooted(Step(s, a), x, r)
  {
    StepKeepsInv(s, a);
    assert r in Step(s, a).threads;
    if x in Step(s, a).reg.children {
      if x in s.reg.children {
        RootSurvives(s, a, x, r);
      } else {
        RootFromParent(s, a, x, r);
      }
    }
  }

  lemma {:induction false} TendedIsCalm(s: Sys, acts: seq<Action>, x: Id, r: Id)
    requires Inv(s) && TendedRun(s, acts, x, r) && Rooted(s, x, r)
    ensures CalmRun(s, acts, x, r) && Rooted(Run(s, acts), x, r)
    decreases |acts|
  {
    if acts != [] {
      RootKept(s, acts[0], x, r);
      StepKeepsInv(s, acts[0]);
      TendedIsCalm(Step(s, acts[0]), acts[1..], x, r);
    }
  }

  /** Late naming is transparent: take any two runs that look after x, from one
      state in which x is unknown, whose actions on x are the same except that
      one names x before the frames of pre and the other after them. What r's
      subscriber accepted about x is then the same, in content, order, turns
      and identity, exactly when pre carries at most 256 of x's events. */
  lemma LateNamingTransparent(s: Sys, early: seq<Action>, late: seq<Action>,
                              pre: seq<Action>, n: Action, post: seq<Action>, x: Id, r: Id)
    requires Inv(s) && r in s.subs && x !in s.reg.children && x !in s.reg.orphans
    requires TendedRun(s, early, x, r) && TendedRun(s, late, x, r)
    requires NamesChild(n, x) && Unnamed(pre, x)
    requires Own(early, x) == [n] + pre + post && Own(late, x) == pre + [n] + post
    ensures r in Run(s, early).subs && r in Run(s, late).subs
    ensures About(Run(s, early).subs[r].accepted, x) == About(Run(s, late).subs[r].accepted, x)
      <==> Frames(pre, x) <= ORPHAN_EVENT_LIMIT
    ensures Frames(pre, x) <= ORPHAN_EVENT_LIMIT ==>
      && x in Run(s, early).reg.children && x in Run(s, late).reg.children
      && Run(s, early).reg.children[x] == Run(s, late).reg.children[x]
      && TurnOf(Run(s, early).reg.turns, x) == TurnOf(Run(s, late).reg.turns, x)
  {
    TendedIsCalm(s, early, x, r);
    TendedIsCalm(s, late, x, r);
    CalmNamingTransparent(s, early, late, pre, n, post, x, r);
  }
}
