/** Who is told what: a thread's subscriber every event of its own thread, a
    root's subscriber its children's, and whom the held threads' limit costs. */
module Delivery {
  import opened Basics
  import opened Events
  import opened ChildTree
  import opened Fabric

  // ---- a subscriber's own events ----

  /** The events of a log that do not come from a child. */
  function OwnEvents(log: seq<Event>): seq<Event> {
    if log == [] then []
    else (if log[0].ChildThread? then [] else [log[0]]) + OwnEvents(log[1..])
  }

  lemma {:induction false} OwnEventsConcat(a: seq<Event>, b: seq<Event>)
    ensures OwnEvents(a + b) == OwnEvents(a) + OwnEvents(b)
  {
    if a == [] {
      assert a + b == b;
    } else {
      assert (a + b)[1..] == a[1..] + b;
      OwnEventsConcat(a[1..], b);
    }
  }

  /** Delivering to an open subscription appends the event there and changes
      nothing else. */
  lemma DeliveredToItsOwn(s: Sys, t: Id, ev: Event)
    requires t in s.subs && !s.subs[t].closing
    ensures var s' := Step(s, Deliver(t, ev));
      && s'.threads == s.threads && s'.reg == s.reg && s'.subs.Keys == s.subs.Keys
      && s'.subs[t].accepted == s.subs[t].accepted + [ev] && !s'.subs[t].closing
      && forall u :: u in s.subs && u != t ==> s'.subs[u] == s.subs[u]
  {
  }

  /** What a step sends to r's thread itself, or to every subscriber. */
  function Sends(a: Action, r: Id): seq<Event> {
    match a
    case Deliver(t, ev) => if t == r then [ev] else []
    case Broadcast(ev) => [ev]
    case _ => []
  }

  function SentTo(acts: seq<Action>, r: Id): seq<Event> {
    if acts == [] then [] else Sends(acts[0], r) + SentTo(acts[1..], r)
  }

  /** A step that neither ends nor replaces r's subscription. */
  predicate Keeps(a: Action, r: Id) {
    !a.Exit? && (a.Subscribe? || a.CancelSub? || a.RemoveSub? ==> a.thread != r)
  }

  ghost predicate SubscriptionKept(acts: seq<Action>, r: Id) {
    forall i :: 0 <= i < |acts| ==> Keeps(acts[i], r)
  }

  lemma RestKept(acts: seq<Action>, r: Id)
    requires acts != []
    ensures SubscriptionKept(acts, r) ==> Keeps(acts[0], r) && SubscriptionKept(acts[1..], r)
    ensures Plain(acts) ==> (acts[0].Deliver? || acts[0].Broadcast? ==> !acts[0].ev.ChildThread?) && Plain(acts[1..])
  {
  }

  lemma OneReplay(c: Child, held: seq<Held>)
    ensures OwnEvents(Replay(c, held)) == []
  {
    if held != [] {
      assert Replay(c, held)[1..] == Replay(c, held[1..]);
      OneReplay(c, held[1..]);
    }
  }

  lemma NameSends(s: Sys, parent: Id, turn: Id, item: Item, r: Id)
    requires r in s.subs && !s.subs[r].closing
    ensures var s' := NoteSubAgent(s, parent, turn, item);
      && r in s'.subs && !s'.subs[r].closing
      && OwnEvents(s'.subs[r].accepted) == OwnEvents(s.subs[r].accepted)
  {
    if Names(s, parent, item) {
      var x := item.activity.value.agentThreadID;
      if x in s.reg.orphans {
        var told := Replay(Adopt(s.reg, parent, turn, item).1, s.reg.orphans[x]);
        OneReplay(Adopt(s.reg, parent, turn, item).1, s.reg.orphans[x]);
        OwnEventsConcat(s.subs[r].accepted, told);
      }
    }
  }

  lemma DeliverSends(s: Sys, t: Id, ev: Event, r: Id)
    requires r in s.subs && !s.subs[r].closing && !ev.ChildThread?
    ensures var s' := DeliverTo(s, t, ev);
      && r in s'.subs && !s'.subs[r].closing
      && OwnEvents(s'.subs[r].accepted) == OwnEvents(s.subs[r].accepted) + if t == r then [ev] else []
  {
    if t in s.subs {
      OwnEventsConcat(s.subs[r].accepted, [ev]);
    } else if t in s.reg.children {
      var told := ChildThread(s.reg.children[t], TurnOf(s.reg.turns, t), ev);
      assert OwnEvents([told]) == [];
      OwnEventsConcat(s.subs[r].accepted, [told]);
    }
  }

  /** r's subscription is open and has accepted log of its own. */
  ghost predicate Got(s: Sys, r: Id, log: seq<Event>) {
    r in s.subs && !s.subs[r].closing && OwnEvents(s.subs[r].accepted) == log
  }

  lemma StepSends(s: Sys, a: Action, r: Id, log: seq<Event>)
    requires Got(s, r, log) && Keeps(a, r)
    requires a.Deliver? || a.Broadcast? ==> !a.ev.ChildThread?
    ensures Got(Step(s, a), r, log + Sends(a, r))
  {
    match a
    case Deliver(t, ev) => DeliverSends(s, t, ev, r);
    case Name(parent, turn, item) => NameSends(s, parent, turn, item, r);
    case Broadcast(ev) => OwnEventsConcat(s.subs[r].accepted, [ev]);
    case _ =>
  }

  /** Over every run in which r's subscription stays current and open, what its
      subscriber accepts of its own are exactly the events sent to r, in order. */
  lemma {:induction false} SubscriberGetsItsOwn(s: Sys, acts: seq<Action>, r: Id, log: seq<Event>)
    requires Got(s, r, log) && SubscriptionKept(acts, r) && Plain(acts)
    ensures Got(Run(s, acts), r, log + SentTo(acts, r))
    decreases |acts|
  {
    if acts == [] {
      assert log + SentTo(acts, r) == log;
    } else {
      RestKept(acts, r);
      StepSends(s, acts[0], r, log);
      SubscriberGetsItsOwn(Step(s, acts[0]), acts[1..], r, log + Sends(acts[0], r));
      assert log + Sends(acts[0], r) + SentTo(acts[1..], r) == log + SentTo(acts, r);
    }
  }

  /** So from the moment it subscribes it is sent all of it and nothing from
      before. */
  lemma SubscriberGetsItsOwnSince(pre: seq<Action>, post: seq<Action>, r: Id)
    requires SubscriptionKept(post, r) && Plain(post)
    ensures var s := Run(START, pre + [Subscribe(r)] + post);
      Got(s, r, SentTo(post, r))
  {
    var s := Run(START, pre);
    var s1 := Step(s, Subscribe(r));
    RunInTurn(START, pre + [Subscribe(r)], post);
    RunInTurn(START, pre, [Subscribe(r)]);
    assert Run(s1, []) == s1;
    SubscriberGetsItsOwn(s1, post, r, []);
  }

  /** Once its reader leaves, a subscription accepts nothing more. */
  lemma AfterLeavingNothing(s: Sys, acts: seq<Action>, r: Id)
    requires r in s.subs && SubscriptionKept(acts, r)
    ensures var s' := Run(Step(s, CancelSub(r)), acts);
      r in s'.subs && s'.subs[r].accepted == s.subs[r].accepted
  {
    ClosingAcceptsNothing(Step(s, CancelSub(r)), acts, r);
  }

  lemma {:induction false} ClosingAcceptsNothing(s: Sys, acts: seq<Action>, r: Id)
    requires r in s.subs && s.subs[r].closing && SubscriptionKept(acts, r)
    ensures r in Run(s, acts).subs && Run(s, acts).subs[r] == s.subs[r]
    decreases |acts|
  {
    if acts != [] {
      RestKept(acts, r);
      assert Step(s, acts[0]).subs[r] == s.subs[r];
      ClosingAcceptsNothing(Step(s, acts[0]), acts[1..], r);
    }
  }

  /** And once it is removed, or the process has exited, there is none, until
      somebody subscribes again. */
  lemma {:induction false} NoneUntilSubscribed(s: Sys, acts: seq<Action>, r: Id)
    requires r !in s.subs && Subscribe(r) !in acts
    ensures r !in Run(s, acts).subs
    decreases |acts|
  {
    if acts != [] {
      assert acts == [acts[0]] + acts[1..];
      assert r !in Step(s, acts[0]).subs;
      NoneUntilSubscribed(Step(s, acts[0]), acts[1..], r);
    }
  }

  lemma NoneAfterRemoval(s: Sys, a: Action, acts: seq<Action>, r: Id)
    requires a == RemoveSub(r) || a.Exit?
    requires Subscribe(r) !in acts
    ensures r !in Run(Step(s, a), acts).subs
    ensures a == RemoveSub(r) ==> Step(s, a) == s.(subs := s.subs - {r})
  {
    NoneUntilSubscribed(Step(s, a), acts, r);
  }

  // ---- a child's events ----

  /** An event of a child nobody subscribed to goes to the subscriber at its
      root, with the child's identity and running turn, and nowhere else. */
  lemma ChildEventGoesToRoot(s: Sys, x: Id, ev: Event)
    requires Inv(s) && x in s.reg.children && x !in s.subs
    ensures var s', r := Step(s, Deliver(x, ev)), Root(s.reg.children, s.reg.children[x]);
      && s'.threads == s.threads && s'.reg == s.reg && s'.subs.Keys == s.subs.Keys
      && (r in s.subs && !s.subs[r].closing ==>
            var told := ChildThread(s.reg.children[x], TurnOf(s.reg.turns, x), ev);
            s'.subs[r].accepted == s.subs[r].accepted + [told])
      && forall u :: u in s.subs && (u != r || s.subs[u].closing) ==> s'.subs[u] == s.subs[u]
  {
  }

  /** A step drops x from the registry, as a child or as a held thread. */
  ghost predicate Drops(s: Sys, a: Action, x: Id) {
    var s' := Step(s, a);
    || ((a.Register? || a.Delete?) && a.thread == x)
    || (x in s.reg.children && x !in s'.reg.children)
    || (x in s.reg.orphans && x !in s'.reg.orphans && x !in s'.reg.children)
  }

  /** The turn recorded of a thread that is not registered: a start sets it,
      the end of that turn clears it, and nothing else but dropping the thread
      touches it. */
  lemma TurnIsTheRunningOne(s: Sys, a: Action, x: Id)
    requires Inv(s) && x !in s.threads && !Drops(s, a, x)
    ensures var turn, turn' := TurnOf(s.reg.turns, x), TurnOf(Step(s, a).reg.turns, x);
      && (forall u :: a == NoteTurn(x, u, true) ==> turn' == u)
      && (forall u :: a == NoteTurn(x, u, false) ==> turn' == if turn == u then NO_ID else turn)
      && (!(a.NoteTurn? && a.thread == x) ==> turn' == turn)
  {
    if a.Deliver? && a.thread !in s.reg.orphans && |s.reg.orphanOrder| >= ORPHAN_THREAD_LIMIT {
      assert s.reg.orphanOrder[0] in s.reg.orphans.Keys;
    }
  }

  /** A dropped thread has no turn recorded any more. */
  lemma {:induction false} DroppedHasNoTurn(s: Sys, a: Action, x: Id)
    requires Inv(s) && Drops(s, a, x)
    ensures TurnOf(Step(s, a).reg.turns, x) == NO_ID
  {
    match a
    case Deliver(t, ev) =>
      DeliveryOrder(s, t, ev);
      if x in s.reg.orphans && x !in Hold(s.reg, t, ev).orphans {
        OldestMakesRoom(s.reg, t, ev, x);
      }
    case Name(parent, turn, item) => NamingDropsIdle(s, parent, turn, item, x);
    case _ =>
  }

  lemma NamingDropsIdle(s: Sys, parent: Id, turn: Id, item: Item, x: Id)
    requires Inv(s) && Drops(s, Name(parent, turn, item), x)
    ensures TurnOf(NoteSubAgent(s, parent, turn, item).reg.turns, x) == NO_ID
  {
    var y := item.activity.value.agentThreadID;
    var base := NewChild(parent, turn, item);
    assert y !in s.reg.children;
    AddEvictsOldestIdle(s.reg, base);
    if x == y {
      NewcomerEvictedIff(s.reg, base);
    }
  }

  /** Registering a thread takes it, and only it, out of the tree, with its turn
      and what was held for it: every other child, also one below it, and every
      other held thread stay as they were. */
  lemma RegisterTakesOne(s: Sys, t: Id, x: Id)
    requires Inv(s)
    ensures var s' := Step(s, Register(t));
      && s'.threads == s.threads + {t} && s'.subs == s.subs
      && t !in s'.reg.children && t !in s'.reg.orphans && TurnOf(s'.reg.turns, t) == NO_ID
      && (x != t ==>
            && (x in s'.reg.children <==> x in s.reg.children)
            && (x in s.reg.children ==> s'.reg.children[x] == s.reg.children[x])
            && (x in s'.reg.orphans <==> x in s.reg.orphans)
            && (x in s.reg.orphans ==> s'.reg.orphans[x] == s.reg.orphans[x])
            && TurnOf(s'.reg.turns, x) == TurnOf(s.reg.turns, x))
  {
  }

  /** Deleting a registered thread takes every child rooted there, with its
      turn, and leaves every other child, every held thread and every
      subscription as it was. */
  lemma DeleteTakesTree(s: Sys, t: Id, x: Id)
    requires Inv(s) && t in s.threads
    ensures var s' := Step(s, Delete(t));
      && s'.threads == s.threads - {t} && s'.subs == s.subs && s'.reg.orphans == s.reg.orphans
      && (x in s'.reg.children <==> x in s.reg.children && Root(s.reg.children, s.reg.children[x]) != t)
      && (x in s'.reg.children ==> s'.reg.children[x] == s.reg.children[x])
      && (x in s.reg.children && x !in s'.reg.children ==> TurnOf(s'.reg.turns, x) == NO_ID)
  {
    if x in s.reg.children {
      RootIffUnder(s.reg.children, x, t);
    }
    var gone := Descendants(s.reg.children, t) + {t};
    assert s.reg.orphans - gone == s.reg.orphans;
  }

  // ---- one notification ----

  /** The events of x a root accepts when a notification of x's arrives, and
      the turn x is then running. */
  lemma ChildFrameTells(s: Sys, f: Frame, x: Id, r: Id)
    requires Inv(s) && !f.ConnFrame? && f.thread == x && x in s.reg.children && x !in s.subs
    requires r == Root(s.reg.children, s.reg.children[x]) && r in s.subs && !s.subs[r].closing
    requires !f.ItemFrame?
    ensures var s', c, was := Run(s, Dispatch(f, false)), s.reg.children[x], TurnOf(s.reg.turns, x);
      && r in s'.subs
      && s'.subs[r].accepted == s.subs[r].accepted + [
           match f
           case TurnStartedFrame(_, turn) => ChildThread(c, turn, TurnStarted(x, turn))
           case TurnCompletedFrame(_, turn, end) =>
             ChildThread(c, if was == turn then NO_ID else was, TurnCompleted(x, turn, end))
           case ThreadFrame(_, payload) => ChildThread(c, was, ThreadEvent(x, payload))]
  {
    RunSteps(s, Dispatch(f, false));
  }

  /** The notifications of a run, each by a thread that is registered or not. */
  function DispatchAll(frames: seq<Frame>, threads: set<Id>): seq<Action> {
    if frames == [] then []
    else Dispatch(frames[0], !frames[0].ConnFrame? && frames[0].thread in threads) + DispatchAll(frames[1..], threads)
  }

  /** What a notification tells the subscriber of r itself. */
  function EventOf(f: Frame, r: Id): seq<Event> {
    match f
    case TurnStartedFrame(t, turn) => if t == r then [TurnStarted(r, turn)] else []
    case TurnCompletedFrame(t, turn, end) => if t == r then [TurnCompleted(r, turn, end)] else []
    case ItemFrame(t, turn, item) => if t == r then [ItemEvent(r, turn, item)] else []
    case ThreadFrame(t, payload) => if t == r then [ThreadEvent(r, payload)] else []
    case ConnFrame(payload) => [ConnEvent(payload)]
  }

  function EventsOf(frames: seq<Frame>, r: Id): seq<Event> {
    if frames == [] then [] else EventOf(frames[0], r) + EventsOf(frames[1..], r)
  }

  lemma {:induction false} SentConcat(a: seq<Action>, b: seq<Action>, r: Id)
    ensures SentTo(a + b, r) == SentTo(a, r) + SentTo(b, r)
  {
    if a == [] {
      assert a + b == b;
    } else {
      assert (a + b)[1..] == a[1..] + b;
      SentConcat(a[1..], b, r);
    }
  }

  lemma FewSent(acts: seq<Action>, r: Id)
    requires 1 <= |acts| <= 2
    ensures SentTo(acts, r) == Sends(acts[0], r) + if |acts| == 2 then Sends(acts[1], r) else []
  {
    assert acts[1..] == if |acts| == 2 then [acts[1]] else [];
  }

  lemma FrameSends(f: Frame, registered: bool, r: Id)
    ensures Plain(Dispatch(f, registered)) && SubscriptionKept(Dispatch(f, registered), r)
    ensures SentTo(Dispatch(f, registered), r) == EventOf(f, r)
  {
    FewSent(Dispatch(f, registered), r);
  }

  lemma {:induction false} FramesSend(frames: seq<Frame>, threads: set<Id>, r: Id)
    ensures var acts := DispatchAll(frames, threads);
      Plain(acts) && SubscriptionKept(acts, r) && SentTo(acts, r) == EventsOf(frames, r)
  {
    if frames != [] {
      var f := frames[0];
      var one := Dispatch(f, !f.ConnFrame? && f.thread in threads);
      FrameSends(f, !f.ConnFrame? && f.thread in threads, r);
      FramesSend(frames[1..], threads, r);
      SentConcat(one, DispatchAll(frames[1..], threads), r);
    }
  }

  /** Whatever notifications arrive, the subscriber of r accepts of its own
      exactly r's, each as its event, and the connection's, in order. */
  lemma FramesReachSubscriber(s: Sys, frames: seq<Frame>, r: Id)
    requires r in s.subs && !s.subs[r].closing
    ensures Got(Run(s, DispatchAll(frames, s.threads)), r, OwnEvents(s.subs[r].accepted) + EventsOf(frames, r))
  {
    FramesSend(frames, s.threads, r);
    SubscriberGetsItsOwn(s, DispatchAll(frames, s.threads), r, OwnEvents(s.subs[r].accepted));
  }

  // ---- whom the limit on held threads costs ----

  /** The step since which x has been held. */
  ghost function HeldFrom(acts: seq<Action>, x: Id): (n: nat)
    ensures n <= |acts|
    ensures x in Run(START, acts).reg.orphans ==> n < |acts|
    decreases |acts|
  {
    if acts == [] then 0
    else
      var init := acts[..|acts| - 1];
      if x in Run(START, init).reg.orphans then HeldFrom(init, x) else |init|
  }

  /** The order list has the threads held longest in front. */
  ghost predicate LongestFirst(order: seq<Id>, acts: seq<Action>) {
    forall i, j :: 0 <= i < j < |order| ==> HeldFrom(acts, order[i]) < HeldFrom(acts, order[j])
  }

  lemma {:induction false} WithoutInOrder(order: seq<Id>, gone: set<Id>, acts: seq<Action>)
    requires LongestFirst(order, acts)
    ensures LongestFirst(Without(order, gone), acts)
    ensures forall x :: x in Without(order, gone) ==> x in order
  {
    if order != [] {
      assert forall i :: 0 <= i < |order[1..]| ==> order[1..][i] == order[i + 1];
      WithoutInOrder(order[1..], gone, acts);
      assert order == [order[0]] + order[1..];
      var rest := Without(order[1..], gone);
      if order[0] !in gone {
        forall k | 0 <= k < |rest| ensures HeldFrom(acts, order[0]) < HeldFrom(acts, rest[k]) {
          assert rest[k] in order[1..];
          var i :| 0 <= i < |order[1..]| && order[1..][i] == rest[k];
          assert order[i + 1] == rest[k];
        }
      }
    }
  }

  lemma NamingOrder(s: Sys, parent: Id, turn: Id, item: Item)
    requires Inv(s)
    ensures NoteSubAgent(s, parent, turn, item).reg.orphanOrder
         == if Names(s, parent, item) && item.activity.value.agentThreadID in s.reg.orphans
            then Without(s.reg.orphanOrder, {item.activity.value.agentThreadID}) else s.reg.orphanOrder
  {
  }

  lemma DeliveryOrder(s: Sys, t: Id, ev: Event)
    ensures DeliverTo(s, t, ev).reg == s.reg || DeliverTo(s, t, ev).reg == Hold(s.reg, t, ev)
  {
  }

  lemma HoldOrder(r: Reg, t: Id, ev: Event) returns (gone: set<Id>)
    requires RegOk(r)
    ensures Hold(r, t, ev).orphanOrder == Without(r.orphanOrder, gone) + if t in r.orphans then [] else [t]
  {
    gone := if t !in r.orphans && |r.orphanOrder| >= ORPHAN_THREAD_LIMIT then {r.orphanOrder[0]} else {};
    if gone == {} {
      WithoutNothing(r.orphanOrder, {});
    }
  }

  /** How a step may change the order list. */
  lemma OrderAfter(s: Sys, a: Action) returns (gone: set<Id>, more: seq<Id>)
    requires Inv(s)
    ensures Step(s, a).reg.orphanOrder == Without(s.reg.orphanOrder, gone) + more
    ensures more == [] || (a.Deliver? && more == [a.thread] && a.thread !in s.reg.orphans)
  {
    gone, more := {}, [];
    WithoutNothing(s.reg.orphanOrder, {});
    match a
    case Register(t) => gone := {t};
    case Delete(t) => gone := Descendants(s.reg.children, t) + {t};
    case Name(parent, turn, item) =>
      NamingOrder(s, parent, turn, item);
      if Names(s, parent, item) && item.activity.value.agentThreadID in s.reg.orphans {
        gone := {item.activity.value.agentThreadID};
      }
    case Deliver(t, ev) =>
      DeliveryOrder(s, t, ev);
      if DeliverTo(s, t, ev).reg != s.reg {
        gone := HoldOrder(s.reg, t, ev);
        more := if t in s.reg.orphans then [] else [t];
      }
    case _ =>
  }

  lemma {:induction false} OrderIsByAge(acts: seq<Action>)
    ensures LongestFirst(Run(START, acts).reg.orphanOrder, acts)
    decreases |acts|
  {
    if acts != [] {
      var init, a := acts[..|acts| - 1], acts[|acts| - 1];
      var s := Run(START, init);
      RunLast(START, acts);
      ReachableInv(START, init);
      OrderIsByAge(init);
      var gone, more := OrderAfter(s, a);
      WithoutInOrder(s.reg.orphanOrder, gone, init);
      var kept := Without(s.reg.orphanOrder, gone);
      forall x | x in kept ensures x in s.reg.orphans && HeldFrom(acts, x) == HeldFrom(init, x) < |init| {
        assert x in Elems(s.reg.orphanOrder);
        assert x in s.reg.orphans.Keys;
      }
    }
  }

  lemma FirstIsLongest(order: seq<Id>, acts: seq<Action>, y: Id)
    requires LongestFirst(order, acts) && y in order && y != order[0]
    ensures HeldFrom(acts, order[0]) < HeldFrom(acts, y)
  {
    var j :| 0 <= j < |order| && order[j] == y;
  }

  lemma OldestMakesRoom(r: Reg, t: Id, ev: Event, x: Id)
    requires RegOk(r) && x in r.orphans && x !in Hold(r, t, ev).orphans
    ensures t !in r.orphans && |r.orphans| == ORPHAN_THREAD_LIMIT && x == r.orphanOrder[0]
    ensures forall y :: y in r.orphans && y != x ==> y in Hold(r, t, ev).orphans
  {
    DistinctCount(r.orphanOrder);
    assert |r.orphanOrder| == |r.orphans.Keys|;
  }

  /** In every run, delivering an event costs another held thread its events
      only when it is for a new thread with 32 held, and then the one that has
      been held longest. */
  lemma {:induction false} LongestHeldGoes(acts: seq<Action>, t: Id, ev: Event, x: Id)
    requires var s := Run(START, acts); x in s.reg.orphans && x !in Step(s, Deliver(t, ev)).reg.orphans
    ensures var s := Run(START, acts);
      && t !in s.reg.orphans && |s.reg.orphans| == ORPHAN_THREAD_LIMIT
      && (forall y :: y in s.reg.orphans && y != x ==>
            && HeldFrom(acts, x) < HeldFrom(acts, y)
            && y in Step(s, Deliver(t, ev)).reg.orphans)
  {
    var s := Run(START, acts);
    ReachableInv(START, acts);
    OrderIsByAge(acts);
    var order := s.reg.orphanOrder;
    DeliveryOrder(s, t, ev);
    OldestMakesRoom(s.reg, t, ev, x);
    forall y | y in s.reg.orphans && y != x ensures HeldFrom(acts, x) < HeldFrom(acts, y) {
      assert y in Elems(order);
      FirstIsLongest(order, acts, y);
    }
  }
}
