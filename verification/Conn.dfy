/** The connection's routing as objects: registered threads, the current
    subscription of each thread, and the child registry. Each method is proved
    to take exactly the step of Fabric it is named after, so what is proved of
    every run there holds of these objects. */
module Conn {
  import opened Basics
  import opened Events
  import opened ChildTree
  import opened Fabric
  import Pump
  import Registry

  /** What routing needs of a push: the event is accepted or the subscription
      is closing. */
  method Offer(sub: Pump.Subscription, ev: Event)
    modifies sub
    ensures sub.closing == old(sub.closing)
    ensures sub.accepted == if sub.closing then old(sub.accepted) else old(sub.accepted) + [ev]
  {
    sub.Push(ev);
  }

  /** Offers ev to every subscription of a set. */
  method OfferEach(all: set<Pump.Subscription>, ev: Event)
    modifies all
    ensures forall sub :: sub in all ==> sub.closing == old(sub.closing)
    ensures forall sub :: sub in all ==>
      sub.accepted == if sub.closing then old(sub.accepted) else old(sub.accepted) + [ev]
  {
    var todo := all;
    while todo != {}
      invariant todo <= all
      invariant forall sub :: sub in all ==> sub.closing == old(sub.closing)
      invariant forall sub :: sub in all ==>
        sub.accepted == if sub in todo || sub.closing then old(sub.accepted) else old(sub.accepted) + [ev]
      decreases todo
    {
      var sub :| sub in todo;
      Offer(sub, ev);
      todo := todo - {sub};
    }
  }

  method CloseEach(all: set<Pump.Subscription>)
    modifies all
    ensures forall sub :: sub in all ==> sub.closing && sub.accepted == old(sub.accepted)
  {
    var todo := all;
    while todo != {}
      invariant todo <= all
      invariant forall sub :: sub in all ==> sub.accepted == old(sub.accepted)
      invariant forall sub :: sub in all && sub !in todo ==> sub.closing
      decreases todo
    {
      var sub :| sub in todo;
      Close(sub);
      todo := todo - {sub};
    }
  }

  method Close(sub: Pump.Subscription)
    modifies sub
    ensures sub.closing && sub.accepted == old(sub.accepted)
  {
    sub.Finish();
  }

  class Connection {
    const reg: Registry.ChildRegistry
    var threads: set<Id>
    var subs: map<Id, Pump.Subscription>
    var subsClosed: bool

    ghost function SubsView(): map<Id, Sub>
      reads this`subs, subs.Values
    {
      map t | t in subs :: Sub(subs[t].accepted, subs[t].closing)
    }

    ghost function View(): Sys
      reads this, reg, subs.Values
    {
      Sys(threads, reg.View(), SubsView())
    }

    /** No two threads share a subscription. */
    ghost predicate Apart()
      reads this`subs
    {
      forall t, u :: t in subs && u in subs && t != u ==> subs[t] != subs[u]
    }

    ghost predicate Valid()
      reads this, reg
    {
      Apart() && RouteOk(threads, reg.View())
    }

    constructor ()
      ensures Valid() && View() == START && fresh(reg) && !subsClosed
    {
      reg := new Registry.ChildRegistry();
      threads, subs, subsClosed := {}, map[], false;
    }

    /** Pushes one event to the subscription of t, if there is one. */
    method PushTo(t: Id, ev: Event)
      requires Apart()
      modifies subs.Values
      ensures SubsView() == PushAll(old(SubsView()), t, [ev])
    {
      if t in subs {
        Offer(subs[t], ev);
      }
    }

    /** An event for a thread with no subscriber: a child's goes to the
        subscriber at the root of its tree, an unnamed thread's is held. */
    method RouteUnsubscribed(t: Id, ev: Event)
      requires Valid()
      modifies reg, subs.Values
      ensures Valid()
      ensures View() == Route(old(View()), t, ev)
    {
      if t == NO_ID || t in threads {
        return;
      }
      if t in reg.children {
        TellRoot(t, ev);
        return;
      }
      HoldFor(t, ev);
    }

    method TellRoot(t: Id, ev: Event)
      requires Apart() && t in reg.children
      modifies subs.Values
      ensures var c := reg.children[t];
        SubsView() == PushAll(old(SubsView()), Root(reg.children, c), [ChildThread(c, TurnOf(reg.turns, t), ev)])
    {
      var child := reg.children[t];
      var root := reg.RootOf(child);
      PushTo(root, ChildThread(child, TurnOf(reg.turns, t), ev));
    }

    method HoldFor(t: Id, ev: Event)
      requires RouteOk(threads, reg.View()) && t != NO_ID && t !in threads && t !in reg.children
      modifies reg
      ensures RouteOk(threads, reg.View()) && reg.View() == Hold(old(reg.View()), t, ev)
    {
      HoldKeepsOk(reg.View(), t, ev);
      reg.HoldEvent(t, ev);
    }

    /** A subscribed thread's event goes to its own subscription and touches
        nothing else. */
    method DeliverEvent(t: Id, ev: Event)
      requires Valid()
      modifies reg, subs.Values
      ensures Valid()
      ensures View() == Step(old(View()), Deliver(t, ev))
      ensures t in old(subs) && !old(subs[t].closing) ==>
        View() == old(View()).(subs := old(SubsView())[t := Sub(old(subs[t].accepted) + [ev], false)])
    {
      if t in subs {
        PushTo(t, ev);
      } else {
        RouteUnsubscribed(t, ev);
      }
    }

    method NoteTurnOf(t: Id, turn: Id, started: bool)
      requires Valid()
      modifies reg
      ensures Valid()
      ensures View() == Step(old(View()), NoteTurn(t, turn, started))
    {
      if t in threads {
        return;
      }
      if started {
        reg.turns := reg.turns[t := turn];
      } else if TurnOf(reg.turns, t) == turn {
        reg.turns := reg.turns - {t};
      }
    }

    /** Registers the child a subAgentActivity item names and replays what was
        held for it. */
    method NameChild(parent: Id, turn: Id, item: Item)
      requires Valid()
      modifies reg, subs.Values
      ensures Valid()
      ensures View() == Step(old(View()), Name(parent, turn, item))
    {
      if item.activity.None? {
        return;
      }
      var a := item.activity.value;
      var x := a.agentThreadID;
      if x == NO_ID || x == parent || x in threads {
        return;
      }
      NamingKeepsInv(View(), parent, turn, item);
      AdoptAndReplay(x, parent, turn, item);
    }

    method AdoptAndReplay(x: Id, parent: Id, turn: Id, item: Item)
      requires Apart() && Lists(reg.childOrder, reg.children.Keys) && Lists(reg.orphanOrder, reg.orphans.Keys)
      requires item.activity.Some? && item.activity.value.agentThreadID == x
      modifies reg, subs.Values
      ensures var (r, c) := Adopt(old(reg.View()), parent, turn, item);
        if x !in r.orphans || r.orphans[x] == [] then
          reg.View() == r && SubsView() == old(SubsView())
        else
          && reg.View() == r.(orphans := r.orphans - {x}, orphanOrder := Without(r.orphanOrder, {x}))
          && SubsView() == PushAll(old(SubsView()), Root(r.children, c), Replay(c, r.orphans[x]))
    {
      var child := reg.AdoptChild(parent, turn, item);
      if x in reg.orphans && reg.orphans[x] != [] {
        ReplayTo(x, child);
      }
    }

    method ReplayTo(x: Id, child: Child)
      requires Apart() && Lists(reg.orphanOrder, reg.orphans.Keys) && x in reg.orphans
      modifies reg`orphans, reg`orphanOrder, subs.Values
      ensures reg.orphans == old(reg.orphans) - {x} && reg.orphanOrder == Without(old(reg.orphanOrder), {x})
      ensures SubsView() == PushAll(old(SubsView()), Root(reg.children, child), Replay(child, old(reg.orphans)[x]))
    {
      var held := reg.TakeHeld(x);
      var root := reg.RootOf(child);
      ReplayHeld(root, child, held);
    }

    /** Pushes held events to the root's subscriber, each with the turn that
        was running when it arrived. */
    method ReplayHeld(root: Id, child: Child, held: seq<Held>)
      requires Apart()
      modifies subs.Values
      ensures SubsView() == PushAll(old(SubsView()), root, Replay(child, held))
    {
      if root !in subs {
        return;
      }
      var sub := subs[root];
      assert Replay(child, held[..0]) == [];
      for i := 0 to |held|
        invariant forall t :: t in subs && t != root ==> Same(subs[t].accepted, subs[t].closing, old(SubsView())[t])
        invariant sub.closing == old(sub.closing)
        invariant sub.accepted
               == if sub.closing then old(sub.accepted) else old(sub.accepted) + Replay(child, held[..i])
      {
        var h := held[i];
        assert Replay(child, held[..i + 1]) == Replay(child, held[..i]) + [ChildThread(child, h.turn, h.ev)];
        Offer(sub, ChildThread(child, h.turn, h.ev));
      }
      assert held[..|held|] == held;
    }

    method BroadcastEvent(ev: Event)
      requires Apart()
      modifies subs.Values
      ensures SubsView() == AcceptEach(old(SubsView()), ev)
    {
      OfferEach(subs.Values, ev);
    }

    /** Registering a thread detaches it from the tree. */
    method RegisterThread(t: Id)
      requires Valid()
      modifies this`threads, reg
      ensures Valid()
      ensures View() == Step(old(View()), Register(t))
    {
      ForgetKeepsOk(reg.View(), {t});
      threads := threads + {t};
      reg.Forget(t);
    }

    method ListBelow(t: Id) returns (gone: seq<Id>)
      ensures Elems(gone) == Descendants(reg.children, t)
    {
      gone := reg.ListDescendants(t);
    }

    /** Drops a deleted thread and every subagent under it. */
    method ForgetThread(t: Id)
      requires Valid()
      modifies this`threads, reg
      ensures Valid()
      ensures View() == Step(old(View()), Delete(t))
    {
      ForgetKeepsOk(reg.View(), Descendants(reg.children, t) + {t});
      var gone := ListBelow(t);
      threads := threads - {t};
      reg.ForgetList(t, gone);
    }

    /** Makes a new subscription the thread's only one; the one it replaces
        still hands over what it had queued and then ends. */
    method SubscribeTo(t: Id) returns (sub: Pump.Subscription)
      requires Apart()
      modifies this`subs, subs.Values
      ensures Apart() && fresh(sub) && t in subs && subs[t] == sub
      ensures SubsView() == old(SubsView())[t := Sub([], false)]
      ensures t in old(subs) ==> old(subs)[t].closing && old(subs)[t].accepted == old(subs[t].accepted)
    {
      if t in subs {
        Close(subs[t]);
      }
      sub := new Pump.Subscription();
      subs := subs[t := sub];
    }

    /** The reader leaves: its subscription drops what is queued, and is
        removed only while it is the thread's current one. */
    method Unsubscribe(t: Id, sub: Pump.Subscription)
      requires Apart()
      requires forall u :: u in subs && subs[u] == sub ==> u == t
      modifies this`subs, sub
      ensures Apart()
      ensures sub.aborted && sub.closing && sub.accepted == old(sub.accepted)
      ensures subs == if t in old(subs) && old(subs)[t] == sub then old(subs) - {t} else old(subs)
      ensures SubsView() == if t in old(subs) && old(subs)[t] == sub then old(SubsView()) - {t} else old(SubsView())
    {
      sub.Cancel();
      if t in subs && subs[t] == sub {
        subs := subs - {t};
      }
    }

    /** Queues the exit as every subscriber's last event and closes them; a
        second call does nothing. */
    method DeliverExitAndCloseSubs(exit: Option<Event>)
      requires Apart()
      modifies this`subs, this`subsClosed, subs.Values
      ensures subsClosed
      ensures old(subsClosed) ==> subs == old(subs) && SubsView() == old(SubsView())
      ensures !old(subsClosed) ==> subs == map[] && forall t :: t in old(subs) ==>
        && old(subs)[t].closing
        && old(subs)[t].accepted == Accept(old(SubsView())[t], ExitEvents(exit)).accepted
    {
      if subsClosed {
        return;
      }
      subsClosed := true;
      if exit.Some? {
        OfferEach(subs.Values, exit.value);
      }
      CloseEach(subs.Values);
      subs := map[];
    }

    /** One notification: the critical sections its arm runs, in order. */
    method DispatchNotification(f: Frame)
      requires Valid()
      modifies reg, subs.Values
      ensures Valid()
      ensures View() == Run(old(View()), Dispatch(f, if f.ConnFrame? then false else f.thread in threads))
    {
      match f {
        case TurnStartedFrame(t, turn) =>
          if t !in threads {
            NoteTurnOf(t, turn, true);
          }
          DeliverEvent(t, TurnStarted(t, turn));
        case TurnCompletedFrame(t, turn, end) =>
          if t !in threads {
            NoteTurnOf(t, turn, false);
          }
          DeliverEvent(t, TurnCompleted(t, turn, end));
        case ItemFrame(t, turn, item) =>
          DeliverEvent(t, ItemEvent(t, turn, item));
          NameChild(t, turn, item);
        case ThreadFrame(t, payload) =>
          DeliverEvent(t, ThreadEvent(t, payload));
        case ConnFrame(payload) =>
          BroadcastEvent(ConnEvent(payload));
      }
      RunSteps(old(View()), Dispatch(f, if f.ConnFrame? then false else f.thread in threads));
    }
  }

  predicate Same(accepted: seq<Event>, closing: bool, s: Sub) {
    accepted == s.accepted && closing == s.closing
  }

  function ExitEvents(exit: Option<Event>): seq<Event> {
    if exit.Some? then [exit.value] else []
  }
}
