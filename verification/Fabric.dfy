/** The event-routing fabric of one connection as a transition system: which
    subscription accepts which event, for threads the connection opened and
    for the subagents under them. One action is one critical section. */
module Fabric {
  import opened Basics
  import opened Events
  import opened ChildTree

  /** A thread's current subscription: what it has accepted so far, and
      whether it still accepts. */
  datatype Sub = Sub(accepted: seq<Event>, closing: bool)

  datatype Sys = Sys(threads: set<Id>, reg: Reg, subs: map<Id, Sub>)

  const START := Sys({}, EMPTY_REG, map[])

  datatype Action =
    | NoteTurn(thread: Id, turn: Id, started: bool)
    | Deliver(thread: Id, ev: Event)
    | Name(parent: Id, turn: Id, item: Item)
    | Broadcast(ev: Event)
    | Register(thread: Id)
    | Delete(thread: Id)
    | Subscribe(thread: Id)
    | CancelSub(thread: Id)
    | RemoveSub(thread: Id)
    | Exit(ev: Event)

  function Accept(s: Sub, evs: seq<Event>): Sub {
    if s.closing then s else s.(accepted := s.accepted + evs)
  }

  function PushAll(subs: map<Id, Sub>, t: Id, evs: seq<Event>): map<Id, Sub> {
    if t in subs then subs[t := Accept(subs[t], evs)] else subs
  }

  /** Hold an event for a thread nobody has named, evicting the oldest such
      thread when there are too many, and the oldest event likewise. */
  function Hold(r: Reg, t: Id, ev: Event): Reg {
    var open := t in r.orphans;
    var r1 := if !open && |r.orphanOrder| >= ORPHAN_THREAD_LIMIT then ForgetAll(r, {r.orphanOrder[0]}) else r;
    var buffer := if open then r.orphans[t] else [];
    r1.(orphans := r1.orphans[t := LastN(buffer + [Held(ev, TurnOf(r1.turns, t))], ORPHAN_EVENT_LIMIT)],
        orphanOrder := if open then r1.orphanOrder else r1.orphanOrder + [t])
  }

  function Route(s: Sys, t: Id, ev: Event): Sys {
    if t == NO_ID || t in s.threads then s
    else if t in s.reg.children then
      var c := s.reg.children[t];
      s.(subs := PushAll(s.subs, Root(s.reg.children, c), [ChildThread(c, TurnOf(s.reg.turns, t), ev)]))
    else s.(reg := Hold(s.reg, t, ev))
  }

  function DeliverTo(s: Sys, t: Id, ev: Event): Sys {
    if t in s.subs then s.(subs := PushAll(s.subs, t, [ev])) else Route(s, t, ev)
  }

  /** The turn record after a turn starts or ends. */
  function TurnAfter(current: Id, turn: Id, started: bool): Id {
    if started then turn else if current == turn then NO_ID else current
  }

  function NoteForeignTurn(s: Sys, t: Id, turn: Id, started: bool): Sys {
    if t in s.threads then s
    else if started then s.(reg := s.reg.(turns := s.reg.turns[t := turn]))
    else if TurnOf(s.reg.turns, t) == turn then s.(reg := s.reg.(turns := s.reg.turns - {t}))
    else s
  }

  /** The item names a subagent this connection may adopt. */
  predicate Names(s: Sys, parent: Id, item: Item) {
    && item.activity.Some?
    && var x := item.activity.value.agentThreadID;
    && x != NO_ID && x != parent && x !in s.threads
  }

  function NewChild(parent: Id, turn: Id, item: Item): Child
    requires item.activity.Some?
  {
    Child(item.activity.value.agentThreadID, parent, "", NO_ID, turn)
  }

  /** What a naming item adds to what is known of a child. */
  function Refine(c: Child, item: Item): Child
    requires item.activity.Some?
  {
    var a := item.activity.value;
    var c1 := if a.agentPath != "" then c.(agentPath := a.agentPath) else c;
    if a.kind == KIND_STARTED && c1.toolCallID == NO_ID then c1.(toolCallID := item.id) else c1
  }

  function Replay(c: Child, held: seq<Held>): seq<Event> {
    seq(|held|, i requires 0 <= i < |held| => ChildThread(c, held[i].turn, held[i].ev))
  }

  /** The registry and the child once the item has been taken in. */
  function Adopt(r: Reg, parent: Id, turn: Id, item: Item): (Reg, Child)
    requires item.activity.Some?
  {
    var x := item.activity.value.agentThreadID;
    var base := if x in r.children then r.children[x] else NewChild(parent, turn, item);
    var r1 := if x in r.children then r else AddChild(r, base);
    var c := Refine(base, item);
    (if x in r1.children then r1.(children := r1.children[x := c]) else r1, c)
  }

  function NoteSubAgent(s: Sys, parent: Id, turn: Id, item: Item): Sys {
    if !Names(s, parent, item) then s else
    var x := item.activity.value.agentThreadID;
    var (r, c) := Adopt(s.reg, parent, turn, item);
    if x !in r.orphans || r.orphans[x] == [] then s.(reg := r) else
    var r' := r.(orphans := r.orphans - {x}, orphanOrder := Without(r.orphanOrder, {x}));
    Sys(s.threads, r', PushAll(s.subs, Root(r'.children, c), Replay(c, r.orphans[x])))
  }

  /** Every child the deletion of t takes with it. */
  ghost function Descendants(children: map<Id, Child>, t: Id): set<Id> {
    set x | x in children && Under(children, x, t, WALK_LIMIT + 1)
  }

  ghost function ForgetDeleted(s: Sys, t: Id): Sys {
    s.(threads := s.threads - {t}, reg := ForgetAll(s.reg, Descendants(s.reg.children, t) + {t}))
  }

  function AcceptEach(subs: map<Id, Sub>, ev: Event): map<Id, Sub> {
    map t | t in subs :: Accept(subs[t], [ev])
  }

  ghost function Step(s: Sys, a: Action): Sys {
    match a
    case NoteTurn(t, turn, started) => NoteForeignTurn(s, t, turn, started)
    case Deliver(t, ev) => DeliverTo(s, t, ev)
    case Name(parent, turn, item) => NoteSubAgent(s, parent, turn, item)
    case Broadcast(ev) => s.(subs := AcceptEach(s.subs, ev))
    case Register(t) => s.(threads := s.threads + {t}, reg := ForgetAll(s.reg, {t}))
    case Delete(t) => ForgetDeleted(s, t)
    case Subscribe(t) => s.(subs := s.subs[t := Sub([], false)])
    case CancelSub(t) => if t in s.subs then s.(subs := s.subs[t := s.subs[t].(closing := true)]) else s
    case RemoveSub(t) => s.(subs := s.subs - {t})
    case Exit(ev) => s.(subs := map[])
  }

  ghost function Run(s: Sys, acts: seq<Action>): Sys
    decreases |acts|
  {
    if acts == [] then s else Run(Step(s, acts[0]), acts[1..])
  }

  lemma {:induction false} RunInTurn(s: Sys, a: seq<Action>, b: seq<Action>)
    ensures Run(s, a + b) == Run(Run(s, a), b)
    decreases |a|
  {
    if a == [] {
      assert a + b == b;
    } else {
      assert (a + b)[1..] == a[1..] + b;
      RunInTurn(Step(s, a[0]), a[1..], b);
    }
  }

  lemma RunLast(s: Sys, acts: seq<Action>)
    requires acts != []
    ensures Run(s, acts) == Step(Run(s, acts[..|acts| - 1]), acts[|acts| - 1])
  {
    var init, last := acts[..|acts| - 1], acts[|acts| - 1];
    assert acts == init + [last];
    RunInTurn(s, init, [last]);
    assert Run(Step(Run(s, init), last), []) == Step(Run(s, init), last);
  }

  lemma RunSteps(s: Sys, acts: seq<Action>)
    requires 1 <= |acts| <= 2
    ensures Run(s, acts) == if |acts| == 1 then Step(s, acts[0]) else Step(Step(s, acts[0]), acts[1])
  {
    RunLast(s, acts);
    if |acts| == 2 {
      RunLast(s, acts[..1]);
    }
  }

  lemma DeliveryKeepsChild(s: Sys, t: Id, ev: Event, x: Id)
    requires x in DeliverTo(s, t, ev).reg.children
    ensures x in s.reg.children && DeliverTo(s, t, ev).reg.children[x] == s.reg.children[x]
  {
  }

  /** Only the routing itself wraps events as a child's. */
  ghost predicate Plain(acts: seq<Action>) {
    forall i :: 0 <= i < |acts| && (acts[i].Deliver? || acts[i].Broadcast?) ==> !acts[i].ev.ChildThread?
  }

  // ---- the notifications that reach the registry ----

  datatype Frame =
    | TurnStartedFrame(thread: Id, turn: Id)
    | TurnCompletedFrame(thread: Id, turn: Id, end: TurnEnd)
    | ItemFrame(thread: Id, turn: Id, item: Item)
    | ThreadFrame(thread: Id, payload: nat)
    | ConnFrame(payload: nat)

  /** The critical sections one notification runs, in order. */
  function Dispatch(f: Frame, registered: bool): seq<Action> {
    match f
    case TurnStartedFrame(t, turn) =>
      (if registered then [] else [NoteTurn(t, turn, true)]) + [Deliver(t, TurnStarted(t, turn))]
    case TurnCompletedFrame(t, turn, end) =>
      (if registered then [] else [NoteTurn(t, turn, false)]) + [Deliver(t, TurnCompleted(t, turn, end))]
    case ItemFrame(t, turn, item) => [Deliver(t, ItemEvent(t, turn, item)), Name(t, turn, item)]
    case ThreadFrame(t, payload) => [Deliver(t, ThreadEvent(t, payload))]
    case ConnFrame(payload) => [Broadcast(ConnEvent(payload))]
  }

  // ---- the invariant of every reachable state ----

  ghost predicate RouteOk(threads: set<Id>, reg: Reg) {
    && RegOk(reg)
    && threads !! reg.children.Keys
    && threads !! reg.orphans.Keys
  }

  ghost predicate Inv(s: Sys) {
    RouteOk(s.threads, s.reg)
  }

  /** Evicting the oldest held thread leaves room, and it is no child. */
  lemma EvictOrphan(r: Reg)
    requires RegOk(r) && |r.orphanOrder| >= ORPHAN_THREAD_LIMIT
    ensures var first := r.orphanOrder[0];
      first in r.orphans && first !in r.children && |Without(r.orphanOrder, {first})| < ORPHAN_THREAD_LIMIT
  {
    var first := r.orphanOrder[0];
    assert first in r.orphans.Keys;
    WithoutNothing(r.orphanOrder[1..], {first});
  }

  lemma HoldNewKeepsOk(r: Reg, t: Id, h: Held)
    requires RegOk(r) && t != NO_ID && t !in r.children && t !in r.orphans && |r.orphanOrder| < ORPHAN_THREAD_LIMIT
    ensures RegOk(r.(orphans := r.orphans[t := [h]], orphanOrder := r.orphanOrder + [t]))
  {
    ListsAppend(r.orphanOrder, r.orphans.Keys, t);
    assert r.orphans[t := [h]].Keys == r.orphans.Keys + {t};
  }

  lemma {:induction false} HoldKeepsOk(r: Reg, t: Id, ev: Event)
    requires RegOk(r) && t != NO_ID && t !in r.children
    ensures RegOk(Hold(r, t, ev))
    ensures Hold(r, t, ev).children == r.children
    ensures Hold(r, t, ev).orphans.Keys <= r.orphans.Keys + {t}
  {
    if t in r.orphans {
      assert r.orphans[t := Hold(r, t, ev).orphans[t]].Keys == r.orphans.Keys;
    } else {
      var r1 := r;
      if |r.orphanOrder| >= ORPHAN_THREAD_LIMIT {
        EvictOrphan(r);
        ForgetKeepsOk(r, {r.orphanOrder[0]});
        r1 := ForgetAll(r, {r.orphanOrder[0]});
      }
      var h := Held(ev, TurnOf(r1.turns, t));
      assert LastN([] + [h], ORPHAN_EVENT_LIMIT) == [h];
      HoldNewKeepsOk(r1, t, h);
    }
  }

  lemma FiledNew(children: map<Id, Child>, base: Child, out: set<Id>, c: Child)
    requires Filed(children)
    requires base.threadID == c.threadID && base.threadID != NO_ID
    requires base.parentID == c.parentID != base.threadID
    ensures var kids := children[base.threadID := base] - out;
      && Filed(kids)
      && kids.Keys <= children.Keys + {base.threadID}
      && (base.threadID in kids ==> Filed(kids[base.threadID := c]) && kids[base.threadID := c].Keys == kids.Keys)
  {
  }

  lemma AdoptNewKeepsOk(r: Reg, parent: Id, turn: Id, item: Item)
    requires Lists(r.childOrder, r.children.Keys) && Filed(r.children)
    requires item.activity.Some?
    requires var x := item.activity.value.agentThreadID; x != NO_ID && x != parent && x !in r.children
    ensures var (r', c) := Adopt(r, parent, turn, item); var x := item.activity.value.agentThreadID;
      && Lists(r'.childOrder, r'.children.Keys)
      && r'.children.Keys <= r.children.Keys + {x}
      && Filed(r'.children)
  {
    var base := NewChild(parent, turn, item);
    AddMembers(r, base);
    FiledNew(r.children, base, Evicted(r, base), Refine(base, item));
  }

  lemma AdoptKeepsOk(r: Reg, parent: Id, turn: Id, item: Item)
    requires Lists(r.childOrder, r.children.Keys) && Filed(r.children)
    requires item.activity.Some?
    requires var x := item.activity.value.agentThreadID; x != NO_ID && x != parent
    ensures var (r', c) := Adopt(r, parent, turn, item); var x := item.activity.value.agentThreadID;
      && Lists(r'.childOrder, r'.children.Keys)
      && r'.children.Keys <= r.children.Keys + {x}
      && Filed(r'.children)
      && r'.orphans == r.orphans && r'.orphanOrder == r.orphanOrder && r'.turns == r.turns
      && c.threadID == x
  {
    var x := item.activity.value.agentThreadID;
    if x in r.children {
      FiledNew(r.children, r.children[x], {}, Refine(r.children[x], item));
      assert r.children[x := r.children[x]] - {} == r.children;
    } else {
      AdoptNewKeepsOk(r, parent, turn, item);
    }
  }

  lemma UnholdKeepsOk(r: Reg, x: Id)
    requires Lists(r.orphanOrder, r.orphans.Keys)
    ensures var order := Without(r.orphanOrder, {x}); Lists(order, (r.orphans - {x}).Keys) && |order| <= |r.orphanOrder|
  {
    ListsWithout(r.orphanOrder, r.orphans.Keys, {x});
    WithoutMembers(r.orphanOrder, {x});
    assert (r.orphans - {x}).Keys == r.orphans.Keys - {x};
  }

  lemma {:induction false} NamingKeepsInv(s: Sys, parent: Id, turn: Id, item: Item)
    requires Inv(s)
    ensures Inv(NoteSubAgent(s, parent, turn, item))
  {
    if Names(s, parent, item) {
      var x := item.activity.value.agentThreadID;
      AdoptKeepsOk(s.reg, parent, turn, item);
      var (r, c) := Adopt(s.reg, parent, turn, item);
      if x in r.orphans {
        UnholdKeepsOk(r, x);
      }
    }
  }

  lemma {:induction false} StepKeepsInv(s: Sys, a: Action)
    requires Inv(s)
    ensures Inv(Step(s, a))
  {
    match a
    case Deliver(t, ev) =>
      if t != NO_ID && t !in s.threads && t !in s.reg.children {
        HoldKeepsOk(s.reg, t, ev);
      }
    case Name(parent, turn, item) => NamingKeepsInv(s, parent, turn, item);
    case Register(t) => ForgetKeepsOk(s.reg, {t});
    case Delete(t) => ForgetKeepsOk(s.reg, Descendants(s.reg.children, t) + {t});
    case _ =>
  }

  /** In every reachable state the order lists are exactly the keys, every
      child is filed under its own id and is not its own parent, and children,
      held threads and registered threads are disjoint. */
  lemma {:induction false} ReachableInv(s: Sys, acts: seq<Action>)
    requires Inv(s)
    ensures Inv(Run(s, acts))
    decreases |acts|
  {
    if acts != [] {
      StepKeepsInv(s, acts[0]);
      ReachableInv(Step(s, acts[0]), acts[1..]);
    }
  }

  // ---- what a held buffer is ----

  /** Everything delivered to x since the connection began holding for it. */
  ghost function LogStep(s: Sys, a: Action, x: Id, log: seq<Held>): seq<Held> {
    if x !in Step(s, a).reg.orphans then []
    else if a.Deliver? && a.thread == x && x !in s.subs then log + [Held(a.ev, TurnOf(s.reg.turns, x))]
    else log
  }

  ghost function HeldSince(s: Sys, acts: seq<Action>, x: Id, log: seq<Held>): seq<Held>
    decreases |acts|
  {
    if acts == [] then log else HeldSince(Step(s, acts[0]), acts[1..], x, LogStep(s, acts[0], x, log))
  }

  ghost predicate HoldsTail(s: Sys, x: Id, log: seq<Held>) {
    if x in s.reg.orphans then log != [] && s.reg.orphans[x] == LastN(log, ORPHAN_EVENT_LIMIT) else log == []
  }

  lemma HoldSelf(r: Reg, x: Id, ev: Event, log: seq<Held>)
    requires RegOk(r)
    requires if x in r.orphans then r.orphans[x] == LastN(log, ORPHAN_EVENT_LIMIT) else log == []
    ensures x in Hold(r, x, ev).orphans
    ensures Hold(r, x, ev).orphans[x] == LastN(log + [Held(ev, TurnOf(r.turns, x))], ORPHAN_EVENT_LIMIT)
  {
    LastNAppend(log, ORPHAN_EVENT_LIMIT, Held(ev, TurnOf(r.turns, x)));
    if x !in r.orphans && |r.orphanOrder| >= ORPHAN_THREAD_LIMIT {
      assert r.orphanOrder[0] in r.orphans.Keys;
    }
  }

  lemma {:induction false} LogStepHoldsTail(s: Sys, a: Action, x: Id, log: seq<Held>)
    requires Inv(s) && HoldsTail(s, x, log)
    ensures HoldsTail(Step(s, a), x, LogStep(s, a, x, log))
  {
    if a.Deliver? && a.thread !in s.subs {
      if a.thread == x {
        HoldSelf(s.reg, x, a.ev, log);
      } else {
        var r := Hold(s.reg, a.thread, a.ev);
        assert x in r.orphans ==> x in s.reg.orphans && r.orphans[x] == s.reg.orphans[x];
      }
    }
  }

  /** A held buffer is exactly the last 256 events, or all of them, since the
      connection began holding for that thread. */
  lemma {:induction false} HeldBufferIsTail(s: Sys, acts: seq<Action>, x: Id, log: seq<Held>)
    requires Inv(s) && HoldsTail(s, x, log)
    ensures HoldsTail(Run(s, acts), x, HeldSince(s, acts, x, log))
    decreases |acts|
  {
    if acts != [] {
      StepKeepsInv(s, acts[0]);
      LogStepHoldsTail(s, acts[0], x, log);
      HeldBufferIsTail(Step(s, acts[0]), acts[1..], x, LogStep(s, acts[0], x, log));
    }
  }
}
