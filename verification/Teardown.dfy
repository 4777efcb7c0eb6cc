/** The end of a connection: the reaper, the read loop, the goroutines that
    start streams, and the handlers that report events of their own. A step is
    one critical section or one channel operation. */
module Teardown {
  import opened Basics
  import opened Events

  /** A stream has subscribed and not yet looked whether the process exited,
      has looked and gone on, was refused, or has left. */
  datatype Stage = Subscribed | GoneOn | Refused | Departed

  datatype Stream = Stream(thread: Id, accepted: seq<Event>, closing: bool, stage: Stage)

  /** The reaper waits for the process, stores the exit, closes the rpc
      connection, waits for the read loop, and delivers the exit. */
  datatype Reaper = AwaitsProcess | Stored | RPCClosed | ReaderSeen | Delivered

  /** current maps a thread to its one current subscription. */
  datatype State = State(reaper: Reaper, readerGone: bool, streams: map<nat, Stream>, current: map<Id, nat>)

  const START := State(AwaitsProcess, false, map[], map[])

  datatype Act =
    | StoreExit | CloseRPC | ReaderLeaves | SeeReader | DeliverExit(reason: Option<Exit>)
    | Dispatch(t: Id, ev: Event) | Report(t: Id, ev: Event)
    | Subscribe(t: Id, k: nat) | CheckExited(k: nat) | Leave(k: nat)

  predicate Enabled(s: State, a: Act) {
    match a
    case StoreExit => s.reaper.AwaitsProcess?
    case CloseRPC => s.reaper.Stored?
    case ReaderLeaves => !s.readerGone
    case SeeReader => s.reaper.RPCClosed? && s.readerGone
    case DeliverExit(_) => s.reaper.ReaderSeen?
    case Dispatch(_, ev) => !s.readerGone && !ev.ProcessExit?
    case Report(_, ev) => !ev.ProcessExit?
    case Subscribe(_, k) => k !in s.streams
    case CheckExited(k) => k in s.streams && s.streams[k].stage.Subscribed?
    case Leave(k) => k in s.streams
  }

  function Push(x: Stream, ev: Event): Stream {
    if x.closing then x else x.(accepted := x.accepted + [ev])
  }

  /** An event for whatever subscription is the thread's current one. */
  function Offer(s: State, t: Id, ev: Event): State {
    if t in s.current && s.current[t] in s.streams
    then s.(streams := s.streams[s.current[t] := Push(s.streams[s.current[t]], ev)])
    else s
  }

  predicate IsCurrent(s: State, k: nat)
    requires k in s.streams
  {
    s.streams[k].thread in s.current && s.current[s.streams[k].thread] == k
  }

  function Finished(s: State, k: nat, exit: Event): Stream
    requires k in s.streams
  {
    if IsCurrent(s, k) then Push(s.streams[k], exit).(closing := true) else s.streams[k]
  }

  function Do(s: State, a: Act): State
    requires Enabled(s, a)
  {
    match a
    case StoreExit => s.(reaper := Stored)
    case CloseRPC => s.(reaper := RPCClosed)
    case ReaderLeaves => s.(readerGone := true)
    case SeeReader => s.(reaper := ReaderSeen)
    case DeliverExit(reason) =>
      s.(reaper := Delivered, current := map[],
         streams := map k | k in s.streams :: Finished(s, k, ProcessExit(reason)))
    case Dispatch(t, ev) => Offer(s, t, ev)
    case Report(t, ev) => Offer(s, t, ev)
    case Subscribe(t, k) =>
      var streams := if t in s.current && s.current[t] in s.streams
                     then s.streams[s.current[t] := s.streams[s.current[t]].(closing := true)]
                     else s.streams;
      s.(streams := streams[k := Stream(t, [], false, Subscribed)], current := s.current[t := k])
    case CheckExited(k) =>
      s.(streams := s.streams[k := s.streams[k].(stage := if s.reaper.AwaitsProcess? then GoneOn else Refused)])
    case Leave(k) =>
      s.(streams := s.streams[k := s.streams[k].(stage := Departed, closing := true)],
         current := if IsCurrent(s, k) then s.current - {s.streams[k].thread} else s.current)
  }

  ghost predicate Possible(s: State, acts: seq<Act>)
    decreases |acts|
  {
    acts == [] || (Enabled(s, acts[0]) && Possible(Do(s, acts[0]), acts[1..]))
  }

  ghost function Run(s: State, acts: seq<Act>): State
    requires Possible(s, acts)
    decreases |acts|
  {
    if acts == [] then s else Run(Do(s, acts[0]), acts[1..])
  }

  // ---- the invariant ----

  /** The exit occurs at most as the last event. */
  predicate ExitLast(evs: seq<Event>) {
    forall i :: 0 <= i < |evs| - 1 ==> !evs[i].ProcessExit?
  }

  predicate EndsInExit(evs: seq<Event>) {
    evs != [] && evs[|evs| - 1].ProcessExit?
  }

  /** An open stream has not been told of the exit and is its thread's current
      one; once the exit is delivered, a stream that went on is closing. */
  predicate StreamOk(s: State, k: nat)
    requires k in s.streams
  {
    var x := s.streams[k];
    && ExitLast(x.accepted)
    && (EndsInExit(x.accepted) ==> x.closing && s.reaper.Delivered?)
    && (IsCurrent(s, k) || x.closing)
    && (s.reaper.Delivered? && x.stage.GoneOn? ==> x.closing)
  }

  ghost predicate Inv(s: State) {
    && (forall k :: k in s.streams ==> StreamOk(s, k))
    && (forall t :: t in s.current ==> s.current[t] in s.streams && s.streams[s.current[t]].thread == t)
    && (s.reaper.ReaderSeen? || s.reaper.Delivered? ==> s.readerGone)
  }

  lemma OfferKeepsInv(s: State, t: Id, ev: Event)
    requires Inv(s) && !ev.ProcessExit?
    ensures Inv(Offer(s, t, ev))
  {
    var s' := Offer(s, t, ev);
    forall k | k in s'.streams ensures StreamOk(s', k) {
      assert StreamOk(s, k);
    }
  }

  lemma DeliverKeepsInv(s: State, reason: Option<Exit>)
    requires Inv(s) && Enabled(s, DeliverExit(reason))
    ensures Inv(Do(s, DeliverExit(reason)))
  {
    var s' := Do(s, DeliverExit(reason));
    forall k | k in s'.streams ensures StreamOk(s', k) {
      assert StreamOk(s, k);
    }
  }

  lemma OpenKeepsInv(s: State, t: Id, k: nat)
    requires Inv(s) && Enabled(s, Subscribe(t, k))
    ensures Inv(Do(s, Subscribe(t, k)))
  {
    var s' := Do(s, Subscribe(t, k));
    forall j | j in s'.streams ensures StreamOk(s', j) {
      if j != k {
        assert StreamOk(s, j);
      }
    }
  }

  lemma StepKeepsInv(s: State, a: Act)
    requires Inv(s) && Enabled(s, a)
    ensures Inv(Do(s, a))
  {
    match a
    case Dispatch(t, ev) => OfferKeepsInv(s, t, ev);
    case Report(t, ev) => OfferKeepsInv(s, t, ev);
    case DeliverExit(reason) => DeliverKeepsInv(s, reason);
    case Subscribe(t, k) => OpenKeepsInv(s, t, k);
    case _ =>
      var s' := Do(s, a);
      forall k | k in s'.streams ensures StreamOk(s', k) {
        assert StreamOk(s, k);
      }
  }

  lemma {:induction false} ReachableInv(acts: seq<Act>, s: State)
    requires Inv(s) && Possible(s, acts)
    ensures Inv(Run(s, acts))
    decreases |acts|
  {
    if acts != [] {
      StepKeepsInv(s, acts[0]);
      ReachableInv(acts[1..], Do(s, acts[0]));
    }
  }

  // ---- what every stream gets ----

  /** Once the exit has been delivered no stream hangs: each has left, or was
      refused, or is closing and so ends with what it has accepted, or has not
      looked yet and will be refused when it does. */
  lemma NoStreamHangs(acts: seq<Act>, k: nat)
    requires Possible(START, acts) && k in Run(START, acts).streams && Run(START, acts).reaper.Delivered?
    ensures var s := Run(START, acts); var x := s.streams[k];
      || x.stage.Departed? || x.stage.Refused? || x.closing
      || (Enabled(s, CheckExited(k)) && Do(s, CheckExited(k)).streams[k].stage.Refused?)
  {
    ReachableInv(acts, START);
    assert StreamOk(Run(START, acts), k);
  }

  lemma {:induction false} ClosedStays(s: State, acts: seq<Act>, k: nat)
    requires Inv(s) && Possible(s, acts) && k in s.streams && s.streams[k].closing
    ensures k in Run(s, acts).streams && Run(s, acts).streams[k].accepted == s.streams[k].accepted
    decreases |acts|
  {
    if acts != [] {
      StepKeepsInv(s, acts[0]);
      assert Do(s, acts[0]).streams[k].closing;
      ClosedStays(Do(s, acts[0]), acts[1..], k);
    }
  }

  lemma {:induction false} ReaderStaysGone(s: State, acts: seq<Act>, i: nat)
    requires s.readerGone && Possible(s, acts) && i < |acts|
    ensures !acts[i].Dispatch?
    decreases |acts|
  {
    if i > 0 {
      ReaderStaysGone(Do(s, acts[0]), acts[1..], i - 1);
    }
  }

  /** A stream open when the exit is delivered gets it as the last event it
      ever accepts: everything the read loop dispatched to it comes before,
      and nothing at all comes after. */
  lemma ExitIsLast(before: seq<Act>, reason: Option<Exit>, after: seq<Act>, k: nat)
    requires Possible(START, before) && Enabled(Run(START, before), DeliverExit(reason))
    requires var s := Run(START, before); k in s.streams && !s.streams[k].closing
    requires Possible(Do(Run(START, before), DeliverExit(reason)), after)
    ensures var s, s' := Run(START, before), Run(Do(Run(START, before), DeliverExit(reason)), after);
      && k in s'.streams && s'.streams[k].accepted == s.streams[k].accepted + [ProcessExit(reason)]
      && (forall i :: 0 <= i < |s.streams[k].accepted| ==> !s.streams[k].accepted[i].ProcessExit?)
      && forall i :: 0 <= i < |after| ==> !after[i].Dispatch?
  {
    ReachableInv(before, START);
    var s := Run(START, before);
    assert StreamOk(s, k);
    var s1 := Do(s, DeliverExit(reason));
    StepKeepsInv(s, DeliverExit(reason));
    ClosedStays(s1, after, k);
    forall i | 0 <= i < |after| ensures !after[i].Dispatch? {
      ReaderStaysGone(s1, after, i);
    }
  }

  /** What the read loop and the handlers send to thread t. */
  function SentTo(acts: seq<Act>, t: Id): seq<Event> {
    if acts == [] then []
    else (if (acts[0].Dispatch? || acts[0].Report?) && acts[0].t == t then [acts[0].ev] else []) + SentTo(acts[1..], t)
  }

  /** None of these steps ends or replaces stream k of thread t. */
  predicate Keeps(a: Act, t: Id, k: nat) {
    !a.DeliverExit? && a != Leave(k) && (a.Subscribe? ==> a.t != t)
  }

  /** k is t's current stream, open, and has accepted evs. */
  ghost predicate Has(s: State, t: Id, k: nat, evs: seq<Event>) {
    && t in s.current && s.current[t] == k && k in s.streams
    && s.streams[k].thread == t && !s.streams[k].closing && s.streams[k].accepted == evs
  }

  lemma StepHas(s: State, a: Act, t: Id, k: nat, evs: seq<Event>)
    requires Inv(s) && Enabled(s, a) && Has(s, t, k, evs) && Keeps(a, t, k)
    ensures Has(Do(s, a), t, k, evs + if (a.Dispatch? || a.Report?) && a.t == t then [a.ev] else [])
  {
    assert forall u :: u in s.current ==> s.streams[s.current[u]].thread == u;
  }

  /** While a stream is its thread's current one it accepts exactly what is sent
      to that thread, in order, before the exit too. */
  lemma {:induction false} CurrentStreamGetsAll(s: State, acts: seq<Act>, t: Id, k: nat, evs: seq<Event>)
    requires Inv(s) && Possible(s, acts) && Has(s, t, k, evs)
    requires forall i :: 0 <= i < |acts| ==> Keeps(acts[i], t, k)
    ensures Has(Run(s, acts), t, k, evs + SentTo(acts, t))
    decreases |acts|
  {
    if acts == [] {
      assert evs + SentTo(acts, t) == evs;
    } else {
      var a := acts[0];
      var more := if (a.Dispatch? || a.Report?) && a.t == t then [a.ev] else [];
      StepHas(s, a, t, k, evs);
      StepKeepsInv(s, a);
      assert forall i :: 0 <= i < |acts[1..]| ==> acts[1..][i] == acts[i + 1];
      CurrentStreamGetsAll(Do(s, a), acts[1..], t, k, evs + more);
      assert evs + more + SentTo(acts[1..], t) == evs + SentTo(acts, t);
    }
  }

  /** So a new stream that is still current at the exit gets what was sent since
      it subscribed, then the exit, and ends. */
  lemma {:induction false} StreamGetsAllThenExit(s: State, acts: seq<Act>, reason: Option<Exit>, t: Id, k: nat)
    requires Inv(s) && Enabled(s, Subscribe(t, k)) && Possible(Do(s, Subscribe(t, k)), acts)
    requires forall i :: 0 <= i < |acts| ==> Keeps(acts[i], t, k)
    requires Enabled(Run(Do(s, Subscribe(t, k)), acts), DeliverExit(reason))
    ensures var s' := Do(Run(Do(s, Subscribe(t, k)), acts), DeliverExit(reason));
      && k in s'.streams && s'.streams[k].closing
      && s'.streams[k].accepted == SentTo(acts, t) + [ProcessExit(reason)]
  {
    StepKeepsInv(s, Subscribe(t, k));
    CurrentStreamGetsAll(Do(s, Subscribe(t, k)), acts, t, k, []);
  }

  /** A start is refused exactly when the exit had been stored as it looked. */
  lemma {:induction false} RefusedIffStored(s: State, acts: seq<Act>, k: nat)
    requires s.reaper.AwaitsProcess? && Possible(s, acts) && Enabled(Run(s, acts), CheckExited(k))
    ensures var x := Do(Run(s, acts), CheckExited(k)).streams[k];
      && (x.stage.Refused? <==> StoreExit in acts)
      && (x.stage.GoneOn? <==> StoreExit !in acts)
  {
    StoredIff(s, acts);
  }

  lemma {:induction false} StoredIff(s: State, acts: seq<Act>)
    requires Possible(s, acts)
    ensures Run(s, acts).reaper.AwaitsProcess? <==> s.reaper.AwaitsProcess? && StoreExit !in acts
    decreases |acts|
  {
    if acts != [] {
      assert acts == [acts[0]] + acts[1..];
      StoredIff(Do(s, acts[0]), acts[1..]);
    }
  }

  /** No stream is ever told of the exit twice, or told anything after it. */
  lemma ToldOnce(acts: seq<Act>, k: nat)
    requires Possible(START, acts) && k in Run(START, acts).streams
    ensures ExitLast(Run(START, acts).streams[k].accepted)
    ensures EndsInExit(Run(START, acts).streams[k].accepted) ==> Run(START, acts).reaper.Delivered?
  {
    ReachableInv(acts, START);
    assert StreamOk(Run(START, acts), k);
  }
}
