/** One stream from the connection's push to its consumer: the subscription's
    pump hands each event over to the forwarder in one rendezvous, and the
    pump's closed channel is how the forwarder learns that nothing more comes. */
module Pipeline {
  import opened Basics
  import opened Events
  import P = Pump
  import S = Stream

  /** The stream's own queue only remembers what the pump has accepted and not
      handed over; whether a step can be taken is decided by the pump. */
  datatype State = State(pump: P.State, stream: S.State)

  const START := State(P.FRESH, S.START)

  /** Drive is a step of the pump alone, Consume one of the stream alone;
      HandOver and SeeClosed are the two ends of the pump's channel meeting. */
  datatype Act = Drive(p: P.Act) | HandOver | SeeClosed | Consume(s: S.Act)

  predicate OwnStep(a: S.Act) {
    !a.Accept? && !a.CloseSub? && !a.Take? && !a.SubDrained?
  }

  /** The reader cancels the subscription only when its forwarder is gone. */
  predicate Enabled(x: State, a: Act) {
    match a
    case Drive(p) => P.Enabled(x.pump, p) && !p.Hand? && (p.Abort? ==> x.stream.fwd.Gone?)
    case HandOver => x.pump.place.InHand? && x.stream.fwd.Selecting?
    case SeeClosed => x.pump.place.Stopped? && x.stream.fwd.Selecting?
    case Consume(s) => OwnStep(s) && S.Enabled(x.stream, s)
  }

  /** The step of the stream that a step is, if it is one. */
  function Seen(x: State, a: Act): Option<S.Act> {
    match a
    case Drive(p) =>
      if p.Enqueue? && !x.pump.closing then Some(S.Accept(p.ev))
      else if p.Close? then Some(S.CloseSub)
      else None
    case HandOver => Some(S.Take)
    case SeeClosed => Some(S.SubDrained)
    case Consume(s) => Some(s)
  }

  /** What the two sides agree on. */
  ghost predicate Linked(x: State) {
    && x.pump.accepted == x.stream.got + x.stream.queue
    && x.pump.delivered == x.stream.got
    && (x.stream.subClosed <==> x.pump.closing)
    && (x.pump.aborted ==> x.stream.fwd.Gone?)
  }

  ghost predicate Inv(x: State) {
    P.Inv(x.pump) && S.Inv(x.stream) && Linked(x)
  }

  lemma QueueIsThePumps(x: State)
    requires Inv(x) && !x.pump.place.Stopped?
    ensures x.stream.queue == P.InFlight(x.pump.place) + x.pump.queue
  {
    assert x.stream.got + x.stream.queue == x.stream.got + (P.InFlight(x.pump.place) + x.pump.queue);
    Cancels(x.stream.got, x.stream.queue, P.InFlight(x.pump.place) + x.pump.queue);
  }

  lemma Cancels<T>(a: seq<T>, b: seq<T>, c: seq<T>)
    requires a + b == a + c
    ensures b == c
  {
    assert (a + b)[|a|..] == b && (a + c)[|a|..] == c;
  }

  /** Whatever the pump and the forwarder do together, the stream can do. */
  lemma SeenIsEnabled(x: State, a: Act)
    requires Inv(x) && Enabled(x, a) && Seen(x, a).Some?
    ensures S.Enabled(x.stream, Seen(x, a).value)
  {
    match a
    case Drive(_) =>
    case HandOver => QueueIsThePumps(x);
    case SeeClosed => Cancels(x.stream.got, x.stream.queue, []);
    case Consume(_) =>
  }

  function PumpAfter(x: State, a: Act): P.State
    requires Enabled(x, a)
  {
    match a
    case Drive(p) => P.Do(x.pump, p)
    case HandOver => P.Do(x.pump, P.Hand)
    case _ => x.pump
  }

  ghost function Do(x: State, a: Act): State
    requires Inv(x) && Enabled(x, a)
  {
    if Seen(x, a).Some? then
      SeenIsEnabled(x, a);
      State(PumpAfter(x, a), S.Do(x.stream, Seen(x, a).value))
    else State(PumpAfter(x, a), x.stream)
  }

  lemma DriveKeepsLink(x: State, p: P.Act)
    requires Inv(x) && Enabled(x, Drive(p))
    ensures Linked(Do(x, Drive(p)))
  {
    if p.Enqueue? && !x.pump.closing {
      assert x.stream.got + x.stream.queue + [p.ev] == x.stream.got + (x.stream.queue + [p.ev]);
    }
  }

  lemma HandOverKeepsLink(x: State)
    requires Inv(x) && Enabled(x, HandOver)
    ensures Linked(Do(x, HandOver))
  {
    QueueIsThePumps(x);
    var q := x.stream.queue;
    assert q[0] == x.pump.place.ev;
    assert x.stream.got + q == (x.stream.got + [q[0]]) + q[1..];
  }

  lemma StepKeepsInv(x: State, a: Act)
    requires Inv(x) && Enabled(x, a)
    ensures Inv(Do(x, a))
  {
    if Seen(x, a).Some? {
      SeenIsEnabled(x, a);
      S.StepKeepsInv(x.stream, Seen(x, a).value);
    }
    match a
    case Drive(p) =>
      P.StepKeepsInv(x.pump, p);
      DriveKeepsLink(x, p);
    case HandOver =>
      P.StepKeepsInv(x.pump, P.Hand);
      HandOverKeepsLink(x);
    case SeeClosed =>
    case Consume(s) =>
  }

  ghost predicate Possible(x: State, acts: seq<Act>)
    requires Inv(x)
    decreases |acts|
  {
    acts == [] || (Enabled(x, acts[0]) && (StepKeepsInv(x, acts[0]); Possible(Do(x, acts[0]), acts[1..])))
  }

  ghost function Run(x: State, acts: seq<Act>): (r: State)
    requires Inv(x) && Possible(x, acts)
    ensures Inv(r)
    decreases |acts|
  {
    if acts == [] then x
    else
      StepKeepsInv(x, acts[0]);
      Run(Do(x, acts[0]), acts[1..])
  }

  /** From the connection to the consumer: whatever the interleaving of pushes,
      pump, forwarder, relay and consumer, the consumer has seen, in order, a
      prefix of the stream's share of what the connection's pushes were
      accepted; or of the one error of a refused start. */
  lemma ConsumerSeesAccepted(acts: seq<Act>)
    requires Inv(START) && Possible(START, acts)
    ensures var x := Run(START, acts);
      x.stream.seen <= (if x.stream.refused.Some? then [x.stream.refused.value] else S.Share(x.pump.accepted))
  {
    var s := Run(START, acts).stream;
    assert s.seen <= S.Had(s);
    if s.refused == None {
      S.GotIsShared(s);
    }
  }

  /** When the consumer's channel has closed and been read out, and nobody
      cancelled the stream, it has seen that share entirely. */
  lemma ConsumerSeesAll(acts: seq<Act>)
    requires Inv(START) && Possible(START, acts)
    requires var s := Run(START, acts).stream; s.relayGone && s.tracked == [] && !s.cancelled
    ensures var x := Run(START, acts);
      && x.stream.seen == (if x.stream.refused.Some? then [x.stream.refused.value] else S.Share(x.pump.accepted))
      && x.stream.tracker == S.TrackAll(S.UNTRACKED, x.stream.seen)
  {
    var s := Run(START, acts).stream;
    S.ReadOut(s);
    if s.refused == None {
      S.GotIsShared(s);
      assert s.got + [] == s.got;
    }
  }

  /** Of what was accepted the consumer sees nothing after the thread's own first
      completion or fatal error, whatever its children do, and all up to it. */
  lemma ConsumerSeesToOwnEnd(acts: seq<Act>, k: nat)
    requires Inv(START) && Possible(START, acts)
    requires var x := Run(START, acts); x.stream.refused == None && S.FirstEnd(x.pump.accepted, k)
    ensures var x := Run(START, acts);
      && x.stream.seen <= S.UpTo(x.pump.accepted, k)
      && (x.stream.relayGone && x.stream.tracked == [] && !x.stream.cancelled ==>
            x.stream.seen == S.UpTo(x.pump.accepted, k))
  {
    var x := Run(START, acts);
    S.ShareIsCutAt(x.pump.accepted, k);
    ConsumerSeesAccepted(acts);
    if x.stream.relayGone && x.stream.tracked == [] && !x.stream.cancelled {
      ConsumerSeesAll(acts);
    }
  }

  lemma StartOk()
    ensures Inv(START)
  {
    assert S.Passed(S.START) == [];
  }

  // ---- it ends ----

  /** The steps the goroutines take by themselves, given an answer to
      turn/start and a consumer that reads. */
  predicate Progress(a: Act) {
    match a
    case Drive(p) => P.Progress(p)
    case HandOver => true
    case SeeClosed => true
    case Consume(s) => !s.Cancel?
  }

  /** One of the goroutines can take the step by itself. */
  predicate GoesOn(x: State, a: Act) {
    Enabled(x, a) && Progress(a)
  }

  function FwdRank(f: S.Forwarder): nat {
    match f
    case Requesting => 6
    case SendingOn(_) => 5
    case Selecting => 1
    case Gone => 0
  }

  /** An upper bound on the steps the stream has left for what it has. */
  function StreamLeft(s: S.State): nat {
    FwdRank(s.fwd) + 3 * |s.events| + (if s.hand.Some? then 2 else 0) + |s.tracked| + (if s.relayGone then 0 else 1)
  }

  /** An upper bound on the steps left. */
  function Left(x: State): nat {
    6 * P.Left(x.pump) + StreamLeft(x.stream)
  }

  lemma OwnStepShrinks(s: S.State, a: S.Act)
    requires S.Enabled(s, a) && OwnStep(a) && !a.Cancel?
    ensures StreamLeft(S.Do(s, a)) < StreamLeft(s)
  {
  }

  lemma ProgressShrinks(x: State, a: Act)
    requires Inv(x) && x.pump.closing && Enabled(x, a) && Progress(a)
    ensures Do(x, a).pump.closing && Left(Do(x, a)) < Left(x)
  {
    match a
    case Drive(p) =>
      P.ProgressShrinks(x.pump, p);
    case HandOver =>
      P.ProgressShrinks(x.pump, P.Hand);
      SeenIsEnabled(x, a);
      assert StreamLeft(S.Do(x.stream, S.Take)) == StreamLeft(x.stream) + 4;
    case SeeClosed =>
      SeenIsEnabled(x, a);
      assert StreamLeft(S.Do(x.stream, S.SubDrained)) < StreamLeft(x.stream);
    case Consume(s) =>
      OwnStepShrinks(x.stream, s);
  }

  /** While the consumer's end is not reached, some goroutine can go on. */
  lemma NeverStuck(x: State) returns (a: Act)
    requires P.Inv(x.pump) && x.pump.closing && !(x.stream.relayGone && x.stream.tracked == [])
    requires x.stream.relayGone ==> x.stream.events == [] && x.stream.hand == None
    ensures GoesOn(x, a)
  {
    var s := x.stream;
    if s.tracked != [] {
      a := Consume(S.Read);
    } else if s.hand.Some? {
      a := Consume(S.RelaySend);
    } else if s.events != [] {
      a := Consume(S.RelayTake);
    } else if s.fwd.Gone? {
      a := Consume(S.RelayEnd);
    } else {
      a := match s.fwd
        case Requesting => Consume(S.StartOk)
        case SendingOn(_) => Consume(S.SendOn)
        case _ =>
          match x.pump.place
          case InHand(_) => HandOver
          case Stopped => SeeClosed
          case Top => Drive(P.Look)
          case Parked => Drive(if x.pump.wake then P.Wake else P.Signal);
    }
  }

  /** Once the subscription is closing, as it is when the stream is replaced or
      the process has exited, every schedule of the goroutines under a reading
      consumer is finite, and it can only end with the consumer's channel
      closed and read out. */
  lemma {:induction false} Ends(x: State, acts: seq<Act>)
    requires Inv(x) && x.pump.closing && Possible(x, acts)
    requires forall i :: 0 <= i < |acts| ==> Progress(acts[i])
    ensures |acts| + Left(Run(x, acts)) <= Left(x)
    ensures var x' := Run(x, acts);
      (forall a :: !GoesOn(x', a)) ==> x'.stream.relayGone && x'.stream.tracked == []
    decreases |acts|
  {
    if acts != [] {
      StepKeepsInv(x, acts[0]);
      ProgressShrinks(x, acts[0]);
      assert forall i :: 0 <= i < |acts[1..]| ==> acts[1..][i] == acts[i + 1];
      Ends(Do(x, acts[0]), acts[1..]);
    } else if !(x.stream.relayGone && x.stream.tracked == []) {
      var a := NeverStuck(x);
      assert GoesOn(x, a);
    }
  }
}
