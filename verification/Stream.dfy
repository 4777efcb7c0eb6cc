/** What the reader of a Stream sees: a forwarder takes events from the
    subscription, a relay tracks and passes them on. A step is one channel
    operation of one goroutine. */
module Stream {
  import opened Basics
  import opened Events

  datatype Turn = Turn(id: Id, end: TurnEnd)

  /** The events that end a stream: the thread's own, never a child's. */
  predicate Ends(ev: Event) {
    ev.TurnCompleted? || (ev.ErrorEvent? && ev.fatal)
  }

  /** A stream's share of what its subscription accepts: everything up to and
      including the first event that ends it. */
  function Share(evs: seq<Event>): seq<Event> {
    if evs == [] then []
    else if Ends(evs[0]) then [evs[0]]
    else [evs[0]] + Share(evs[1..])
  }

  /** No event here ends the stream. */
  predicate Open(evs: seq<Event>) {
    evs == [] || (!Ends(evs[|evs| - 1]) && Open(evs[..|evs| - 1]))
  }

  lemma {:induction false} ShareAfterOpen(a: seq<Event>, b: seq<Event>)
    requires Open(a)
    ensures Share(a + b) == a + Share(b)
    decreases |a|
  {
    if a == [] {
      assert a + b == b;
    } else {
      var init, last := a[..|a| - 1], a[|a| - 1];
      ShareAfterOpen(init, [last] + b);
      assert a + b == init + ([last] + b);
      assert ([last] + b)[1..] == b;
    }
  }

  /** k is the place of the first turn completion of the thread's own or fatal
      error, or the length when there is none; whatever a child does does not
      matter. */
  ghost predicate FirstEnd(evs: seq<Event>, k: nat) {
    && k <= |evs|
    && (forall i :: 0 <= i < k ==> !evs[i].TurnCompleted? && !(evs[i].ErrorEvent? && evs[i].fatal))
    && (k < |evs| ==> evs[k].TurnCompleted? || (evs[k].ErrorEvent? && evs[k].fatal))
  }

  /** The events up to and with the one at k, or all. */
  function UpTo(evs: seq<Event>, k: nat): seq<Event> {
    if k < |evs| then evs[..k + 1] else evs
  }

  lemma {:induction false} ShareIsCutAt(evs: seq<Event>, k: nat)
    requires FirstEnd(evs, k)
    ensures Share(evs) == UpTo(evs, k)
    decreases k
  {
    if k > 0 {
      assert evs == [evs[0]] + evs[1..];
      assert FirstEnd(evs[1..], k - 1);
      ShareIsCutAt(evs[1..], k - 1);
      assert [evs[0]] + UpTo(evs[1..], k - 1) == UpTo(evs, k);
    }
  }

  // ---- tracking ----

  datatype Phase = Starting | Running | Done | Failed

  datatype Cause = TurnFailed | TurnFailure(n: nat) | ErrorCause(n: nat) | ExitCause(exit: Exit) | NoTurn

  datatype Tracker = Tracker(phase: Phase, turn: Option<Turn>, err: Option<Cause>)

  const UNTRACKED := Tracker(Starting, None, None)

  predicate BadExit(ev: Event) {
    ev.ProcessExit? && ev.reason.Some? && ev.reason.value.Abnormal?
  }

  function TurnCause(end: TurnEnd): Cause
    requires end.FailedTurn?
  {
    if end.error.Some? then TurnFailure(end.error.value) else TurnFailed
  }

  function TurnOf(ev: Event): Turn
    requires ev.TurnCompleted?
  {
    Turn(ev.turnID, ev.end)
  }

  function Track(s: Tracker, ev: Event): Tracker {
    match ev
    case TurnStarted(_, _) => s.(phase := Running)
    case TurnCompleted(_, id, end) =>
      if end.FailedTurn? then Tracker(Failed, Some(Turn(id, end)), Some(TurnCause(end)))
      else s.(phase := Done, turn := Some(Turn(id, end)))
    case ErrorEvent(e, fatal) =>
      if !fatal then s
      else s.(phase := Failed, err := if s.err == None then Some(ErrorCause(e)) else s.err)
    case ProcessExit(reason) =>
      if !BadExit(ev) then s
      else s.(phase := Failed, err := if s.err == None then Some(ExitCause(reason.value)) else s.err)
    case _ => s
  }

  function TrackAll(s: Tracker, evs: seq<Event>): Tracker
    decreases |evs|
  {
    if evs == [] then s else TrackAll(Track(s, evs[0]), evs[1..])
  }

  function Closing(s: Tracker): Tracker {
    if s.turn == None && s.err == None then s.(err := Some(NoTurn)) else s
  }

  /** The first exit that was not clean, or fatal error. */
  function FirstCause(evs: seq<Event>): (r: Option<Cause>)
    ensures r != Some(NoTurn)
  {
    if evs == [] then None
    else if BadExit(evs[0]) then Some(ExitCause(evs[0].reason.value))
    else if evs[0].ErrorEvent? && evs[0].fatal then Some(ErrorCause(evs[0].err))
    else FirstCause(evs[1..])
  }

  lemma {:induction false} TrackedShare(s: Tracker, evs: seq<Event>)
    requires s.turn == None
    ensures var c, r := Share(evs), TrackAll(s, Share(evs));
      && r.turn == (if c != [] && c[|c| - 1].TurnCompleted? then Some(TurnOf(c[|c| - 1])) else None)
      && r.err == (if r.turn.Some? && r.turn.value.end.FailedTurn? then Some(TurnCause(r.turn.value.end))
                   else if s.err.Some? then s.err else FirstCause(c))
      && (r.phase == Done ==> (r.turn.Some? && !r.turn.value.end.FailedTurn?) || s.phase == Done)
      && (r.turn.Some? && !r.turn.value.end.FailedTurn? ==> r.phase == Done)
      && (c != [] && Ends(c[|c| - 1]) && r.phase != Done ==> r.phase == Failed)
    decreases |evs|
  {
    if evs != [] {
      var c := Share(evs);
      if Ends(evs[0]) {
        assert c[1..] == [];
        assert TrackAll(s, c) == TrackAll(Track(s, c[0]), []);
      } else {
        assert c[1..] == Share(evs[1..]);
        TrackedShare(Track(s, evs[0]), evs[1..]);
      }
    }
  }

  /** What Wait returns for a stream read to its end: the turn that ended it,
      if one did; the turn's failure, or else the first cause, or else, with
      no turn either, ErrNoTurn. */
  lemma WaitTells(evs: seq<Event>)
    ensures var c, r := Share(evs), Closing(TrackAll(UNTRACKED, Share(evs)));
      var turn := if c != [] && c[|c| - 1].TurnCompleted? then Some(TurnOf(c[|c| - 1])) else None;
      && r.turn == turn
      && (r.err == None <==> turn.Some? && !turn.value.end.FailedTurn? && FirstCause(c) == None)
      && (r.err == Some(NoTurn) <==> turn == None && FirstCause(c) == None)
      && (r.phase == Done <==> turn.Some? && !turn.value.end.FailedTurn?)
  {
    TrackedShare(UNTRACKED, evs);
  }

  /** j is the place of the first abnormal exit before k, or k. */
  ghost predicate FirstBadExit(evs: seq<Event>, k: nat, j: nat) {
    && j <= k <= |evs|
    && (forall i :: 0 <= i < j ==>
          !(evs[i].ProcessExit? && evs[i].reason.Some? && evs[i].reason.value.Abnormal?))
    && (j < k ==> evs[j].ProcessExit? && evs[j].reason.Some? && evs[j].reason.value.Abnormal?)
  }

  lemma {:induction false} FirstCauseAt(evs: seq<Event>, k: nat, j: nat)
    requires FirstEnd(evs, k) && FirstBadExit(evs, k, j)
    ensures FirstCause(UpTo(evs, k))
         == if j < k then Some(ExitCause(evs[j].reason.value))
            else if k < |evs| && evs[k].ErrorEvent? then Some(ErrorCause(evs[k].err))
            else None
    decreases k
  {
    var c := UpTo(evs, k);
    if k > 0 && j > 0 {
      assert c[1..] == UpTo(evs[1..], k - 1);
      FirstCauseAt(evs[1..], k - 1, j - 1);
    } else if k == 0 && k < |evs| {
      assert c[1..] == [] && FirstCause(c[1..]) == None;
    }
  }

  /** The same read off the events: a turn of the thread's own that completes
      before any fatal error is returned, with its failure; otherwise what Wait
      reports is the first abnormal exit, or the fatal error, or that there was
      no turn. */
  lemma {:induction false} WaitTellsByKind(evs: seq<Event>, k: nat, j: nat)
    requires FirstEnd(evs, k) && FirstBadExit(evs, k, j)
    ensures var r := Closing(TrackAll(UNTRACKED, Share(evs)));
      var exit := if j < k then Some(ExitCause(evs[j].reason.value)) else None;
      if k < |evs| && evs[k].TurnCompleted? then
        && r.turn == Some(Turn(evs[k].turnID, evs[k].end))
        && (match evs[k].end
            case Succeeded => r.phase == Done && r.err == exit
            case FailedTurn(Some(n)) => r.phase == Failed && r.err == Some(TurnFailure(n))
            case FailedTurn(None) => r.phase == Failed && r.err == Some(TurnFailed))
      else
        && r.turn == None && r.phase != Done && (k < |evs| ==> r.phase == Failed)
        && r.err == if exit.Some? then exit else if k < |evs| then Some(ErrorCause(evs[k].err)) else Some(NoTurn)
  {
    TrackedShare(UNTRACKED, evs);
    ShareIsCutAt(evs, k);
    FirstCauseAt(evs, k, j);
    if k < |evs| {
      assert UpTo(evs, k)[k] == evs[k];
    } else if evs != [] {
      assert !evs[|evs| - 1].TurnCompleted?;
    }
  }

  /** While no turn has ended and nothing has failed, a stream is running just
      when a turn has started. */
  lemma {:induction false} RunningIffStarted(s: Tracker, evs: seq<Event>)
    requires FirstEnd(evs, |evs|) && FirstBadExit(evs, |evs|, |evs|)
    requires s.phase == Starting || s.phase == Running
    ensures var r := TrackAll(s, evs);
      && (r.phase == Starting || r.phase == Running) && r.turn == s.turn && r.err == s.err
      && (r.phase == Running <==> s.phase == Running || exists i :: 0 <= i < |evs| && evs[i].TurnStarted?)
    decreases |evs|
  {
    if evs != [] {
      var rest := evs[1..];
      assert forall i :: 0 <= i < |rest| ==> rest[i] == evs[i + 1];
      RunningIffStarted(Track(s, evs[0]), rest);
      if exists i :: 0 <= i < |evs| && evs[i].TurnStarted? {
        var i :| 0 <= i < |evs| && evs[i].TurnStarted?;
        assert i > 0 ==> rest[i - 1].TurnStarted?;
      }
    }
  }

  /** The Stream's own fields. */
  class Stream {
    var phase: Phase
    var finalTurn: Option<Turn>
    var err: Option<Cause>
    var waited: bool

    ghost function View(): Tracker
      reads this
    {
      Tracker(phase, finalTurn, err)
    }

    constructor ()
      ensures View() == UNTRACKED && !waited
    {
      phase, finalTurn, err, waited := Starting, None, None, false;
    }

    method TrackOne(ev: Event)
      modifies this`phase, this`finalTurn, this`err
      ensures View() == Track(old(View()), ev)
    {
      match ev
      case TurnStarted(_, _) =>
        phase := Running;
      case TurnCompleted(_, id, end) =>
        finalTurn := Some(Turn(id, end));
        if end.FailedTurn? {
          phase := Failed;
          err := Some(if end.error.Some? then TurnFailure(end.error.value) else TurnFailed);
        } else {
          phase := Done;
        }
      case ErrorEvent(e, fatal) =>
        if fatal {
          phase := Failed;
          if err == None {
            err := Some(ErrorCause(e));
          }
        }
      case ProcessExit(reason) =>
        if reason.Some? && reason.value != Normal && reason.value != ContextCanceled {
          phase := Failed;
          if err == None {
            err := Some(ExitCause(reason.value));
          }
        }
      case _ =>
    }

    /** Wait, once the events have been drained: the same answer every time. */
    method Wait() returns (turn: Option<Turn>, e: Option<Cause>)
      modifies this`waited, this`err
      ensures waited && turn == finalTurn && e == err
      ensures old(waited) ==> View() == old(View())
      ensures !old(waited) ==> View() == Closing(old(View()))
    {
      if waited {
        return finalTurn, err;
      }
      waited := true;
      if finalTurn == None && err == None {
        err := Some(NoTurn);
      }
      return finalTurn, err;
    }
  }

  // ---- the goroutines ----

  const CAP := 64

  /** The forwarder: waiting for turn/start's answer, at the select, sending an
      event, or gone. */
  datatype Forwarder = Requesting | Selecting | SendingOn(ev: Event) | Gone

  /** queue is what the subscription has accepted and not yet handed over, got
      what the forwarder has had of it; events and tracked are the channels;
      hand is the relay's; seen is what the consumer has read. */
  datatype State = State(
    queue: seq<Event>, subClosed: bool, got: seq<Event>, fwd: Forwarder, refused: Option<Event>, cancelled: bool,
    events: seq<Event>, hand: Option<Event>, relayGone: bool, tracked: seq<Event>, seen: seq<Event>, tracker: Tracker)

  const START := State([], false, [], Requesting, None, false, [], None, false, [], [], UNTRACKED)

  datatype Act =
    | Accept(ev: Event) | CloseSub | Cancel
    | StartOk | StartRefused(err: nat)
    | Take | SendOn | SubDrained | SeeCancel
    | RelayTake | RelaySend | RelayEnd
    | Read

  predicate Enabled(s: State, a: Act) {
    match a
    case Accept(_) => !s.subClosed
    case CloseSub => true
    case Cancel => true
    case StartOk => s.fwd.Requesting?
    case StartRefused(_) => s.fwd.Requesting?
    case Take => s.fwd.Selecting? && s.queue != []
    case SendOn => s.fwd.SendingOn? && |s.events| < CAP
    case SubDrained => s.fwd.Selecting? && s.subClosed && s.queue == []
    case SeeCancel => s.fwd.Selecting? && s.cancelled
    case RelayTake => !s.relayGone && s.hand == None && s.events != []
    case RelaySend => s.hand.Some? && |s.tracked| < CAP
    case RelayEnd => !s.relayGone && s.hand == None && s.events == [] && s.fwd.Gone?
    case Read => s.tracked != []
  }

  function Do(s: State, a: Act): State
    requires Enabled(s, a)
  {
    match a
    case Accept(ev) => s.(queue := s.queue + [ev])
    case CloseSub => s.(subClosed := true)
    case Cancel => s.(cancelled := true)
    case StartOk => s.(fwd := Selecting)
    case StartRefused(e) => s.(fwd := SendingOn(ErrorEvent(e, true)), refused := Some(ErrorEvent(e, true)))
    case Take => s.(fwd := SendingOn(s.queue[0]), got := s.got + [s.queue[0]], queue := s.queue[1..])
    case SendOn =>
      s.(events := s.events + [s.fwd.ev], fwd := if Ends(s.fwd.ev) then Gone else Selecting)
    case SubDrained => s.(fwd := Gone)
    case SeeCancel => s.(fwd := Gone)
    case RelayTake =>
      s.(hand := Some(s.events[0]), events := s.events[1..], tracker := Track(s.tracker, s.events[0]))
    case RelaySend => s.(tracked := s.tracked + [s.hand.value], hand := None)
    case RelayEnd => s.(relayGone := true)
    case Read => s.(seen := s.seen + [s.tracked[0]], tracked := s.tracked[1..])
  }

  ghost predicate Possible(s: State, acts: seq<Act>)
    decreases |acts|
  {
    acts == [] || (Enabled(s, acts[0]) && Possible(Do(s, acts[0]), acts[1..]))
  }

  ghost function Run(s: State, acts: seq<Act>): State
    requires Possible(s, acts)
    decreases |acts|
  {
    if acts == [] then s else Run(Do(s, acts[0]), acts[1..])
  }

  function OptSeq(o: Option<Event>): seq<Event> {
    if o.Some? then [o.value] else []
  }

  /** Everything past the relay's tracking, in order. */
  function Passed(s: State): seq<Event> {
    s.seen + s.tracked + OptSeq(s.hand)
  }

  /** What the forwarder had to send on: what it got, or the refusal. */
  function Had(s: State): seq<Event> {
    if s.refused.Some? then [s.refused.value] else s.got
  }

  function Sending(f: Forwarder): seq<Event> {
    if f.SendingOn? then [f.ev] else []
  }

  ghost predicate Flow(s: State) {
    && Passed(s) + s.events + Sending(s.fwd) == Had(s)
    && s.tracker == TrackAll(UNTRACKED, Passed(s))
    && (s.relayGone ==> s.fwd.Gone? && s.events == [] && s.hand == None)
  }

  /** The forwarder goes no further than the event that ends the stream. */
  predicate Cuts(s: State) {
    if s.refused.Some? then
      s.got == [] && Ends(s.refused.value) && (s.fwd == SendingOn(s.refused.value) || s.fwd.Gone?)
    else match s.fwd
      case Requesting => s.got == []
      case Selecting => Open(s.got)
      case SendingOn(ev) => s.got != [] && s.got[|s.got| - 1] == ev && Open(s.got[..|s.got| - 1])
      case Gone =>
        || (Open(s.got) && (s.cancelled || (s.subClosed && s.queue == [])))
        || (s.got != [] && Ends(s.got[|s.got| - 1]) && Open(s.got[..|s.got| - 1]))
  }

  ghost predicate Inv(s: State) {
    Flow(s) && Cuts(s)
  }

  lemma {:induction false} TrackAllAppend(s: Tracker, evs: seq<Event>, ev: Event)
    ensures TrackAll(s, evs + [ev]) == Track(TrackAll(s, evs), ev)
    decreases |evs|
  {
    if evs == [] {
      assert (evs + [ev])[1..] == [];
      assert TrackAll(Track(s, ev), []) == Track(s, ev);
    } else {
      assert (evs + [ev])[1..] == evs[1..] + [ev];
      TrackAllAppend(Track(s, evs[0]), evs[1..], ev);
    }
  }

  /** Moving one event from the front of a part to the end of the one before. */
  lemma Shift<T>(a: seq<T>, b: seq<T>, x: T, c: seq<T>)
    ensures a + ([x] + b) + c == (a + [x]) + b + c
  {
  }

  lemma Attach<T>(a: seq<T>, b: seq<T>, x: T)
    ensures a + (b + [x]) + [] == a + b + [x]
  {
  }

  lemma TakeKeepsFlow(s: State)
    requires Inv(s) && Enabled(s, Take)
    ensures Flow(Do(s, Take))
  {
    var t := Do(s, Take);
    assert Passed(t) == Passed(s) && s.refused == None;
    assert Passed(s) + s.events + [] == Passed(s) + s.events;
  }

  lemma SendOnKeepsFlow(s: State)
    requires Inv(s) && Enabled(s, SendOn)
    ensures Flow(Do(s, SendOn))
  {
    var t := Do(s, SendOn);
    assert Passed(t) == Passed(s);
    Attach(Passed(s), s.events, s.fwd.ev);
    assert Sending(s.fwd) == [s.fwd.ev] && Sending(t.fwd) == [];
  }

  lemma RefusedKeepsFlow(s: State, a: Act)
    requires Inv(s) && Enabled(s, a) && a.StartRefused?
    ensures Flow(Do(s, a))
  {
    var t := Do(s, a);
    assert s.refused == None && s.got == [];
    assert Passed(s) + s.events + [] == [];
    assert Passed(t) == Passed(s) == [] && s.events == [];
  }

  lemma OthersKeepFlow(s: State, a: Act)
    requires Inv(s) && Enabled(s, a)
    requires a.Accept? || a.CloseSub? || a.Cancel? || a.StartOk? || a.SubDrained? || a.SeeCancel? || a.RelayEnd?
    ensures Flow(Do(s, a))
  {
    assert Passed(Do(s, a)) == Passed(s);
    assert Sending(Do(s, a).fwd) == Sending(s.fwd);
  }

  lemma RelayTakeKeepsFlow(s: State)
    requires Flow(s) && Enabled(s, RelayTake)
    ensures Flow(Do(s, RelayTake))
  {
    var t, x := Do(s, RelayTake), s.events[0];
    TrackAllAppend(UNTRACKED, Passed(s), x);
    assert Passed(t) == Passed(s) + [x];
    assert s.events == [x] + t.events;
    Shift(Passed(s), t.events, x, Sending(s.fwd));
  }

  lemma ReadKeepsFlow(s: State)
    requires Flow(s) && Enabled(s, Read)
    ensures Flow(Do(s, Read))
  {
    var t := Do(s, Read);
    assert s.tracked == [s.tracked[0]] + t.tracked;
    Shift(s.seen, t.tracked, s.tracked[0], OptSeq(s.hand));
    assert Passed(t) == Passed(s);
  }

  lemma CutsKept(s: State, a: Act)
    requires Cuts(s) && Enabled(s, a)
    ensures Cuts(Do(s, a))
  {
    if a.Take? {
      var t := Do(s, a);
      assert t.got[..|t.got| - 1] == s.got;
    }
  }

  lemma StepKeepsInv(s: State, a: Act)
    requires Inv(s) && Enabled(s, a)
    ensures Inv(Do(s, a))
  {
    CutsKept(s, a);
    match a
    case Take => TakeKeepsFlow(s);
    case SendOn => SendOnKeepsFlow(s);
    case StartRefused(_) => RefusedKeepsFlow(s, a);
    case RelayTake => RelayTakeKeepsFlow(s);
    case RelaySend => assert Passed(Do(s, a)) == Passed(s);
    case Read => ReadKeepsFlow(s);
    case _ => OthersKeepFlow(s, a);
  }

  lemma {:induction false} ReachableInv(s: State, acts: seq<Act>)
    requires Inv(s) && Possible(s, acts)
    ensures Inv(Run(s, acts))
    decreases |acts|
  {
    if acts != [] {
      StepKeepsInv(s, acts[0]);
      ReachableInv(Do(s, acts[0]), acts[1..]);
    }
  }

  /** Whatever the interleaving, the consumer has seen a prefix of the stream's
      share of what the subscription accepted, in order; or, if turn/start was
      refused, of that one error. */
  lemma SeesPrefixOfShare(acts: seq<Act>)
    requires Possible(START, acts)
    ensures var s := Run(START, acts);
      s.seen <= (if s.refused.Some? then [s.refused.value] else Share(s.got + s.queue))
  {
    var s := Run(START, acts);
    ReachableInv(START, acts);
    assert s.seen <= Had(s);
    if s.refused == None {
      GotIsShared(s);
    }
  }

  lemma GotIsShared(s: State)
    requires Cuts(s) && s.refused == None
    ensures s.got <= Share(s.got + s.queue)
    ensures Share(s.got + s.queue) == if Open(s.got) then s.got + Share(s.queue) else s.got
  {
    if Open(s.got) {
      ShareAfterOpen(s.got, s.queue);
    } else {
      var n := |s.got| - 1;
      ShareAfterOpen(s.got[..n], [s.got[n]] + s.queue);
      assert s.got + s.queue == s.got[..n] + ([s.got[n]] + s.queue);
    }
  }

  lemma ReadOut(s: State)
    requires Flow(s) && s.relayGone && s.tracked == []
    ensures s.seen == Had(s) && s.tracker == TrackAll(UNTRACKED, s.seen)
  {
    assert Passed(s) == s.seen;
    assert s.seen + s.events + Sending(s.fwd) == s.seen;
  }

  /** Once the consumer's channel is closed and read out, with nobody having
      cancelled the stream, it has seen its whole share, and the tracker has
      followed exactly that; a share without an end means the subscription is
      closed and nothing of it is missing. */
  lemma SeesWholeShare(acts: seq<Act>)
    requires Possible(START, acts)
    requires var s := Run(START, acts); s.relayGone && s.tracked == [] && !s.cancelled
    ensures var s := Run(START, acts);
      && s.seen == (if s.refused.Some? then [s.refused.value] else Share(s.got + s.queue))
      && s.tracker == TrackAll(UNTRACKED, s.seen)
      && (s.refused == None && Open(s.seen) ==> s.subClosed && s.queue == [] && s.seen == s.got)
  {
    var s := Run(START, acts);
    ReachableInv(START, acts);
    ReadOut(s);
    if s.refused == None {
      GotIsShared(s);
      assert s.got + [] == s.got;
    }
  }

  /** A refused start is what the consumer is told, as a fatal error with its
      cause; and there is one exactly when turn/start was refused. */
  lemma {:induction false} RefusalIsTold(s: State, acts: seq<Act>, e: nat)
    requires Possible(s, acts) && s.refused == None
    requires s.fwd.Requesting?
    ensures StartRefused(e) in acts ==> Run(s, acts).refused == Some(ErrorEvent(e, true))
    ensures Run(s, acts).refused.Some? ==> exists e :: StartRefused(e) in acts
    decreases |acts|
  {
    if acts != [] {
      assert acts == [acts[0]] + acts[1..];
      var s1 := Do(s, acts[0]);
      if s1.fwd.Requesting? {
        RefusalIsTold(s1, acts[1..], e);
      } else {
        RefusalStays(s1, acts[1..]);
      }
      if !s1.fwd.Requesting? && acts[0].StartRefused? {
        assert StartRefused(acts[0].err) in acts;
      }
    }
  }

  lemma {:induction false} RefusalStays(s: State, acts: seq<Act>)
    requires Possible(s, acts) && !s.fwd.Requesting?
    ensures Run(s, acts).refused == s.refused
    ensures forall e :: StartRefused(e) !in acts
    decreases |acts|
  {
    if acts != [] {
      assert acts == [acts[0]] + acts[1..];
      RefusalStays(Do(s, acts[0]), acts[1..]);
    }
  }

  /** So the consumer sees nothing after the thread's own first completion or
      fatal error, and all up to and with it once its channel is read out, or
      all there is if there is none. */
  lemma SeenToOwnEnd(acts: seq<Act>, k: nat)
    requires Possible(START, acts)
    requires var s := Run(START, acts); s.refused == None && FirstEnd(s.got + s.queue, k)
    ensures var s := Run(START, acts);
      && s.seen <= UpTo(s.got + s.queue, k)
      && (s.relayGone && s.tracked == [] && !s.cancelled ==> s.seen == UpTo(s.got + s.queue, k))
  {
    var s := Run(START, acts);
    ShareIsCutAt(s.got + s.queue, k);
    SeesPrefixOfShare(acts);
    if s.relayGone && s.tracked == [] && !s.cancelled {
      SeesWholeShare(acts);
    }
  }

  /** The channels cannot lock up: if the consumer has nothing to read and its
      channel is not closed, then some goroutine of the stream can go on, or
      the forwarder waits for turn/start or for the subscription. */
  lemma NeverStuck(s: State)
    requires Inv(s) && s.tracked == [] && !s.relayGone
    ensures Enabled(s, RelayTake) || Enabled(s, RelaySend) || Enabled(s, RelayEnd) || Enabled(s, SendOn)
         || Enabled(s, Take) || Enabled(s, SubDrained) || s.fwd.Requesting?
         || (s.fwd.Selecting? && s.queue == [] && !s.subClosed)
  {
  }
}
