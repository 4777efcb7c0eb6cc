/** One subscription: an unbounded queue the read loop pushes into, and a pump
    that hands events to the reader one at a time. A step is one critical
    section or one channel operation, so a push and its wake-up signal are two
    steps and anything may happen between them. */
module Pump {
  import opened Basics
  import opened Events

  /** Where the pump is: about to look at the queue, asleep on the wake
      channel, holding an event for the reader, or gone. */
  datatype Place = Top | Parked | InHand(ev: Event) | Stopped

  /** owed counts signals not sent yet by a push or finish that has left its
      critical section. */
  datatype State = State(
    queue: seq<Event>, closing: bool, wake: bool, aborted: bool, owed: nat, place: Place,
    accepted: seq<Event>, delivered: seq<Event>)

  const FRESH := State([], false, false, false, 0, Top, [], [])

  datatype Act = Enqueue(ev: Event) | Close | Signal | Abort | Look | Wake | Quit | Hand

  predicate Enabled(s: State, a: Act) {
    match a
    case Enqueue(_) => true
    case Close => true
    case Abort => true
    case Signal => s.owed > 0
    case Look => s.place.Top?
    case Wake => s.place.Parked? && s.wake
    case Quit => s.aborted && (s.place.Parked? || s.place.InHand?)
    case Hand => s.place.InHand?
  }

  function Do(s: State, a: Act): State
    requires Enabled(s, a)
  {
    match a
    case Enqueue(ev) =>
      if s.closing then s
      else s.(queue := s.queue + [ev], accepted := s.accepted + [ev], owed := s.owed + 1)
    case Close => s.(closing := true, owed := s.owed + 1)
    case Signal => s.(wake := true, owed := s.owed - 1)
    case Abort => s.(aborted := true)
    case Look =>
      if s.queue != [] then s.(queue := s.queue[1..], place := InHand(s.queue[0]))
      else s.(place := if s.closing then Stopped else Parked)
    case Wake => s.(wake := false, place := Top)
    case Quit => s.(place := Stopped)
    case Hand => s.(place := Top, delivered := s.delivered + [s.place.ev])
  }

  ghost predicate Possible(s: State, acts: seq<Act>)
    decreases |acts|
  {
    acts == [] || (Enabled(s, acts[0]) && Possible(Do(s, acts[0]), acts[1..]))
  }

  ghost function Run(s: State, acts: seq<Act>): State
    requires Possible(s, acts)
    decreases |acts|
  {
    if acts == [] then s else Run(Do(s, acts[0]), acts[1..])
  }

  function InFlight(p: Place): seq<Event> {
    if p.InHand? then [p.ev] else []
  }

  /** Nothing is lost, duplicated or reordered, and no wake-up is lost. */
  ghost predicate Inv(s: State) {
    && (!s.place.Stopped? ==> s.accepted == s.delivered + InFlight(s.place) + s.queue)
    && (s.place.Stopped? ==> s.delivered <= s.accepted)
    && (s.place.Stopped? && !s.aborted ==> s.closing && s.queue == [] && s.delivered == s.accepted)
    && (s.place.Parked? && (s.queue != [] || s.closing) ==> s.wake || s.owed > 0)
  }

  lemma StepKeepsInv(s: State, a: Act)
    requires Inv(s) && Enabled(s, a)
    ensures Inv(Do(s, a))
    ensures s.closing ==> Do(s, a).accepted == s.accepted && Do(s, a).closing
    ensures s.accepted <= Do(s, a).accepted && s.delivered <= Do(s, a).delivered
  {
    if a.Look? && s.queue != [] {
      assert s.queue == [s.queue[0]] + s.queue[1..];
    }
  }

  /** In every reachable state the reader has been given a prefix of what was
      accepted; without an abort, what is missing is exactly in the pump's
      hand and in the queue, and out closes only with nothing missing. */
  lemma {:induction false} NothingLost(s: State, acts: seq<Act>)
    requires Inv(s) && Possible(s, acts)
    ensures var s' := Run(s, acts);
      && Inv(s')
      && s'.delivered <= s'.accepted
      && (!s'.aborted ==> s'.accepted == s'.delivered + InFlight(s'.place) + s'.queue)
      && (s.closing ==> s'.accepted == s.accepted && s'.closing)
    decreases |acts|
  {
    if acts != [] {
      StepKeepsInv(s, acts[0]);
      NothingLost(Do(s, acts[0]), acts[1..]);
    }
  }

  // ---- the pump finishes ----

  /** The steps the pump and the pending signals take by themselves, given
      somebody reading. */
  predicate Progress(a: Act) { a.Signal? || a.Look? || a.Wake? || a.Hand? || a.Quit? }

  function Rank(p: Place): nat {
    match p case Stopped => 0 case Top => 1 case InHand(_) => 2 case Parked => 2
  }

  /** An upper bound on the steps a closing pump has left. */
  function Left(s: State): nat {
    2 * |s.queue| + Rank(s.place) + 2 * s.owed + (if s.wake then 1 else 0)
  }

  lemma ProgressShrinks(s: State, a: Act)
    requires s.closing && Progress(a) && Enabled(s, a)
    ensures Do(s, a).closing && Left(Do(s, a)) < Left(s)
  {
  }

  /** After finish, any schedule of the pump under a live reader stops within
      Left steps, and it can stop only by having delivered everything that was
      accepted. After cancel the same holds with nobody reading. */
  lemma {:induction false} FinishDrains(s: State, acts: seq<Act>)
    requires Inv(s) && s.closing && Possible(s, acts)
    requires forall i :: 0 <= i < |acts| ==> Progress(acts[i])
    ensures |acts| + Left(Run(s, acts)) <= Left(s)
    ensures var s' := Run(s, acts);
      && (!s'.place.Stopped? ==> Enabled(s', Signal) || Enabled(s', Look) || Enabled(s', Wake) || Enabled(s', Hand))
      && (!s'.place.Stopped? && s'.aborted ==>
            Enabled(s', Signal) || Enabled(s', Look) || Enabled(s', Wake) || Enabled(s', Quit))
      && (s'.place.Stopped? && !s'.aborted ==> s'.delivered == s.accepted)
    decreases |acts|
  {
    if acts != [] {
      StepKeepsInv(s, acts[0]);
      ProgressShrinks(s, acts[0]);
      assert forall i :: 0 <= i < |acts[1..]| ==> acts[1..][i] == acts[i + 1];
      FinishDrains(Do(s, acts[0]), acts[1..]);
    }
  }

  // ---- the object ----

  class Subscription {
    var queue: seq<Event>
    var closing: bool
    var wake: bool
    var aborted: bool
    var place: Place
    ghost var owed: nat
    ghost var accepted: seq<Event>
    ghost var delivered: seq<Event>

    ghost function View(): State
      reads this
    {
      State(queue, closing, wake, aborted, owed, place, accepted, delivered)
    }

    ghost predicate Valid()
      reads this
    {
      Inv(View())
    }

    constructor ()
      ensures Valid() && View() == FRESH
    {
      queue, closing, wake, aborted, place := [], false, false, false, Top;
      owed, accepted, delivered := 0, [], [];
    }

    /** Queues ev unless the subscription is closing. */
    method Push(ev: Event)
      modifies this
      ensures old(Valid()) ==> Valid()
      ensures View() == if old(closing) then old(View()) else Do(Do(old(View()), Enqueue(ev)), Signal)
      ensures closing == old(closing) && accepted == if closing then old(accepted) else old(accepted) + [ev]
    {
      if closing {
        return;
      }
      queue, accepted, owed := queue + [ev], accepted + [ev], owed + 1;
      Notify();
    }

    /** No more pushes; everything queued is still delivered. */
    method Finish()
      modifies this
      ensures old(Valid()) ==> Valid()
      ensures View() == Do(Do(old(View()), Close), Signal)
    {
      closing, owed := true, owed + 1;
      Notify();
    }

    /** The reader leaves: queued events are dropped. */
    method Cancel()
      modifies this
      ensures old(Valid()) ==> Valid()
      ensures View() == Do(Do(Do(old(View()), Close), Signal), Abort)
    {
      Finish();
      aborted := true;
    }

    method Notify()
      requires owed > 0
      modifies this`wake, this`owed
      ensures View() == Do(old(View()), Signal)
    {
      if !wake {
        wake := true;
      }
      owed := owed - 1;
    }

    /** One turn of the pump's loop: the critical section, and then the select
        it ends in. wakeFirst and readerReady say which ready case a select
        takes. */
    method PumpLook() returns (running: bool)
      requires Valid() && place.Top?
      modifies this
      ensures Valid()
      ensures View() == Do(old(View()), Look)
      ensures running <==> !place.Stopped?
    {
      StepKeepsInv(View(), Look);
      if |queue| == 0 {
        if closing {
          place := Stopped;
          return false;
        }
        place := Parked;
        return true;
      }
      var ev := queue[0];
      queue := queue[1..];
      place := InHand(ev);
      return true;
    }

    method PumpWait(wakeFirst: bool) returns (moved: bool)
      requires Valid() && place.Parked?
      modifies this
      ensures Valid()
      ensures moved <==> old(wake || aborted)
      ensures !moved ==> View() == old(View())
      ensures moved ==> View() == Do(old(View()), if old(wake) && (wakeFirst || !old(aborted)) then Wake else Quit)
    {
      if wake && (wakeFirst || !aborted) {
        wake := false;
        place := Top;
      } else if aborted {
        place := Stopped;
      } else {
        return false;
      }
      return true;
    }

    method PumpHand(readerReady: bool) returns (out: Option<Event>)
      requires Valid() && place.InHand?
      modifies this
      ensures Valid()
      ensures readerReady ==> out == Some(old(place).ev) && View() == Do(old(View()), Hand)
      ensures !readerReady && old(aborted) ==> out.None? && View() == Do(old(View()), Quit)
      ensures !readerReady && !old(aborted) ==> out.None? && View() == old(View())
    {
      if readerReady {
        out := Some(place.ev);
        delivered := delivered + [place.ev];
        place := Top;
      } else {
        out := None;
        if aborted {
          place := Stopped;
        }
      }
    }
  }
}
