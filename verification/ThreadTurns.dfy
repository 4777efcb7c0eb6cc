/** Which turn a thread is running: the read loop sees turns start and
    complete, and the caller of turn/start records the turn its response names,
    at any time after the response arrived. */
module ThreadTurns {
  import opened Basics

  datatype Turns = Turns(active: Id, lastCompleted: Id)

  const IDLE := Turns(NO_ID, NO_ID)

  datatype Act =
    | Started(id: Id)     // turn/started, by the read loop
    | Completed(id: Id)   // turn/completed, by the read loop
    | Answered(id: Id)    // turn/start's response, by its caller

  function Do(s: Turns, a: Act): Turns {
    match a
    case Started(id) => s.(active := id)
    case Completed(id) => Turns(NO_ID, id)
    case Answered(id) => if id != s.lastCompleted then s.(active := id) else s
  }

  function Run(s: Turns, acts: seq<Act>): Turns
    decreases |acts|
  {
    if acts == [] then s else Do(Run(s, acts[..|acts| - 1]), acts[|acts| - 1])
  }

  /** The thread's own fields. */
  class Thread {
    var activeTurn: Id
    var lastCompleted: Id

    ghost function View(): Turns
      reads this
    {
      Turns(activeTurn, lastCompleted)
    }

    constructor ()
      ensures View() == IDLE
    {
      activeTurn, lastCompleted := NO_ID, NO_ID;
    }

    method SetActiveTurn(id: Id)
      modifies this
      ensures View() == Do(old(View()), Started(id))
    {
      activeTurn := id;
    }

    method StartedTurn(id: Id)
      modifies this
      ensures View() == Do(old(View()), Answered(id))
    {
      if id != lastCompleted {
        activeTurn := id;
      }
    }

    method CompletedTurn(id: Id)
      modifies this
      ensures View() == Do(old(View()), Completed(id))
    {
      activeTurn := NO_ID;
      lastCompleted := id;
    }
  }

  /** The turn that completed last in a run, if any did. */
  function LastDone(acts: seq<Act>): Option<Id>
    decreases |acts|
  {
    if acts == [] then None
    else match acts[|acts| - 1]
      case Completed(id) => Some(id)
      case _ => LastDone(acts[..|acts| - 1])
  }

  /** id has completed, and nothing has named it since. */
  predicate Over(acts: seq<Act>, id: Id)
    decreases |acts|
  {
    acts != [] && (acts[|acts| - 1] == Completed(id)
                   || (acts[|acts| - 1].id != id && Over(acts[..|acts| - 1], id)))
  }

  lemma {:induction false} LastDoneKept(acts: seq<Act>)
    ensures Run(IDLE, acts).lastCompleted == LastDone(acts).GetOr(NO_ID)
    decreases |acts|
  {
    if acts != [] {
      LastDoneKept(acts[..|acts| - 1]);
    }
  }

  lemma {:induction false} OverIsNotActive(acts: seq<Act>, id: Id)
    requires Over(acts, id) && id != NO_ID
    ensures Run(IDLE, acts).active != id && LastDone(acts).Some?
    decreases |acts|
  {
    if acts[|acts| - 1] != Completed(id) {
      OverIsNotActive(acts[..|acts| - 1], id);
    }
  }

  /** A turn that is over is made the active one again by a late response just
      when another turn has completed after it. */
  lemma RevivedIffOvertaken(acts: seq<Act>, id: Id)
    requires Over(acts, id) && id != NO_ID
    ensures Run(IDLE, acts + [Answered(id)]).active == id <==> LastDone(acts) != Some(id)
  {
    LastDoneKept(acts);
    OverIsNotActive(acts, id);
    assert (acts + [Answered(id)])[..|acts|] == acts;
  }

  /** For instance: a and b run one after the other, then the call that
      started a gets to record its response. Nothing is running, and a is
      reported as active. */
  lemma OvertakenResponse(a: Id, b: Id)
    requires a != b && a != NO_ID && b != NO_ID
    ensures Run(IDLE, [Started(a), Completed(a), Started(b), Completed(b), Answered(a)]).active == a
  {
    var acts := [Started(a), Completed(a), Started(b), Completed(b)];
    assert acts[..3] == [Started(a), Completed(a), Started(b)];
    assert acts[..3][..2] == [Started(a), Completed(a)];
    assert Over(acts[..3][..2], a);
    assert acts + [Answered(a)] == [Started(a), Completed(a), Started(b), Completed(b), Answered(a)];
    RevivedIffOvertaken(acts, a);
  }

  /** The i-th act makes id the active turn: it starts, or its response comes
      while it is not the turn that completed last. */
  predicate Activates(acts: seq<Act>, i: nat, id: Id)
    requires i < |acts|
  {
    acts[i] == Started(id) || (acts[i] == Answered(id) && LastDone(acts[..i]).GetOr(NO_ID) != id)
  }

  /** The i-th act is a response of the turn that completed last. */
  predicate Ignored(acts: seq<Act>, i: nat)
    requires i < |acts|
  {
    acts[i].Answered? && LastDone(acts[..i]).GetOr(NO_ID) == acts[i].id
  }

  /** The active turn is the one an act made active with nothing after it but
      responses of the turn that completed last; there is none exactly when no
      act is left but such responses, or the last other is a completion. */
  lemma {:induction false} ActiveTells(acts: seq<Act>, i: nat)
    requires i < |acts| && !Ignored(acts, i) && forall j :: i < j < |acts| ==> Ignored(acts, j)
    ensures var s := Run(IDLE, acts);
      && (acts[i].Completed? ==> s.active == NO_ID)
      && (!acts[i].Completed? ==> Activates(acts, i, acts[i].id) && s.active == acts[i].id)
    decreases |acts|
  {
    var n := |acts| - 1;
    var init := acts[..n];
    LastDoneKept(init);
    if i < n {
      assert Ignored(acts, n);
      assert forall j :: 0 <= j < n ==> init[..j] == acts[..j] && init[j] == acts[j];
      assert !Ignored(init, i);
      forall j | i < j < |init| ensures Ignored(init, j) {
        assert Ignored(acts, j);
      }
      ActiveTells(init, i);
    }
  }

  /** A turn's own acts: it starts, it completes, and its response is recorded
      at any point after the request, here anywhere. */
  ghost predicate OneTurn(acts: seq<Act>, id: Id) {
    && (forall i :: 0 <= i < |acts| ==> acts[i].id == id)
    && acts != [] && Completed(id) in acts
    && (forall i, j :: 0 <= i < j < |acts| && acts[i] == Completed(id) ==> acts[j].Answered?)
  }

  /** With no other turn in between, wherever the response is recorded, a
      completed turn is not active and stays so. */
  lemma {:induction false} CompletedStaysCleared(s: Turns, acts: seq<Act>, id: Id)
    requires OneTurn(acts, id)
    ensures Run(s, acts) == Turns(NO_ID, id)
    decreases |acts|
  {
    var n := |acts| - 1;
    var init := acts[..n];
    if acts[n].Completed? {
    } else {
      var i :| 0 <= i < |acts| && acts[i] == Completed(id);
      assert i < n && acts[n].Answered?;
      assert init[i] == Completed(id);
      CompletedStaysCleared(s, init, id);
    }
  }

  // ---- sending into the running turn ----

  /** What turn/steer answers. */
  datatype Answer = Steered(id: Id) | NotActive | NotSteerable | Failed

  datatype Result = Joined(id: Id) | ErrNoActiveTurn | ErrNotSteerable | ErrOther

  /** SendMessageWithInput. active(i) is the i-th reading of ActiveTurnID,
      answer(k) what codex says to the k-th request; asked is the expected turn
      of each request sent. The message is sent at most twice, again only after
      a refusal and to another turn, so it is delivered at most once; and the
      result is that of the last request, if any was sent. */
  method SendMessage(active: nat -> Id, answer: nat -> Answer) returns (r: Result, asked: seq<Id>)
    ensures |asked| <= 2
    ensures forall k :: 0 <= k < |asked| ==> asked[k] == active(2 * k) != NO_ID
    ensures forall k :: 0 <= k < |asked| - 1 ==> answer(k) == NotActive
    ensures |asked| == 2 ==> active(1) != active(0)
    ensures r.Joined? <==> asked != [] && answer(|asked| - 1).Steered?
    ensures r.Joined? ==> r.id == answer(|asked| - 1).id
    ensures asked == [] <==> active(0) == NO_ID
    ensures r == ErrNoActiveTurn ==> active(0) == NO_ID || (asked != [] && answer(0) == NotActive)
    ensures r == ErrNotSteerable <==> asked != [] && answer(|asked| - 1) == NotSteerable
    ensures r == ErrOther <==> asked != [] && answer(|asked| - 1) == Failed
    ensures answer(0) == NotActive && active(0) != NO_ID && active(1) != active(0) && active(2) != NO_ID ==>
              |asked| == 2
  {
    asked := [];
    var attempt := 0;
    while true
      invariant attempt == |asked| <= 1
      invariant forall k :: 0 <= k < |asked| ==> asked[k] == active(2 * k) != NO_ID && answer(k) == NotActive
      invariant attempt == 1 ==> active(1) != active(0) && active(0) != NO_ID
      decreases 2 - attempt
    {
      var turnID := active(2 * attempt);
      if turnID == NO_ID {
        return ErrNoActiveTurn, asked;
      }
      asked := asked + [turnID];
      match answer(attempt)
      case Steered(id) =>
        return Joined(id), asked;
      case NotActive =>
        if attempt == 0 && active(1) != turnID {
          attempt := attempt + 1;
          continue;
        }
        return ErrNoActiveTurn, asked;
      case NotSteerable =>
        return ErrNotSteerable, asked;
      case Failed =>
        return ErrOther, asked;
    }
  }
}
