/** Pairing completions with the attempts they end. codex may report an
    attempt's completion before the reply that names the attempt has been
    registered, so completions read while any start awaits its reply are kept
    until the last of those starts registers. */
module LoginRegistry {
  import opened Basics
  import H = LoginHandle

  type Completion = H.Completion

  /** inFlight identifies the starts whose replies are awaited; delivered
      records, per login id, the completions handed to its handle. */
  datatype State = State(
    waiting: set<Id>, starts: nat, early: map<Id, Completion>,
    inFlight: set<nat>, delivered: map<Id, seq<Completion>>)

  const EMPTY := State({}, 0, map[], {}, map[])

  /** A start is identified by a number; login is what its reply names, if it
      succeeds. A completion may carry no login id. */
  datatype Act =
    | BeginStart(start: nat)
    | EndStart(start: nat, login: Option<Id>)
    | Dispatch(login: Option<Id>, n: Completion)
    | Unregister(id: Id)

  predicate Enabled(s: State, a: Act) {
    match a
    case BeginStart(k) => k !in s.inFlight
    case EndStart(k, _) => k in s.inFlight
    case _ => true
  }

  function DeliveredTo(s: State, id: Id): seq<Completion> {
    if id in s.delivered then s.delivered[id] else []
  }

  function Hand(s: State, id: Id, n: Completion): State {
    s.(delivered := s.delivered[id := DeliveredTo(s, id) + [n]])
  }

  function Do(s: State, a: Act): State
    requires Enabled(s, a)
  {
    match a
    case BeginStart(k) => s.(starts := s.starts + 1, inFlight := s.inFlight + {k})
    case EndStart(k, login) =>
      var s1 := s.(starts := if s.starts > 0 then s.starts - 1 else 0, inFlight := s.inFlight - {k});
      var s2 := if login.None? then s1
                else if login.value in s1.early
                  then Hand(s1.(early := s1.early - {login.value}), login.value, s1.early[login.value])
                  else s1.(waiting := s1.waiting + {login.value});
      if s2.starts == 0 then s2.(early := map[]) else s2
    case Dispatch(login, n) =>
      if login.None? then s
      else if login.value in s.waiting then Hand(s.(waiting := s.waiting - {login.value}), login.value, n)
      else if s.starts > 0 then s.(early := s.early[login.value := n])
      else s
    case Unregister(id) => s.(waiting := s.waiting - {id})
  }

  ghost predicate Possible(s: State, acts: seq<Act>)
    decreases |acts|
  {
    acts == [] || (Enabled(s, acts[0]) && Possible(Do(s, acts[0]), acts[1..]))
  }

  ghost function Run(s: State, acts: seq<Act>): State
    requires Possible(s, acts)
    decreases |acts|
  {
    if acts == [] then s else Run(Do(s, acts[0]), acts[1..])
  }

  /** early and waiting never share a key, and nothing is kept when no start is
      in flight. */
  ghost predicate Inv(s: State) {
    && s.waiting !! s.early.Keys
    && s.starts == |s.inFlight|
    && (s.starts == 0 ==> s.early == map[])
  }

  lemma StepKeepsInv(s: State, a: Act)
    requires Inv(s) && Enabled(s, a)
    ensures Inv(Do(s, a))
  {
  }

  lemma {:induction false} ReachableInv(s: State, acts: seq<Act>)
    requires Inv(s) && Possible(s, acts)
    ensures Inv(Run(s, acts))
    decreases |acts|
  {
    if acts != [] {
      StepKeepsInv(s, acts[0]);
      ReachableInv(Do(s, acts[0]), acts[1..]);
    }
  }

  // ---- one login ----

  /** Where login x, created by start k, is in its life: not begun, its reply
      awaited, or registered; and its completion, once dispatched. */
  datatype Phase = Phase(begun: bool, ended: bool, completion: Option<Completion>)

  const UNBORN := Phase(false, false, None)

  predicate Sound(p: Phase) {
    (p.ended ==> p.begun) && (p.completion.Some? ==> p.begun)
  }

  predicate Speaks(a: Act, x: Id, k: nat) {
    match a
    case BeginStart(j) => j == k
    case EndStart(j, login) => j == k || login == Some(x)
    case Dispatch(login, _) => login == Some(x)
    case Unregister(id) => id == x
  }

  /** What codex and the reaper guarantee about x: its start begins and ends
      once, only that start's reply names it, and it completes at most once,
      after its start began. It is unregistered only after the read loop has
      exited, so not within such a run. */
  predicate Lawful(p: Phase, a: Act, x: Id, k: nat) {
    match a
    case BeginStart(j) => j == k ==> !p.begun
    case EndStart(j, login) =>
      (j == k || login == Some(x)) ==> j == k && login == Some(x) && p.begun && !p.ended
    case Dispatch(login, _) => login == Some(x) ==> p.begun && p.completion.None?
    case Unregister(id) => id != x
  }

  function Next(p: Phase, a: Act, x: Id, k: nat): Phase {
    if !Speaks(a, x, k) then p
    else match a
      case BeginStart(_) => p.(begun := true)
      case EndStart(_, _) => p.(ended := true)
      case Dispatch(_, n) => p.(completion := Some(n))
      case Unregister(_) => p
  }

  ghost predicate LawfulRun(p: Phase, acts: seq<Act>, x: Id, k: nat)
    decreases |acts|
  {
    acts == [] || (Lawful(p, acts[0], x, k) && LawfulRun(Next(p, acts[0], x, k), acts[1..], x, k))
  }

  function Final(p: Phase, acts: seq<Act>, x: Id, k: nat): Phase
    decreases |acts|
  {
    if acts == [] then p else Final(Next(p, acts[0], x, k), acts[1..], x, k)
  }

  /** Where x is kept, and what its handle has been given, in each phase. */
  ghost predicate Agrees(s: State, p: Phase, x: Id, k: nat) {
    && (k in s.inFlight <==> p.begun && !p.ended)
    && (x in s.waiting <==> p.ended && p.completion.None?)
    && (x in s.early <==> p.begun && !p.ended && p.completion.Some?)
    && (x in s.early ==> s.early[x] == p.completion.value)
    && DeliveredTo(s, x) == if p.ended && p.completion.Some? then [p.completion.value] else []
  }

  lemma EndAgrees(s: State, j: nat, login: Option<Id>, p: Phase, x: Id, k: nat)
    requires Inv(s) && j in s.inFlight && Agrees(s, p, x, k) && Sound(p)
    requires Lawful(p, EndStart(j, login), x, k)
    ensures Agrees(Do(s, EndStart(j, login)), Next(p, EndStart(j, login), x, k), x, k)
  {
    assert |s.inFlight - {j}| == |s.inFlight| - 1;
    if k != j && k in s.inFlight {
      assert k in s.inFlight - {j};
    }
  }

  lemma StepAgrees(s: State, a: Act, p: Phase, x: Id, k: nat)
    requires Inv(s) && Enabled(s, a) && Agrees(s, p, x, k) && Lawful(p, a, x, k) && Sound(p)
    ensures Agrees(Do(s, a), Next(p, a, x, k), x, k)
  {
    match a
    case BeginStart(_) =>
    case EndStart(j, login) => EndAgrees(s, j, login, p, x, k);
    case Dispatch(login, n) =>
      if k in s.inFlight {
        assert |s.inFlight| > 0;
      }
    case Unregister(_) =>
  }

  /** Over any interleaving of starts, replies and completions, a completion
      dispatched after its login's start began reaches that login's handle
      exactly once, as soon as the handle is registered, and nothing else ever
      does; until then it is kept, and a handle without one is waiting. */
  lemma {:induction false} CompletionReachesHandleOnce(s: State, acts: seq<Act>, p: Phase, x: Id, k: nat)
    requires Inv(s) && Possible(s, acts) && LawfulRun(p, acts, x, k)
    requires Agrees(s, p, x, k) && Sound(p)
    ensures var s', p' := Run(s, acts), Final(p, acts, x, k);
      && Agrees(s', p', x, k)
      && DeliveredTo(s', x) == (if p'.ended && p'.completion.Some? then [p'.completion.value] else [])
    decreases |acts|
  {
    if acts != [] {
      StepAgrees(s, acts[0], p, x, k);
      StepKeepsInv(s, acts[0]);
      CompletionReachesHandleOnce(Do(s, acts[0]), acts[1..], Next(p, acts[0], x, k), x, k);
    }
  }

  /** The same from the start of the connection. */
  lemma EveryCompletionIsPaired(acts: seq<Act>, x: Id, k: nat)
    requires Possible(EMPTY, acts) && LawfulRun(UNBORN, acts, x, k)
    ensures var s, p := Run(EMPTY, acts), Final(UNBORN, acts, x, k);
      && Inv(s)
      && DeliveredTo(s, x) == (if p.ended && p.completion.Some? then [p.completion.value] else [])
      && (p.begun && !p.ended && p.completion.Some? ==> x in s.early && s.early[x] == p.completion.value)
      && (p.ended && p.completion.None? ==> x in s.waiting)
  {
    ReachableInv(EMPTY, acts);
    CompletionReachesHandleOnce(EMPTY, acts, UNBORN, x, k);
  }

  /** No reply in these steps names x. */
  ghost predicate Unnamed(acts: seq<Act>, x: Id) {
    forall i :: 0 <= i < |acts| && acts[i].EndStart? ==> acts[i].login != Some(x)
  }

  lemma {:induction false} NothingMore(s: State, acts: seq<Act>, x: Id)
    requires Possible(s, acts) && x !in s.waiting && Unnamed(acts, x)
    ensures x !in Run(s, acts).waiting && DeliveredTo(Run(s, acts), x) == DeliveredTo(s, x)
    decreases |acts|
  {
    if acts != [] {
      var s1 := Do(s, acts[0]);
      assert Unnamed(acts[1..], x) by {
        assert forall i :: 0 <= i < |acts[1..]| ==> acts[1..][i] == acts[i + 1];
      }
      assert x !in s1.waiting && DeliveredTo(s1, x) == DeliveredTo(s, x);
      NothingMore(s1, acts[1..], x);
    }
  }

  /** A login taken out of the registry is handed nothing any more, whatever
      completions still come. */
  lemma UnregisteredGetsNothing(s: State, acts: seq<Act>, x: Id)
    requires Possible(Do(s, Unregister(x)), acts) && Unnamed(acts, x)
    ensures DeliveredTo(Run(Do(s, Unregister(x)), acts), x) == DeliveredTo(s, x)
  {
    NothingMore(Do(s, Unregister(x)), acts, x);
  }

  // ---- the object ----

  class Registry {
    var waiting: map<Id, H.Login>
    var starts: nat
    var early: map<Id, Completion>
    ghost var inFlight: set<nat>
    ghost var delivered: map<Id, seq<Completion>>

    ghost function View(): State
      reads this
    {
      State(waiting.Keys, starts, early, inFlight, delivered)
    }

    ghost predicate Valid()
      reads this
    {
      Inv(View()) && forall id :: id in waiting ==> waiting[id].id == id
    }

    constructor ()
      ensures Valid() && View() == EMPTY
    {
      waiting, starts, early, inFlight, delivered := map[], 0, map[], {}, map[];
    }

    method Begin(ghost k: nat)
      requires Valid() && k !in inFlight
      modifies this
      ensures Valid() && View() == Do(old(View()), BeginStart(k))
    {
      starts := starts + 1;
      inFlight := inFlight + {k};
    }

    /** The reply named no attempt. */
    method EndFailed(ghost k: nat)
      requires Valid() && k in inFlight
      modifies this
      ensures Valid() && View() == Do(old(View()), EndStart(k, None))
    {
      StepKeepsInv(View(), EndStart(k, None));
      starts := starts - 1;
      inFlight := inFlight - {k};
      if starts == 0 {
        early := map[];
      }
    }

    /** The reply named l's attempt; a completion that came early is delivered
        to it once the registry is let go. */
    method EndStarted(l: H.Login, ghost k: nat) returns (decided: Option<H.Outcome>)
      requires Valid() && k in inFlight
      modifies this, l
      ensures Valid() && View() == Do(old(View()), EndStart(k, Some(l.id)))
      ensures l.id in old(early) ==> l.View() == H.Do(old(l.View()), H.Complete(old(early)[l.id]))
      ensures l.id !in old(early) ==> l.View() == old(l.View()) && l.id in waiting && waiting[l.id] == l
    {
      StepKeepsInv(View(), EndStart(k, Some(l.id)));
      starts := starts - 1;
      inFlight := inFlight - {k};
      var n: Option<Completion> := None;
      if l.id in early {
        n := Some(early[l.id]);
        early := early - {l.id};
        delivered := delivered[l.id := DeliveredTo(old(View()), l.id) + [n.value]];
      } else {
        waiting := waiting[l.id := l];
      }
      if starts == 0 {
        early := map[];
      }
      decided := None;
      if n.Some? {
        decided := l.Deliver(n.value);
      }
    }

    method DispatchCompletion(login: Option<Id>, n: Completion) returns (decided: Option<H.Outcome>)
      requires Valid()
      modifies this, waiting.Values
      ensures Valid() && View() == Do(old(View()), Dispatch(login, n))
      ensures login.Some? && login.value in old(waiting) ==>
        var l := old(waiting)[login.value]; l.View() == H.Do(old(l.View()), H.Complete(n))
    {
      decided := None;
      if login.None? {
        return;
      }
      StepKeepsInv(View(), Dispatch(login, n));
      var id := login.value;
      if id in waiting {
        var l := waiting[id];
        waiting := waiting - {id};
        delivered := delivered[id := DeliveredTo(old(View()), id) + [n]];
        decided := l.Deliver(n);
        return;
      }
      if starts > 0 {
        early := early[id := n];
      }
    }

    method Drop(id: Id)
      requires Valid()
      modifies this
      ensures Valid() && View() == Do(old(View()), Unregister(id))
    {
      waiting := waiting - {id};
    }
  }
}
