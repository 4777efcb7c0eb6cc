/** One sign-in attempt from its start to its end: the registry that pairs its
    completion with its handle, and the handle that settles it. */
module LoginRun {
  import opened Basics
  import H = LoginHandle
  import R = LoginRegistry

  /** The attempt's handle exists once its start has ended. before and mid are
      the handle's own steps before and after its completion was handed to it,
      and got is that completion. */
  datatype State = State(
    reg: R.State, phase: R.Phase, handle: H.State, readerGone: bool,
    before: seq<H.Act>, got: Option<R.Completion>, mid: seq<H.Act>)

  const START := State(R.EMPTY, R.UNBORN, H.FRESH, false, [], None, [])

  datatype Act = Pair(r: R.Act) | Step(h: H.Act) | ReaderLeaves

  /** Login x is created by start k. The read loop dispatches while it runs;
      the handle's Cancels and settling need a handle. */
  predicate Enabled(s: State, a: Act, x: Id, k: nat) {
    match a
    case Pair(r) =>
      R.Enabled(s.reg, r) && R.Lawful(s.phase, r, x, k) && (r.Dispatch? ==> !s.readerGone)
    case Step(h) => H.Quiet(h) && s.phase.ended && H.Enabled(s.handle, h)
    case ReaderLeaves => !s.readerGone
  }

  /** The completion a step of the registry hands to x's handle. */
  function Handed(s: State, r: R.Act, x: Id): Option<R.Completion> {
    match r
    case EndStart(_, login) => if login == Some(x) && x in s.reg.early then Some(s.reg.early[x]) else None
    case Dispatch(login, n) => if login == Some(x) && x in s.reg.waiting then Some(n) else None
    case _ => None
  }

  function Do(s: State, a: Act, x: Id, k: nat): State
    requires Enabled(s, a, x, k)
  {
    match a
    case Pair(r) =>
      var s1 := s.(reg := R.Do(s.reg, r), phase := R.Next(s.phase, r, x, k));
      if Handed(s, r, x).Some?
      then s1.(got := Handed(s, r, x), handle := H.Do(s.handle, H.Complete(Handed(s, r, x).value)))
      else s1
    case Step(h) =>
      var s1 := s.(handle := H.Do(s.handle, h));
      if s.got.None? then s1.(before := s.before + [h]) else s1.(mid := s.mid + [h])
    case ReaderLeaves => s.(readerGone := true)
  }

  ghost predicate Possible(s: State, acts: seq<Act>, x: Id, k: nat)
    decreases |acts|
  {
    acts == [] || (Enabled(s, acts[0], x, k) && Possible(Do(s, acts[0], x, k), acts[1..], x, k))
  }

  ghost function Run(s: State, acts: seq<Act>, x: Id, k: nat): State
    requires Possible(s, acts, x, k)
    decreases |acts|
  {
    if acts == [] then s else Run(Do(s, acts[0], x, k), acts[1..], x, k)
  }

  // ---- the two parts together ----

  /** The steps the handle has taken. */
  function Trace(s: State): seq<H.Act> {
    if s.got.Some? then s.before + [H.Complete(s.got.value)] + s.mid else s.before
  }

  ghost predicate Traced(s: State) {
    && H.AllQuiet(s.before) && H.AllQuiet(s.mid)
    && (s.got.None? ==> s.mid == [])
    && H.Possible(H.FRESH, Trace(s)) && H.Run(H.FRESH, Trace(s)) == s.handle
    && (!s.phase.ended ==> s.before == [])
  }

  ghost predicate Inv(s: State, x: Id, k: nat) {
    && R.Inv(s.reg) && R.Sound(s.phase) && R.Agrees(s.reg, s.phase, x, k)
    && s.got == (if s.phase.ended then s.phase.completion else None)
    && Traced(s)
  }

  lemma {:induction false} RunOneMore(s: H.State, acts: seq<H.Act>, a: H.Act)
    requires H.Possible(s, acts) && H.Enabled(H.Run(s, acts), a)
    ensures H.Possible(s, acts + [a]) && H.Run(s, acts + [a]) == H.Do(H.Run(s, acts), a)
    decreases |acts|
  {
    if acts == [] {
      assert (acts + [a])[1..] == [];
    } else {
      assert (acts + [a])[1..] == acts[1..] + [a];
      RunOneMore(H.Do(s, acts[0]), acts[1..], a);
    }
  }

  /** The registry hands over exactly when the attempt's start has ended and its
      completion been dispatched, whichever comes last. */
  lemma HandedWhenBoth(s: State, r: R.Act, x: Id, k: nat)
    requires Inv(s, x, k) && Enabled(s, Pair(r), x, k)
    ensures var p := R.Next(s.phase, r, x, k);
      && (Handed(s, r, x).Some? ==> s.got.None? && p.ended && p.completion == Handed(s, r, x))
      && (Handed(s, r, x).None? ==> s.got == (if p.ended then p.completion else None))
      && (!p.ended ==> !s.phase.ended)
  {
  }

  lemma StepKeepsInv(s: State, a: Act, x: Id, k: nat)
    requires Inv(s, x, k) && Enabled(s, a, x, k)
    ensures Inv(Do(s, a, x, k), x, k)
  {
    match a
    case Pair(r) =>
      R.StepAgrees(s.reg, r, s.phase, x, k);
      R.StepKeepsInv(s.reg, r);
      HandedWhenBoth(s, r, x, k);
      if Handed(s, r, x).Some? {
        var n := Handed(s, r, x).value;
        RunOneMore(H.FRESH, s.before, H.Complete(n));
        assert Trace(Do(s, a, x, k)) == s.before + [H.Complete(n)];
      }
    case Step(h) =>
      RunOneMore(H.FRESH, Trace(s), h);
      assert Trace(Do(s, a, x, k)) == Trace(s) + [h];
    case ReaderLeaves =>
  }

  lemma {:induction false} ReachableInv(s: State, acts: seq<Act>, x: Id, k: nat)
    requires Inv(s, x, k) && Possible(s, acts, x, k)
    ensures Inv(Run(s, acts, x, k), x, k)
    decreases |acts|
  {
    if acts != [] {
      StepKeepsInv(s, acts[0], x, k);
      ReachableInv(Do(s, acts[0], x, k), acts[1..], x, k);
    }
  }

  /** Over every interleaving of starts, completions, Cancels, their answers and
      settling, from an empty registry: when the exit of the process is
      noticed, an attempt can still end with the exit error exactly when no
      completion for it was dispatched, or one was and a Cancel that took it has
      not settled it. */
  lemma ExitErrorIff(acts: seq<Act>, x: Id, k: nat)
    requires Possible(START, acts, x, k)
    requires var s := Run(START, acts, x, k); s.phase.ended && H.Enabled(s.handle, H.Abandon)
    ensures var s := Run(START, acts, x, k);
      H.CanEndCutOff(s.handle) <==>
        s.phase.completion.None? || (s.handle.err.None? && H.Owes(s.handle, H.Canceler))
  {
    var s := Run(START, acts, x, k);
    ReachableInv(START, acts, x, k);
    if s.got.Some? {
      H.ExitHidesCompletion(s.before, s.got.value, s.mid);
    } else {
      H.WaitingStays(H.FRESH, s.before);
      var s1, after := H.Do(s.handle, H.Abandon), [H.Settle(0)];
      assert after[1..] == [];
      assert H.Run(H.Do(s1, after[0]), after[1..]) == H.Do(s1, after[0]);
      assert H.Possible(s1, after) && H.AllQuiet(after) && H.Run(s1, after).err == Some(H.CutOff);
    }
  }

  /** And without an exit: an attempt whose completion was dispatched is decided
      once, as that completion and the Cancels answered by then say, or still
      waits for a Cancel in flight; no other attempt is decided. */
  lemma SettledAsDispatched(acts: seq<Act>, x: Id, k: nat)
    requires Possible(START, acts, x, k) && Run(START, acts, x, k).phase.ended
    ensures var s := Run(START, acts, x, k);
      match s.phase.completion
      case None => H.Waiting(s.handle)
      case Some(n) =>
        match H.DecidedBy(s.before, n, s.mid)
        case None => H.Holding(s.handle, n)
        case Some(d) =>
          H.Decided(s.handle, if n.success then H.SignedIn
                              else H.Failed(H.Message(n), H.Ambiguous(n) && H.SaidCanceled(d)))
  {
    var s := Run(START, acts, x, k);
    ReachableInv(START, acts, x, k);
    if s.got.Some? {
      H.SettlesOnce(s.before, s.got.value, s.mid);
    } else {
      H.WaitingStays(H.FRESH, s.before);
    }
  }
}
