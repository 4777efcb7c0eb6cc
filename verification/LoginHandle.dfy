/** One sign-in attempt. codex reports a cancelled and a replaced attempt with
    the same message, before or after it answers the cancel, so that outcome is
    held until every Cancel in flight has its answer. A step is one critical
    section; an outcome decided in one is settled in a later step, and anything
    may happen in between. */
module LoginHandle {
  import opened Basics

  datatype Text = Text(chars: string)

  datatype Completion = Completion(success: bool, error: Option<Text>)

  /** How an attempt ended: signed in, failed with codex's message, or cut off
      by the process exit. */
  datatype Outcome = SignedIn | Failed(message: Text, canceled: bool) | CutOff

  const NOT_COMPLETED := Text("Login was not completed")

  function Message(n: Completion): Text {
    if n.error.Some? && n.error.value != Text("") then n.error.value else Text("sign-in failed")
  }

  /** The completion does not say whether a Cancel caused it. */
  predicate Ambiguous(n: Completion) {
    !n.success && Message(n) == NOT_COMPLETED
  }

  function OutcomeOf(n: Completion, canceled: bool): Outcome {
    if n.success then SignedIn else Failed(Message(n), canceled && Message(n) == NOT_COMPLETED)
  }

  /** Who has decided an outcome and has yet to settle it: a Cancel that took
      the held completion, the read loop or the start that delivered it, or the
      watcher that noticed the exit. */
  datatype Owner = Canceler | Deliverer | Watcher

  datatype Debt = Debt(owner: Owner, outcome: Outcome)

  /** owed holds the outcomes decided and not settled yet; err is the settled
      one. */
  datatype State = State(
    cancels: nat, canceled: bool, held: Option<Completion>, owed: seq<Debt>, err: Option<Outcome>)

  const FRESH := State(0, false, None, [], None)

  datatype Act = Begin | Answer(canceled: bool) | Complete(n: Completion) | Abandon | Settle(i: nat)

  predicate Owes(s: State, owner: Owner) {
    exists i :: 0 <= i < |s.owed| && s.owed[i].owner == owner
  }

  /** The watcher wakes only when the read loop has exited and the start is
      over, so with no deliverer still to settle. */
  predicate Enabled(s: State, a: Act) {
    match a
    case Answer(_) => s.cancels > 0
    case Settle(i) => i < |s.owed|
    case Abandon => !Owes(s, Deliverer)
    case _ => true
  }

  function Do(s: State, a: Act): State
    requires Enabled(s, a)
  {
    match a
    case Begin => s.(cancels := s.cancels + 1)
    case Answer(yes) =>
      var s1 := s.(cancels := s.cancels - 1, canceled := s.canceled || yes);
      if s1.cancels == 0 && s.held.Some?
        then s1.(held := None, owed := s.owed + [Debt(Canceler, OutcomeOf(s.held.value, s1.canceled))])
        else s1
    case Complete(n) =>
      if s.cancels > 0 && Ambiguous(n) then s.(held := Some(n))
      else s.(owed := s.owed + [Debt(Deliverer, OutcomeOf(n, s.canceled))])
    case Abandon =>
      var o := if s.held.Some? then OutcomeOf(s.held.value, s.canceled) else CutOff;
      s.(held := None, owed := s.owed + [Debt(Watcher, o)])
    case Settle(i) =>
      s.(owed := s.owed[..i] + s.owed[i + 1..], err := if s.err.None? then Some(s.owed[i].outcome) else s.err)
  }

  ghost predicate Possible(s: State, acts: seq<Act>)
    decreases |acts|
  {
    acts == [] || (Enabled(s, acts[0]) && Possible(Do(s, acts[0]), acts[1..]))
  }

  ghost function Run(s: State, acts: seq<Act>): State
    requires Possible(s, acts)
    decreases |acts|
  {
    if acts == [] then s else Run(Do(s, acts[0]), acts[1..])
  }

  // ---- no exit: settled exactly once, with the right flag ----

  /** No completion has been delivered. */
  predicate Waiting(s: State) {
    s.held.None? && s.owed == [] && s.err.None?
  }

  predicate Holding(s: State, n: Completion) {
    s.held == Some(n) && s.owed == [] && s.err.None? && s.cancels > 0 && Ambiguous(n)
  }

  /** Exactly one outcome has been decided, and it is o. */
  predicate Decided(s: State, o: Outcome) {
    && s.held.None?
    && ((|s.owed| == 1 && s.owed[0].outcome == o && !s.owed[0].owner.Watcher? && s.err.None?)
        || (s.owed == [] && s.err == Some(o)))
  }

  predicate Quiet(a: Act) { a.Begin? || a.Answer? || a.Settle? }

  ghost predicate AllQuiet(acts: seq<Act>) {
    forall i :: 0 <= i < |acts| ==> Quiet(acts[i])
  }

  /** Some Cancel among these steps was answered "canceled". */
  predicate SaidCanceled(acts: seq<Act>) {
    Answer(true) in acts
  }

  lemma {:induction false} WaitingStays(s: State, acts: seq<Act>)
    requires Waiting(s) && Possible(s, acts) && AllQuiet(acts)
    ensures Run(s, acts) == s.(cancels := Run(s, acts).cancels, canceled := s.canceled || SaidCanceled(acts))
    decreases |acts|
  {
    if acts != [] {
      assert acts == [acts[0]] + acts[1..];
      WaitingStays(Do(s, acts[0]), acts[1..]);
    }
  }

  lemma {:induction false} DecidedStays(s: State, acts: seq<Act>, o: Outcome)
    requires Decided(s, o) && Possible(s, acts) && AllQuiet(acts)
    ensures Decided(Run(s, acts), o)
    decreases |acts|
  {
    if acts != [] {
      assert acts == [acts[0]] + acts[1..];
      DecidedStays(Do(s, acts[0]), acts[1..], o);
    }
  }

  /** The steps up to and with the first that leaves no Cancel in flight. */
  function UntilAnswered(cancels: int, acts: seq<Act>): (head: Option<seq<Act>>)
    ensures head.Some? ==> head.value <= acts
    decreases |acts|
  {
    if cancels <= 0 then Some([])
    else if acts == [] then None
    else match UntilAnswered(InFlightAfter(cancels, acts[0]), acts[1..])
      case Some(head) => Some([acts[0]] + head)
      case None => None
  }

  function InFlightAfter(cancels: int, a: Act): int {
    if a.Begin? then cancels + 1 else if a.Answer? then cancels - 1 else cancels
  }

  /** A held completion is decided by the first answer that leaves no Cancel in
      flight, and by then every answer counts; until then it stays held. */
  lemma {:induction false} HeldDecides(s: State, acts: seq<Act>, n: Completion)
    requires Holding(s, n) && Possible(s, acts) && AllQuiet(acts)
    ensures match UntilAnswered(s.cancels, acts)
      case None => Holding(Run(s, acts), n)
      case Some(head) => Decided(Run(s, acts), OutcomeOf(n, s.canceled || SaidCanceled(head)))
    decreases |acts|
  {
    if acts != [] {
      assert acts == [acts[0]] + acts[1..];
      var s1 := Do(s, acts[0]);
      if Holding(s1, n) {
        HeldDecides(s1, acts[1..], n);
      } else {
        DecidedStays(s1, acts[1..], OutcomeOf(n, s1.canceled));
      }
    }
  }

  /** Cancels still unanswered after these steps. */
  function InFlight(cancels: int, acts: seq<Act>): int
    decreases |acts|
  {
    if acts == [] then cancels else InFlight(InFlightAfter(cancels, acts[0]), acts[1..])
  }

  lemma SaidConcat(a: seq<Act>, b: seq<Act>, n: Completion)
    ensures SaidCanceled(a + [Complete(n)] + b) == (SaidCanceled(a) || SaidCanceled(b))
    ensures SaidCanceled(a + [Complete(n)]) == SaidCanceled(a)
  {
  }

  /** The steps up to and with the one that decides the outcome: the
      completion itself, or, if it is ambiguous and Cancels are in flight, the
      answer after which for the first time none is. */
  function DecidedBy(before: seq<Act>, n: Completion, after: seq<Act>): (d: Option<seq<Act>>) {
    if !Ambiguous(n) then Some(before + [Complete(n)])
    else match UntilAnswered(InFlight(0, before), after)
      case Some(head) => Some(before + [Complete(n)] + head)
      case None => None
  }

  lemma {:induction false} UntilAnsweredIsFirst(cancels: int, acts: seq<Act>, k: nat)
    requires k <= |acts|
    ensures UntilAnswered(cancels, acts) == Some(acts[..k]) <==>
      InFlight(cancels, acts[..k]) <= 0 && forall j :: 0 <= j < k ==> InFlight(cancels, acts[..j]) > 0
    decreases |acts|
  {
    if cancels <= 0 {
      assert InFlight(cancels, acts[..0]) == cancels;
      assert k > 0 ==> acts[..k] != [];
    } else if k == 0 {
      assert acts[..0] == [] && UntilAnswered(cancels, acts) != Some([]);
    } else {
      var c, rest := InFlightAfter(cancels, acts[0]), acts[1..];
      UntilAnsweredIsFirst(c, rest, k - 1);
      PrefixFirst(acts, k);
      forall j | 0 < j <= k ensures InFlight(cancels, acts[..j]) == InFlight(c, rest[..j - 1]) {
        PrefixFirst(acts, j);
      }
      assert InFlight(cancels, acts[..0]) == cancels;
      if forall j :: 0 <= j < k ==> InFlight(cancels, acts[..j]) > 0 {
        forall j | 0 <= j < k - 1 ensures InFlight(c, rest[..j]) > 0 {
          assert InFlight(cancels, acts[..j + 1]) > 0;
        }
      }
    }
  }

  lemma PrefixFirst(acts: seq<Act>, k: nat)
    requires 0 < k <= |acts|
    ensures acts[..k] == [acts[0]] + acts[1..][..k - 1]
    ensures acts[..k][0] == acts[0] && acts[..k][1..] == acts[1..][..k - 1]
  {
  }

  /** For an ambiguous completion it is the first moment, from the completion
      on, at which no Cancel is in flight, and there is only one such. */
  lemma DecidedAtFirst(before: seq<Act>, n: Completion, after: seq<Act>, k: nat)
    requires Ambiguous(n) && k <= |after|
    ensures var mid := before + [Complete(n)];
      DecidedBy(before, n, after) == Some(mid + after[..k]) <==>
        InFlight(0, mid + after[..k]) <= 0 && forall j :: 0 <= j < k ==> InFlight(0, mid + after[..j]) > 0
  {
    var mid := before + [Complete(n)];
    var c := InFlight(0, before);
    UntilAnsweredIsFirst(c, after, k);
    forall j | 0 <= j <= k ensures InFlight(0, mid + after[..j]) == InFlight(c, after[..j]) {
      InFlightAcross(before, after[..j], n);
    }
    match UntilAnswered(c, after)
    case Some(head) =>
      if mid + head == mid + after[..k] {
        assert (mid + head)[|mid|..] == head && (mid + after[..k])[|mid|..] == after[..k];
      }
    case None =>
  }

  lemma InFlightAcross(a: seq<Act>, b: seq<Act>, n: Completion)
    ensures InFlight(0, a + [Complete(n)] + b) == InFlight(InFlight(0, a), b)
  {
    InFlightConcat(0, a + [Complete(n)], b);
    InFlightConcat(0, a, [Complete(n)]);
    assert [Complete(n)][1..] == [];
  }

  /** In every run with one completion and no exit, the attempt stays undecided
      exactly while a Cancel has been in flight at every moment since an
      ambiguous completion; else exactly one outcome is decided, the
      completion's, marked cancelled exactly when the completion is ambiguous
      and a Cancel was answered "canceled" up to the deciding step. No Cancel
      is unanswered then, so "begun by then" and "answered by then" are the
      same. */
  lemma {:induction false} SettlesOnce(before: seq<Act>, n: Completion, after: seq<Act>)
    requires AllQuiet(before) && AllQuiet(after)
    requires Possible(FRESH, before + [Complete(n)] + after)
    ensures var s := Run(FRESH, before + [Complete(n)] + after);
      match DecidedBy(before, n, after)
      case None => Holding(s, n) && s.cancels > 0
      case Some(decided) =>
        Decided(s, if n.success then SignedIn else Failed(Message(n), Ambiguous(n) && SaidCanceled(decided)))
  {
    var mid := before + [Complete(n)];
    RunConcat(FRESH, mid, after);
    RunConcat(FRESH, before, [Complete(n)]);
    WaitingStays(FRESH, before);
    CountsInFlight(FRESH, before);
    var s0 := Run(FRESH, before);
    assert [Complete(n)][1..] == [];
    assert Run(s0, [Complete(n)]) == Do(s0, Complete(n));
    assert Holding(Do(s0, Complete(n)), n) || Decided(Do(s0, Complete(n)), OutcomeOf(n, s0.canceled));
    var s1 := Run(FRESH, mid);
    SaidConcat(before, [], n);
    if Holding(s1, n) {
      HeldDecides(s1, after, n);
      match UntilAnswered(s1.cancels, after)
      case Some(head) => SaidConcat(before, head, n);
      case None =>
    } else {
      DecidedStays(s1, after, OutcomeOf(n, s1.canceled));
      assert mid + [] == mid;
    }
  }

  /** The flag speaks of the Cancels answered by the deciding step. Read as
      "answered before it settled", it is the same exactly when the completion
      is not ambiguous, or a Cancel had been answered "canceled" by then, or
      none is between deciding and settling. */
  lemma ReadingsAgreeIff(before: seq<Act>, n: Completion, after: seq<Act>, i: nat)
    requires AllQuiet(before) && AllQuiet(after) && !n.success
    requires Possible(FRESH, before + [Complete(n)] + after)
    requires var s := Run(FRESH, before + [Complete(n)] + after); s.err.None? && i < |s.owed|
    ensures var all := before + [Complete(n)] + after;
      && DecidedBy(before, n, after).Some? && DecidedBy(before, n, after).value <= all
      && var decided := DecidedBy(before, n, after).value;
         (Do(Run(FRESH, all), Settle(i)).err == Some(Failed(Message(n), Ambiguous(n) && SaidCanceled(all))) <==>
            !Ambiguous(n) || SaidCanceled(decided) || !SaidCanceled(all[|decided|..]))
  {
    SettlesOnce(before, n, after);
    var all, decided := before + [Complete(n)] + after, DecidedBy(before, n, after).value;
    assert all == decided + all[|decided|..];
  }

  lemma FirstAnswerDecides(n: Completion, rest: seq<Act>)
    requires Ambiguous(n)
    ensures DecidedBy([Begin], n, [Answer(false)] + rest) == Some([Begin, Complete(n), Answer(false)])
  {
    var after := [Answer(false)] + rest;
    assert [Begin][1..] == [];
    assert InFlight(1, []) == 1 && InFlight(0, [Begin]) == 1;
    var none: seq<Act> := [];
    assert UntilAnswered(0, after[1..]) == Some(none);
    assert InFlightAfter(1, after[0]) == 0;
    assert UntilAnswered(1, after) == Some([after[0]] + none);
    assert [after[0]] + none == [Answer(false)];
    assert [Begin] + [Complete(n)] + [Answer(false)] == [Begin, Complete(n), Answer(false)];
  }

  /** They differ when a Cancel begins after the outcome is decided: codex
      declines the first, the outcome is decided as a plain failure, a second
      one is answered "canceled", and then the failure settles. */
  lemma {:induction false} LateCancelExample()
    ensures var n := Completion(false, Some(NOT_COMPLETED));
      var after := [Answer(false)] + [Begin, Answer(true)];
      var acts := [Begin, Complete(n), Answer(false), Begin, Answer(true), Settle(0)];
      && [Begin] + [Complete(n)] + after + [Settle(0)] == acts
      && DecidedBy([Begin], n, after) == Some([Begin, Complete(n), Answer(false)])
      && Possible(FRESH, acts) && Answer(true) in acts
      && Run(FRESH, acts).err == Some(Failed(NOT_COMPLETED, false))
  {
    var n := Completion(false, Some(NOT_COMPLETED));
    var acts := [Begin, Complete(n), Answer(false), Begin, Answer(true), Settle(0)];
    FirstAnswerDecides(n, [Begin, Answer(true)]);
    var s1 := Do(FRESH, Begin);
    var s2 := Do(s1, Complete(n));
    var s3 := Do(s2, Answer(false));
    var s4 := Do(s3, Begin);
    var s5 := Do(s4, Answer(true));
    var s6 := Do(s5, Settle(0));
    RunsTo(s5, [Settle(0)], s6);
    RunsTo(s4, [Answer(true), Settle(0)], s6);
    RunsTo(s3, [Begin, Answer(true), Settle(0)], s6);
    RunsTo(s2, [Answer(false), Begin, Answer(true), Settle(0)], s6);
    RunsTo(s1, [Complete(n), Answer(false), Begin, Answer(true), Settle(0)], s6);
    RunsTo(FRESH, acts, s6);
  }

  /** A run by its first step. */
  lemma RunsTo(s: State, acts: seq<Act>, end: State)
    requires acts != [] && Enabled(s, acts[0])
    requires Possible(Do(s, acts[0]), acts[1..]) && Run(Do(s, acts[0]), acts[1..]) == end
    ensures Possible(s, acts) && Run(s, acts) == end
  {
  }

  lemma {:induction false} RunConcat(s: State, a: seq<Act>, b: seq<Act>)
    requires Possible(s, a + b)
    ensures Possible(s, a) && Possible(Run(s, a), b) && Run(s, a + b) == Run(Run(s, a), b)
    decreases |a|
  {
    if a == [] {
      assert a + b == b;
    } else {
      assert (a + b)[1..] == a[1..] + b;
      RunConcat(Do(s, a[0]), a[1..], b);
    }
  }

  lemma {:induction false} CountsInFlight(s: State, acts: seq<Act>)
    requires Possible(s, acts) && AllQuiet(acts)
    ensures Run(s, acts).cancels == InFlight(s.cancels, acts)
    decreases |acts|
  {
    if acts != [] {
      assert acts == [acts[0]] + acts[1..];
      CountsInFlight(Do(s, acts[0]), acts[1..]);
    }
  }

  lemma {:induction false} InFlightConcat(c: int, a: seq<Act>, b: seq<Act>)
    ensures InFlight(c, a + b) == InFlight(InFlight(c, a), b)
    decreases |a|
  {
    if a == [] {
      assert a + b == b;
    } else {
      assert (a + b)[1..] == a[1..] + b;
      InFlightConcat(InFlightAfter(c, a[0]), a[1..], b);
    }
  }

  // ---- the order of the answers and the completion does not matter ----

  ghost predicate AllAnswers(acts: seq<Act>) {
    forall i :: 0 <= i < |acts| ==> acts[i].Answer?
  }

  /** Every Cancel is answered, and o is owed by somebody. */
  predicate Over(s: State, canceled: bool, o: Outcome) {
    && s.cancels == 0 && s.canceled == canceled && s.held.None? && s.err.None?
    && |s.owed| == 1 && s.owed[0].outcome == o && !s.owed[0].owner.Watcher?
  }

  lemma {:induction false} AnswersPlain(s: State, acts: seq<Act>)
    requires s.held.None? && Possible(s, acts) && AllAnswers(acts)
    ensures |acts| <= s.cancels && InFlight(s.cancels, acts) == s.cancels - |acts|
    ensures Run(s, acts) == s.(cancels := s.cancels - |acts|, canceled := s.canceled || SaidCanceled(acts))
    decreases |acts|
  {
    if acts != [] {
      assert acts == [acts[0]] + acts[1..];
      AnswersPlain(Do(s, acts[0]), acts[1..]);
    }
  }

  lemma {:induction false} AnswersHeld(s: State, acts: seq<Act>, n: Completion)
    requires Holding(s, n) && Possible(s, acts) && AllAnswers(acts) && InFlight(s.cancels, acts) == 0
    ensures var c := s.canceled || SaidCanceled(acts);
      Over(Run(s, acts), c, OutcomeOf(n, c))
    decreases |acts|
  {
    assert acts == [acts[0]] + acts[1..];
    var s1 := Do(s, acts[0]);
    if Holding(s1, n) {
      AnswersHeld(s1, acts[1..], n);
    } else {
      AnswersPlain(s1, acts[1..]);
    }
  }

  predicate AnswerOrCompletion(a: Act, n: Completion) { a.Answer? || a == Complete(n) }

  lemma {:induction false} AllAnswered(s: State, acts: seq<Act>, n: Completion)
    requires Waiting(s) && Possible(s, acts) && multiset(acts)[Complete(n)] == 1
    requires forall i :: 0 <= i < |acts| ==> AnswerOrCompletion(acts[i], n)
    requires InFlight(s.cancels, acts) == 0
    ensures var c := s.canceled || SaidCanceled(acts);
      Over(Run(s, acts), c, OutcomeOf(n, c))
    decreases |acts|
  {
    assert acts == [acts[0]] + acts[1..];
    assert multiset(acts) == multiset{acts[0]} + multiset(acts[1..]);
    if acts[0].Answer? {
      AllAnswered(Do(s, acts[0]), acts[1..], n);
    } else {
      forall i | 0 <= i < |acts[1..]| ensures acts[1..][i].Answer? {
        assert acts[1..][i] in multiset(acts[1..]);
      }
      var s1 := Do(s, Complete(n));
      if Holding(s1, n) {
        AnswersHeld(s1, acts[1..], n);
      } else {
        AnswersPlain(s1, acts[1..]);
      }
    }
  }

  /** Among Cancels already begun, the order in which their answers and the
      completion arrive never changes the outcome: any two orders of the same
      steps, with every Cancel answered, lead to the same state, but for who
      has to settle it. */
  lemma {:induction false} ReorderingIsHarmless(s: State, one: seq<Act>, other: seq<Act>, n: Completion)
    requires Waiting(s) && Possible(s, one) && Possible(s, other)
    requires multiset(one) == multiset(other) && multiset(one)[Complete(n)] == 1
    requires forall a :: a in one ==> AnswerOrCompletion(a, n)
    requires InFlight(s.cancels, one) == 0 && InFlight(s.cancels, other) == 0
    ensures var a, b := Run(s, one), Run(s, other);
      a == b.(owed := a.owed) && |a.owed| == |b.owed| == 1 && a.owed[0].outcome == b.owed[0].outcome
    ensures Decided(Run(s, one), OutcomeOf(n, s.canceled || SaidCanceled(one)))
  {
    assert forall a :: a in other ==> a in multiset(other);
    assert forall a :: a in multiset(one) ==> a in one;
    assert forall a :: a in one <==> a in multiset(one);
    AllAnswered(s, one, n);
    AllAnswered(s, other, n);
  }

  // ---- the process exits ----

  lemma {:induction false} OutcomeKept(s: State, acts: seq<Act>, o: Outcome)
    requires s.held.None? && (s.err == Some(o) || (s.err.None? && |s.owed| == 1 && s.owed[0].outcome == o))
    requires o != CutOff && Possible(s, acts) && AllQuiet(acts)
    ensures Run(s, acts).err != Some(CutOff)
    decreases |acts|
  {
    if acts != [] {
      assert acts == [acts[0]] + acts[1..];
      OutcomeKept(Do(s, acts[0]), acts[1..], o);
    }
  }

  /** From here, with the exit noticed, the attempt can end cut off. */
  ghost predicate CanEndCutOff(s: State)
    requires Enabled(s, Abandon)
  {
    exists after :: Possible(Do(s, Abandon), after) && AllQuiet(after) && Run(Do(s, Abandon), after).err == Some(CutOff)
  }

  lemma CutOffIffCancelOwes(s: State, n: Completion, c: bool)
    requires Enabled(s, Abandon) && (Holding(s, n) || Decided(s, OutcomeOf(n, c)))
    ensures CanEndCutOff(s) <==> s.err.None? && Owes(s, Canceler)
  {
    var s1 := Do(s, Abandon);
    if s.held.None? && s.err.None? {
      assert s.owed[0].owner == Canceler;
      var acts := [Settle(1)];
      assert acts[1..] == [];
      assert Run(Do(s1, acts[0]), acts[1..]) == Do(s1, acts[0]);
      assert Possible(s1, acts) && AllQuiet(acts) && Run(s1, acts).err == Some(CutOff);
    } else {
      var o := if s.held.Some? then OutcomeOf(n, s.canceled) else s.err.value;
      forall acts | Possible(s1, acts) && AllQuiet(acts) ensures Run(s1, acts).err != Some(CutOff) {
        OutcomeKept(s1, acts, o);
      }
    }
  }

  /** In every run in which the completion n was delivered before the exit was
      noticed, the attempt can still end with the exit error exactly when, at
      that moment, nothing is settled and a Cancel owes the outcome: it has
      taken the held completion and not finished yet. */
  lemma ExitHidesCompletion(before: seq<Act>, n: Completion, mid: seq<Act>)
    requires AllQuiet(before) && AllQuiet(mid) && Possible(FRESH, before + [Complete(n)] + mid)
    requires Enabled(Run(FRESH, before + [Complete(n)] + mid), Abandon)
    ensures var s := Run(FRESH, before + [Complete(n)] + mid);
      CanEndCutOff(s) <==> s.err.None? && Owes(s, Canceler)
  {
    var s := Run(FRESH, before + [Complete(n)] + mid);
    SettlesOnce(before, n, mid);
    var decided := DecidedBy(before, n, mid);
    CutOffIffCancelOwes(s, n, decided.Some? && Ambiguous(n) && SaidCanceled(decided.value));
  }

  /** An attempt that no Cancel was ever begun for is never cut off once its
      completion was delivered. */
  lemma NoCancelNoCutOff(before: seq<Act>, n: Completion, mid: seq<Act>)
    requires AllQuiet(before) && AllQuiet(mid) && Possible(FRESH, before + [Complete(n)] + mid)
    requires Enabled(Run(FRESH, before + [Complete(n)] + mid), Abandon)
    requires Begin !in before && Begin !in mid
    ensures !CanEndCutOff(Run(FRESH, before + [Complete(n)] + mid))
  {
    RunConcat(FRESH, before + [Complete(n)], mid);
    RunConcat(FRESH, before, [Complete(n)]);
    NoCancelOwes(FRESH, before);
    var s0 := Run(FRESH, before);
    assert [Complete(n)][1..] == [];
    assert Run(s0, [Complete(n)]) == Do(s0, Complete(n));
    NoCancelOwes(Do(s0, Complete(n)), mid);
    ExitHidesCompletion(before, n, mid);
  }

  lemma {:induction false} NoCancelOwes(s: State, acts: seq<Act>)
    requires s.cancels == 0 && !Owes(s, Canceler) && Possible(s, acts) && AllQuiet(acts) && Begin !in acts
    ensures Run(s, acts).cancels == 0 && !Owes(Run(s, acts), Canceler)
    decreases |acts|
  {
    if acts != [] {
      assert acts == [acts[0]] + acts[1..];
      NoCancelOwes(Do(s, acts[0]), acts[1..]);
    }
  }

  /** Such a moment is reached: a Cancel begins, the completion is held, codex
      answers "canceled", and the exit is noticed before the Cancel settles. */
  lemma ExitRaceExample()
    ensures var n := Completion(false, Some(NOT_COMPLETED));
      var acts := [Begin, Complete(n), Answer(true)];
      && Possible(FRESH, acts) && Enabled(Run(FRESH, acts), Abandon) && CanEndCutOff(Run(FRESH, acts))
  {
    var n := Completion(false, Some(NOT_COMPLETED));
    var acts := [Begin, Complete(n), Answer(true)];
    var s1 := Do(FRESH, Begin);
    var s2 := Do(s1, Complete(n));
    var s3 := Do(s2, Answer(true));
    assert acts[1..] == [Complete(n), Answer(true)] && acts[1..][1..] == [Answer(true)];
    assert acts[1..][1..][1..] == [];
    assert Possible(s2, [Answer(true)]) && Run(s2, [Answer(true)]) == s3;
    assert Possible(s1, acts[1..]) && Run(s1, acts[1..]) == s3;
    assert s3.owed[0].owner == Canceler;
    CutOffIffCancelOwes(s3, n, true);
  }

  // ---- codex's words ----

  /** codex's error is the message whenever it says anything. */
  lemma MessageIsCodexs(n: Completion)
    ensures n.error.Some? && n.error.value != Text("") ==> Message(n) == n.error.value
    ensures n.error == None || n.error.value == Text("") ==> Message(n) == Text("sign-in failed")
  {
  }

  /** The one completion that may be a cancelled, a replaced or an unfinished
      attempt is the failure with exactly this message. */
  lemma AmbiguousIff(n: Completion)
    ensures Ambiguous(n) <==> !n.success && n.error == Some(Text("Login was not completed"))
  {
    assert |"sign-in failed"| != |"Login was not completed"|;
  }

  // ---- the object ----

  class Login {
    const id: Id
    var cancels: nat
    var canceled: bool
    var held: Option<Completion>
    var err: Option<Outcome>
    ghost var owed: seq<Debt>

    ghost function View(): State
      reads this
    {
      State(cancels, canceled, held, owed, err)
    }

    constructor (id: Id)
      ensures View() == FRESH && this.id == id
    {
      this.id := id;
      cancels, canceled, held, err, owed := 0, false, None, None, [];
    }

    method BeginCancel()
      modifies this
      ensures View() == Do(old(View()), Begin)
    {
      cancels := cancels + 1;
    }

    /** A Cancel's request has returned; the outcome, if any, is the caller's
        to settle. */
    method EndCancel(answeredCanceled: bool) returns (decided: Option<Outcome>)
      requires cancels > 0
      modifies this
      ensures View() == Do(old(View()), Answer(answeredCanceled))
      ensures decided.Some? <==> old(held).Some? && cancels == 0
      ensures decided.Some? ==> owed == old(owed) + [Debt(Canceler, decided.value)]
    {
      cancels := cancels - 1;
      if answeredCanceled {
        canceled := true;
      }
      var taken: Option<Completion> := None;
      if cancels == 0 {
        taken, held := held, None;
      }
      decided := None;
      if taken.Some? {
        decided := Some(OutcomeOf(taken.value, canceled));
        owed := owed + [Debt(Canceler, decided.value)];
      }
    }

    method Deliver(n: Completion) returns (decided: Option<Outcome>)
      modifies this
      ensures View() == Do(old(View()), Complete(n))
      ensures decided.Some? ==> owed == old(owed) + [Debt(Deliverer, decided.value)]
      ensures decided.None? ==> held == Some(n)
    {
      if cancels > 0 && !n.success && Message(n) == NOT_COMPLETED {
        held := Some(n);
        return None;
      }
      decided := Some(OutcomeOf(n, canceled));
      owed := owed + [Debt(Deliverer, decided.value)];
    }

    method NoteExit() returns (decided: Outcome)
      requires !Owes(View(), Deliverer)
      modifies this
      ensures View() == Do(old(View()), Abandon)
      ensures owed == old(owed) + [Debt(Watcher, decided)]
    {
      decided := if held.Some? then OutcomeOf(held.value, canceled) else CutOff;
      held := None;
      owed := owed + [Debt(Watcher, decided)];
    }

    /** Settles once; later outcomes change nothing. */
    method Finish(o: Outcome, ghost i: nat)
      requires i < |owed| && owed[i].outcome == o
      modifies this
      ensures View() == Do(old(View()), Settle(i))
      ensures old(err).Some? ==> err == old(err)
    {
      owed := owed[..i] + owed[i + 1..];
      if err.None? {
        err := Some(o);
      }
    }
  }
}
