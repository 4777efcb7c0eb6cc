/** The table of server requests a handler is still deciding. Either the
    handler claims a request, to answer it, or codex withdraws it, or a reuse
    of its id displaces it. A step is one critical section, and writing the
    answer is a step of its own. */
module ServerRequests {
  import opened Basics

  datatype Fate = Pending | Claimed | Withdrawn | Displaced

  /** The goroutine that handles the request: deciding, about to write the
      answer it has claimed, or finished. */
  datatype Stage = Deciding | Writing | Finished

  datatype Req = Req(key: Id, thread: Id, turn: Id, fate: Fate, stage: Stage)

  /** reqs are all requests ever tracked; table maps a request id to the one
      that may still be answered under it; answers lists the requests a
      response frame was written for. */
  datatype State = State(table: map<Id, nat>, reqs: seq<Req>, answers: seq<nat>)

  const EMPTY := State(map[], [], [])

  /** What codex takes back: one request, or whatever a finished turn was
      waiting on. */
  datatype Match = ByKey(key: Id) | ByTurn(thread: Id, turn: Id)

  predicate Matches(m: Match, key: Id, thread: Id, turn: Id) {
    match m
    case ByKey(k) => k == key
    case ByTurn(t, u) => t == thread && (turn == NO_ID || turn == u)
  }

  datatype Act =
    | Track(key: Id, thread: Id, turn: Id)
    | Claim(i: nat)      // by the handler, as it returns or panics, also twice
    | WriteAnswer(i: nat)
    | Withdraw(m: Match)

  predicate Enabled(s: State, a: Act) {
    match a
    case Claim(i) => i < |s.reqs|
    case WriteAnswer(i) => i < |s.reqs| && s.reqs[i].stage == Writing
    case _ => true
  }

  /** Marks one request's fate; a request nobody tracks is left alone. */
  function Mark(reqs: seq<Req>, i: nat, fate: Fate): seq<Req> {
    if i < |reqs| then reqs[i := reqs[i].(fate := fate)] else reqs
  }

  function Hit(s: State, m: Match, i: nat): bool
    requires i < |s.reqs|
  {
    var q := s.reqs[i];
    q.key in s.table && s.table[q.key] == i && Matches(m, q.key, q.thread, q.turn)
  }

  function Do(s: State, a: Act): State
    requires Enabled(s, a)
  {
    match a
    case Track(key, thread, turn) =>
      var reqs := if key in s.table then Mark(s.reqs, s.table[key], Displaced) else s.reqs;
      s.(table := s.table[key := |s.reqs|], reqs := reqs + [Req(key, thread, turn, Pending, Deciding)])
    case Claim(i) =>
      var q := s.reqs[i];
      if q.key in s.table && s.table[q.key] == i
        then s.(table := s.table - {q.key}, reqs := s.reqs[i := q.(fate := Claimed, stage := Writing)])
        else if q.stage == Deciding then s.(reqs := s.reqs[i := q.(stage := Finished)])
        else s
    case WriteAnswer(i) =>
      s.(reqs := s.reqs[i := s.reqs[i].(stage := Finished)], answers := s.answers + [i])
    case Withdraw(m) =>
      s.(table := map k | k in s.table && !(s.table[k] < |s.reqs| && Hit(s, m, s.table[k])) :: s.table[k],
         reqs := seq(|s.reqs|, i requires 0 <= i < |s.reqs| =>
                   if Hit(s, m, i) then s.reqs[i].(fate := Withdrawn) else s.reqs[i]))
  }

  ghost predicate Possible(s: State, acts: seq<Act>)
    decreases |acts|
  {
    acts == [] || (Enabled(s, acts[0]) && Possible(Do(s, acts[0]), acts[1..]))
  }

  ghost function Run(s: State, acts: seq<Act>): State
    requires Possible(s, acts)
    decreases |acts|
  {
    if acts == [] then s else Run(Do(s, acts[0]), acts[1..])
  }

  /** A request is pending exactly while the table leads to it. */
  ghost predicate Linked(s: State) {
    && (forall k :: k in s.table ==> s.table[k] < |s.reqs| && s.reqs[s.table[k]].key == k)
    && (forall i :: 0 <= i < |s.reqs| ==>
          (s.reqs[i].fate == Pending <==> s.reqs[i].key in s.table && s.table[s.reqs[i].key] == i))
  }

  /** What request i's answers must be, given how far it is. */
  ghost predicate Accounted(s: State, i: nat)
    requires i < |s.reqs|
  {
    var q := s.reqs[i];
    && (q.fate == Pending ==> q.stage == Deciding)
    && (q.stage == Writing ==> q.fate == Claimed)
    && (q.fate == Claimed ==> q.stage != Deciding)
    && multiset(s.answers)[i] == if q.fate == Claimed && q.stage == Finished then 1 else 0
  }

  ghost predicate Inv(s: State) {
    && Linked(s)
    && (forall i :: 0 <= i < |s.reqs| ==> Accounted(s, i))
    && (forall i :: i in s.answers ==> i < |s.reqs|)
  }

  lemma TrackKeepsInv(s: State, key: Id, thread: Id, turn: Id)
    requires Inv(s)
    ensures Inv(Do(s, Track(key, thread, turn)))
  {
    var s' := Do(s, Track(key, thread, turn));
    assert |s.reqs| !in s.answers;
    forall i | 0 <= i < |s'.reqs| ensures Accounted(s', i) {
      if i < |s.reqs| {
        assert Accounted(s, i);
      }
    }
  }

  lemma HandlerKeepsInv(s: State, i: nat)
    requires Inv(s) && Enabled(s, Claim(i))
    ensures Inv(Do(s, Claim(i)))
  {
    var s' := Do(s, Claim(i));
    forall j | 0 <= j < |s'.reqs| ensures Accounted(s', j) {
      assert Accounted(s, j);
    }
  }

  lemma WriteKeepsInv(s: State, i: nat)
    requires Inv(s) && Enabled(s, WriteAnswer(i))
    ensures Inv(Do(s, WriteAnswer(i)))
  {
    var s' := Do(s, WriteAnswer(i));
    forall j | 0 <= j < |s'.reqs| ensures Accounted(s', j) {
      assert Accounted(s, j);
    }
  }

  lemma WithdrawKeepsInv(s: State, m: Match)
    requires Inv(s)
    ensures Inv(Do(s, Withdraw(m)))
  {
    var s' := Do(s, Withdraw(m));
    forall j | 0 <= j < |s'.reqs| ensures Accounted(s', j) {
      assert Accounted(s, j);
    }
  }

  lemma StepKeepsInv(s: State, a: Act)
    requires Inv(s) && Enabled(s, a)
    ensures Inv(Do(s, a))
  {
    match a
    case Track(key, thread, turn) => TrackKeepsInv(s, key, thread, turn);
    case Claim(i) => HandlerKeepsInv(s, i);
    case WriteAnswer(i) => WriteKeepsInv(s, i);
    case Withdraw(m) => WithdrawKeepsInv(s, m);
  }

  /** A request's fate is settled once: what is not pending never changes, and
      a request stays the one it was. */
  lemma StepSettlesOnce(s: State, a: Act, i: nat)
    requires Inv(s) && Enabled(s, a) && i < |s.reqs|
    ensures var s' := Do(s, a);
      && i < |s'.reqs|
      && s'.reqs[i].key == s.reqs[i].key && s'.reqs[i].thread == s.reqs[i].thread && s'.reqs[i].turn == s.reqs[i].turn
      && (s.reqs[i].fate != Pending ==> s'.reqs[i].fate == s.reqs[i].fate)
      && multiset(s.answers)[i] <= multiset(s'.answers)[i]
  {
  }

  /** In every run at most one response frame is written for a request, and
      only for one its handler claimed: never once codex withdrew it or its id
      was reused. */
  lemma {:induction false} AnsweredAtMostOnce(s: State, acts: seq<Act>, i: nat)
    requires Inv(s) && Possible(s, acts) && i < |s.reqs|
    ensures var s' := Run(s, acts);
      && Inv(s') && i < |s'.reqs|
      && multiset(s'.answers)[i] <= 1
      && (multiset(s'.answers)[i] == 1 ==> s'.reqs[i].fate == Claimed)
      && (s.reqs[i].fate != Pending ==> s'.reqs[i].fate == s.reqs[i].fate)
      && (s.reqs[i].fate == Withdrawn || s.reqs[i].fate == Displaced ==> i !in s'.answers)
    decreases |acts|
  {
    if acts != [] {
      StepKeepsInv(s, acts[0]);
      StepSettlesOnce(s, acts[0], i);
      AnsweredAtMostOnce(Do(s, acts[0]), acts[1..], i);
    } else {
      assert Accounted(s, i);
    }
  }

  /** When the handler of a still pending request returns or panics, exactly
      one response is written for it: whatever else happens, its own next step
      stays possible until it has written, and no other step writes for it. */
  lemma {:induction false} PendingIsAnswered(s: State, acts: seq<Act>, i: nat)
    requires Inv(s) && i < |s.reqs| && s.reqs[i].fate == Pending && s.reqs[i].stage == Deciding
    requires Possible(Do(s, Claim(i)), acts)
    ensures var s' := Run(Do(s, Claim(i)), acts);
      && i < |s'.reqs| && s'.reqs[i].fate == Claimed
      && (WriteAnswer(i) in acts ==> multiset(s'.answers)[i] == 1)
      && (WriteAnswer(i) !in acts ==> multiset(s'.answers)[i] == 0 && Enabled(s', WriteAnswer(i)))
  {
    assert Accounted(s, i);
    StepKeepsInv(s, Claim(i));
    ClaimedIsAnswered(Do(s, Claim(i)), acts, i);
  }

  lemma {:induction false} ClaimedIsAnswered(s: State, acts: seq<Act>, i: nat)
    requires Inv(s) && i < |s.reqs| && s.reqs[i].fate == Claimed
    requires Possible(s, acts)
    ensures var s' := Run(s, acts);
      && i < |s'.reqs| && s'.reqs[i].fate == Claimed
      && (s.reqs[i].stage == Finished || WriteAnswer(i) in acts ==> multiset(s'.answers)[i] == 1)
      && (s.reqs[i].stage == Writing && WriteAnswer(i) !in acts ==>
            multiset(s'.answers)[i] == 0 && Enabled(s', WriteAnswer(i)))
    decreases |acts|
  {
    assert Accounted(s, i);
    if acts != [] {
      assert acts == [acts[0]] + acts[1..];
      var s1 := Do(s, acts[0]);
      StepKeepsInv(s, acts[0]);
      StepSettlesOnce(s, acts[0], i);
      assert Accounted(s1, i);
      ClaimedIsAnswered(s1, acts[1..], i);
    }
  }

  /** After a turn completes, nothing scoped to it, or to its thread with no
      known turn, is still pending; every other request stays as it was, and
      pending under its own key if it was. */
  lemma TurnOverLeavesNothing(s: State, thread: Id, turn: Id, i: nat)
    requires Inv(s) && i < |s.reqs|
    ensures var s', q := Do(s, Withdraw(ByTurn(thread, turn))), s.reqs[i];
      var hit := q.fate == Pending && q.thread == thread && (q.turn == NO_ID || q.turn == turn);
      && |s'.reqs| == |s.reqs| && s'.answers == s.answers
      && (hit ==> s'.reqs[i] == q.(fate := Withdrawn) && q.key !in s'.table)
      && (!hit ==> s'.reqs[i] == q)
      && (!hit && q.fate == Pending ==> q.key in s'.table && s'.table[q.key] == i)
  {
  }

  /** After codex takes one request back, that request, if it was pending, is
      withdrawn and can no longer be reached; every other stays as it was, and
      pending under its own key if it was. */
  lemma ResolvedTakesOne(s: State, key: Id, i: nat)
    requires Inv(s) && i < |s.reqs|
    ensures var s' := Do(s, Withdraw(ByKey(key)));
      && |s'.reqs| == |s.reqs| && s'.answers == s.answers && s'.table == s.table - {key}
      && (s.reqs[i].fate == Pending && s.reqs[i].key == key ==> s'.reqs[i] == s.reqs[i].(fate := Withdrawn))
      && (s.reqs[i].fate != Pending || s.reqs[i].key != key ==> s'.reqs[i] == s.reqs[i])
      && (s.reqs[i].fate == Pending && s.reqs[i].key != key ==>
            s.reqs[i].key in s'.table && s'.table[s.reqs[i].key] == i)
  {
  }

  /** A handler that ends has decided: it will write exactly when its request
      was still pending, and is otherwise finished. */
  lemma EndedHandlerHasDecided(s: State, i: nat)
    requires Inv(s) && Enabled(s, Claim(i))
    ensures var s' := Do(s, Claim(i));
      && s'.answers == s.answers && s'.reqs[i].stage != Deciding
      && (s.reqs[i].fate == Pending <==> s'.reqs[i] != s.reqs[i] && s'.reqs[i].stage == Writing)
      && (s.reqs[i].fate != Pending && s.reqs[i].stage == Deciding ==> s'.reqs[i].stage == Finished)
      && forall j :: 0 <= j < |s.reqs| && j != i ==> s'.reqs[j] == s.reqs[j]
  {
    assert Accounted(s, i);
  }

  /** A new request takes its id over: one still pending under it is displaced,
      and no other request changes. */
  lemma NewRequestDisplaces(s: State, key: Id, thread: Id, turn: Id, i: nat)
    requires Inv(s) && i < |s.reqs|
    ensures var s', n := Do(s, Track(key, thread, turn)), |s.reqs|;
      && |s'.reqs| == n + 1 && s'.answers == s.answers
      && s'.reqs[n] == Req(key, thread, turn, Pending, Deciding)
      && key in s'.table && s'.table[key] == n && s'.table - {key} == s.table - {key}
      && s'.reqs[i] == if s.reqs[i].fate == Pending && s.reqs[i].key == key
                       then s.reqs[i].(fate := Displaced) else s.reqs[i]
  {
  }

  // ---- the object ----

  class RequestState {
    const thread: Id
    const turn: Id
    var cancelled: bool
    ghost const index: nat

    constructor (thread: Id, turn: Id, ghost index: nat)
      ensures this.thread == thread && this.turn == turn && this.index == index && !cancelled
    {
      this.thread, this.turn, this.index, cancelled := thread, turn, index, false;
    }
  }

  ghost function Indices(table: map<Id, RequestState>): map<Id, nat> {
    map k | k in table :: table[k].index
  }

  /** Each table entry carries its request's scope. */
  ghost predicate Scoped(table: map<Id, RequestState>, reqs: seq<Req>) {
    forall k :: k in table ==>
      && table[k].index < |reqs|
      && table[k].thread == reqs[table[k].index].thread && table[k].turn == reqs[table[k].index].turn
  }

  lemma ScopedStep(table: map<Id, RequestState>, s: State, a: Act)
    requires Inv(s) && Enabled(s, a) && Scoped(table, s.reqs)
    ensures Scoped(table, Do(s, a).reqs)
  {
    forall k | k in table ensures Do(s, a).reqs[table[k].index].thread == table[k].thread {
      StepSettlesOnce(s, a, table[k].index);
    }
    forall k | k in table ensures Do(s, a).reqs[table[k].index].turn == table[k].turn {
      StepSettlesOnce(s, a, table[k].index);
    }
  }

  /** What is left of a table once m has been withdrawn. */
  function Remaining(table: map<Id, RequestState>, m: Match): map<Id, RequestState> {
    map k | k in table && !Matches(m, k, table[k].thread, table[k].turn) :: table[k]
  }

  lemma WithdrawnTable(table: map<Id, RequestState>, s: State, m: Match)
    requires Inv(s) && Scoped(table, s.reqs) && s.table == Indices(table)
    ensures Do(s, Withdraw(m)).table == Indices(Remaining(table, m))
  {
    forall k | k in table ensures Hit(s, m, table[k].index) <==> Matches(m, k, table[k].thread, table[k].turn) {
      assert k in s.table && s.table[k] == table[k].index;
    }
  }

  lemma TrackedTable(table: map<Id, RequestState>, s: State, key: Id, st: RequestState)
    requires Inv(s) && Scoped(table, s.reqs) && s.table == Indices(table) && st.index == |s.reqs|
    ensures var t := Do(s, Track(key, st.thread, st.turn));
      t.table == Indices(table[key := st]) && Scoped(table[key := st], t.reqs)
  {
    ScopedStep(table, s, Track(key, st.thread, st.turn));
    assert Indices(table[key := st]) == s.table[key := |s.reqs|];
  }

  lemma ClaimedTable(table: map<Id, RequestState>, s: State, i: nat)
    requires Inv(s) && Enabled(s, Claim(i)) && Scoped(table, s.reqs) && s.table == Indices(table)
    ensures var t, key := Do(s, Claim(i)), s.reqs[i].key;
      && (s.reqs[i].fate == Pending <==> key in table && table[key].index == i)
      && t.table == Indices(if s.reqs[i].fate == Pending then table - {key} else table)
      && Scoped(if s.reqs[i].fate == Pending then table - {key} else table, t.reqs)
  {
    var key := s.reqs[i].key;
    ScopedStep(table, s, Claim(i));
    assert Indices(table - {key}) == s.table - {key};
  }

  class RequestTable {
    var table: map<Id, RequestState>
    ghost var reqs: seq<Req>
    ghost var answers: seq<nat>

    ghost function View(): State
      reads this
    {
      State(Indices(table), reqs, answers)
    }

    ghost predicate Valid()
      reads this
    {
      Inv(View()) && Scoped(table, reqs)
    }

    constructor ()
      ensures Valid() && View() == EMPTY
    {
      table, reqs, answers := map[], [], [];
    }

    method TrackRequest(key: Id, thread: Id, turn: Id) returns (st: RequestState)
      requires Valid()
      modifies this
      ensures Valid() && View() == Do(old(View()), Track(key, thread, turn))
      ensures fresh(st) && st.index == |old(reqs)| && !st.cancelled
    {
      ghost var s := View();
      TrackKeepsInv(s, key, thread, turn);
      st := new RequestState(thread, turn, |reqs|);
      TrackedTable(table, s, key, st);
      table := table[key := st];
      reqs := Do(s, Track(key, thread, turn)).reqs;
    }

    /** Whether the handler may still answer: true at most once, and never
        after codex withdrew the request. */
    method ClaimRequest(key: Id, st: RequestState) returns (ok: bool)
      requires Valid() && st.index < |reqs| && reqs[st.index].key == key
      requires key in table && table[key].index == st.index ==> table[key] == st
      modifies this
      ensures Valid() && View() == Do(old(View()), Claim(st.index))
      ensures ok <==> old(reqs)[st.index].fate == Pending
    {
      ghost var s := View();
      HandlerKeepsInv(s, st.index);
      ClaimedTable(table, s, st.index);
      reqs := Do(s, Claim(st.index)).reqs;
      if key in table && table[key] == st {
        table := table - {key};
        return true;
      }
      return false;
    }

    /** Takes back every pending request m accepts and cancels its handler. */
    method WithdrawRequests(m: Match)
      requires Valid()
      modifies this, table.Values
      ensures Valid() && View() == Do(old(View()), Withdraw(m))
      ensures table == Remaining(old(table), m)
      ensures forall k :: k in old(table) && k !in table ==> old(table)[k].cancelled
      ensures forall k :: k in table ==> table[k].cancelled == old(table[k].cancelled)
    {
      LeftAlone(table, View());
      ghost var s := View();
      WithdrawKeepsInv(s, m);
      WithdrawnTable(table, s, m);
      ScopedStep(table, s, Withdraw(m));
      var left, hit := SplitTable(table, m);
      assert forall k :: k in left ==> left[k] !in hit;
      table := left;
      reqs := Do(s, Withdraw(m)).reqs;
      CancelAll(hit);
    }
  }

  /** One pass over the table: the entries to keep, and the requests to
      withdraw. */
  method SplitTable(table: map<Id, RequestState>, m: Match)
    returns (left: map<Id, RequestState>, hit: set<RequestState>)
    ensures left == Remaining(table, m)
    ensures hit == set k | k in table && k !in left :: table[k]
  {
    var todo := table.Keys;
    left, hit := table, {};
    while todo != {}
      invariant todo <= table.Keys
      invariant left == map k | k in table && (k in todo || !Matches(m, k, table[k].thread, table[k].turn)) :: table[k]
      invariant hit == set k | k in table && k !in left :: table[k]
      decreases todo
    {
      var k :| k in todo;
      var st := table[k];
      todo := todo - {k};
      if Matches(m, k, st.thread, st.turn) {
        hit := hit + {st};
        left := left - {k};
      }
    }
  }

  /** No two entries share a request. */
  lemma LeftAlone(table: map<Id, RequestState>, s: State)
    requires Inv(s) && s.table == Indices(table)
    ensures forall k, j :: k in table && j in table && table[k] == table[j] ==> k == j
  {
    forall k, j | k in table && j in table && table[k] == table[j] ensures k == j {
      assert s.reqs[s.table[k]].key == k && s.reqs[s.table[j]].key == j;
    }
  }

  method CancelAll(hit: set<RequestState>)
    modifies hit
    ensures forall st :: st in hit ==> st.cancelled
  {
    var todo := hit;
    while todo != {}
      invariant todo <= hit
      invariant forall st :: st in hit && st !in todo ==> st.cancelled
      decreases todo
    {
      var st :| st in todo;
      st.cancelled := true;
      todo := todo - {st};
    }
  }
}
