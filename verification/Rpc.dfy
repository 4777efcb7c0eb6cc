/** Correlating replies with blocked callers. Callers, the read loop and Close
    run concurrently; a step is one atomic operation on the id counter, the
    pending table, a caller's one-slot channel, or the closed flag. */
module Rpc {
  import opened Basics

  /** A message a caller can be handed: a response frame the read loop has
      read, or the failure it leaves behind. */
  datatype Msg = Response(frame: nat) | Failure

  /** Where a call is: not past the closed check, past it, with an id, with
      its channel stored, blocked in the select, or returned. */
  datatype Call =
    | Entering
    | Checked
    | HasId(id: nat)
    | Stored(id: nat)
    | Blocked(id: nat)
    | Returned(held: Option<nat>, msg: Option<Msg>)

  /** The read loop: reading; between taking a pending entry and sending to
      it; failing what is pending: between two entries, with one visited, with
      that one sent to; or gone. */
  datatype Reader =
    | Reading
    | Sending(id: nat, msg: Msg)
    | Failing
    | Visiting(id: nat)
    | Visited(id: nat)
    | Gone

  /** slots are the callers' channels by id; sent counts, per id, the messages
      ever put into its slot; owner remembers which call drew which id; frames
      lists the id of each response frame read. */
  datatype State = State(
    nextID: nat, owner: map<nat, nat>, pending: set<nat>, slots: map<nat, Msg>, sent: map<nat, nat>,
    calls: map<nat, Call>, reader: Reader, closed: bool, ctxDone: bool, frames: seq<nat>)

  const START := State(0, map[], {}, map[], map[], map[], Reading, false, false, [])

  datatype Act =
    | Enter(c: nat) | Check(c: nat) | Alloc(c: nat) | Store(c: nat) | Write(c: nat, ok: bool)
    | Receive(c: nat) | GiveUp(c: nat) | ConnDone(c: nat)
    | ReadResponse(id: nat) | Send | ReadOther | Fail | Visit(id: nat) | FailSend | FailDelete | Leave
    | CloseConn | CancelConn

  /** The caller taking a step, if it is a caller's. */
  function Owner(a: Act): Option<nat> {
    match a
    case Enter(c) => Some(c)
    case Check(c) => Some(c)
    case Alloc(c) => Some(c)
    case Store(c) => Some(c)
    case Write(c, _) => Some(c)
    case Receive(c) => Some(c)
    case GiveUp(c) => Some(c)
    case ConnDone(c) => Some(c)
    case _ => None
  }

  predicate Enabled(s: State, a: Act) {
    match a
    case Enter(c) => c !in s.calls
    case Check(c) => c in s.calls && s.calls[c].Entering?
    case Alloc(c) => c in s.calls && s.calls[c].Checked?
    case Store(c) => c in s.calls && s.calls[c].HasId?
    case Write(c, _) => c in s.calls && s.calls[c].Stored?
    case Receive(c) => c in s.calls && s.calls[c].Blocked? && s.calls[c].id in s.slots
    case GiveUp(c) => c in s.calls && s.calls[c].Blocked?
    case ConnDone(c) => c in s.calls && s.calls[c].Blocked? && s.ctxDone
    case ReadResponse(_) => s.reader.Reading?
    case ReadOther => s.reader.Reading?
    case Fail => s.reader.Reading?
    case Send => s.reader.Sending?
    case Visit(id) => s.reader.Failing? && id in s.pending
    case FailSend => s.reader.Visiting?
    case FailDelete => s.reader.Visited?
    case Leave => s.reader.Failing?
    case CloseConn => true
    case CancelConn => s.closed
  }

  function Sent(s: State, id: nat): nat {
    if id in s.sent then s.sent[id] else 0
  }

  /** A non-blocking send into a one-slot channel. */
  function Put(s: State, id: nat, m: Msg): State {
    if id in s.slots then s
    else s.(slots := s.slots[id := m], sent := s.sent[id := Sent(s, id) + 1])
  }

  /** A call returning by any way but its channel deletes its entry. */
  function Abandon(s: State, c: nat, id: nat): State {
    s.(pending := s.pending - {id}, calls := s.calls[c := Returned(Some(id), None)])
  }

  /** A step of a caller, and one of the read loop or of Close. */
  function CallerDo(s: State, a: Act): State
    requires Enabled(s, a) && Owner(a).Some?
  {
    match a
    case Enter(c) => s.(calls := s.calls[c := Entering])
    case Check(c) => s.(calls := s.calls[c := if s.closed then Returned(None, None) else Checked])
    case Alloc(c) =>
      var id := s.nextID + 1;
      s.(nextID := id, owner := s.owner[id := c], calls := s.calls[c := HasId(id)])
    case Store(c) =>
      var id := s.calls[c].id;
      s.(pending := s.pending + {id}, calls := s.calls[c := Stored(id)])
    case Write(c, ok) =>
      var id := s.calls[c].id;
      if ok && !s.closed then s.(calls := s.calls[c := Blocked(id)]) else Abandon(s, c, id)
    case Receive(c) =>
      var id := s.calls[c].id;
      s.(slots := s.slots - {id}, calls := s.calls[c := Returned(Some(id), Some(s.slots[id]))])
    case GiveUp(c) => Abandon(s, c, s.calls[c].id)
    case ConnDone(c) => Abandon(s, c, s.calls[c].id)
  }

  function ReaderDo(s: State, a: Act): State
    requires Enabled(s, a) && Owner(a).None?
  {
    match a
    case ReadResponse(id) =>
      var s1 := s.(frames := s.frames + [id]);
      if id in s.pending
      then s1.(pending := s.pending - {id}, reader := Sending(id, Response(|s.frames|)))
      else s1
    case ReadOther => s
    case Send => Put(s, s.reader.id, s.reader.msg).(reader := Reading)
    case Fail => s.(reader := Failing)
    case Visit(id) => s.(reader := Visiting(id))
    case FailSend => Put(s, s.reader.id, Failure).(reader := Visited(s.reader.id))
    case FailDelete => s.(pending := s.pending - {s.reader.id}, reader := Failing)
    case Leave => s.(reader := Gone, ctxDone := true)
    case CloseConn => s.(closed := true)
    case CancelConn => s.(ctxDone := true)
  }

  function Do(s: State, a: Act): State
    requires Enabled(s, a)
  {
    if Owner(a).Some? then CallerDo(s, a) else ReaderDo(s, a)
  }

  ghost predicate Possible(s: State, acts: seq<Act>)
    decreases |acts|
  {
    acts == [] || (Enabled(s, acts[0]) && Possible(Do(s, acts[0]), acts[1..]))
  }

  ghost function Run(s: State, acts: seq<Act>): State
    requires Possible(s, acts)
    decreases |acts|
  {
    if acts == [] then s else Run(Do(s, acts[0]), acts[1..])
  }

  // ---- the invariant ----

  /** The id a call holds, if it has drawn one. */
  function IdOf(c: Call): Option<nat> {
    match c
    case HasId(id) => Some(id)
    case Stored(id) => Some(id)
    case Blocked(id) => Some(id)
    case Returned(id, _) => id
    case _ => None
  }

  /** The id the read loop has in hand. */
  function InHand(r: Reader): Option<nat> {
    match r
    case Sending(id, _) => Some(id)
    case Visiting(id) => Some(id)
    case Visited(id) => Some(id)
    case _ => None
  }

  /** m is the failure or a frame that was read and carries this id. */
  predicate Answers(frames: seq<nat>, m: Msg, id: nat) {
    m == Failure || (m.Response? && m.frame < |frames| && frames[m.frame] == id)
  }

  /** A call owns its id; before it stores its channel nothing can have been
      sent to it, what it returned answers its id, and once it has returned
      its entry is gone, unless the failing read loop is just visiting it. */
  predicate CallOk(s: State, c: nat)
    requires c in s.calls
  {
    var k := s.calls[c];
    && (IdOf(k).Some? ==> IdOf(k).value in s.owner && s.owner[IdOf(k).value] == c)
    && (k.HasId? ==> k.id !in s.sent && k.id !in s.pending && InHand(s.reader) != Some(k.id))
    && (k.Returned? && k.msg.Some? ==> k.held.Some? && Answers(s.frames, k.msg.value, k.held.value))
    && (k.Returned? && k.held.Some? && k.held.value in s.pending ==>
          InHand(s.reader) == k.held && !s.reader.Sending?)
  }

  /** Only drawn ids are used, each is sent to at most once and by its own
      answer, and a pending one not in the read loop's hand not at all yet. */
  predicate IdOk(s: State, id: nat) {
    && (id in s.owner <==> 1 <= id <= s.nextID)
    && (id in s.pending || id in s.sent ==> id in s.owner)
    && (id in s.sent ==> s.sent[id] == 1)
    && (id in s.slots ==> id in s.sent && Answers(s.frames, s.slots[id], id))
    && (id in s.pending && InHand(s.reader) != Some(id) ==> id !in s.sent)
  }

  predicate ReaderOk(s: State) {
    && (InHand(s.reader).Some? ==> InHand(s.reader).value in s.owner)
    && (s.reader.Sending? ==>
          s.reader.id !in s.sent && s.reader.id !in s.pending && Answers(s.frames, s.reader.msg, s.reader.id))
    && (s.reader.Visiting? ==> s.reader.id !in s.sent)
    && (s.reader.Gone? ==> s.ctxDone)
  }

  /** Something is still to come for an id: its message lies in its channel, or
      the read loop is about to send it, or its entry is there to be found. */
  predicate Expecting(s: State, id: nat) {
    id in s.slots || (s.reader.Sending? && s.reader.id == id) || (id in s.pending && s.reader != Visited(id))
  }

  /** A call that waits, or is about to, is not forgotten. */
  predicate Remembered(s: State, c: nat)
    requires c in s.calls
  {
    s.calls[c].Stored? || s.calls[c].Blocked? ==> Expecting(s, s.calls[c].id)
  }

  ghost predicate Inv(s: State) {
    && (forall c :: c in s.calls ==> CallOk(s, c) && Remembered(s, c))
    && (forall id :: IdOk(s, id))
    && ReaderOk(s)
  }

  /** The id a step touches, 0 (never drawn) when it touches none. */
  function Touched(s: State, a: Act): nat
    requires Enabled(s, a)
  {
    match a
    case Alloc(_) => s.nextID + 1
    case Store(c) => s.calls[c].id
    case Write(c, _) => s.calls[c].id
    case Receive(c) => s.calls[c].id
    case GiveUp(c) => s.calls[c].id
    case ConnDone(c) => s.calls[c].id
    case ReadResponse(id) => id
    case Visit(id) => id
    case Send => s.reader.id
    case FailSend => s.reader.id
    case FailDelete => s.reader.id
    case _ => 0
  }

  /** The steps up to the write, and those that wait or return. */
  predicate Early(a: Act) {
    a.Enter? || a.Check? || a.Alloc? || a.Store?
  }

  /** A caller's own step leaves its own call in order. */
  lemma OwnEarlyKept(s: State, a: Act, c: nat)
    requires Enabled(s, a) && ReaderOk(s) && Owner(a) == Some(c) && Early(a)
    requires c in s.calls ==> CallOk(s, c)
    requires IdOk(s, Touched(s, a))
    ensures CallOk(Do(s, a), c)
  {
  }

  lemma OwnLateKept(s: State, a: Act, c: nat)
    requires Enabled(s, a) && ReaderOk(s) && Owner(a) == Some(c) && !Early(a)
    requires c in s.calls && CallOk(s, c) && IdOk(s, Touched(s, a))
    ensures CallOk(Do(s, a), c)
  {
  }

  /** Another caller's step leaves a call in order: the ids differ. */
  lemma OtherEarlyKept(s: State, a: Act, c: nat)
    requires Enabled(s, a) && Owner(a).Some? && Owner(a).value != c && Early(a)
    requires c in s.calls && CallOk(s, c)
    requires Owner(a).value in s.calls ==> CallOk(s, Owner(a).value)
    requires IdOk(s, Touched(s, a))
    ensures CallOk(Do(s, a), c)
  {
  }

  lemma OtherLateKept(s: State, a: Act, c: nat)
    requires Enabled(s, a) && Owner(a).Some? && Owner(a).value != c && !Early(a)
    requires c in s.calls && CallOk(s, c) && Owner(a).value in s.calls && CallOk(s, Owner(a).value)
    ensures CallOk(Do(s, a), c)
  {
  }

  /** So does a step of the read loop or of Close. */
  lemma CallKeptByReader(s: State, a: Act, c: nat)
    requires Enabled(s, a) && ReaderOk(s) && Owner(a).None?
    requires c in s.calls && CallOk(s, c)
    ensures CallOk(Do(s, a), c)
  {
  }

  lemma IdKeptByCaller(s: State, a: Act, id: nat)
    requires Enabled(s, a) && Owner(a).Some? && IdOk(s, id)
    requires Owner(a).value in s.calls ==> CallOk(s, Owner(a).value)
    ensures IdOk(Do(s, a), id)
  {
  }

  lemma IdKeptBySend(s: State, a: Act, id: nat)
    requires Enabled(s, a) && (a.Send? || a.FailSend?) && ReaderOk(s) && IdOk(s, id)
    ensures IdOk(Do(s, a), id)
  {
  }

  lemma IdKeptByReader(s: State, a: Act, id: nat)
    requires Enabled(s, a) && Owner(a).None? && !a.Send? && !a.FailSend? && ReaderOk(s) && IdOk(s, id)
    ensures IdOk(Do(s, a), id)
  {
  }

  lemma ReaderKept(s: State, a: Act)
    requires Enabled(s, a) && ReaderOk(s) && IdOk(s, Touched(s, a))
    requires Owner(a).Some? && Owner(a).value in s.calls ==> CallOk(s, Owner(a).value)
    ensures ReaderOk(Do(s, a))
  {
  }

  lemma RememberedBySelf(s: State, a: Act, c: nat)
    requires Enabled(s, a) && Owner(a) == Some(c)
    requires c in s.calls ==> CallOk(s, c) && Remembered(s, c)
    ensures c in Do(s, a).calls && Remembered(Do(s, a), c)
  {
  }

  lemma RememberedByOthers(s: State, a: Act, c: nat)
    requires Enabled(s, a) && Owner(a).Some? && Owner(a) != Some(c) && c in Do(s, a).calls
    requires c in s.calls && CallOk(s, c) && Remembered(s, c)
    requires Owner(a).value in s.calls ==> CallOk(s, Owner(a).value)
    ensures Remembered(Do(s, a), c)
  {
  }

  lemma RememberedByReader(s: State, a: Act, c: nat)
    requires Enabled(s, a) && Owner(a).None? && c in s.calls && Remembered(s, c)
    ensures Remembered(Do(s, a), c)
  {
  }

  lemma StepRemembers(s: State, a: Act)
    requires Inv(s) && Enabled(s, a)
    ensures forall c :: c in Do(s, a).calls ==> Remembered(Do(s, a), c)
  {
    forall c | c in Do(s, a).calls ensures Remembered(Do(s, a), c) {
      if Owner(a) == Some(c) {
        RememberedBySelf(s, a, c);
      } else if Owner(a).Some? {
        RememberedByOthers(s, a, c);
      } else {
        RememberedByReader(s, a, c);
      }
    }
  }

  lemma StepKeepsInv(s: State, a: Act)
    requires Inv(s) && Enabled(s, a)
    ensures Inv(Do(s, a))
  {
    StepRemembers(s, a);
    forall c | c in Do(s, a).calls ensures CallOk(Do(s, a), c) {
      if Owner(a) == Some(c) {
        if Early(a) {
          OwnEarlyKept(s, a, c);
        } else {
          OwnLateKept(s, a, c);
        }
      } else if Owner(a).Some? {
        if Early(a) {
          OtherEarlyKept(s, a, c);
        } else {
          OtherLateKept(s, a, c);
        }
      } else {
        CallKeptByReader(s, a, c);
      }
    }
    forall id ensures IdOk(Do(s, a), id) {
      if Owner(a).Some? {
        IdKeptByCaller(s, a, id);
      } else if a.Send? || a.FailSend? {
        IdKeptBySend(s, a, id);
      } else {
        IdKeptByReader(s, a, id);
      }
    }
    ReaderKept(s, a);
  }

  lemma StartOk()
    ensures Inv(START)
  {
  }

  /** In every reachable state: a response is only ever returned to the caller
      that sent its id, no channel has received more than one message, and no
      two calls share an id. */
  lemma {:induction false} RepliesAreCorrelated(s: State, acts: seq<Act>)
    requires Inv(s) && Possible(s, acts)
    ensures var s' := Run(s, acts);
      && Inv(s')
      && (forall c :: c in s'.calls && s'.calls[c].Returned? && s'.calls[c].msg.Some? ==>
            && s'.calls[c].held.Some?
            && Answers(s'.frames, s'.calls[c].msg.value, s'.calls[c].held.value)
            && forall d :: d in s'.calls && d != c ==> IdOf(s'.calls[d]) != s'.calls[c].held)
      && (forall id :: id in s'.sent ==> s'.sent[id] == 1)
    decreases |acts|
  {
    if acts != [] {
      StepKeepsInv(s, acts[0]);
      RepliesAreCorrelated(Do(s, acts[0]), acts[1..]);
    } else {
      forall id | id in s.sent ensures s.sent[id] == 1 {
        assert IdOk(s, id);
      }
    }
  }

  /** A second, late or unknown response changes nothing but the list of frames read:
      an id is pending at most once, from its store to the first of a response,
      a failed write and a return. */
  lemma LateReplyDropped(s: State, id: nat)
    requires Inv(s) && s.reader.Reading?
    requires id in s.sent || id > s.nextID
          || (exists c :: c in s.calls && s.calls[c].Returned? && s.calls[c].held == Some(id))
    ensures Do(s, ReadResponse(id)) == s.(frames := s.frames + [id])
  {
    assert IdOk(s, id);
  }

  // ---- a response reaches its caller ----

  /** The call has its id in the table and has not returned. */
  predicate Waits(s: State, c: nat, id: nat) {
    c in s.calls && (s.calls[c] == Stored(id) || s.calls[c] == Blocked(id))
  }

  predicate LeftUnanswered(s: State, c: nat) {
    c in s.calls && s.calls[c].Returned? && s.calls[c].msg == None
  }

  /** Frame n is in the waiting call's channel, or the call has returned it, or
      it has given up. */
  predicate Handed(s: State, c: nat, id: nat, n: nat) {
    || LeftUnanswered(s, c)
    || (c in s.calls && s.calls[c] == Returned(Some(id), Some(Response(n))))
    || (Waits(s, c, id) && id in s.slots && s.slots[id] == Response(n))
  }

  lemma HandedKept(s: State, a: Act, c: nat, id: nat, n: nat)
    requires Enabled(s, a) && Handed(s, c, id, n) && CallOk(s, c)
    requires Owner(a).Some? && Owner(a).value in s.calls ==> CallOk(s, Owner(a).value)
    ensures Handed(Do(s, a), c, id, n)
  {
  }

  lemma {:induction false} HandedStays(s: State, acts: seq<Act>, c: nat, id: nat, n: nat)
    requires Inv(s) && Possible(s, acts) && Handed(s, c, id, n)
    ensures Handed(Run(s, acts), c, id, n)
    decreases |acts|
  {
    if acts != [] {
      HandedKept(s, acts[0], c, id, n);
      StepKeepsInv(s, acts[0]);
      HandedStays(Do(s, acts[0]), acts[1..], c, id, n);
    }
  }

  /** While the read loop is about to send frame n to c's channel: its own next
      step puts it there, and no other step touches either. */
  lemma SendHands(s: State, a: Act, c: nat, id: nat, n: nat)
    requires Enabled(s, a) && s.reader == Sending(id, Response(n)) && ReaderOk(s) && IdOk(s, id)
    requires Waits(s, c, id) || LeftUnanswered(s, c)
    ensures a == Send ==> Handed(Do(s, a), c, id, n)
    ensures a != Send ==> Do(s, a).reader == s.reader && (Waits(Do(s, a), c, id) || LeftUnanswered(Do(s, a), c))
  {
  }

  lemma {:induction false} SentIsHanded(s: State, acts: seq<Act>, c: nat, id: nat, n: nat)
    requires Inv(s) && Possible(s, acts) && s.reader == Sending(id, Response(n))
    requires Waits(s, c, id) || LeftUnanswered(s, c)
    ensures var s' := Run(s, acts);
      if Send in acts then Handed(s', c, id, n)
      else s'.reader == Sending(id, Response(n)) && (Waits(s', c, id) || LeftUnanswered(s', c))
    decreases |acts|
  {
    if acts != [] {
      assert acts == [acts[0]] + acts[1..];
      assert IdOk(s, id);
      SendHands(s, acts[0], c, id, n);
      StepKeepsInv(s, acts[0]);
      if acts[0] == Send {
        HandedStays(Do(s, acts[0]), acts[1..], c, id, n);
      } else {
        SentIsHanded(Do(s, acts[0]), acts[1..], c, id, n);
      }
    }
  }

  /** A waiting call returns without a message only by giving up, with the
      connection, or because its write failed or found the connection closed. */
  lemma WaitsOrLeft(s: State, a: Act, c: nat, id: nat)
    requires Enabled(s, a) && Waits(s, c, id)
    ensures var s1 := Do(s, a);
      || Waits(s1, c, id)
      || (s1.calls[c].Returned? && s1.calls[c].msg.Some?)
      || a == GiveUp(c) || a == ConnDone(c) || a == Write(c, false) || (a == Write(c, true) && s1.closed)
    ensures Waits(Do(s, a), c, id) || Do(s, a).calls[c].Returned?
  {
  }

  lemma {:induction false} UnansweredGaveUp(s: State, acts: seq<Act>, c: nat, id: nat)
    requires Possible(s, acts) && Waits(s, c, id) && LeftUnanswered(Run(s, acts), c)
    ensures GiveUp(c) in acts || ConnDone(c) in acts || Write(c, false) in acts
         || (Write(c, true) in acts && Run(s, acts).closed)
    decreases |acts|
  {
    assert acts == [acts[0]] + acts[1..];
    var s1 := Do(s, acts[0]);
    WaitsOrLeft(s, acts[0], c, id);
    if Waits(s1, c, id) {
      UnansweredGaveUp(s1, acts[1..], c, id);
    } else {
      ReturnedStays(s1, acts[1..], c);
      if s1.closed {
        CloseStays(s1, acts[1..]);
      }
    }
  }

  lemma OthersKeepCall(s: State, a: Act, c: nat)
    requires Enabled(s, a) && c in s.calls && Owner(a) != Some(c)
    ensures c in Do(s, a).calls && Do(s, a).calls[c] == s.calls[c]
  {
  }

  lemma {:induction false} ReturnedStays(s: State, acts: seq<Act>, c: nat)
    requires Possible(s, acts) && c in s.calls && s.calls[c].Returned?
    ensures c in Run(s, acts).calls && Run(s, acts).calls[c] == s.calls[c]
    decreases |acts|
  {
    if acts != [] {
      OthersKeepCall(s, acts[0], c);
      ReturnedStays(Do(s, acts[0]), acts[1..], c);
    }
  }

  /** The read loop has stopped reading. */
  predicate Over(r: Reader) { !r.Reading? && !r.Sending? }

  /** The call's entry is in the table, or the call has returned. */
  predicate Pending(s: State, c: nat, id: nat) {
    (Waits(s, c, id) && id in s.pending) || (c in s.calls && s.calls[c].Returned?)
  }

  lemma PendingByCallers(s: State, a: Act, c: nat, id: nat)
    requires Enabled(s, a) && Owner(a).Some? && Pending(s, c, id) && CallOk(s, c)
    requires Owner(a).value in s.calls ==> CallOk(s, Owner(a).value)
    ensures Pending(Do(s, a), c, id)
  {
  }

  lemma PendingByReader(s: State, a: Act, c: nat, id: nat)
    requires Enabled(s, a) && Owner(a).None? && a != ReadResponse(id) && Pending(s, c, id)
    ensures Over(Do(s, a).reader) || Pending(Do(s, a), c, id)
  {
  }

  /** From its store on a call's entry stays in the table, until a response with
      its id is read, the call returns, or the read loop stops reading. */
  lemma {:induction false} StaysPending(s: State, acts: seq<Act>, c: nat, id: nat)
    requires Inv(s) && Possible(s, acts) && ReadResponse(id) !in acts
    requires Over(s.reader) || Pending(s, c, id)
    ensures Over(Run(s, acts).reader) || Pending(Run(s, acts), c, id)
    decreases |acts|
  {
    if acts != [] {
      assert acts == [acts[0]] + acts[1..];
      if Over(s.reader) {
        assert Over(Do(s, acts[0]).reader);
      } else if Owner(acts[0]).Some? {
        PendingByCallers(s, acts[0], c, id);
      } else {
        PendingByReader(s, acts[0], c, id);
      }
      StepKeepsInv(s, acts[0]);
      StaysPending(Do(s, acts[0]), acts[1..], c, id);
    }
  }

  /** The read loop stops only on a read error or a close; no frame stops it. */
  lemma {:induction false} StopsOnlyByFailing(s: State, acts: seq<Act>)
    requires Possible(s, acts) && !Over(s.reader) && Fail !in acts
    ensures !Over(Run(s, acts).reader)
    decreases |acts|
  {
    if acts != [] {
      assert acts == [acts[0]] + acts[1..];
      assert !Over(Do(s, acts[0]).reader);
      StopsOnlyByFailing(Do(s, acts[0]), acts[1..]);
    }
  }

  /** A call stores its channel, and its response is read before the call has
      returned, the first with its id since: that very frame is the call's.
      Whatever happens meanwhile and after, once the read loop has sent it, it
      lies in the call's channel, from which the call can return it at any
      time, or the call has returned it; unless the call gave up, the
      connection ended or its write failed. */
  lemma {:induction false} FirstResponseIsReturned(s: State, pre: seq<Act>, post: seq<Act>, c: nat, id: nat)
    requires Inv(s) && c in s.calls && s.calls[c] == HasId(id)
    requires Possible(Do(s, Store(c)), pre) && ReadResponse(id) !in pre
    requires var s1 := Run(Do(s, Store(c)), pre);
      && c in s1.calls && !s1.calls[c].Returned? && Enabled(s1, ReadResponse(id))
      && Possible(Do(s1, ReadResponse(id)), post)
    ensures var s1 := Run(Do(s, Store(c)), pre); var s', n := Run(Do(s1, ReadResponse(id)), post), |s1.frames|;
      && n < |s'.frames| && s'.frames[n] == id
      && (Send !in post ==> Enabled(s', Send))
      && c in s'.calls
      && match s'.calls[c]
         case Returned(_, None) =>
           GiveUp(c) in post || ConnDone(c) in post || Write(c, false) in post || (Write(c, true) in post && s'.closed)
         case Returned(_, Some(m)) => m == Response(n)
         case Stored(i) => i == id && (Send in post ==> id in s'.slots && s'.slots[id] == Response(n))
         case Blocked(i) => i == id && (Send in post ==>
              && Enabled(s', Receive(c))
              && Do(s', Receive(c)).calls[c] == Returned(Some(id), Some(Response(n))))
         case _ => false
  {
    var s0 := Do(s, Store(c));
    StepKeepsInv(s, Store(c));
    StaysPending(s0, pre, c, id);
    RepliesAreCorrelated(s0, pre);
    var s1 := Run(s0, pre);
    var s2, n := Do(s1, ReadResponse(id)), |s1.frames|;
    StepKeepsInv(s1, ReadResponse(id));
    SentIsHanded(s2, post, c, id, n);
    CloseStays(s2, post);
    if LeftUnanswered(Run(s2, post), c) {
      UnansweredGaveUp(s2, post, c, id);
    }
  }

  /** c does not wait; and if it had not passed the check, it has no id. */
  predicate ShutOut(s: State, c: nat, passed: bool) {
    c in s.calls ==>
      && !s.calls[c].Blocked? && (s.calls[c].Returned? ==> s.calls[c].msg == None)
      && (!passed ==> s.calls[c].Entering? || s.calls[c] == Returned(None, None))
  }

  lemma StaysShutOut(s: State, a: Act, c: nat, passed: bool)
    requires Enabled(s, a) && s.closed && ShutOut(s, c, passed)
    ensures Do(s, a).closed && ShutOut(Do(s, a), c, passed)
  {
  }

  /** Once the connection is closed, a call that has not yet written never waits
      and returns with nothing; one that has not passed the check draws no id
      either. */
  lemma {:induction false} NoneAdmittedOnceClosed(s: State, acts: seq<Act>, c: nat, passed: bool)
    requires Possible(s, acts) && s.closed && ShutOut(s, c, passed)
    ensures ShutOut(Run(s, acts), c, passed)
    decreases |acts|
  {
    if acts != [] {
      StaysShutOut(s, acts[0], c, passed);
      NoneAdmittedOnceClosed(Do(s, acts[0]), acts[1..], c, passed);
    }
  }

  // ---- nobody is stranded ----

  /** Steps a call still has to take. */
  function StepsLeft(c: Call): nat {
    match c
    case Entering => 5
    case Checked => 4
    case HasId(_) => 3
    case Stored(_) => 2
    case Blocked(_) => 1
    case Returned(_, _) => 0
  }

  /** The step a call can take by itself once the connection is done. */
  function OwnStep(c: nat, k: Call, ok: bool): Act {
    match k
    case Entering => Check(c)
    case Checked => Alloc(c)
    case HasId(_) => Store(c)
    case Stored(_) => Write(c, ok)
    case _ => ConnDone(c)
  }

  /** Once the read loop has exited, or Close has cancelled the connection,
      every call not yet returned, begun before or after, has a step of its own
      that is possible, whatever the write does, and each such step brings it
      closer to returning. */
  lemma NobodyStranded(s: State, c: nat, ok: bool)
    requires Inv(s) && (s.reader.Gone? || s.ctxDone) && c in s.calls && !s.calls[c].Returned?
    ensures var a := OwnStep(c, s.calls[c], ok);
      Enabled(s, a) && StepsLeft(Do(s, a).calls[c]) < StepsLeft(s.calls[c])
  {
  }

  /** Nothing moves a call back, or undoes the cancellation. */
  lemma OthersDoNotDelay(s: State, a: Act, c: nat)
    requires Enabled(s, a) && c in s.calls
    ensures c in Do(s, a).calls
    ensures (if Owner(a) == Some(c) then 1 else 0) + StepsLeft(Do(s, a).calls[c]) <= StepsLeft(s.calls[c])
    ensures s.ctxDone ==> Do(s, a).ctxDone
  {
    if Owner(a) != Some(c) {
      assert Do(s, a).calls[c] == s.calls[c];
    }
  }

  lemma CallersOnlyCall(s: State, a: Act)
    requires Enabled(s, a) && Owner(a).Some?
    ensures var s1 := CallerDo(s, a); s1.frames == s.frames && s1.closed == s.closed && s1.ctxDone == s.ctxDone
  {
  }

  lemma StepOnClose(s: State, a: Act)
    requires Enabled(s, a)
    ensures s.frames <= Do(s, a).frames
    ensures Do(s, a).closed <==> s.closed || a.CloseConn?
    ensures Do(s, a).ctxDone <==> s.ctxDone || a.CancelConn? || a.Leave?
  {
    if Owner(a).Some? {
      CallersOnlyCall(s, a);
    }
  }

  /** What was read stays read, and what Close has done stays done: the
      connection is closed, and once it has cancelled, everybody can return. */
  lemma {:induction false} CloseStays(s: State, acts: seq<Act>)
    requires Possible(s, acts)
    ensures s.frames <= Run(s, acts).frames
    ensures CloseConn in acts || s.closed ==> Run(s, acts).closed
    ensures CancelConn in acts || Leave in acts || s.ctxDone ==> Run(s, acts).ctxDone
    decreases |acts|
  {
    if acts != [] {
      assert forall a :: a in acts <==> a == acts[0] || a in acts[1..];
      StepOnClose(s, acts[0]);
      CloseStays(Do(s, acts[0]), acts[1..]);
    }
  }

  /** How many of these steps are c's own. */
  function OwnSteps(acts: seq<Act>, c: nat): nat {
    if acts == [] then 0
    else (if Owner(acts[0]) == Some(c) then 1 else 0) + OwnSteps(acts[1..], c)
  }

  /** A call takes at most five steps, over any run; and after the read loop
      has exited, or Close has cancelled, it can always take the next one,
      until it has returned. */
  lemma {:induction false} EveryCallReturns(s: State, acts: seq<Act>, c: nat)
    requires Inv(s) && Possible(s, acts) && c in s.calls
    ensures var s' := Run(s, acts);
      && c in s'.calls
      && OwnSteps(acts, c) + StepsLeft(s'.calls[c]) <= StepsLeft(s.calls[c])
      && ((s.reader.Gone? || s.ctxDone) && !s'.calls[c].Returned? ==>
            forall ok :: Enabled(s', OwnStep(c, s'.calls[c], ok)))
    decreases |acts|
  {
    if acts != [] {
      StepKeepsInv(s, acts[0]);
      OthersDoNotDelay(s, acts[0], c);
      EveryCallReturns(Do(s, acts[0]), acts[1..], c);
    } else if s.ctxDone && !s.calls[c].Returned? {
      forall ok ensures Enabled(s, OwnStep(c, s.calls[c], ok)) {
        NobodyStranded(s, c, ok);
      }
    }
  }
}
