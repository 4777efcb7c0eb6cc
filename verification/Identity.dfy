/** Who a child is said to be: over every run, its identity is what the items
    that named it say, and that is the identity its root is told. */
module Identity {
  import opened Basics
  import opened Events
  import opened ChildTree
  import opened Fabric

  /** What one item says of the child it names. */
  datatype Naming = Naming(parent: Id, turn: Id, itemID: Id, kind: string, path: string)

  /** a is an item of another thread that names x, a thread this connection
      has not opened. */
  predicate TakenAsNaming(s: Sys, a: Action, x: Id) {
    && a.Name? && a.item.activity.Some? && a.item.activity.value.agentThreadID == x
    && x != NO_ID && x != a.parent && x !in s.threads
  }

  function NamingOf(a: Action): Naming
    requires a.Name? && a.item.activity.Some?
  {
    Naming(a.parent, a.turn, a.item.id, a.item.activity.value.kind, a.item.activity.value.agentPath)
  }

  /** The items that named x since it last became a child, the one that made it
      one included. */
  ghost function Namings(acts: seq<Action>, x: Id): seq<Naming>
    decreases |acts|
  {
    if acts == [] then []
    else
      var init, a := acts[..|acts| - 1], acts[|acts| - 1];
      var s := Run(START, init);
      var known := if x in s.reg.children then Namings(init, x) else [];
      if TakenAsNaming(s, a, x) then known + [NamingOf(a)]
      else if x in Step(s, a).reg.children then known
      else []
  }

  /** path is the last one given. */
  ghost predicate LastPath(log: seq<Naming>, path: string) {
    if path == "" then forall i :: 0 <= i < |log| ==> log[i].path == ""
    else exists i :: 0 <= i < |log| && log[i].path == path && forall j :: i < j < |log| ==> log[j].path == ""
  }

  /** id is that of the first item that says the child was started. */
  ghost predicate FirstStarted(log: seq<Naming>, id: Id) {
    if id == NO_ID then forall i :: 0 <= i < |log| && log[i].kind == KIND_STARTED ==> log[i].itemID == NO_ID
    else exists i :: 0 <= i < |log| && IsFirstStarted(log, i) && log[i].itemID == id
  }

  ghost predicate IsFirstStarted(log: seq<Naming>, i: nat)
    requires i < |log|
  {
    && log[i].kind == KIND_STARTED
    && forall j :: 0 <= j < i && log[j].kind == KIND_STARTED ==> log[j].itemID == NO_ID
  }

  /** c is the child these items describe: the first names its parent and the
      turn it was spawned in, the last path given is its own, and its tool call
      is the first item that started it. */
  ghost predicate Describes(log: seq<Naming>, c: Child) {
    && log != [] && c.parentID == log[0].parent && c.spawnTurnID == log[0].turn
    && LastPath(log, c.agentPath) && FirstStarted(log, c.toolCallID)
  }

  lemma PathAppend(log: seq<Naming>, path: string, n: Naming)
    requires LastPath(log, path)
    ensures LastPath(log + [n], if n.path != "" then n.path else path)
  {
    var all := log + [n];
    if n.path != "" {
      assert all[|log|].path == n.path;
    } else if path != "" {
      var i :| 0 <= i < |log| && log[i].path == path && forall j :: i < j < |log| ==> log[j].path == "";
      assert all[i].path == path;
    }
  }

  lemma StartedAppend(log: seq<Naming>, id: Id, n: Naming)
    requires FirstStarted(log, id)
    ensures FirstStarted(log + [n], if n.kind == KIND_STARTED && id == NO_ID then n.itemID else id)
  {
    var all := log + [n];
    if id != NO_ID {
      var i :| 0 <= i < |log| && IsFirstStarted(log, i) && log[i].itemID == id;
      assert IsFirstStarted(all, i) && all[i] == log[i];
    } else if n.kind == KIND_STARTED && n.itemID != NO_ID {
      assert IsFirstStarted(all, |log|) && all[|log|] == n;
    }
  }

  /** The identity a naming gives: refining a known child, or a new one. */
  lemma AdoptDescribes(s: Sys, a: Action, x: Id, known: seq<Naming>)
    requires TakenAsNaming(s, a, x) && (x in s.reg.children ==> Describes(known, s.reg.children[x]))
    requires x !in s.reg.children ==> known == []
    ensures var (r, c) := Adopt(s.reg, a.parent, a.turn, a.item);
      && Describes(known + [NamingOf(a)], c)
      && (x in r.children ==> r.children[x] == c)
  {
    var n := NamingOf(a);
    if x in s.reg.children {
      PathAppend(known, s.reg.children[x].agentPath, n);
      StartedAppend(known, s.reg.children[x].toolCallID, n);
    } else {
      PathAppend([], "", n);
      StartedAppend([], NO_ID, n);
    }
  }

  lemma NamingKeepsOthers(s: Sys, a: Action, x: Id)
    requires a.Name? && !TakenAsNaming(s, a, x) && x != NO_ID
    requires x in NoteSubAgent(s, a.parent, a.turn, a.item).reg.children
    ensures x in s.reg.children && NoteSubAgent(s, a.parent, a.turn, a.item).reg.children[x] == s.reg.children[x]
  {
    if Names(s, a.parent, a.item) {
      var (reg, c) := Adopt(s.reg, a.parent, a.turn, a.item);
      assert x in reg.children;
    }
  }

  /** No other step says anything of x. */
  lemma OthersKeepChild(s: Sys, a: Action, x: Id)
    requires Inv(s) && !TakenAsNaming(s, a, x) && x in Step(s, a).reg.children
    ensures x in s.reg.children && Step(s, a).reg.children[x] == s.reg.children[x]
  {
    match a
    case Deliver(t, ev) => DeliveryKeepsChild(s, t, ev, x);
    case Name(parent, turn, item) =>
      NamingKeepsInv(s, parent, turn, item);
      NamingKeepsOthers(s, a, x);
    case _ =>
  }

  /** In every reachable state a child is what the items that named it since it
      became one say. */
  lemma {:induction false} ChildIsAsNamed(acts: seq<Action>, x: Id)
    ensures var s := Run(START, acts);
      x in s.reg.children ==> s.reg.children[x].threadID == x && Describes(Namings(acts, x), s.reg.children[x])
    decreases |acts|
  {
    ReachableInv(START, acts);
    if acts != [] {
      var init, a := acts[..|acts| - 1], acts[|acts| - 1];
      var s := Run(START, init);
      RunLast(START, acts);
      ReachableInv(START, init);
      ChildIsAsNamed(init, x);
      if TakenAsNaming(s, a, x) {
        AdoptDescribes(s, a, x, if x in s.reg.children then Namings(init, x) else []);
      } else if x in Step(s, a).reg.children {
        OthersKeepChild(s, a, x);
      }
    }
  }

  /** Such an item makes x a child, or leaves it one, unless the registry turns
      the newcomer away. */
  lemma NamedIsKnown(s: Sys, a: Action, x: Id)
    requires Inv(s) && TakenAsNaming(s, a, x)
    ensures x in Step(s, a).reg.children <==> x in s.reg.children || !TurnedAway(s.reg, x)
  {
    if x !in s.reg.children {
      NewcomerEvictedIff(s.reg, NewChild(a.parent, a.turn, a.item));
    }
  }

  /** And so does such an item in a notification of a registered parent's. */
  lemma {:induction false} ItemFrameNames(s: Sys, parent: Id, turn: Id, item: Item, x: Id)
    requires Inv(s) && parent in s.threads && TakenAsNaming(s, Name(parent, turn, item), x)
    ensures var s' := Run(s, Dispatch(ItemFrame(parent, turn, item), true));
      x in s'.reg.children <==> x in s.reg.children || !TurnedAway(s.reg, x)
  {
    var s1 := Step(s, Deliver(parent, ItemEvent(parent, turn, item)));
    RunSteps(s, Dispatch(ItemFrame(parent, turn, item), true));
    NamedIsKnown(s1, Name(parent, turn, item), x);
  }

  // ---- what the roots are told ----

  /** At some moment of the run c was the child its namings described. */
  ghost predicate WasNamed(acts: seq<Action>, c: Child) {
    exists k :: 0 <= k <= |acts| && Describes(Namings(acts[..k], c.threadID), c)
  }

  ghost predicate AllNamed(acts: seq<Action>, log: seq<Event>) {
    forall i :: 0 <= i < |log| && log[i].ChildThread? ==> WasNamed(acts, log[i].child)
  }

  lemma StillNamed(acts: seq<Action>, log: seq<Event>)
    requires acts != [] && AllNamed(acts[..|acts| - 1], log)
    ensures AllNamed(acts, log)
  {
    var init := acts[..|acts| - 1];
    forall i | 0 <= i < |log| && log[i].ChildThread? ensures WasNamed(acts, log[i].child) {
      var k :| 0 <= k <= |init| && Describes(Namings(init[..k], log[i].child.threadID), log[i].child);
      assert init[..k] == acts[..k];
    }
  }

  /** What one step makes r accept. */
  lemma AcceptedInStep(s: Sys, a: Action, r: Id) returns (more: seq<Event>)
    requires r in Step(s, a).subs
    ensures a == Subscribe(r) ==> Step(s, a).subs[r].accepted == [] && more == []
    ensures a != Subscribe(r) ==> r in s.subs && Step(s, a).subs[r].accepted == s.subs[r].accepted + more
    ensures a.Deliver? && a.thread in s.subs ==> more == [] || more == [a.ev]
    ensures a.Deliver? && a.thread !in s.subs && more != [] ==>
      a.thread in s.reg.children && more == [ChildThread(s.reg.children[a.thread], TurnOf(s.reg.turns, a.thread), a.ev)]
    ensures a.Broadcast? ==> more == [] || more == [a.ev]
    ensures a.Name? && more != [] ==>
      && Names(s, a.parent, a.item)
      && forall i :: 0 <= i < |more| ==>
           more[i].ChildThread? && more[i].child == Adopt(s.reg, a.parent, a.turn, a.item).1
    ensures !a.Deliver? && !a.Broadcast? && !a.Name? ==> more == []
  {
    if a == Subscribe(r) {
      more := [];
    } else {
      more := Step(s, a).subs[r].accepted[|s.subs[r].accepted|..];
    }
  }

  /** The child an accepted event speaks of is the one that was named. */
  lemma MoreIsNamed(acts: seq<Action>, r: Id)
    requires acts != [] && Plain(acts)
    requires var s, a := Run(START, acts[..|acts| - 1]), acts[|acts| - 1];
      r in Step(s, a).subs && a != Subscribe(r) && r in s.subs && AllNamed(acts, s.subs[r].accepted)
    ensures var s, a := Run(START, acts[..|acts| - 1]), acts[|acts| - 1];
      AllNamed(acts, Step(s, a).subs[r].accepted)
  {
    var init, a := acts[..|acts| - 1], acts[|acts| - 1];
    var s := Run(START, init);
    var more := AcceptedInStep(s, a, r);
    ReachableInv(START, init);
    if more != [] && a.Deliver? && a.thread !in s.subs {
      ChildIsAsNamed(init, a.thread);
      assert acts[..|init|] == init;
      assert WasNamed(acts, s.reg.children[a.thread]);
    } else if more != [] && a.Name? {
      var x := a.item.activity.value.agentThreadID;
      ChildIsAsNamed(init, x);
      AdoptDescribes(s, a, x, if x in s.reg.children then Namings(init, x) else []);
      AdoptKeepsOk(s.reg, a.parent, a.turn, a.item);
      assert acts[..|acts|] == acts && WasNamed(acts, Adopt(s.reg, a.parent, a.turn, a.item).1);
    }
    assert AllNamed(acts, more);
  }

  /** In every run from the start of the connection, every event a subscriber
      is told of a child carries the identity that the items naming that child
      gave it by then. */
  lemma {:induction false} ToldAsNamed(acts: seq<Action>, r: Id)
    requires Plain(acts) && r in Run(START, acts).subs
    ensures AllNamed(acts, Run(START, acts).subs[r].accepted)
    decreases |acts|
  {
    if acts != [] {
      var init, a := acts[..|acts| - 1], acts[|acts| - 1];
      var s := Run(START, init);
      RunLast(START, acts);
      var more := AcceptedInStep(s, a, r);
      if a != Subscribe(r) {
        ToldAsNamed(init, r);
        StillNamed(acts, s.subs[r].accepted);
        MoreIsNamed(acts, r);
      }
    }
  }
}
