/** Routing and delivery together: what the consumer of a root's stream is told
    of a child. */
module EndToEnd {
  import opened Basics
  import opened Events
  import opened Fabric
  import opened LateNaming
  import ChildTree
  import Pipeline
  import Stream

  /** The stream's consumer has read it to its end: turn/start went through,
      nobody cancelled, and its channel is closed and read out. */
  ghost predicate ReadToEnd(p: Pipeline.State) {
    p.stream.relayGone && p.stream.tracked == [] && !p.stream.cancelled && p.stream.refused.None?
  }

  /** p is a delivery of r's subscription as s leaves it. */
  ghost predicate Delivers(p: Pipeline.State, s: Sys, r: Id) {
    r in s.subs && p.pump.accepted == s.subs[r].accepted
  }

  /** All that was accepted about x is in the stream's share of it. */
  predicate Covers(accepted: seq<Event>, x: Id) {
    About(Stream.Share(accepted), x) == About(accepted, x)
  }

  /** A log without an event that ends the stream covers every child, as does
      one whose last event ends it. */
  lemma CoveredWhenOpen(log: seq<Event>, x: Id)
    requires Stream.Open(log) || (log != [] && Stream.Open(log[..|log| - 1]))
    ensures Stream.Share(log) == log && Covers(log, x)
  {
    if Stream.Open(log) {
      Stream.ShareAfterOpen(log, []);
      assert log + [] == log;
    } else {
      var init, last := log[..|log| - 1], log[|log| - 1];
      Stream.ShareAfterOpen(init, [last]);
      assert init + [last] == log;
      assert [last][1..] == [];
    }
  }

  /** acts carry what s has r's subscription accept to a consumer that reads it
      to the end, with all that was accepted of x. */
  ghost predicate CarriesAll(acts: seq<Pipeline.Act>, s: Sys, r: Id, x: Id)
    requires Pipeline.Inv(Pipeline.START)
  {
    && Pipeline.Possible(Pipeline.START, acts)
    && var p := Pipeline.Run(Pipeline.START, acts); ReadToEnd(p) && Delivers(p, s, r) && Covers(p.pump.accepted, x)
  }

  /** From the naming to the consumer: two runs that look after x and differ in
      when it is named, each delivered to a consumer that reads the root's
      stream to its end, tell that consumer the same of x, in content, order,
      turns and identity, exactly when at most 256 of x's frames came before
      the late naming; provided the stream did not end before x's events. */
  lemma ConsumerSeesNoNaming(s: Sys, early: seq<Action>, late: seq<Action>,
                             pre: seq<Action>, n: Action, post: seq<Action>, x: Id, r: Id,
                             one: seq<Pipeline.Act>, other: seq<Pipeline.Act>)
    requires Inv(s) && r in s.subs && x !in s.reg.children && x !in s.reg.orphans
    requires TendedRun(s, early, x, r) && TendedRun(s, late, x, r)
    requires NamesChild(n, x) && Unnamed(pre, x)
    requires Own(early, x) == [n] + pre + post && Own(late, x) == pre + [n] + post
    requires Pipeline.Inv(Pipeline.START)
    requires CarriesAll(one, Run(s, early), r, x) && CarriesAll(other, Run(s, late), r, x)
    ensures About(Pipeline.Run(Pipeline.START, one).stream.seen, x)
         == About(Pipeline.Run(Pipeline.START, other).stream.seen, x)
      <==> Frames(pre, x) <= ChildTree.ORPHAN_EVENT_LIMIT
  {
    LateNamingTransparent(s, early, late, pre, n, post, x, r);
    Pipeline.ConsumerSeesAll(one);
    Pipeline.ConsumerSeesAll(other);
  }
}
