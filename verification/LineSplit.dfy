/** An updater's output: split into lines as chunks of it arrive, and the last
    lines kept. */
module LineSplit {
  import opened Basics

  predicate IsBreak(c: char) {
    c == '\n' || c == '\r'
  }

  /** The text between line breaks: one piece more than there are breaks. */
  function Split(s: string): (r: seq<string>)
    ensures |r| >= 1
  {
    if s == [] then [[]]
    else if IsBreak(s[0]) then [[]] + Split(s[1..])
    else Grown(s[0], Split(s[1..]))
  }

  /** c in front of the first piece. */
  function Grown(c: char, r: seq<string>): seq<string>
    requires r != []
  {
    [[c] + r[0]] + r[1..]
  }

  function TrimEnd(s: string): string {
    if s != [] && (s[|s| - 1] == ' ' || s[|s| - 1] == '\t') then TrimEnd(s[..|s| - 1]) else s
  }

  /** The lines worth handing on: right-trimmed, empty ones dropped. */
  function Kept(pieces: seq<string>): seq<string> {
    if pieces == [] then []
    else (if TrimEnd(pieces[0]) == [] then [] else [TrimEnd(pieces[0])]) + Kept(pieces[1..])
  }

  function Last(pieces: seq<string>): string
    requires pieces != []
  {
    pieces[|pieces| - 1]
  }

  function Init(pieces: seq<string>): seq<string>
    requires pieces != []
  {
    pieces[..|pieces| - 1]
  }

  lemma {:induction false} KeptAppend(a: seq<string>, b: seq<string>)
    ensures Kept(a + b) == Kept(a) + Kept(b)
  {
    if a == [] {
      assert a + b == b;
    } else {
      assert (a + b)[1..] == a[1..] + b;
      KeptAppend(a[1..], b);
    }
  }

  lemma GrownInit(c: char, r: seq<string>, t: seq<string>)
    requires |r| > 1
    ensures Last(Grown(c, r)) == Last(r)
    ensures Init(Grown(c, r)) + t == Grown(c, Init(r) + t)
  {
    assert Init(Grown(c, r)) == Grown(c, Init(r));
  }

  lemma GrownOne(c: char, p: string, b: string)
    requires !IsBreak(c)
    ensures Split([c] + p + b) == Grown(c, Split(p + b))
  {
    assert ([c] + p + b)[1..] == p + b;
  }

  lemma BreakInit(r: seq<string>, t: seq<string>)
    requires r != []
    ensures Last([[]] + r) == Last(r) && Init([[]] + r) + t == [[]] + (Init(r) + t)
  {
    assert Init([[]] + r) == [[]] + Init(r);
  }

  /** Splitting can stop anywhere: the pieces complete so far stay, and the
      last one goes on. */
  lemma {:induction false} SplitResumes(a: string, b: string)
    ensures Split(a + b) == Init(Split(a)) + Split(Last(Split(a)) + b)
  {
    if a == [] {
      assert a + b == b && Last(Split(a)) + b == b;
    } else {
      var r := Split(a[1..]);
      var t := Split(Last(r) + b);
      SplitResumes(a[1..], b);
      assert (a + b)[1..] == a[1..] + b;
      if IsBreak(a[0]) {
        BreakInit(r, t);
      } else if |r| > 1 {
        GrownInit(a[0], r, t);
      } else {
        GrownOne(a[0], r[0], b);
        assert Init(r) + t == t;
        assert Init(Split(a)) == [] && Last(Split(a)) == [a[0]] + r[0];
      }
    }
  }

  lemma {:induction false} NoBreakNoSplit(s: string)
    requires forall i :: 0 <= i < |s| ==> !IsBreak(s[i])
    ensures Split(s) == [s]
  {
    if s != [] {
      NoBreakNoSplit(s[1..]);
      assert [s[0]] + s[1..] == s;
    }
  }

  /** Trimming drops only spaces and tabs, and leaves none at the end. */
  lemma {:induction false} TrimsBlanks(s: string) returns (tail: string)
    ensures s == TrimEnd(s) + tail && forall i :: 0 <= i < |tail| ==> tail[i] == ' ' || tail[i] == '\t'
    ensures TrimEnd(s) != [] ==> var c := TrimEnd(s)[|TrimEnd(s)| - 1]; c != ' ' && c != '\t'
  {
    tail := [];
    if s != [] && (s[|s| - 1] == ' ' || s[|s| - 1] == '\t') {
      var n := |s| - 1;
      var t := TrimsBlanks(s[..n]);
      tail := t + [s[n]];
      assert s == s[..n] + [s[n]];
    }
  }

  /** A line as it is handed on: not empty, within one line, with nothing blank
      at its end. */
  predicate Clean(line: string) {
    && line != [] && line[|line| - 1] != ' ' && line[|line| - 1] != '\t'
    && forall i :: 0 <= i < |line| ==> line[i] != '\n' && line[i] != '\r'
  }

  predicate InOneLine(s: string) {
    forall i :: 0 <= i < |s| ==> s[i] != '\n' && s[i] != '\r'
  }

  lemma {:induction false} PiecesInOneLine(s: string)
    ensures forall k :: 0 <= k < |Split(s)| ==> InOneLine(Split(s)[k])
  {
    if s != [] {
      PiecesInOneLine(s[1..]);
    }
  }

  lemma {:induction false} KeptAreClean(pieces: seq<string>)
    requires forall k :: 0 <= k < |pieces| ==> InOneLine(pieces[k])
    ensures forall k :: 0 <= k < |Kept(pieces)| ==> Clean(Kept(pieces)[k])
  {
    if pieces != [] {
      KeptAreClean(pieces[1..]);
      assert InOneLine(pieces[0]);
      var tail := TrimsBlanks(pieces[0]);
      assert forall i :: 0 <= i < |TrimEnd(pieces[0])| ==> TrimEnd(pieces[0])[i] == pieces[0][i];
    }
  }

  /** Every line handed on is clean. */
  lemma LinesAreClean(s: string)
    ensures forall k :: 0 <= k < |Kept(Split(s))| ==> Clean(Kept(Split(s))[k])
  {
    PiecesInOneLine(s);
    KeptAreClean(Split(s));
  }

  /** The text without its line feeds and carriage returns. */
  function Unbroken(s: string): string {
    if s == [] then []
    else (if s[0] == '\n' || s[0] == '\r' then [] else [s[0]]) + Unbroken(s[1..])
  }

  /** Splitting loses the breaks and nothing else. */
  lemma {:induction false} SplitLosesBreaks(s: string)
    ensures Join(Split(s)) == Unbroken(s)
    ensures |Split(s)| == |s| - |Unbroken(s)| + 1
  {
    if s == [] {
      assert Split(s)[1..] == [];
    } else {
      var r := Split(s[1..]);
      SplitLosesBreaks(s[1..]);
      if IsBreak(s[0]) {
        assert Split(s)[1..] == r;
      } else {
        assert Split(s)[1..] == r[1..];
        assert [s[0]] + r[0] + Join(r[1..]) == [s[0]] + (r[0] + Join(r[1..]));
      }
    }
  }

  lemma {:induction false} SplitAtFirst(s: string, i: nat)
    requires i < |s| && IsBreak(s[i]) && forall j :: 0 <= j < i ==> !IsBreak(s[j])
    ensures Split(s) == [s[..i]] + Split(s[i + 1..])
    decreases i
  {
    if i > 0 {
      SplitAtFirst(s[1..], i - 1);
      assert s[1..][i..] == s[i + 1..];
      assert [s[0]] + s[1..][..i - 1] == s[..i];
    }
  }

  /** Emitting the first complete line leaves the others to emit. */
  lemma DueNext(out: seq<string>, s: string, i: nat)
    requires i < |s| && IsBreak(s[i]) && forall j :: 0 <= j < i ==> !IsBreak(s[j])
    ensures out + Kept([s[..i]]) + Kept(Init(Split(s[i + 1..]))) == out + Kept(Init(Split(s)))
    ensures Last(Split(s)) == Last(Split(s[i + 1..]))
  {
    var rest := Split(s[i + 1..]);
    SplitAtFirst(s, i);
    assert Init([s[..i]] + rest) == [s[..i]] + Init(rest);
    assert Kept(Init(Split(s))) == Kept([s[..i]]) + Kept(Init(rest));
  }

  // ---- chunks ----

  function Join(chunks: seq<string>): string {
    if chunks == [] then [] else chunks[0] + Join(chunks[1..])
  }

  /** What a chunk makes the writer emit, with buf left over, and what it
      leaves over in turn. */
  function Emitted(buf: string, chunk: string): seq<string> {
    Kept(Init(Split(buf + chunk)))
  }

  function LeftOver(buf: string, chunk: string): string {
    Last(Split(buf + chunk))
  }

  /** What writing these chunks and a final flush emits. */
  function Fed(buf: string, chunks: seq<string>): seq<string>
    decreases |chunks|
  {
    if chunks == [] then Kept([buf])
    else Emitted(buf, chunks[0]) + Fed(LeftOver(buf, chunks[0]), chunks[1..])
  }

  lemma {:induction false} LastHasNoBreak(s: string)
    ensures Split(Last(Split(s))) == [Last(Split(s))]
  {
    if s != [] {
      var r := Split(s[1..]);
      LastHasNoBreak(s[1..]);
      if !IsBreak(s[0]) && |r| == 1 {
        var l := Last(Split(s));
        assert l[0] == s[0] && l[1..] == r[0];
      } else {
        assert Last(Split(s)) == Last(r);
      }
    }
  }

  /** What a text completes, then what its last piece goes on to, is what the
      whole comes to. */
  lemma KeptResumes(a: string, b: string)
    ensures Kept(Init(Split(a))) + Kept(Split(Last(Split(a)) + b)) == Kept(Split(a + b))
  {
    SplitResumes(a, b);
    KeptAppend(Init(Split(a)), Split(Last(Split(a)) + b));
  }

  lemma JoinFirst(buf: string, chunks: seq<string>)
    requires chunks != []
    ensures buf + Join(chunks) == (buf + chunks[0]) + Join(chunks[1..])
  {
  }

  /** However a stream is cut into chunks, the lines emitted are those of the
      whole stream split once. */
  lemma {:induction false} ChunksDoNotMatter(buf: string, chunks: seq<string>)
    requires Split(buf) == [buf]
    ensures Fed(buf, chunks) == Kept(Split(buf + Join(chunks)))
    decreases |chunks|
  {
    if chunks == [] {
      assert buf + Join(chunks) == buf;
    } else {
      LastHasNoBreak(buf + chunks[0]);
      ChunksDoNotMatter(LeftOver(buf, chunks[0]), chunks[1..]);
      KeptResumes(buf + chunks[0], Join(chunks[1..]));
      JoinFirst(buf, chunks);
    }
  }

  // ---- the ring and the writer ----

  /** The last max lines. all is every line ever added. */
  class LineRing {
    const max: int
    var buf: seq<string>
    ghost var all: seq<string>

    ghost predicate Valid()
      reads this
    {
      buf == LastN(all, if max > 0 then max else 0)
    }

    constructor (max: int)
      ensures Valid() && this.max == max && all == []
    {
      this.max := max;
      buf, all := [], [];
    }

    method Add(line: string)
      requires Valid()
      modifies this
      ensures Valid() && all == old(all) + [line]
    {
      all := all + [line];
      if max <= 0 {
        return;
      }
      buf := buf + [line];
      if |buf| > max {
        buf := buf[|buf| - max..];
      }
    }

    method Lines() returns (r: seq<string>)
      requires Valid()
      ensures r == LastN(all, if max > 0 then max else 0)
    {
      r := buf;
    }
  }

  /** buf is the text since the last break; sink is where lines go, if anywhere. */
  class LineWriter {
    const sink: LineRing?
    var buf: string

    ghost predicate Valid()
      reads this, sink
    {
      (sink != null ==> sink.Valid()) && Split(buf) == [buf]
    }

    ghost function Out(): seq<string>
      reads sink
    {
      if sink == null then [] else sink.all
    }

    constructor (sink: LineRing?)
      requires sink != null ==> sink.Valid()
      ensures Valid() && this.sink == sink && buf == []
    {
      this.sink := sink;
      buf := [];
    }

    method Emit(line: string)
      requires sink != null ==> sink.Valid()
      modifies sink
      ensures sink != null ==> sink.Valid() && sink.all == old(sink.all) + Kept([line])
    {
      var t := TrimRight(line);
      if t != [] && sink != null {
        sink.Add(t);
      }
    }

    /** The lines still to emit, after the ones emitted. */
    ghost function Due(): seq<string>
      reads this, sink
    {
      Out() + Kept(Init(Split(buf)))
    }

    /** Emits the line that ends at break i. */
    method EmitFirst(i: nat)
      requires sink != null ==> sink.Valid()
      requires i < |buf| && IsBreak(buf[i]) && forall j :: 0 <= j < i ==> !IsBreak(buf[j])
      modifies this, sink
      ensures sink != null ==> sink.Valid() && Due() == old(Due())
      ensures buf == old(buf)[i + 1..] && Last(Split(buf)) == Last(Split(old(buf)))
    {
      DueNext(Out(), buf, i);
      Emit(buf[..i]);
      buf := buf[i + 1..];
    }

    /** A write emits every line it completes and keeps the rest. */
    method Write(p: string) returns (n: nat)
      requires Valid()
      modifies this, sink
      ensures Valid() && n == |p| && buf == LeftOver(old(buf), p)
      ensures sink != null ==> sink.all == old(sink.all) + Emitted(old(buf), p)
    {
      buf := buf + p;
      ghost var whole := buf;
      var i: nat := IndexBreak(buf);
      while i < |buf|
        invariant sink != null ==> sink.Valid() && Due() == old(Out()) + Kept(Init(Split(whole)))
        invariant Last(Split(buf)) == Last(Split(whole))
        invariant i <= |buf| && (i < |buf| ==> IsBreak(buf[i])) && forall j :: 0 <= j < i ==> !IsBreak(buf[j])
        decreases |buf|
      {
        EmitFirst(i);
        i := IndexBreak(buf);
      }
      NoBreakNoSplit(buf);
      return |p|;
    }

    method Flush()
      requires Valid()
      modifies this, sink
      ensures Valid() && buf == []
      ensures sink != null ==> sink.all == old(sink.all) + Kept([old(buf)])
    {
      if |buf| > 0 {
        Emit(buf);
        buf := [];
      }
    }
  }

  /** The place of the first break, or the length. */
  method IndexBreak(s: string) returns (i: nat)
    ensures i <= |s| && (i < |s| ==> IsBreak(s[i])) && forall j :: 0 <= j < i ==> !IsBreak(s[j])
  {
    i := 0;
    while i < |s| && !IsBreak(s[i])
      invariant i <= |s| && forall j :: 0 <= j < i ==> !IsBreak(s[j])
    {
      i := i + 1;
    }
  }

  method TrimRight(s: string) returns (r: string)
    ensures r == TrimEnd(s)
  {
    r := s;
    while r != [] && (r[|r| - 1] == ' ' || r[|r| - 1] == '\t')
      invariant TrimEnd(r) == TrimEnd(s)
      decreases |r|
    {
      r := r[..|r| - 1];
    }
  }

  lemma FedNext(all: seq<string>, buf: string, chunks: seq<string>, k: nat)
    requires k < |chunks|
    ensures all + Fed(buf, chunks[k..])
         == (all + Emitted(buf, chunks[k])) + Fed(LeftOver(buf, chunks[k]), chunks[k + 1..])
  {
    assert chunks[k..][1..] == chunks[k + 1..];
  }

  lemma FedFromStart(chunks: seq<string>)
    ensures Fed([], chunks) == Kept(Split(Join(chunks)))
  {
    ChunksDoNotMatter([], chunks);
    assert [] + Join(chunks) == Join(chunks);
  }

  /** Any chunks written to a new writer and then flushed leave the ring with
      the last lines of the whole text. */
  method WriteAll(chunks: seq<string>, max: int) returns (tail: seq<string>)
    ensures tail == LastN(Kept(Split(Join(chunks))), if max > 0 then max else 0)
  {
    var ring := new LineRing(max);
    var w := new LineWriter(ring);
    for k := 0 to |chunks|
      invariant fresh(w) && fresh(ring) && w.sink == ring && w.Valid()
      invariant ring.all + Fed(w.buf, chunks[k..]) == Fed([], chunks)
    {
      FedNext(ring.all, w.buf, chunks, k);
      var _ := w.Write(chunks[k]);
    }
    assert Fed(w.buf, chunks[|chunks|..]) == Kept([w.buf]);
    w.Flush();
    FedFromStart(chunks);
    tail := ring.Lines();
  }
}
