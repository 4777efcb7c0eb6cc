/** Taking the script back out of a "<shell> -lc '...'" command. */
module ShellQuote {
  import opened Basics

  /** White space as Unicode has it. */
  predicate IsSpace(c: char) {
    var n := c as int;
    || 9 <= n <= 13 || n == 32 || n == 0x85 || n == 0xA0 || n == 0x1680 || 0x2000 <= n <= 0x200A
    || n == 0x2028 || n == 0x2029 || n == 0x202F || n == 0x205F || n == 0x3000
  }

  function TrimLeft(s: string): string {
    if s != [] && IsSpace(s[0]) then TrimLeft(s[1..]) else s
  }

  function TrimRight(s: string): string {
    if s != [] && IsSpace(s[|s| - 1]) then TrimRight(s[..|s| - 1]) else s
  }

  function TrimSpace(s: string): string {
    TrimRight(TrimLeft(s))
  }

  /** What follows the first f in s. */
  function Cut(s: string, f: string): Option<string> {
    if f <= s then Some(s[|f|..])
    else if s == [] then None
    else Cut(s[1..], f)
  }

  /** '\'' */
  const IDIOM: string := ['\'', '\\', '\'', '\'']

  /** Every '\'' replaced by a single quote, leftmost first. */
  function ReplaceIdiom(s: string): string {
    if IDIOM <= s then ['\''] + ReplaceIdiom(s[4..])
    else if s == [] then []
    else [s[0]] + ReplaceIdiom(s[1..])
  }

  /** What a backslash escapes inside double quotes. */
  predicate Escapable(c: char) {
    c == '"' || c == '\\' || c == '$' || c == '`'
  }

  /** The text double quotes stand for: a backslash escapes what it may, makes
      a line break vanish, and is itself before anything else. */
  function Decode(s: string): string {
    if s == [] then []
    else if s[0] != '\\' || |s| == 1 then [s[0]] + Decode(s[1..])
    else if Escapable(s[1]) then [s[1]] + Decode(s[2..])
    else if s[1] == '\n' then Decode(s[2..])
    else ['\\'] + Decode(s[1..])
  }

  function Unquote(s: string): string {
    if |s| < 2 then s
    else if s[0] == '\'' && s[|s| - 1] == '\'' then ReplaceIdiom(s[1..|s| - 1])
    else if s[0] == '"' && s[|s| - 1] == '"' then Decode(s[1..|s| - 1])
    else s
  }

  /** The flags in the order they are looked for. */
  function Flag(k: nat): string
    requires k < 4
  {
    (if k % 2 == 0 then [' ', '-', 'l', 'c'] else [' ', '-', 'c']) + [if k < 2 then ' ' else '\t']
  }

  function UnwrapFrom(s: string, k: nat): string
    requires k <= 4
    decreases 4 - k
  {
    if k == 4 then s
    else match Cut(s, Flag(k))
      case Some(rest) => Unquote(TrimSpace(rest))
      case None => UnwrapFrom(s, k + 1)
  }

  function Unwrap(cmd: string): string {
    UnwrapFrom(TrimSpace(cmd), 0)
  }

  /** What the loop writes at i, and where it goes on. */
  function Written(s: string, i: nat): string
    requires i < |s|
  {
    if s[i] != '\\' || i + 1 == |s| then [s[i]]
    else if Escapable(s[i + 1]) then [s[i + 1]]
    else if s[i + 1] == '\n' then []
    else [s[i]]
  }

  function GoesOn(s: string, i: nat): (n: nat)
    requires i < |s|
    ensures i < n <= |s|
  {
    if s[i] == '\\' && i + 1 < |s| && (Escapable(s[i + 1]) || s[i + 1] == '\n') then i + 2 else i + 1
  }

  lemma DecodeNext(s: string, i: nat, r: string)
    requires i < |s| && r + Decode(s[i..]) == Decode(s)
    ensures (r + Written(s, i)) + Decode(s[GoesOn(s, i)..]) == Decode(s)
  {
    assert s[i..][1..] == s[i + 1..];
    assert i + 1 < |s| ==> s[i..][2..] == s[i + 2..];
    assert Decode(s[i..]) == Written(s, i) + Decode(s[GoesOn(s, i)..]);
  }

  // ---- the program's loops ----

  /** The fast path and the index loop. */
  method DecodeDoubleQuoted(body: string) returns (r: string)
    ensures r == Decode(body)
  {
    if '\\' !in body {
      NothingToDecode(body);
      return body;
    }
    r := [];
    var i := 0;
    while i < |body|
      invariant 0 <= i <= |body|
      invariant r + Decode(body[i..]) == Decode(body)
    {
      DecodeNext(body, i, r);
      var c := body[i];
      if c != '\\' || i + 1 >= |body| {
        r := r + [c];
        i := i + 1;
        continue;
      }
      var next := body[i + 1];
      if Escapable(next) {
        r := r + [next];
        i := i + 1;
      } else if next == '\n' {
        i := i + 1;
      } else {
        r := r + [c];
      }
      i := i + 1;
    }
  }

  method UnquoteShell(s: string) returns (r: string)
    ensures r == Unquote(s)
  {
    if |s| < 2 {
      return s;
    }
    if s[0] == '\'' && s[|s| - 1] == '\'' {
      return ReplaceIdiom(s[1..|s| - 1]);
    }
    if s[0] == '"' && s[|s| - 1] == '"' {
      r := DecodeDoubleQuoted(s[1..|s| - 1]);
      return;
    }
    return s;
  }

  method UnwrapShellCommand(cmd: string) returns (r: string)
    ensures r == Unwrap(cmd)
  {
    var s := TrimSpace(cmd);
    for k := 0 to 4
      invariant UnwrapFrom(s, k) == Unwrap(cmd)
    {
      var cut := Cut(s, Flag(k));
      if cut.Some? {
        r := UnquoteShell(TrimSpace(cut.value));
        return;
      }
    }
    return s;
  }

  lemma {:induction false} NothingToDecode(s: string)
    requires '\\' !in s
    ensures Decode(s) == s
  {
    if s != [] {
      NothingToDecode(s[1..]);
    }
  }

  // ---- quoting ----

  datatype Style = Single | Double

  function Mark(q: Style): char {
    if q.Single? then '\'' else '"'
  }

  /** One character of a body, quoted: sections 2.2.2 and 2.2.3 of the Shell
      Command Language. */
  function QuotedChar(q: Style, c: char): string {
    match q
    case Single => if c == '\'' then IDIOM else [c]
    case Double => if Escapable(c) then ['\\', c] else [c]
  }

  function Inner(q: Style, body: string): string {
    if body == [] then [] else QuotedChar(q, body[0]) + Inner(q, body[1..])
  }

  function Quoted(q: Style, body: string): string {
    [Mark(q)] + Inner(q, body) + [Mark(q)]
  }

  lemma {:induction false} ReplaceInvertsInner(body: string)
    ensures ReplaceIdiom(Inner(Single, body)) == body
  {
    if body != [] {
      var rest := Inner(Single, body[1..]);
      ReplaceInvertsInner(body[1..]);
      var s := Inner(Single, body);
      if body[0] == '\'' {
        assert s[4..] == rest && IDIOM <= s;
      } else {
        assert s[0] == body[0] && s[1..] == rest;
        assert IDIOM[0] == '\'' && !(IDIOM <= s);
      }
    }
  }

  lemma InnerFirst(q: Style, body: string, t: string)
    requires body != []
    ensures Inner(q, body) + t == QuotedChar(q, body[0]) + (Inner(q, body[1..]) + t)
  {
  }

  lemma ConsAppend(s: string, t: string)
    requires s != []
    ensures [s[0]] + (s[1..] + t) == s + t
  {
  }

  lemma DecodeChar(c: char, rest: string)
    ensures Decode(QuotedChar(Double, c) + rest) == [c] + Decode(rest)
  {
    var s := QuotedChar(Double, c) + rest;
    if Escapable(c) {
      assert s[0] == '\\' && s[1] == c && s[2..] == rest;
    } else {
      assert s[0] == c && s[1..] == rest;
    }
  }

  /** Decoding gives an escaped text back and goes on behind it. */
  lemma {:induction false} DecodeResumes(body: string, t: string)
    ensures Decode(Inner(Double, body) + t) == body + Decode(t)
    decreases |body|
  {
    if body == [] {
      assert Inner(Double, body) + t == t;
      assert body + Decode(t) == Decode(t);
    } else {
      DecodeResumes(body[1..], t);
      DecodeChar(body[0], Inner(Double, body[1..]) + t);
      InnerFirst(Double, body, t);
      ConsAppend(body, Decode(t));
    }
  }

  /** What a backslash does not escape keeps it, and a line continuation
      between two parts leaves nothing, as in bash. */
  lemma OtherBackslashes(a: string, c: char, b: string)
    requires !Escapable(c)
    ensures Decode(Inner(Double, a) + (['\\', c] + Inner(Double, b))) == a + (if c == '\n' then b else ['\\', c] + b)
  {
    var t := ['\\', c] + Inner(Double, b);
    DecodeResumes(a, t);
    DecodeResumes(b, []);
    assert Inner(Double, b) + [] == Inner(Double, b) && b + [] == b;
    assert t[1..] == [c] + Inner(Double, b) && t[2..] == Inner(Double, b);
    if c != '\n' {
      assert t[1..][1..] == Inner(Double, b);
      assert Decode(t[1..]) == [c] + b;
      assert ['\\'] + ([c] + b) == ['\\', c] + b;
    }
  }

  /** Unquoting inverts quoting, whatever the body. */
  lemma UnquoteInverts(q: Style, body: string)
    ensures Unquote(Quoted(q, body)) == body
  {
    var s := Quoted(q, body);
    assert s[1..|s| - 1] == Inner(q, body);
    if q.Single? {
      ReplaceInvertsInner(body);
    } else {
      DecodeResumes(body, []);
      assert Inner(Double, body) + [] == Inner(Double, body) && body + [] == body;
    }
  }

  // ---- through the wrapper ----

  /** How many plain spaces and tabs s has. */
  function Blanks(s: string): nat {
    if s == [] then 0 else (if IsBlank(s[0]) then 1 else 0) + Blanks(s[1..])
  }

  predicate IsBlank(c: char) {
    c == ' ' || c == '\t'
  }

  predicate NoSpace(s: string) {
    forall i :: 0 <= i < |s| ==> !IsSpace(s[i])
  }

  /** Whether f occurs in s. */
  predicate Contains(s: string, f: string) {
    Cut(s, f).Some?
  }

  predicate At(s: string, f: string, i: int) {
    0 <= i <= |s| - |f| && s[i..i + |f|] == f
  }

  /** The cut is at the first place f occurs, and there is none only if f does
      not occur. */
  lemma {:induction false} CutIsAtFirst(s: string, f: string, i: nat)
    requires At(s, f, i) && forall j :: 0 <= j < i ==> !At(s, f, j)
    ensures Cut(s, f) == Some(s[i + |f|..])
    decreases |s|
  {
    if i == 0 {
      assert f <= s;
    } else {
      assert !(f <= s) by {
        assert !At(s, f, 0);
      }
      assert At(s[1..], f, i - 1) by {
        assert s[1..][i - 1..i - 1 + |f|] == s[i..i + |f|];
      }
      forall j | 0 <= j < i - 1 ensures !At(s[1..], f, j) {
        assert !At(s, f, j + 1);
        assert j + |f| <= |s[1..]| ==> s[1..][j..j + |f|] == s[j + 1..j + 1 + |f|];
      }
      CutIsAtFirst(s[1..], f, i - 1);
      assert s[1..][i - 1 + |f|..] == s[i + |f|..];
    }
  }

  lemma {:induction false} NoCutNowhere(s: string, f: string, i: int)
    requires !Contains(s, f)
    ensures !At(s, f, i)
    decreases |s|
  {
    if 0 < i <= |s| - |f| {
      assert s[1..][i - 1..i - 1 + |f|] == s[i..i + |f|];
      NoCutNowhere(s[1..], f, i - 1);
    }
  }

  lemma {:induction false} BlanksAppend(a: string, b: string)
    ensures Blanks(a + b) == Blanks(a) + Blanks(b)
  {
    if a == [] {
      assert a + b == b;
    } else {
      assert (a + b)[1..] == a[1..] + b;
      BlanksAppend(a[1..], b);
    }
  }

  lemma {:induction false} BlanksTrimLeft(s: string)
    ensures Blanks(TrimLeft(s)) <= Blanks(s)
  {
    if s != [] && IsSpace(s[0]) {
      BlanksTrimLeft(s[1..]);
    }
  }

  lemma {:induction false} BlanksTrimRight(s: string)
    ensures Blanks(TrimRight(s)) <= Blanks(s)
    decreases |s|
  {
    if s != [] && IsSpace(s[|s| - 1]) {
      BlanksTrimRight(s[..|s| - 1]);
      BlanksAppend(s[..|s| - 1], s[|s| - 1..]);
      assert s[..|s| - 1] + s[|s| - 1..] == s;
    }
  }

  lemma {:induction false} BlanksReplace(s: string)
    ensures Blanks(ReplaceIdiom(s)) <= Blanks(s)
  {
    if IDIOM <= s {
      BlanksReplace(s[4..]);
      BlanksAppend(s[..4], s[4..]);
      assert s[..4] + s[4..] == s;
    } else if s != [] {
      BlanksReplace(s[1..]);
    }
  }

  lemma {:induction false} BlanksDecode(s: string)
    ensures Blanks(Decode(s)) <= Blanks(s)
  {
    if s != [] {
      if s[0] != '\\' || |s| == 1 {
        BlanksDecode(s[1..]);
      } else if Escapable(s[1]) || s[1] == '\n' {
        BlanksDecode(s[2..]);
        assert s[1..][1..] == s[2..];
      } else {
        BlanksDecode(s[1..]);
      }
    }
  }

  lemma BlanksUnquote(s: string)
    ensures Blanks(Unquote(s)) <= Blanks(s)
  {
    if |s| >= 2 {
      var body := s[1..|s| - 1];
      assert s == [s[0]] + body + [s[|s| - 1]];
      BlanksAppend([s[0]] + body, [s[|s| - 1]]);
      BlanksAppend([s[0]], body);
      BlanksReplace(body);
      BlanksDecode(body);
    }
  }

  lemma {:induction false} BlanksInner(q: Style, body: string)
    ensures Blanks(Inner(q, body)) == Blanks(body)
  {
    if body != [] {
      BlanksInner(q, body[1..]);
      BlanksAppend(QuotedChar(q, body[0]), Inner(q, body[1..]));
      BlanksOfChar(q, body[0]);
    }
  }

  lemma BlanksOfChar(q: Style, c: char)
    ensures Blanks(QuotedChar(q, c)) == if IsBlank(c) then 1 else 0
  {
    if QuotedChar(q, c) == [c] {
      BlanksOfOne(c);
    } else if q.Single? {
      assert IDIOM == ['\''] + (['\\'] + (['\''] + ['\'']));
      BlanksAppend(['\''], ['\\'] + (['\''] + ['\'']));
      BlanksAppend(['\\'], ['\''] + ['\'']);
      BlanksAppend(['\''], ['\'']);
      BlanksOfOne('\'');
      BlanksOfOne('\\');
    } else {
      assert ['\\', c] == ['\\'] + [c];
      BlanksAppend(['\\'], [c]);
      BlanksOfOne('\\');
      BlanksOfOne(c);
    }
  }

  lemma BlanksOfOne(c: char)
    ensures Blanks([c]) == if IsBlank(c) then 1 else 0
  {
    assert [c][1..] == [];
  }

  /** The rest after a flag has lost at least the flag's blanks. */
  lemma {:induction false} BlanksCut(s: string, k: nat)
    requires k < 4 && Contains(s, Flag(k))
    ensures Blanks(Cut(s, Flag(k)).value) < Blanks(s)
    decreases |s|
  {
    var f := Flag(k);
    if f <= s {
      assert s == f + s[|f|..];
      BlanksAppend(f, s[|f|..]);
      assert f[0] == ' ';
    } else if s != [] {
      BlanksCut(s[1..], k);
    }
  }

  /** A flag starts with a space, so it cannot start in text without one. */
  lemma {:induction false} CutSkips(x: string, s: string, k: nat)
    requires k < 4 && ' ' !in x
    ensures Cut(x + s, Flag(k)) == Cut(s, Flag(k))
  {
    if x == [] {
      assert x + s == s;
    } else {
      assert (x + s)[0] != Flag(k)[0];
      assert (x + s)[1..] == x[1..] + s;
      CutSkips(x[1..], s, k);
    }
  }

  /** One flag is not found at, or running on from, another. */
  lemma OtherFlagSkipped(k: nat, j: nat, q: Style, s: string)
    requires k < 4 && j < 4 && j != k
    ensures Cut(Flag(k) + ([Mark(q)] + s), Flag(j)) == Cut(s, Flag(j))
  {
    var f, g, t := Flag(k), Flag(j), [Mark(q)] + s;
    var w := f + t;
    var n := |f| - 1;
    assert !(g <= w) by {
      assert w[1] == '-' && w[2] == f[2] && w[3] == f[3] && w[n] == f[n];
    }
    assert w[1..] == f[1..n] + (f[n..] + t);
    CutSkips(f[1..n], f[n..] + t, j);
    var v := f[n..] + t;
    assert v[0] == f[n] && v[1] == Mark(q) && v[1..] == t;
    assert !(g <= v) by {
      assert g[1] == '-';
    }
    CutSkips([Mark(q)], s, j);
  }

  /** A flag occurs in a quoted body just when it occurs in the body. */
  lemma {:induction false} FlagInInner(q: Style, body: string, k: nat)
    requires k < 4
    ensures Contains(Inner(q, body) + [Mark(q)], Flag(k)) <==> Contains(body, Flag(k))
  {
    var t := [Mark(q)];
    if body == [] {
      assert Inner(q, body) + t == t + [];
      CutSkips(t, [], k);
    } else {
      var rest := Inner(q, body[1..]);
      var s := Inner(q, body) + t;
      FlagInInner(q, body[1..], k);
      assert s == QuotedChar(q, body[0]) + (rest + t);
      if body[0] == ' ' {
        assert s[1..] == rest + t;
        FlagStartsInner(q, body, Flag(k), k, 0);
      } else {
        CutSkips(QuotedChar(q, body[0]), rest + t, k);
        assert body[0] != Flag(k)[0];
      }
    }
  }

  lemma PrefixTail(f: string, s: string)
    requires f != [] && s != [] && f[0] == s[0]
    ensures f <= s <==> f[1..] <= s[1..]
  {
    assert f == [f[0]] + f[1..] && s == [s[0]] + s[1..];
  }

  /** No character of a flag is touched by quoting. */
  lemma {:induction false} FlagStartsInner(q: Style, body: string, f: string, k: nat, i: nat)
    requires k < 4 && i <= |Flag(k)| && f == Flag(k)[i..]
    ensures f <= Inner(q, body) + [Mark(q)] <==> f <= body
    decreases |f|
  {
    var s := Inner(q, body) + [Mark(q)];
    if f != [] {
      assert f[0] == Flag(k)[i];
      if body == [] {
        assert s[0] == Mark(q) != f[0];
      } else if body[0] == f[0] {
        var u := Inner(q, body[1..]) + [Mark(q)];
        assert s == [body[0]] + u;
        FlagStartsInner(q, body[1..], f[1..], k, i + 1);
        PrefixTail(f, s);
        PrefixTail(f, body);
        assert s[1..] == u;
      } else {
        assert s[0] == QuotedChar(q, body[0])[0] != f[0];
      }
    }
  }

  lemma TrimmedAlready(s: string)
    requires s != [] && !IsSpace(s[0]) && !IsSpace(s[|s| - 1])
    ensures TrimSpace(s) == s
  {
  }

  lemma {:induction false} FirstFound(s: string, k: nat, j: nat)
    requires j <= k < 4 && forall i :: j <= i < k ==> !Contains(s, Flag(i))
    ensures UnwrapFrom(s, j) == UnwrapFrom(s, k)
    decreases k - j
  {
    if j < k {
      FirstFound(s, k, j + 1);
    }
  }

  /** Behind a word and a flag, another flag is cut at where it is in the body. */
  lemma CutBehind(word: string, k: nat, j: nat, q: Style, body: string)
    requires NoSpace(word) && k < 4 && j < 4
    ensures var s, t := word + Flag(k) + Quoted(q, body), Inner(q, body) + [Mark(q)];
      && (j == k ==> Cut(s, Flag(j)) == Some(Quoted(q, body)))
      && (j != k ==> Cut(s, Flag(j)) == Cut(t, Flag(j)))
      && (j != k ==> (Contains(s, Flag(j)) <==> Contains(body, Flag(j))))
  {
    var quoted := Quoted(q, body);
    var t := Inner(q, body) + [Mark(q)];
    assert word + Flag(k) + quoted == word + (Flag(k) + quoted);
    CutSkips(word, Flag(k) + quoted, j);
    if j == k {
      assert (Flag(k) + quoted)[|Flag(k)|..] == quoted;
    } else {
      assert quoted == [Mark(q)] + t;
      OtherFlagSkipped(k, j, q, t);
      FlagInInner(q, body, j);
    }
  }

  /** Behind a shell word and a flag, a quoted body comes back whole just when
      it contains none of the flags that are looked for earlier. */
  lemma UnwrapInvertsIff(word: string, k: nat, q: Style, body: string)
    requires word != [] && NoSpace(word) && k < 4
    ensures Unwrap(word + Flag(k) + Quoted(q, body)) == body
       <==> forall j :: 0 <= j < k ==> !Contains(body, Flag(j))
  {
    var quoted := Quoted(q, body);
    var s := word + Flag(k) + quoted;
    TrimmedAlready(s);
    TrimmedAlready(quoted);
    forall j | 0 <= j < 4
      ensures j == k ==> Cut(s, Flag(j)) == Some(quoted)
      ensures j != k ==> Cut(s, Flag(j)) == Cut(Inner(q, body) + [Mark(q)], Flag(j))
      ensures j != k ==> (Contains(s, Flag(j)) <==> Contains(body, Flag(j)))
    {
      CutBehind(word, k, j, q, body);
    }
    if forall j :: 0 <= j < k ==> !Contains(body, Flag(j)) {
      FirstFound(s, k, 0);
      UnquoteInverts(q, body);
    } else {
      var j := FirstEarlier(body, k);
      FirstFound(s, j, 0);
      CutTooFar(q, body, j);
    }
  }

  function FirstEarlier(body: string, k: nat): (j: nat)
    requires k < 4 && exists j :: 0 <= j < k && Contains(body, Flag(j))
    ensures j < k && Contains(body, Flag(j)) && forall i :: 0 <= i < j ==> !Contains(body, Flag(i))
  {
    if Contains(body, Flag(0)) then 0 else if Contains(body, Flag(1)) then 1 else 2
  }

  /** Cutting inside the quoted body leaves something else: blanks are lost
      and nothing brings them back. */
  lemma CutTooFar(q: Style, body: string, j: nat)
    requires j < 4 && Contains(body, Flag(j))
    ensures var cut := Cut(Inner(q, body) + [Mark(q)], Flag(j));
      cut.Some? && Unquote(TrimSpace(cut.value)) != body
  {
    var t := Inner(q, body) + [Mark(q)];
    FlagInInner(q, body, j);
    var rest := Cut(t, Flag(j)).value;
    BlanksCut(t, j);
    BlanksAppend(Inner(q, body), [Mark(q)]);
    BlanksInner(q, body);
    BlanksTrimLeft(rest);
    BlanksTrimRight(TrimLeft(rest));
    BlanksUnquote(TrimSpace(rest));
  }

  // ---- bodies that are not quoted ----

  /** What trimming drops is white space, and none is left at either end. */
  lemma {:induction false} TrimmedText(s: string) returns (a: string, b: string)
    ensures s == a + TrimSpace(s) + b
    ensures (forall i :: 0 <= i < |a| ==> IsSpace(a[i])) && (forall i :: 0 <= i < |b| ==> IsSpace(b[i]))
    ensures var t := TrimSpace(s); t != [] ==> !IsSpace(t[0]) && !IsSpace(t[|t| - 1])
  {
    a := TrimmedLeft(s);
    b := TrimmedRight(TrimLeft(s));
    assert a + (TrimSpace(s) + b) == a + TrimSpace(s) + b;
  }

  lemma {:induction false} TrimmedLeft(s: string) returns (a: string)
    ensures s == a + TrimLeft(s) && forall i :: 0 <= i < |a| ==> IsSpace(a[i])
    ensures TrimLeft(s) != [] ==> !IsSpace(TrimLeft(s)[0])
  {
    a := [];
    if s != [] && IsSpace(s[0]) {
      var t := TrimmedLeft(s[1..]);
      a := [s[0]] + t;
    }
  }

  lemma EndMoves(s: string, a: string, t: string)
    requires s != [] && s[..|s| - 1] == a + t
    ensures s == a + (t + [s[|s| - 1]])
  {
  }

  lemma {:induction false} TrimmedRight(s: string) returns (b: string)
    ensures s == TrimRight(s) + b && forall i :: 0 <= i < |b| ==> IsSpace(b[i])
    ensures TrimRight(s) <= s
    ensures var t := TrimRight(s); t != [] ==> !IsSpace(t[|t| - 1])
  {
    b := [];
    if s != [] && IsSpace(s[|s| - 1]) {
      var n := |s| - 1;
      var t := TrimmedRight(s[..n]);
      b := t + [s[n]];
      EndMoves(s, TrimRight(s), t);
    }
  }

  /** Not one matching pair of quotes around a text. */
  predicate Bare(s: string) {
    |s| < 2 || !((s[0] == '\'' && s[|s| - 1] == '\'') || (s[0] == '"' && s[|s| - 1] == '"'))
  }

  /** A bare body behind the first of the flags that occurs comes back trimmed
      and otherwise unchanged. */
  lemma BareComesBack(cmd: string, k: nat, rest: string)
    requires k < 4 && Cut(TrimSpace(cmd), Flag(k)) == Some(rest)
    requires forall j :: 0 <= j < k ==> !Contains(TrimSpace(cmd), Flag(j))
    requires Bare(TrimSpace(rest))
    ensures Unwrap(cmd) == TrimSpace(rest)
  {
    FirstFound(TrimSpace(cmd), k, 0);
  }

  /** A command without any of the flags comes back trimmed and otherwise
      unchanged. */
  lemma NoFlagComesBack(cmd: string)
    requires forall j :: 0 <= j < 4 ==> !Contains(TrimSpace(cmd), Flag(j))
    ensures Unwrap(cmd) == TrimSpace(cmd)
  {
    assert UnwrapFrom(TrimSpace(cmd), 3) == TrimSpace(cmd);
    FirstFound(TrimSpace(cmd), 3, 0);
  }

  /** So the login-shell form always comes back whole. */
  lemma LoginShellInverts(word: string, q: Style, body: string)
    requires word != [] && NoSpace(word)
    ensures Unwrap(word + Flag(0) + Quoted(q, body)) == body
  {
    UnwrapInvertsIff(word, 0, q, body);
  }

  /** The plain form does not: a body that holds the login-shell flag is cut
      there. */
  lemma PlainShellFails(word: string, q: Style)
    requires word != [] && NoSpace(word)
    ensures Unwrap(word + Flag(1) + Quoted(q, Flag(0))) != Flag(0)
  {
    assert Flag(0) <= Flag(0);
    assert Contains(Flag(0), Flag(0));
    UnwrapInvertsIff(word, 1, q, Flag(0));
  }
}
