/** The deep merge of thread config, on values. ConfigHeap refines it with the
    maps and slices the program updates in place. */
module ConfigValues {
  import opened Basics

  /** A string, as a key or as a value. */
  datatype Text = Text(chars: string)

  /** A config value. Nil and empty maps and slices differ: they encode as
      null and as {} or []. Scalar stands for every value copied as it is. */
  datatype Config =
    | Scalar(n: int)
    | NilObject | Object(fields: map<Text, Config>)
    | NilList | List(items: seq<Config>)
    | NilTable | Table(rows: map<Text, Text>)
    | NilWords | Words(words: seq<Text>)
  {
    predicate IsObject() {
      NilObject? || Object?
    }

    function Fields(): (r: map<Text, Config>)
      ensures forall k :: k in r ==> r[k] < this
    {
      if Object? then fields else map[]
    }
  }

  /** What copying a value makes of it. */
  function Copy(v: Config): Config {
    match v
    case Scalar(_) => v
    case NilObject => Object(map[])
    case Object(f) => Object(map k | k in f :: Copy(f[k]))
    case NilList => List([])
    case List(s) => List(seq(|s|, i requires 0 <= i < |s| => Copy(s[i])))
    case NilTable => Table(map[])
    case Table(_) => v
    case NilWords => NilWords
    case Words(w) => if w == [] then NilWords else v
  }

  /** s laid over d: objects merge key by key, anything else replaces. */
  function Merge(d: Config, s: Config): Config
    decreases s
  {
    if d.IsObject() && s.IsObject() then
      var df, sf := d.Fields(), s.Fields();
      Object(map k | k in df.Keys + sf.Keys ::
        if k !in sf then df[k] else if k !in df then Copy(sf[k]) else Merge(df[k], sf[k]))
    else Copy(s)
  }

  // ---- copying ----

  /** No nil map or []any and no empty non-nil []string anywhere. */
  predicate Plain(v: Config) {
    match v
    case Object(f) => forall k :: k in f ==> Plain(f[k])
    case List(s) => forall i :: 0 <= i < |s| ==> Plain(s[i])
    case Words(w) => w != []
    case Scalar(_) => true
    case Table(_) => true
    case NilWords => true
    case _ => false
  }

  /** A copy is exact just when the value is plain, and a copy is plain: so
      copying again changes nothing. */
  lemma {:induction false} CopyExactIffPlain(v: Config)
    ensures Copy(v) == v <==> Plain(v)
    ensures Plain(Copy(v))
  {
    match v
    case Object(f) =>
      forall k | k in f ensures (Copy(f[k]) == f[k] <==> Plain(f[k])) && Plain(Copy(f[k])) {
        CopyExactIffPlain(f[k]);
      }
      if Copy(v) == v {
        forall k | k in f ensures Copy(f[k]) == f[k] {
          assert Copy(v).fields[k] == Copy(f[k]);
        }
      }
      if Plain(v) {
        assert Copy(v).fields == f;
      }
    case List(s) =>
      forall i | 0 <= i < |s| ensures (Copy(s[i]) == s[i] <==> Plain(s[i])) && Plain(Copy(s[i])) {
        CopyExactIffPlain(s[i]);
      }
      if Copy(v) == v {
        forall i | 0 <= i < |s| ensures Copy(s[i]) == s[i] {
          assert Copy(v).items[i] == Copy(s[i]);
        }
      }
      if Plain(v) {
        assert Copy(v).items == s;
      }
    case _ =>
  }

  /** Each of the values a copy changes, alone. */
  lemma InexactCopies()
    ensures Copy(NilObject) != NilObject && Copy(NilList) != NilList
    ensures Copy(NilTable) != NilTable && Copy(Words([])) != Words([])
  {
  }

  /** v and w hold the same, nil and empty taken for one, all the way down. */
  predicate Alike(v: Config, w: Config)
    decreases v
  {
    if v.Scalar? then w == v
    else if v.IsObject() then
      && w.IsObject() && v.Fields().Keys == w.Fields().Keys
      && forall k :: k in v.Fields() ==> Alike(v.Fields()[k], w.Fields()[k])
    else if v.NilTable? || v.Table? then
      (w.NilTable? || w.Table?) && (if v.Table? then v.rows else map[]) == if w.Table? then w.rows else map[]
    else if v.NilWords? || v.Words? then
      (w.NilWords? || w.Words?) && (if v.Words? then v.words else []) == if w.Words? then w.words else []
    else if v.NilList? then w.NilList? || w == List([])
    else
      && (w.List? || (w.NilList? && v.items == []))
      && (w.List? ==> |w.items| == |v.items| && forall i :: 0 <= i < |v.items| ==> Alike(v.items[i], w.items[i]))
  }

  lemma {:induction false} CopyAlike(v: Config)
    ensures Alike(v, Copy(v))
  {
    match v
    case Object(f) =>
      forall k | k in f ensures Alike(f[k], Copy(f[k])) {
        CopyAlike(f[k]);
      }
    case List(s) =>
      forall i | 0 <= i < |s| ensures Alike(s[i], Copy(s[i])) {
        CopyAlike(s[i]);
      }
    case _ =>
  }

  /** A copy is the one plain value that holds the same as its original. */
  lemma {:induction false} CopyIsThePlainOne(v: Config, w: Config)
    ensures Plain(w) && Alike(v, w) <==> w == Copy(v)
    decreases v
  {
    CopyExactIffPlain(v);
    CopyAlike(v);
    if Plain(w) && Alike(v, w) {
      match v
      case Object(f) =>
        forall k | k in f ensures w.fields[k] == Copy(f[k]) {
          CopyIsThePlainOne(f[k], w.fields[k]);
        }
        assert w.fields == Copy(v).fields;
      case List(s) =>
        forall i | 0 <= i < |s| ensures w.items[i] == Copy(s[i]) {
          CopyIsThePlainOne(s[i], w.items[i]);
        }
        assert w.items == Copy(v).items;
      case NilObject =>
        assert w.fields == map[];
      case _ =>
    }
  }

  lemma {:induction false} MergePlain(d: Config, s: Config)
    requires Plain(d) || !d.IsObject() || !s.IsObject()
    ensures Plain(Merge(d, s))
    decreases s
  {
    CopyExactIffPlain(s);
    if d.IsObject() && s.IsObject() {
      var df, sf := d.Fields(), s.Fields();
      forall k | k in Merge(d, s).fields ensures Plain(Merge(d, s).fields[k]) {
        if k in sf {
          CopyExactIffPlain(sf[k]);
          if k in df {
            MergePlain(df[k], sf[k]);
          }
        }
      }
    }
  }

  // ---- the merge, path by path ----

  /** The value at a path of keys. */
  function Look(v: Config, p: seq<Text>): Option<Config>
    decreases |p|
  {
    if p == [] then Some(v)
    else if p[0] in v.Fields() then Look(v.Fields()[p[0]], p[1..])
    else None
  }

  /** A value without its keys. */
  function Head(v: Config): Config {
    if v.Object? then Object(map[]) else v
  }

  function HeadAt(v: Config, p: seq<Text>): Option<Config> {
    match Look(v, p)
    case Some(x) => Some(Head(x))
    case None => None
  }

  /** Whether v has something other than an object at p or on the way to p. */
  predicate Cuts(v: Config, p: seq<Text>)
    decreases |p|
  {
    !v.IsObject() || (p != [] && p[0] in v.Fields() && Cuts(v.Fields()[p[0]], p[1..]))
  }

  /** What belongs at p when s is laid over d. */
  function Overlaid(d: Config, s: Config, p: seq<Text>): Option<Config> {
    match Look(s, p)
    case Some(x) => Some(Head(Copy(x)))
    case None => if Cuts(s, p) then None else HeadAt(d, p)
  }

  lemma {:induction false} LookCopy(v: Config, p: seq<Text>)
    ensures Look(Copy(v), p) == match Look(v, p) case Some(x) => Some(Copy(x)) case None => None
    decreases |p|
  {
    if p != [] && p[0] in v.Fields() {
      LookCopy(v.Fields()[p[0]], p[1..]);
    }
  }

  lemma {:induction false} NotCutUnder(d: Config, p: seq<Text>)
    requires !d.IsObject() && p != []
    ensures Look(d, p) == None
  {
  }

  /** The merge holds, at every path, what s has there; where s has nothing
      there and nothing but objects on the way, what d has; and nothing else. */
  lemma {:induction false} MergeOverlays(d: Config, s: Config, p: seq<Text>)
    ensures HeadAt(Merge(d, s), p) == Overlaid(d, s, p)
    decreases |p|
  {
    if d.IsObject() && s.IsObject() {
      if p != [] {
        var df, sf := d.Fields(), s.Fields();
        if p[0] in sf && p[0] in df {
          MergeOverlays(df[p[0]], sf[p[0]], p[1..]);
        } else if p[0] in sf {
          LookCopy(sf[p[0]], p[1..]);
          OnlyOverSource(sf[p[0]], p[1..]);
        }
      }
    } else {
      LookCopy(s, p);
      if s.IsObject() && Look(s, p) == None {
        NotCutUnder(d, p);
      }
    }
  }

  /** Nothing under a copy that the original does not have. */
  lemma OnlyOverSource(s: Config, p: seq<Text>)
    ensures HeadAt(Copy(s), p) == match Look(s, p) case Some(x) => Some(Head(Copy(x))) case None => None
  {
    LookCopy(s, p);
  }

  lemma HeadAtKey(v: Config, k: Text)
    ensures HeadAt(v, [k]) == if k in v.Fields() then Some(Head(v.Fields()[k])) else None
  {
    if k in v.Fields() {
      assert [k][1..] == [];
      assert Look(v.Fields()[k], []) == Some(v.Fields()[k]);
    }
  }

  /** A value is known by what it has at every path, so the merge is the only
      value that overlays s on d. */
  lemma {:induction false} KnownByPaths(a: Config, b: Config)
    requires forall p :: HeadAt(a, p) == HeadAt(b, p)
    ensures a == b
    decreases a
  {
    assert HeadAt(a, []) == Some(Head(a)) && HeadAt(b, []) == Some(Head(b));
    if a.Object? {
      forall k | k in a.fields || k in b.fields
        ensures k in a.fields && k in b.fields && a.fields[k] == b.fields[k]
      {
        assert HeadAt(a, [k]) == HeadAt(b, [k]);
        HeadAtKey(a, k);
        HeadAtKey(b, k);
        forall p ensures HeadAt(a.fields[k], p) == HeadAt(b.fields[k], p) {
          assert ([k] + p)[1..] == p;
          assert HeadAt(a, [k] + p) == HeadAt(b, [k] + p);
        }
        KnownByPaths(a.fields[k], b.fields[k]);
      }
      assert a.fields == b.fields;
    }
  }

  lemma MergeIsTheOverlay(d: Config, s: Config, m: Config)
    ensures m == Merge(d, s) <==> forall p :: HeadAt(m, p) == Overlaid(d, s, p)
  {
    forall p ensures HeadAt(Merge(d, s), p) == Overlaid(d, s, p) {
      MergeOverlays(d, s, p);
    }
    if forall p :: HeadAt(m, p) == Overlaid(d, s, p) {
      forall p ensures HeadAt(m, p) == HeadAt(Merge(d, s), p) {
      }
      KnownByPaths(m, Merge(d, s));
    }
  }

  // ---- layering three configs ----

  /** Whether c has every key of a, objects within objects likewise. */
  predicate Within(a: Config, c: Config)
    decreases c
  {
    a.IsObject() && c.IsObject() ==>
      (forall k :: k in a.Fields() ==> k in c.Fields() && Within(a.Fields()[k], c.Fields()[k]))
  }

  /** No path has objects in a and c, something else in b between them, and a
      key in a that c does not set again. */
  predicate Layers(a: Config, b: Config, c: Config)
    decreases c
  {
    a.IsObject() && c.IsObject() ==>
      (if b.IsObject() then
         forall k :: k in a.Fields() && k in b.Fields() && k in c.Fields() ==>
           Layers(a.Fields()[k], b.Fields()[k], c.Fields()[k])
       else Within(a, c))
  }

  lemma {:induction false} AbsorbedIffWithin(a: Config, c: Config)
    ensures Merge(a, c) == Copy(c) <==> Within(a, c)
    decreases c
  {
    if a.IsObject() && c.IsObject() {
      var af, cf := a.Fields(), c.Fields();
      var m, n := Merge(a, c).fields, Copy(c).fields;
      forall k | k in af && k in cf ensures Merge(af[k], cf[k]) == Copy(cf[k]) <==> Within(af[k], cf[k]) {
        AbsorbedIffWithin(af[k], cf[k]);
      }
      assert n.Keys == cf.Keys;
      if Within(a, c) {
        assert m == n;
      } else {
        var k :| k in af && !(k in cf && Within(af[k], cf[k]));
        assert k in m;
        assert k in n ==> m[k] != n[k];
      }
    }
  }

  lemma {:induction false} CopyOfMerge(b: Config, c: Config)
    ensures Copy(Merge(b, c)) == Merge(Copy(b), c)
    decreases c
  {
    CopyExactIffPlain(c);
    CopyExactIffPlain(Copy(c));
    if b.IsObject() && c.IsObject() {
      var bf, cf := b.Fields(), c.Fields();
      var m, n := Copy(Merge(b, c)).fields, Merge(Copy(b), c).fields;
      assert Copy(b).Fields().Keys == bf.Keys;
      assert m.Keys == n.Keys;
      forall k | k in m ensures m[k] == n[k] {
        if k in cf {
          CopyExactIffPlain(cf[k]);
          CopyExactIffPlain(Copy(cf[k]));
          if k in bf {
            CopyOfMerge(bf[k], cf[k]);
          }
        }
      }
      assert m == n;
    }
  }

  lemma {:induction false} MergeOfCopy(a: Config, c: Config)
    ensures Merge(a, Copy(c)) == Merge(a, c)
    decreases c
  {
    CopyExactIffPlain(c);
    CopyExactIffPlain(Copy(c));
    if a.IsObject() && c.IsObject() {
      var af, cf := a.Fields(), c.Fields();
      var m, n := Merge(a, Copy(c)).fields, Merge(a, c).fields;
      assert Copy(c).Fields().Keys == cf.Keys;
      forall k | k in m ensures m[k] == n[k] {
        if k in cf {
          CopyExactIffPlain(cf[k]);
          CopyExactIffPlain(Copy(cf[k]));
          if k in af {
            MergeOfCopy(af[k], cf[k]);
          }
        }
      }
      assert m == n;
    }
  }

  lemma {:induction false} LayersOfObjects(a: Config, b: Config, c: Config)
    requires a.IsObject() && b.IsObject() && c.IsObject()
    ensures Merge(Merge(a, b), c) == Merge(a, Merge(b, c)) <==> Layers(a, b, c)
    decreases c, 0
  {
    var af, bf, cf := a.Fields(), b.Fields(), c.Fields();
    var m, n := Merge(Merge(a, b), c).fields, Merge(a, Merge(b, c)).fields;
    assert m.Keys == n.Keys;
    forall k | k in m
      ensures m[k] == n[k] <==> (k in af && k in bf && k in cf ==> Layers(af[k], bf[k], cf[k]))
    {
      if k in cf {
        CopyExactIffPlain(cf[k]);
        CopyExactIffPlain(Copy(cf[k]));
        if k in bf {
          if k in af {
            MergeAssociatesIff(af[k], bf[k], cf[k]);
          } else {
            CopyOfMerge(bf[k], cf[k]);
          }
        } else if k in af {
          MergeOfCopy(af[k], cf[k]);
        }
      }
    }
    if Layers(a, b, c) {
      assert m == n;
    } else {
      var k :| k in af && k in bf && k in cf && !Layers(af[k], bf[k], cf[k]);
      assert k in m && m[k] != n[k];
    }
  }

  /** The merge is not associative. It is so just when no middle layer puts a
      non-object between two objects and thereby drops a key for good. */
  lemma {:induction false} MergeAssociatesIff(a: Config, b: Config, c: Config)
    ensures Merge(Merge(a, b), c) == Merge(a, Merge(b, c)) <==> Layers(a, b, c)
    decreases c, 1
  {
    CopyExactIffPlain(c);
    CopyExactIffPlain(Copy(c));
    if c.IsObject() {
      if b.IsObject() {
        if a.IsObject() {
          LayersOfObjects(a, b, c);
        } else {
          CopyOfMerge(b, c);
        }
      } else if a.IsObject() {
        AbsorbedIffWithin(a, c);
        MergeOfCopy(a, c);
      }
    }
  }

  /** The smallest such case: an object, a scalar over it, an object over that. */
  lemma MergeDoesNotAssociate(k: Text, l: Text)
    ensures var a := Object(map[k := Object(map[l := Scalar(1)])]);
      var b := Object(map[k := Scalar(2)]);
      var c := Object(map[k := Object(map[])]);
      Merge(Merge(a, b), c) != Merge(a, Merge(b, c))
  {
    var a := Object(map[k := Object(map[l := Scalar(1)])]);
    var b := Object(map[k := Scalar(2)]);
    var c := Object(map[k := Object(map[])]);
    assert !Within(a.fields[k], c.fields[k]) by {
      assert l in a.fields[k].Fields() && l !in c.fields[k].Fields();
    }
    assert !Layers(a.fields[k], b.fields[k], c.fields[k]);
    assert k in a.Fields() && k in b.Fields() && k in c.Fields();
    MergeAssociatesIff(a, b, c);
  }
}
