/** The deep merge of thread config, on the maps and slices it updates in
    place. A ghost tree describes what a value looks like on the heap: which
    object each part is and what it holds. */
module ConfigHeap {
  import opened ConfigValues

  /** map[string]any */
  class AnyMap {
    var entries: map<Text, Value>

    constructor ()
      ensures entries == map[]
    {
      entries := map[];
    }
  }

  /** map[string]string */
  class TextMap {
    var rows: map<Text, Text>

    constructor ()
      ensures rows == map[]
    {
      rows := map[];
    }
  }

  /** An any, by its dynamic type; null is the nil map or slice. */
  datatype Value =
    | Leaf(n: int)
    | OfMap(m: AnyMap?)
    | OfSlice(s: array?<Value>)
    | OfTable(t: TextMap?)
    | OfWords(w: array?<Text>)

  /** foot holds every object a map or slice is made of. */
  datatype Tree =
    | Atom(n: int)
    | NoMap | MapAt(m: AnyMap, kids: map<Text, Tree>, foot: set<object>)
    | NoSlice | SliceAt(s: array<Value>, elems: seq<Tree>, foot: set<object>)
    | NoTable | TableAt(t: TextMap, rows: map<Text, Text>)
    | NoWords | WordsAt(w: array<Text>, words: seq<Text>)

  ghost function Objs(t: Tree): set<object> {
    match t
    case MapAt(_, _, foot) => foot
    case SliceAt(_, _, foot) => foot
    case TableAt(m, _) => {m}
    case WordsAt(w, _) => {w}
    case _ => {}
  }

  /** v is, on the heap, what t says. Parts may be shared, so a caller's map
      may hold the same map twice; a cyclic one has no tree. */
  ghost predicate Rep(v: Value, t: Tree)
    reads Objs(t)
    decreases t, 1
  {
    match t
    case Atom(n) => v == Leaf(n)
    case NoMap => v == OfMap(null)
    case MapAt(m, _, _) => v == OfMap(m) && RepMap(m, t)
    case NoSlice => v == OfSlice(null)
    case SliceAt(s, _, foot) => v == OfSlice(s) && s in foot && RepElems(s[..], t)
    case NoTable => v == OfTable(null)
    case TableAt(m, rows) => v == OfTable(m) && m.rows == rows
    case NoWords => v == OfWords(null)
    case WordsAt(w, words) => v == OfWords(w) && w[..] == words
  }

  ghost predicate RepMap(m: AnyMap, t: Tree)
    requires t.MapAt?
    reads t.foot
    decreases t, 0
  {
    && m == t.m && m in t.foot && m.entries.Keys == t.kids.Keys
    && forall k :: k in t.kids ==> Objs(t.kids[k]) <= t.foot && Rep(m.entries[k], t.kids[k])
  }

  ghost predicate RepElems(vals: seq<Value>, t: Tree)
    requires t.SliceAt?
    reads t.foot
    decreases t, 0
  {
    && |vals| == |t.elems|
    && forall i :: 0 <= i < |vals| ==> Objs(t.elems[i]) <= t.foot && Rep(vals[i], t.elems[i])
  }

  /** Nothing in t is shared. */
  ghost predicate Apart(t: Tree)
    decreases t, 1
  {
    match t
    case MapAt(_, _, _) => ApartMap(t)
    case SliceAt(_, _, _) => ApartElems(t)
    case _ => true
  }

  ghost predicate ApartMap(t: Tree)
    requires t.MapAt?
    decreases t, 0
  {
    && (forall k :: k in t.kids ==> Apart(t.kids[k]) && t.m !in Objs(t.kids[k]))
    && (forall j, k :: j in t.kids && k in t.kids && j != k ==> Objs(t.kids[j]) !! Objs(t.kids[k]))
  }

  ghost predicate ApartElems(t: Tree)
    requires t.SliceAt?
    decreases t, 0
  {
    && (forall i :: 0 <= i < |t.elems| ==> Apart(t.elems[i]) && t.s !in Objs(t.elems[i]))
    && (forall i, j :: 0 <= i < j < |t.elems| ==> Objs(t.elems[i]) !! Objs(t.elems[j]))
  }

  /** The value t is. */
  ghost function Val(t: Tree): Config {
    match t
    case Atom(n) => Scalar(n)
    case NoMap => NilObject
    case MapAt(_, kids, _) => Object(map k | k in kids :: Val(kids[k]))
    case NoSlice => NilList
    case SliceAt(_, elems, _) => List(seq(|elems|, i requires 0 <= i < |elems| => Val(elems[i])))
    case NoTable => NilTable
    case TableAt(_, rows) => Table(rows)
    case NoWords => NilWords
    case WordsAt(_, words) => Words(words)
  }

  // ---- copying ----

  method CopyTable(src: TextMap?) returns (out: TextMap)
    ensures fresh(out) && out.rows == if src == null then map[] else src.rows
  {
    out := new TextMap();
    if src != null {
      var todo := src.rows.Keys;
      while todo != {}
        invariant fresh(out) && todo <= src.rows.Keys
        invariant out.rows == map k | k in src.rows && k !in todo :: src.rows[k]
        decreases todo
      {
        var k :| k in todo;
        out.rows := out.rows[k := src.rows[k]];
        todo := todo - {k};
      }
    }
  }

  method CopyWords(src: array?<Text>) returns (out: array?<Text>)
    ensures src == null || src.Length == 0 ==> out == null
    ensures src != null && src.Length > 0 ==> out != null && fresh(out) && out[..] == src[..]
  {
    if src == null || src.Length == 0 {
      out := null;
    } else {
      out := new Text[src.Length](i requires 0 <= i < src.Length reads src => src[i]);
    }
  }

  /** t with et appended. */
  ghost function WithElem(t: Tree, et: Tree): Tree
    requires t.SliceAt?
  {
    SliceAt(t.s, t.elems + [et], t.foot + Objs(et))
  }

  lemma ElemAppended(vals: seq<Value>, t: Tree, e: Value, et: Tree)
    requires t.SliceAt? && RepElems(vals, t) && ApartElems(t)
    requires Rep(e, et) && Apart(et) && Objs(et) !! t.foot && t.s !in Objs(et)
    ensures RepElems(vals + [e], WithElem(t, et)) && ApartElems(WithElem(t, et))
    ensures Val(WithElem(t, et)) == List(Val(t).items + [Val(et)])
  {
    assert Val(WithElem(t, et)).items == Val(t).items + [Val(et)];
  }

  /** A finished slice is its own part too. */
  lemma SliceDone(out: array<Value>, t: Tree)
    requires t.SliceAt? && t.s == out && RepElems(out[..], t) && ApartElems(t)
    ensures var rt := SliceAt(out, t.elems, t.foot + {out});
      Rep(OfSlice(out), rt) && Apart(rt) && Val(rt) == Val(t)
  {
  }

  lemma CopyElems(t: Tree, want: seq<Config>)
    requires t.SliceAt? && Copy(Val(t)) == List(want)
    ensures |want| == |t.elems| && forall i :: 0 <= i < |want| ==> want[i] == Copy(Val(t.elems[i]))
  {
  }

  /** One turn of the loop. */
  method CopyElem(out: array<Value>, i: nat, v: Value, ghost t: Tree, ghost vt: Tree) returns (ghost rt: Tree)
    requires i < out.Length && t.SliceAt? && t.s == out && out !in t.foot
    requires RepElems(out[..i], t) && ApartElems(t) && Rep(v, vt) && out !in Objs(vt)
    modifies out
    ensures rt.SliceAt? && rt.s == out && out !in rt.foot && t.foot <= rt.foot && fresh(rt.foot - t.foot)
    ensures RepElems(out[..i + 1], rt) && ApartElems(rt)
    ensures Val(rt) == List(Val(t).items + [Copy(Val(vt))])
    decreases vt, 3
  {
    var e, et := CopyValue(v, vt);
    ElemAppended(out[..i], t, e, et);
    out[i] := e;
    assert out[..i + 1] == out[..i] + [e];
    rt := WithElem(t, et);
  }

  method CopySlice(src: array?<Value>, ghost t: Tree) returns (out: array<Value>, ghost rt: Tree)
    requires Rep(OfSlice(src), t)
    ensures Rep(OfSlice(out), rt) && Apart(rt) && fresh(Objs(rt))
    ensures Val(rt) == Copy(Val(t))
    decreases t, 0
  {
    var n := if src == null then 0 else src.Length;
    out := new Value[n];
    rt := SliceAt(out, [], {});
    ghost var want := Copy(Val(t)).items;
    if src != null {
      CopyElems(t, want);
    }
    var i := 0;
    while i < n
      invariant 0 <= i <= n
      invariant rt.SliceAt? && rt.s == out && out !in rt.foot && fresh(rt.foot)
      invariant RepElems(out[..i], rt) && ApartElems(rt)
      invariant Val(rt) == List(want[..i])
    {
      rt := CopyElem(out, i, src[i], rt, t.elems[i]);
      i := i + 1;
    }
    assert out[..n] == out[..] && want[..n] == want;
    SliceDone(out, rt);
    rt := SliceAt(out, rt.elems, rt.foot + {out});
  }

  /** A copy has the copied value and shares nothing with the original. */
  method CopyValue(v: Value, ghost t: Tree) returns (r: Value, ghost rt: Tree)
    requires Rep(v, t)
    ensures Rep(r, rt) && Apart(rt) && fresh(Objs(rt))
    ensures Val(rt) == Copy(Val(t))
    decreases t, 2
  {
    match v
    case Leaf(_) =>
      r, rt := v, t;
    case OfMap(m) =>
      var out, ot := MergeConfig(null, NoMap, m, t);
      r, rt := OfMap(out), ot;
    case OfSlice(s) =>
      var out, ot := CopySlice(s, t);
      r, rt := OfSlice(out), ot;
    case OfTable(m) =>
      var out := CopyTable(m);
      r, rt := OfTable(out), TableAt(out, out.rows);
    case OfWords(w) =>
      var out := CopyWords(w);
      r, rt := OfWords(out), if out == null then NoWords else WordsAt(out, out[..]);
  }

  // ---- merging ----

  /** Every entry but k's is as t says. */
  ghost predicate RepBut(dst: AnyMap, t: Tree, k: Text)
    requires t.MapAt?
    reads dst, t.foot
  {
    && dst == t.m && dst in t.foot && dst.entries.Keys == t.kids.Keys
    && forall j :: j in t.kids && j != k ==> Objs(t.kids[j]) <= t.foot && Rep(dst.entries[j], t.kids[j])
  }

  /** t with kt under k. */
  ghost function WithKid(t: Tree, k: Text, kt: Tree): Tree
    requires t.MapAt?
  {
    MapAt(t.m, t.kids[k := kt], t.foot + Objs(kt))
  }

  /** A part can go under k if it is apart, from the map and from its other parts. */
  ghost predicate Fits(t: Tree, k: Text, kt: Tree)
    requires t.MapAt?
  {
    && Apart(kt) && t.m !in Objs(kt)
    && forall j :: j in t.kids && j != k ==> Objs(kt) !! Objs(t.kids[j])
  }

  lemma ApartWithKid(t: Tree, k: Text, kt: Tree)
    requires t.MapAt? && ApartMap(t) && Fits(t, k, kt)
    ensures ApartMap(WithKid(t, k, kt))
    ensures Objs(WithKid(t, k, kt)) == Objs(t) + Objs(kt)
  {
  }

  lemma ValWithKid(t: Tree, k: Text, kt: Tree)
    requires t.MapAt?
    ensures Val(WithKid(t, k, kt)).fields == Val(t).fields[k := Val(kt)]
  {
  }

  method Put(dst: AnyMap, k: Text, v: Value, ghost t: Tree, ghost kt: Tree)
    requires t.MapAt? && RepBut(dst, t, k) && ApartMap(t) && Rep(v, kt) && Fits(t, k, kt)
    modifies dst
    ensures RepMap(dst, WithKid(t, k, kt))
  {
    dst.entries := dst.entries[k := v];
  }

  lemma MapsAreObjects(v: Value, t: Tree)
    requires Rep(v, t)
    ensures v.OfMap? <==> Val(t).IsObject()
  {
  }

  /** One key: merged into the map already there, or replaced by a copy. */
  method MergeKey(dst: AnyMap, ghost dt: Tree, k: Text, v: Value, ghost vt: Tree)
    returns (ghost kt: Tree, ghost added: set<object>)
    requires dt.MapAt? && RepMap(dst, dt) && ApartMap(dt) && Rep(v, vt) && Objs(dt) !! Objs(vt)
    modifies Objs(dt)
    ensures RepMap(dst, WithKid(dt, k, kt)) && Fits(dt, k, kt) 
    ensures fresh(added) && Objs(kt) <= Objs(dt) + added
    ensures Val(kt) == if k in dt.kids then Merge(Val(dt.kids[k]), Val(vt)) else Copy(Val(vt))
    decreases vt, 3
  {
    MapsAreObjects(v, vt);
    if k in dst.entries {
      MapsAreObjects(dst.entries[k], dt.kids[k]);
    }
    if v.OfMap? && k in dst.entries && dst.entries[k].OfMap? {
      var m;
      m, kt := MergeConfig(dst.entries[k].m, dt.kids[k], v.m, vt);
      added := Objs(kt) - Objs(dt.kids[k]);
      Put(dst, k, OfMap(m), dt, kt);
    } else {
      var c;
      c, kt := CopyValue(v, vt);
      added := Objs(kt);
      Put(dst, k, c, dt, kt);
    }
  }

  /** d with the keys of s outside todo laid over it. */
  ghost function Laid(d: Config, s: Config, todo: set<Text>): Config {
    Merge(d, Object(s.Fields() - todo))
  }

  lemma LaidNext(d: Config, s: Config, todo: set<Text>, k: Text)
    requires d.IsObject() && k in todo && k in s.Fields()
    ensures Laid(d, s, todo).Object? && Laid(d, s, todo - {k}).Object?
    ensures k in d.Fields() <==> k in Laid(d, s, todo).fields
    ensures k in d.Fields() ==> Laid(d, s, todo).fields[k] == d.Fields()[k]
    ensures Laid(d, s, todo - {k}).fields == Laid(d, s, todo).fields[k :=
              if k in d.Fields() then Merge(d.Fields()[k], s.Fields()[k]) else Copy(s.Fields()[k])]
  {
  }

  /** So merging one more key takes the value one key further. */
  lemma LaidStep(d: Config, s: Config, todo: set<Text>, k: Text, t: Tree, kt: Tree)
    requires d.IsObject() && k in todo && k in s.Fields() && t.MapAt? && Val(t) == Laid(d, s, todo)
    requires Val(kt) == if k in t.kids then Merge(Val(t.kids[k]), s.Fields()[k]) else Copy(s.Fields()[k])
    ensures Val(WithKid(t, k, kt)) == Laid(d, s, todo - {k})
  {
    LaidNext(d, s, todo, k);
    ValWithKid(t, k, kt);
  }

  lemma MergeNone(d: Config)
    requires d.IsObject()
    ensures Merge(d, Object(map[])) == Object(d.Fields())
  {
    assert Merge(d, Object(map[])).fields == d.Fields();
  }

  lemma MergeByFields(d: Config, s: Config)
    requires d.IsObject() && s.IsObject()
    ensures Merge(d, Object(s.Fields())) == Merge(d, s)
  {
    assert Merge(d, Object(s.Fields())).fields == Merge(d, s).fields;
  }

  lemma LaidAll(d: Config, s: Config)
    requires d.IsObject() && s.IsObject()
    ensures Laid(d, s, s.Fields().Keys) == Object(d.Fields())
    ensures Laid(d, s, {}) == Merge(d, s)
  {
    var f := s.Fields();
    assert f - f.Keys == map[] && f - {} == f;
    MergeNone(d);
    MergeByFields(d, s);
  }

  /** One turn of the loop, on key k of those in todo. */
  method MergeNext(dst: AnyMap, ghost t: Tree, k: Text, v: Value, ghost vt: Tree,
                   ghost d: Config, ghost s: Config, ghost todo: set<Text>)
    returns (ghost rt: Tree, ghost added: set<object>)
    requires t.MapAt? && RepMap(dst, t) && ApartMap(t) && Rep(v, vt) && Objs(t) !! Objs(vt)
    requires d.IsObject() && k in todo && k in s.Fields() && Val(vt) == s.Fields()[k]
    requires Val(t) == Laid(d, s, todo)
    modifies Objs(t)
    ensures rt.MapAt? && RepMap(dst, rt) && ApartMap(rt)
    ensures fresh(added) && Objs(rt) <= Objs(t) + added
    ensures Val(rt) == Laid(d, s, todo - {k})
    decreases vt, 4
  {
    ghost var kt;
    kt, added := MergeKey(dst, t, k, v, vt);
    ApartWithKid(t, k, kt);
    LaidStep(d, s, todo, k, t, kt);
    rt := WithKid(t, k, kt);
  }

  method MergeKeys(dst: AnyMap, ghost dt: Tree, src: AnyMap, ghost st: Tree) returns (ghost rt: Tree)
    requires dt.MapAt? && RepMap(dst, dt) && ApartMap(dt) && st.MapAt? && RepMap(src, st) && Objs(dt) !! Objs(st)
    modifies Objs(dt)
    ensures rt.MapAt? && RepMap(dst, rt) && ApartMap(rt)
    ensures fresh(Objs(rt) - Objs(dt))
    ensures Val(rt) == Merge(Val(dt), Val(st))
    decreases st, 0
  {
    rt := dt;
    LaidAll(Val(dt), Val(st));
    var todo := src.entries.Keys;
    while todo != {}
      invariant rt.MapAt? && RepMap(dst, rt) && ApartMap(rt)
      invariant forall o :: o in Objs(rt) && o !in Objs(dt) ==> fresh(o)
      invariant todo <= src.entries.Keys
      invariant Val(rt) == Laid(Val(dt), Val(st), todo)
      decreases todo
    {
      var k :| k in todo;
      ghost var added;
      rt, added := MergeNext(dst, rt, k, src.entries[k], st.kids[k], Val(dt), Val(st), todo);
      todo := todo - {k};
    }
  }

  /** mergeConfig: the merged value, in dst, which keeps its identity; every
      object added is new, so nothing of src becomes part of it, and src,
      disjoint from what is modified, is as it was. */
  method MergeConfig(dst: AnyMap?, ghost dt: Tree, src: AnyMap?, ghost st: Tree) returns (r: AnyMap, ghost rt: Tree)
    requires Rep(OfMap(dst), dt) && Apart(dt) && Rep(OfMap(src), st) && Objs(dt) !! Objs(st)
    modifies Objs(dt)
    ensures dst != null ==> r == dst
    ensures Rep(OfMap(r), rt) && Apart(rt) && fresh(Objs(rt) - Objs(dt))
    ensures Rep(OfMap(src), st)
    ensures Val(rt) == Merge(Val(dt), Val(st))
    decreases st, 1
  {
    rt := dt;
    if dst == null {
      r := new AnyMap();
      rt := MapAt(r, map[], {r});
    } else {
      r := dst;
    }
    if src != null {
      rt := MergeKeys(r, rt, src, st);
    }
  }
}
