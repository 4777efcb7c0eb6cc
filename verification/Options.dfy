/** Options layered over a connection: what a call resolves to when the
    connection's own options are first turned back into a list. */
module Options {
  import opened Basics
  import opened ConfigValues
  import opened ConfigHeap

  const NONE := Text("")

  /** One option. C is how a thread config is held: as a value, or as a map on
      the heap. Extra values are sent on unread. */
  datatype Opt<C> =
    | Model(s: Text) | Cwd(s: Text) | Effort(s: Text)
    | Approval(s: Text) | Reviewer(s: Text)
    | TurnExtra(extra: map<Text, Text>)
    | ThreadConfig(config: C)
    | Provider(s: Text) | Instructions(s: Text) | Sandbox(s: Text)
    | ThreadExtra(extra: map<Text, Text>)
    | Ephemeral
    | Env(extra: map<Text, Text>) | OptOut(methods: seq<Text>)

  /** The options that add keys or values to a plain setting. */
  predicate Adds<C>(a: Opt<C>) {
    a.TurnExtra? || a.ThreadExtra? || a.Env? || a.OptOut?
  }

  /** The options that set a string. */
  predicate Texts<C>(a: Opt<C>) {
    a.Model? || a.Cwd? || a.Effort? || a.Provider? || a.Instructions?
  }

  datatype Opts = Opts(
    model: Text, cwd: Text, effort: Text,
    approval: Option<Text>, reviewer: Option<Text>,
    turnExtra: Option<map<Text, Text>>, config: Config,
    provider: Text, instructions: Text, sandbox: Option<Text>,
    threadExtra: Option<map<Text, Text>>, ephemeral: bool,
    env: Option<map<Text, Text>>, optOut: seq<Text>)

  const START := Opts(NONE, NONE, NONE, None, None, None, NilObject, NONE, NONE, None, None, false, None, [])

  /** The option WithThreadConfig makes of a caller's config: a snapshot. */
  function WithThreadConfig(cfg: Config): Opt<Config> {
    Opt.ThreadConfig(Merge(NilObject, cfg))
  }

  function Apply(o: Opts, a: Opt<Config>): Opts {
    match a
    case Model(s) => o.(model := s)
    case Cwd(s) => o.(cwd := s)
    case Effort(s) => o.(effort := s)
    case Approval(s) => o.(approval := Some(s))
    case Reviewer(s) => o.(reviewer := Some(s))
    case TurnExtra(e) => o.(turnExtra := Some(o.turnExtra.GetOr(map[]) + e))
    case ThreadConfig(c) => o.(config := Merge(o.config, c))
    case Provider(s) => o.(provider := s)
    case Instructions(s) => o.(instructions := s)
    case Sandbox(s) => o.(sandbox := Some(s))
    case ThreadExtra(e) => o.(threadExtra := Some(o.threadExtra.GetOr(map[]) + e))
    case Ephemeral => o.(ephemeral := true)
    case Env(e) => o.(env := Some(o.env.GetOr(map[]) + e))
    case OptOut(m) => o.(optOut := o.optOut + m)
  }

  function ApplyAll(o: Opts, opts: seq<Opt<Config>>): Opts
    decreases |opts|
  {
    if opts == [] then o else ApplyAll(Apply(o, opts[0]), opts[1..])
  }

  /** An option list that gives back a resolved connection's settings. */
  function CallOpts(o: Opts): seq<Opt<Config>> {
    FieldOpts<Config>(o) + OneIf(o.config.Object?, WithThreadConfig(o.config))
  }

  function FieldOpts<C>(o: Opts): seq<Opt<C>> {
    FirstFields<C>(o)
    + OneIf(o.approval.Some?, Opt<C>.Approval(o.approval.GetOr(NONE)))
    + OneIf(o.reviewer.Some?, Opt<C>.Reviewer(o.reviewer.GetOr(NONE)))
    + OneIf(o.turnExtra.Some?, Opt<C>.TurnExtra(o.turnExtra.GetOr(map[])))
  }

  function FirstFields<C>(o: Opts): seq<Opt<C>> {
    OneIf(o.model != NONE, Opt<C>.Model(o.model))
    + OneIf(o.cwd != NONE, Opt<C>.Cwd(o.cwd))
    + OneIf(o.effort != NONE, Opt<C>.Effort(o.effort))
  }

  function OneIf<C>(c: bool, a: Opt<C>): seq<Opt<C>> {
    if c then [a] else []
  }

  /** What turn/start is sent, besides the thread and its input. */
  datatype TurnParams = TurnParams(
    model: Text, effort: Text, cwd: Text, approval: Option<Text>, reviewer: Option<Text>,
    extra: map<Text, Text>)

  function TurnStart(o: Opts): TurnParams {
    TurnParams(o.model, o.effort, o.cwd, o.approval, o.reviewer, o.turnExtra.GetOr(map[]))
  }

  /** What thread/resume is sent, besides the thread. */
  datatype ResumeParams = ResumeParams(
    approval: Option<Text>, reviewer: Option<Text>, sandbox: Option<Text>, config: Config,
    instructions: Text, cwd: Text, model: Text, provider: Text, extra: map<Text, Text>)

  function Resume(o: Opts): ResumeParams {
    ResumeParams(o.approval, o.reviewer, o.sandbox, o.config, o.instructions, o.cwd, o.model, o.provider,
                 o.threadExtra.GetOr(map[]))
  }

  /** What thread/start is sent. */
  datatype StartParams = StartParams(
    approval: Option<Text>, reviewer: Option<Text>, sandbox: Option<Text>, ephemeral: bool, config: Config,
    instructions: Text, cwd: Text, model: Text, provider: Text, extra: map<Text, Text>)

  function ThreadStart(o: Opts): StartParams {
    StartParams(o.approval, o.reviewer, o.sandbox, o.ephemeral, o.config, o.instructions, o.cwd, o.model, o.provider,
                o.threadExtra.GetOr(map[]))
  }

  /** Each option is sent as the parameter it is about and changes no other;
      the extras add their keys, and a config merges. */
  lemma OptionIsSent(o: Opts, a: Opt<Config>)
    ensures var turn, turn', res, res' := TurnStart(o), TurnStart(Apply(o, a)), Resume(o), Resume(Apply(o, a));
      match a
      case Model(s) => turn' == turn.(model := s) && res' == res.(model := s)
      case Cwd(s) => turn' == turn.(cwd := s) && res' == res.(cwd := s)
      case Effort(s) => turn' == turn.(effort := s) && res' == res
      case Approval(s) => turn' == turn.(approval := Some(s)) && res' == res.(approval := Some(s))
      case Reviewer(s) => turn' == turn.(reviewer := Some(s)) && res' == res.(reviewer := Some(s))
      case TurnExtra(e) => turn' == turn.(extra := turn.extra + e) && res' == res
      case ThreadConfig(c) => turn' == turn && res' == res.(config := Merge(res.config, c))
      case Provider(s) => turn' == turn && res' == res.(provider := s)
      case Instructions(s) => turn' == turn && res' == res.(instructions := s)
      case Sandbox(s) => turn' == turn && res' == res.(sandbox := Some(s))
      case ThreadExtra(e) => turn' == turn && res' == res.(extra := res.extra + e)
      case Ephemeral => turn' == turn && res' == res
      case Env(_) => turn' == turn && res' == res
      case OptOut(_) => turn' == turn && res' == res
    ensures var p, p' := ThreadStart(o), ThreadStart(Apply(o, a));
      match a
      case Model(s) => p' == p.(model := s)
      case Cwd(s) => p' == p.(cwd := s)
      case Approval(s) => p' == p.(approval := Some(s))
      case Reviewer(s) => p' == p.(reviewer := Some(s))
      case ThreadConfig(c) => p' == p.(config := Merge(p.config, c))
      case Provider(s) => p' == p.(provider := s)
      case Instructions(s) => p' == p.(instructions := s)
      case Sandbox(s) => p' == p.(sandbox := Some(s))
      case ThreadExtra(e) => p' == p.(extra := p.extra + e)
      case Ephemeral => p' == p.(ephemeral := true)
      case _ => p' == p
  {
  }

  /** The opt-outs of a list, in order. */
  function OptOuts(opts: seq<Opt<Config>>): seq<Text> {
    if opts == [] then [] else (if opts[0].OptOut? then opts[0].methods else []) + OptOuts(opts[1..])
  }

  lemma {:induction false} OptOutsAddUp(o: Opts, opts: seq<Opt<Config>>)
    ensures ApplyAll(o, opts).optOut == o.optOut + OptOuts(opts)
    decreases |opts|
  {
    if opts != [] {
      OptOutsAddUp(Apply(o, opts[0]), opts[1..]);
      assert o.optOut + (if opts[0].OptOut? then opts[0].methods else []) + OptOuts(opts[1..])
          == o.optOut + OptOuts(opts);
    }
  }

  // ---- layering ----

  /** Options as their makers make them: a config is a plain snapshot. */
  ghost predicate Made(opts: seq<Opt<Config>>) {
    forall i :: 0 <= i < |opts| && opts[i].ThreadConfig? ==> opts[i].config.Object? && Plain(opts[i].config)
  }

  lemma SnapshotIsMade(cfg: Config)
    requires cfg.IsObject()
    ensures Made([WithThreadConfig(cfg)])
  {
    CopyExactIffPlain(cfg);
    MergeFromNil(cfg);
  }

  lemma MergeFromNil(cfg: Config)
    requires cfg.IsObject()
    ensures Merge(NilObject, cfg) == Copy(cfg)
  {
    assert Merge(NilObject, cfg).fields == Copy(cfg).fields;
  }

  /** Nothing set, or a plain config: what every resolved options holds. */
  predicate Settled(o: Opts) {
    o.config == NilObject || (o.config.Object? && Plain(o.config))
  }

  lemma {:induction false} ApplyAllSettled(o: Opts, opts: seq<Opt<Config>>)
    requires Settled(o) && Made(opts)
    ensures Settled(ApplyAll(o, opts))
    decreases |opts|
  {
    if opts != [] {
      if opts[0].ThreadConfig? {
        CopyExactIffPlain(opts[0].config);
        if o.config == NilObject {
          MergeFromNil(opts[0].config);
        } else {
          MergePlain(o.config, opts[0].config);
        }
      }
      ApplyAllSettled(Apply(o, opts[0]), opts[1..]);
    }
  }

  lemma {:induction false} ApplyAllInTurn(o: Opts, a: seq<Opt<Config>>, b: seq<Opt<Config>>)
    ensures ApplyAll(o, a + b) == ApplyAll(ApplyAll(o, a), b)
    decreases |a|
  {
    if a == [] {
      assert a + b == b;
    } else {
      assert (a + b)[1..] == a[1..] + b;
      ApplyAllInTurn(Apply(o, a[0]), a[1..], b);
    }
  }

  /** The fields callOpts carries. */
  function Carried(o: Opts): Opts {
    START.(model := o.model, cwd := o.cwd, effort := o.effort, approval := o.approval, reviewer := o.reviewer,
           turnExtra := o.turnExtra, config := o.config)
  }

  lemma {:induction false} ApplyAllCarried(o: Opts, p: Opts, opts: seq<Opt<Config>>)
    requires Carried(o) == Carried(p)
    ensures Carried(ApplyAll(o, opts)) == Carried(ApplyAll(p, opts))
    decreases |opts|
  {
    if opts != [] {
      ApplyAllCarried(Apply(o, opts[0]), Apply(p, opts[0]), opts[1..]);
    }
  }

  lemma OneMore(o: Opts, opts: seq<Opt<Config>>, c: bool, a: Opt<Config>)
    ensures ApplyAll(o, opts + OneIf(c, a)) == if c then Apply(ApplyAll(o, opts), a) else ApplyAll(o, opts)
  {
    ApplyAllInTurn(o, opts, OneIf(c, a));
    if c {
      assert OneIf(c, a)[1..] == [];
      assert ApplyAll(Apply(ApplyAll(o, opts), a), []) == Apply(ApplyAll(o, opts), a);
    }
  }

  lemma FirstFieldsGiveBack(o: Opts)
    ensures ApplyAll(START, FirstFields(o)) == START.(model := o.model, cwd := o.cwd, effort := o.effort)
  {
    var a := OneIf(o.model != NONE, Opt.Model(o.model));
    var b := a + OneIf(o.cwd != NONE, Opt.Cwd(o.cwd));
    assert [] + a == a;
    OneMore(START, [], o.model != NONE, Opt.Model(o.model));
    OneMore(START, a, o.cwd != NONE, Opt.Cwd(o.cwd));
    OneMore(START, b, o.effort != NONE, Opt.Effort(o.effort));
  }

  lemma FieldOptsGiveBack(o: Opts)
    ensures ApplyAll(START, FieldOpts(o)) == Carried(o).(config := NilObject)
  {
    var c := FirstFields<Config>(o);
    var d := c + OneIf(o.approval.Some?, Opt.Approval(o.approval.GetOr(NONE)));
    var e := d + OneIf(o.reviewer.Some?, Opt.Reviewer(o.reviewer.GetOr(NONE)));
    FirstFieldsGiveBack(o);
    OneMore(START, c, o.approval.Some?, Opt.Approval(o.approval.GetOr(NONE)));
    OneMore(START, d, o.reviewer.Some?, Opt.Reviewer(o.reviewer.GetOr(NONE)));
    OneMore(START, e, o.turnExtra.Some?, Opt.TurnExtra(o.turnExtra.GetOr(map[])));
    assert map[] + o.turnExtra.GetOr(map[]) == o.turnExtra.GetOr(map[]);
  }

  /** Resolving the list gives the carried fields back, and nothing else. */
  lemma CallOptsGiveBack(o: Opts)
    requires Settled(o)
    ensures ApplyAll(START, CallOpts(o)) == Carried(o)
  {
    FieldOptsGiveBack(o);
    OneMore(START, FieldOpts(o), o.config.Object?, WithThreadConfig(o.config));
    if o.config.Object? {
      SentBackWhole(o.config);
    }
  }

  lemma SentBackWhole(cfg: Config)
    requires cfg.Object? && Plain(cfg)
    ensures Merge(NilObject, Merge(NilObject, cfg)) == cfg
  {
    MergeFromNil(cfg);
    CopyExactIffPlain(cfg);
  }

  /** Layering through a connection loses nothing turn/start sends: with the
      client's defaults and the connection's options resolved first, turned
      back into a list and resolved with the call's, every carried field comes
      out as if all had been resolved at once. */
  lemma {:induction false} LayeringKeepsCarried(defaults: seq<Opt<Config>>, conn: seq<Opt<Config>>,
                                                call: seq<Opt<Config>>)
    requires Made(defaults) && Made(conn)
    ensures var base := ApplyAll(START, defaults + conn);
      var layered := ApplyAll(START, CallOpts(base) + call);
      var flat := ApplyAll(START, defaults + conn + call);
      Carried(layered) == Carried(flat) && TurnStart(layered) == TurnStart(flat)
  {
    var base := ApplyAll(START, defaults + conn);
    ApplyAllSettled(START, defaults + conn);
    ApplyAllInTurn(START, defaults + conn, call);
    ApplyAllInTurn(START, CallOpts(base), call);
    CallOptsGiveBack(base);
    ApplyAllCarried(Carried(base), base, call);
  }

  // ---- what replaces, and what merges ----

  /** The setting an option is about is the same in o and p. */
  predicate SameSetting(a: Opt<Config>, o: Opts, p: Opts) {
    match a
    case Model(_) => o.model == p.model
    case Cwd(_) => o.cwd == p.cwd
    case Effort(_) => o.effort == p.effort
    case Approval(_) => o.approval == p.approval
    case Reviewer(_) => o.reviewer == p.reviewer
    case TurnExtra(_) => o.turnExtra == p.turnExtra
    case ThreadConfig(_) => o.config == p.config
    case Provider(_) => o.provider == p.provider
    case Instructions(_) => o.instructions == p.instructions
    case Sandbox(_) => o.sandbox == p.sandbox
    case ThreadExtra(_) => o.threadExtra == p.threadExtra
    case Ephemeral => o.ephemeral == p.ephemeral
    case Env(_) => o.env == p.env
    case OptOut(_) => o.optOut == p.optOut
  }

  /** The option has every key, or there is nothing to add to. */
  predicate Supersedes(a: Opt<Config>, d: Opts) {
    match a
    case TurnExtra(e) => d.turnExtra.GetOr(map[]).Keys <= e.Keys
    case ThreadExtra(e) => d.threadExtra.GetOr(map[]).Keys <= e.Keys
    case Env(e) => d.env.GetOr(map[]).Keys <= e.Keys
    case ThreadConfig(c) => Within(d.config, c)
    case OptOut(_) => d.optOut == []
    case _ => true
  }

  /** A call-time option replaces what the defaults set, as if they had not set
      it, exactly when it supersedes it: the extras, the environment and the
      thread config merge with theirs, and the opt-outs add up. */
  lemma ReplacesIff(d: Opts, a: Opt<Config>)
    requires a.ThreadConfig? ==> a.config.IsObject()
    ensures SameSetting(a, Apply(d, a), Apply(START, a)) <==> Supersedes(a, d)
  {
    match a
    case TurnExtra(e) => ExtraReplacedIff(d.turnExtra, e);
    case ThreadExtra(e) => ExtraReplacedIff(d.threadExtra, e);
    case Env(e) => ExtraReplacedIff(d.env, e);
    case ThreadConfig(c) =>
      MergeFromNil(c);
      AbsorbedIffWithin(d.config, c);
    case _ =>
  }

  lemma ExtraReplacedIff(d: Option<map<Text, Text>>, e: map<Text, Text>)
    ensures d.GetOr(map[]) + e == map[] + e <==> d.GetOr(map[]).Keys <= e.Keys
  {
    assert map[] + e == e;
    ExtraCovers(d.GetOr(map[]), e);
  }

  /** For instance defaults with one key of their own keep it under a call-time
      option with none, in each of the settings that merge. */
  lemma DefaultsShowThrough(k: Text, v: Text)
    ensures var d := START.(turnExtra := Some(map[k := v]), threadExtra := Some(map[k := v]),
                            env := Some(map[k := v]), optOut := [k]);
      && Apply(d, Opt.TurnExtra(map[])).turnExtra == Some(map[k := v])
      && Apply(d, Opt.ThreadExtra(map[])).threadExtra == Some(map[k := v])
      && Apply(d, Opt.Env(map[])).env == Some(map[k := v])
      && Apply(d, Opt.OptOut([])).optOut == [k]
    ensures var c := Object(map[k := Scalar(0)]);
      Apply(START.(config := c), WithThreadConfig(Object(map[]))).config == c
  {
    var c := Object(map[k := Scalar(0)]);
    MergeFromNil(Object(map[]));
    assert Merge(NilObject, Object(map[])) == Object(map[]);
    assert Merge(c, Object(map[])).fields == c.fields;
    assert map[k := v] + map[] == map[k := v];
  }

  // ---- what a resume drops ----

  predicate SetsSandbox(opts: seq<Opt<Config>>) {
    opts != [] && (opts[0].Sandbox? || SetsSandbox(opts[1..]))
  }

  predicate SetsProvider(opts: seq<Opt<Config>>) {
    opts != [] && (opts[0].Provider? || SetsProvider(opts[1..]))
  }

  predicate SetsInstructions(opts: seq<Opt<Config>>) {
    opts != [] && (opts[0].Instructions? || SetsInstructions(opts[1..]))
  }

  /** The thread extras these options add up to. */
  function ExtraOf(opts: seq<Opt<Config>>, extra: map<Text, Text>): map<Text, Text> {
    if opts == [] then extra
    else ExtraOf(opts[1..], if opts[0].ThreadExtra? then extra + opts[0].extra else extra)
  }

  /** A setting the call's options do not touch stays, and one they set comes
      out the same over any other. */
  lemma {:induction false} SetAfter(o: Opts, q: Opts, opts: seq<Opt<Config>>)
    ensures var p, r := ApplyAll(o, opts), ApplyAll(q, opts);
      && p.sandbox == (if SetsSandbox(opts) then r.sandbox else o.sandbox)
      && p.provider == (if SetsProvider(opts) then r.provider else o.provider)
      && p.instructions == (if SetsInstructions(opts) then r.instructions else o.instructions)
    decreases |opts|
  {
    if opts != [] {
      SetAfter(Apply(o, opts[0]), Apply(q, opts[0]), opts[1..]);
      SetAfter(Apply(q, opts[0]), Apply(q, opts[0]), opts[1..]);
    }
  }

  lemma {:induction false} ExtraAfter(o: Opts, opts: seq<Opt<Config>>)
    ensures ApplyAll(o, opts).threadExtra.GetOr(map[]) == ExtraOf(opts, o.threadExtra.GetOr(map[]))
    decreases |opts|
  {
    if opts != [] {
      ExtraAfter(Apply(o, opts[0]), opts[1..]);
    }
  }

  lemma {:induction false} ExtraOver(opts: seq<Opt<Config>>, extra: map<Text, Text>, over: map<Text, Text>)
    ensures ExtraOf(opts, extra + over) == extra + ExtraOf(opts, over)
  {
    if opts != [] {
      if opts[0].ThreadExtra? {
        assert (extra + over) + opts[0].extra == extra + (over + opts[0].extra);
        ExtraOver(opts[1..], extra, over + opts[0].extra);
      } else {
        ExtraOver(opts[1..], extra, over);
      }
    }
  }

  /** Whether the call's options set again everything the connection sets that
      a resume does not carry over. */
  predicate Resends(base: Opts, call: seq<Opt<Config>>) {
    && (base.sandbox == None || SetsSandbox(call))
    && (base.provider == NONE || SetsProvider(call))
    && (base.instructions == NONE || SetsInstructions(call))
    && base.threadExtra.GetOr(map[]).Keys <= ExtraOf(call, map[]).Keys
  }

  /** A resume through a connection is sent what all the options at once would
      send just when the call sets again what is not carried. */
  lemma ResumeKeepsAllIffResent(defaults: seq<Opt<Config>>, conn: seq<Opt<Config>>, call: seq<Opt<Config>>)
    requires Made(defaults) && Made(conn)
    ensures var base := ApplyAll(START, defaults + conn);
      var layered := ApplyAll(START, CallOpts(base) + call);
      var flat := ApplyAll(START, defaults + conn + call);
      Resume(layered) == Resume(flat) <==> Resends(base, call)
  {
    var base := ApplyAll(START, defaults + conn);
    LayeringKeepsCarried(defaults, conn, call);
    ApplyAllSettled(START, defaults + conn);
    ApplyAllInTurn(START, defaults + conn, call);
    ApplyAllInTurn(START, CallOpts(base), call);
    CallOptsGiveBack(base);
    SetAfter(base, Carried(base), call);
    SetAfter(Carried(base), Carried(base), call);
    var extra := base.threadExtra.GetOr(map[]);
    ExtraAfter(base, call);
    ExtraAfter(Carried(base), call);
    assert extra + map[] == extra;
    ExtraOver(call, extra, map[]);
    ExtraCovers(extra, ExtraOf(call, map[]));
  }

  lemma ExtraCovers(extra: map<Text, Text>, over: map<Text, Text>)
    ensures extra + over == over <==> extra.Keys <= over.Keys
  {
    assert (extra + over).Keys == extra.Keys + over.Keys;
    if extra.Keys <= over.Keys {
      assert extra + over == over;
    }
  }

  /** For instance a sandbox chosen for the connection is not sent again. */
  lemma ResumeDropsSandbox(s: Text)
    ensures var base := ApplyAll(START, [Opt.Sandbox(s)]);
      Resume(ApplyAll(START, CallOpts(base))).sandbox == None && Resume(base).sandbox == Some(s)
  {
    var base := ApplyAll(START, [Opt.Sandbox(s)]);
    OneMore(START, [], true, Opt.Sandbox(s));
    assert [] + OneIf(true, Opt<Config>.Sandbox(s)) == [Opt.Sandbox(s)];
    CallOptsGiveBack(base);
  }

  // ---- on the heap ----

  /** An option whose config map looks as at says, as an option on values. */
  ghost function Told(a: Opt<AnyMap>, at: Tree): Opt<Config> {
    match a
    case Model(s) => Opt.Model(s)
    case Cwd(s) => Opt.Cwd(s)
    case Effort(s) => Opt.Effort(s)
    case Approval(s) => Opt.Approval(s)
    case Reviewer(s) => Opt.Reviewer(s)
    case TurnExtra(e) => Opt.TurnExtra(e)
    case ThreadConfig(_) => Opt.ThreadConfig(Val(at))
    case Provider(s) => Opt.Provider(s)
    case Instructions(s) => Opt.Instructions(s)
    case Sandbox(s) => Opt.Sandbox(s)
    case ThreadExtra(e) => Opt.ThreadExtra(e)
    case Ephemeral => Opt.Ephemeral
    case Env(e) => Opt.Env(e)
    case OptOut(m) => Opt.OptOut(m)
  }

  ghost function ToldAll(opts: seq<Opt<AnyMap>>, trees: seq<Tree>): seq<Opt<Config>>
    requires |opts| == |trees|
  {
    seq(|opts|, i requires 0 <= i < |opts| => Told(opts[i], trees[i]))
  }

  ghost predicate NoConfig(opts: seq<Opt<AnyMap>>) {
    forall i :: 0 <= i < |opts| ==> !opts[i].ThreadConfig?
  }

  lemma ToldMore(opts: seq<Opt<AnyMap>>, c: bool, a: Opt<AnyMap>, b: Opt<Config>)
    requires NoConfig(opts) && !a.ThreadConfig? && Told(a, NoMap) == b
    ensures NoConfig(opts + OneIf(c, a))
    ensures ToldAll(opts + OneIf(c, a), NoMaps(opts + OneIf(c, a))) == ToldAll(opts, NoMaps(opts)) + OneIf(c, b)
  {
  }

  /** No trees, for options without a config. */
  ghost function NoMaps(opts: seq<Opt<AnyMap>>): seq<Tree> {
    seq(|opts|, i => NoMap)
  }

  lemma FirstFieldsTold(o: Opts)
    ensures NoConfig(FirstFields<AnyMap>(o))
    ensures ToldAll(FirstFields<AnyMap>(o), NoMaps(FirstFields<AnyMap>(o))) == FirstFields<Config>(o)
  {
    var a := OneIf(o.model != NONE, Opt.Model(o.model));
    var b := a + OneIf(o.cwd != NONE, Opt.Cwd(o.cwd));
    ToldOneIf(o.model != NONE, Opt.Model(o.model), Opt.Model(o.model));
    ToldMore(a, o.cwd != NONE, Opt.Cwd(o.cwd), Opt.Cwd(o.cwd));
    ToldMore(b, o.effort != NONE, Opt.Effort(o.effort), Opt.Effort(o.effort));
  }

  lemma FieldOptsTold(o: Opts)
    ensures NoConfig(FieldOpts<AnyMap>(o))
    ensures ToldAll(FieldOpts<AnyMap>(o), NoMaps(FieldOpts<AnyMap>(o))) == FieldOpts<Config>(o)
  {
    var c := FirstFields<AnyMap>(o);
    var d := c + OneIf(o.approval.Some?, Opt.Approval(o.approval.GetOr(NONE)));
    var e := d + OneIf(o.reviewer.Some?, Opt.Reviewer(o.reviewer.GetOr(NONE)));
    FirstFieldsTold(o);
    ToldMore(c, o.approval.Some?, Opt.Approval(o.approval.GetOr(NONE)), Opt.Approval(o.approval.GetOr(NONE)));
    ToldMore(d, o.reviewer.Some?, Opt.Reviewer(o.reviewer.GetOr(NONE)), Opt.Reviewer(o.reviewer.GetOr(NONE)));
    ToldMore(e, o.turnExtra.Some?, Opt.TurnExtra(o.turnExtra.GetOr(map[])),
             Opt.TurnExtra(o.turnExtra.GetOr(map[])));
  }

  lemma ToldOneIf(c: bool, a: Opt<AnyMap>, b: Opt<Config>)
    requires !a.ThreadConfig? && Told(a, NoMap) == b
    ensures NoConfig(OneIf(c, a))
    ensures ToldAll(OneIf(c, a), NoMaps(OneIf(c, a))) == OneIf(c, b)
  {
  }

  /** Every config map in opts looks as trees says and lies within foot. */
  ghost predicate Holds(opts: seq<Opt<AnyMap>>, trees: seq<Tree>, foot: set<object>)
    reads foot
  {
    && |opts| == |trees|
    && forall i :: 0 <= i < |opts| && opts[i].ThreadConfig? ==>
         trees[i].MapAt? && Objs(trees[i]) <= foot && Rep(OfMap(opts[i].config), trees[i])
  }

  lemma HoldsWithSnapshot(opts: seq<Opt<AnyMap>>, a: Opt<AnyMap>, at: Tree)
    requires NoConfig(opts) && a.ThreadConfig? && at.MapAt? && Rep(OfMap(a.config), at)
    ensures Holds(opts + [a], NoMaps(opts) + [at], Objs(at))
    ensures ToldAll(opts + [a], NoMaps(opts) + [at]) == ToldAll(opts, NoMaps(opts)) + [Told(a, at)]
  {
  }

  /** WithThreadConfig: the snapshot shares nothing with the caller's config. */
  method TakeSnapshot(cfg: AnyMap?, ghost ct: Tree) returns (a: Opt<AnyMap>, ghost at: Tree)
    requires Rep(OfMap(cfg), ct)
    ensures Rep(OfMap(cfg), ct)
    ensures a.ThreadConfig? && at.MapAt? && Rep(OfMap(a.config), at) && fresh(Objs(at))
    ensures Told(a, at) == WithThreadConfig(Val(ct))
  {
    var m;
    m, at := MergeConfig(null, NoMap, cfg, ct);
    a := Opt.ThreadConfig(m);
  }

  /** The resolved options, with their thread config on the heap. */
  class Settings {
    var model: Text
    var cwd: Text
    var effort: Text
    var approval: Option<Text>
    var reviewer: Option<Text>
    var turnExtra: Option<map<Text, Text>>
    var threadConfig: AnyMap?
    var provider: Text
    var instructions: Text
    var sandbox: Option<Text>
    var threadExtra: Option<map<Text, Text>>
    var ephemeral: bool
    var env: Option<map<Text, Text>>
    var optOut: seq<Text>
    ghost var shape: Tree

    ghost predicate Valid()
      reads this, Objs(shape)
    {
      this !in Objs(shape) && Rep(OfMap(threadConfig), shape) && Apart(shape)
    }

    ghost function View(): Opts
      reads this
    {
      Opts(model, cwd, effort, approval, reviewer, turnExtra, Val(shape), provider, instructions, sandbox,
           threadExtra, ephemeral, env, optOut)
    }

    constructor ()
      ensures Valid() && View() == START && Objs(shape) == {}
    {
      model, cwd, effort, provider, instructions := NONE, NONE, NONE, NONE, NONE;
      approval, reviewer, sandbox := None, None, None;
      turnExtra, threadExtra, ephemeral, env, optOut := None, None, false, None, [];
      threadConfig, shape := null, NoMap;
    }

    method SetText(a: Opt<AnyMap>)
      requires Texts(a)
      modifies this`model, this`cwd, this`effort, this`provider, this`instructions
      ensures View() == Apply(old(View()), Told(a, NoMap))
    {
      match a
      case Model(s) => model := s;
      case Cwd(s) => cwd := s;
      case Effort(s) => effort := s;
      case Provider(s) => provider := s;
      case Instructions(s) => instructions := s;
    }

    method SetChoice(a: Opt<AnyMap>)
      requires !a.ThreadConfig? && !Adds(a) && !Texts(a)
      modifies this`approval, this`reviewer, this`sandbox, this`ephemeral
      ensures View() == Apply(old(View()), Told(a, NoMap))
    {
      match a
      case Approval(s) => approval := Some(s);
      case Reviewer(s) => reviewer := Some(s);
      case Sandbox(s) => sandbox := Some(s);
      case Ephemeral => ephemeral := true;
    }

    method AddTo(a: Opt<AnyMap>)
      requires Adds(a)
      modifies this`turnExtra, this`threadExtra, this`env, this`optOut
      ensures View() == Apply(old(View()), Told(a, NoMap))
    {
      match a
      case TurnExtra(e) => turnExtra := Some(turnExtra.GetOr(map[]) + e);
      case ThreadExtra(e) => threadExtra := Some(threadExtra.GetOr(map[]) + e);
      case Env(e) => env := Some(env.GetOr(map[]) + e);
      case OptOut(m) => optOut := optOut + m;
    }

    method MergeIn(a: Opt<AnyMap>, ghost at: Tree)
      requires Valid() && this !in Objs(at) && Objs(at) !! Objs(shape)
      requires a.ThreadConfig? && Rep(OfMap(a.config), at)
      modifies this`threadConfig, this`shape, Objs(shape)
      ensures Valid() && fresh(Objs(shape) - old(Objs(shape)))
      ensures View() == Apply(old(View()), Told(a, at))
    {
      threadConfig, shape := MergeConfig(threadConfig, shape, a.config, at);
    }

    /** Applying an option changes only the settings and what they own. */
    method ApplyOne(a: Opt<AnyMap>, ghost at: Tree)
      requires Valid() && this !in Objs(at) && Objs(at) !! Objs(shape)
      requires a.ThreadConfig? ==> Rep(OfMap(a.config), at)
      modifies this, Objs(shape)
      ensures Valid() && fresh(Objs(shape) - old(Objs(shape)))
      ensures View() == Apply(old(View()), Told(a, at))
    {
      if a.ThreadConfig? {
        MergeIn(a, at);
      } else if Adds(a) {
        AddTo(a);
      } else if Texts(a) {
        SetText(a);
      } else {
        SetChoice(a);
      }
    }

    /** Every option is applied in turn and none is used up: each config map
        still looks as it did, so the options can be applied again. */
    method ApplyEach(opts: seq<Opt<AnyMap>>, ghost trees: seq<Tree>, ghost foot: set<object>)
      requires Valid() && Holds(opts, trees, foot) && this !in foot && foot !! Objs(shape)
      modifies this, Objs(shape)
      ensures Valid() && fresh(Objs(shape) - old(Objs(shape)))
      ensures Holds(opts, trees, foot) && foot !! Objs(shape)
      ensures View() == ApplyAll(old(View()), ToldAll(opts, trees))
    {
      ghost var told := ToldAll(opts, trees);
      for i := 0 to |opts|
        invariant Valid() && forall o :: o in Objs(shape) && o !in old(Objs(shape)) ==> fresh(o)
        invariant Holds(opts, trees, foot) && foot !! Objs(shape)
        invariant ApplyAll(View(), told[i..]) == ApplyAll(old(View()), told)
      {
        ApplyOne(opts[i], if opts[i].ThreadConfig? then trees[i] else NoMap);
      }
    }

    method ListFields() returns (out: seq<Opt<AnyMap>>)
      ensures out == FieldOpts<AnyMap>(View())
    {
      out := FieldOpts<AnyMap>(Opts(model, cwd, effort, approval, reviewer, turnExtra, NilObject,
                                    provider, instructions, sandbox, threadExtra, ephemeral, env, optOut));
    }

    /** callOpts: the thread config goes out as a snapshot of its own. */
    method ListCallOpts() returns (out: seq<Opt<AnyMap>>, ghost trees: seq<Tree>, ghost foot: set<object>)
      requires Valid()
      ensures Holds(out, trees, foot) && fresh(foot)
      ensures ToldAll(out, trees) == CallOpts(View())
    {
      out := ListFields();
      trees, foot := NoMaps(out), {};
      FieldOptsTold(View());
      if threadConfig != null {
        var a, at := TakeSnapshot(threadConfig, shape);
        HoldsWithSnapshot(out, a, at);
        out, trees, foot := out + [a], trees + [at], Objs(at);
      }
    }
  }

  /** resolveOptions */
  method Resolve(defaults: seq<Opt<AnyMap>>, overrides: seq<Opt<AnyMap>>,
                 ghost dt: seq<Tree>, ghost ot: seq<Tree>, ghost foot: set<object>)
    returns (o: Settings)
    requires Holds(defaults, dt, foot) && Holds(overrides, ot, foot)
    ensures fresh(o) && o.Valid() && fresh(Objs(o.shape))
    ensures Holds(defaults, dt, foot) && Holds(overrides, ot, foot)
    ensures o.View() == ApplyAll(START, ToldAll(defaults, dt) + ToldAll(overrides, ot))
  {
    o := new Settings();
    o.ApplyEach(defaults, dt, foot);
    o.ApplyEach(overrides, ot, foot);
    ApplyAllInTurn(START, ToldAll(defaults, dt), ToldAll(overrides, ot));
  }
}
