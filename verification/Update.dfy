/** Updating an installed CLI: when an npm install is proven to land in the
    tree PATH runs, and what an update may start and may report. Everything
    the program asks its surroundings is an answer in Env. */
module Update {
  import opened Basics

  /** An absolute path. */
  datatype Path = Path(segs: seq<Id>)

  function Parent(p: Path): Path {
    if p.segs == [] then p else Path(p.segs[..|p.segs| - 1])
  }

  function Base(p: Path): Id {
    if p.segs == [] then NO_ID else p.segs[|p.segs| - 1]
  }

  function Join(p: Path, more: seq<Id>): Path {
    Path(p.segs + more)
  }

  const BIN := Id("bin")
  const NPM := Id("npm")
  const NODE := Id("node")
  const CLI_JS := Id("npm-cli.js")

  /** Where npm keeps a global package under its prefix. */
  const PACKAGE: seq<Id> := [Id("lib"), Id("node_modules"), Id("@openai"), Id("codex")]

  const MAX_WALK_UP := 8

  datatype Method = Native | NPMGlobal | OtherMethod

  datatype Install = Install(kind: Method, byNPM: bool, path: Path, realPath: Path, version: Id)

  datatype Plan = Plan(prefix: Path, npm: Path, pathDir: Path, pin: Option<Path>, targets: seq<Path>, inUse: seq<Path>)

  datatype Run = NativeRun(codex: Path) | NPMRun(npm: Path, pathDir: Path, pin: Option<Path>, version: Id)

  datatype Held = Free | HeldOpen(p: Path) | CannotTell

  datatype Shebang = EnvNode | NodeAt(p: Path) | OtherInterpreter

  datatype Entry = Abs(dir: Path) | Relative

  datatype Env = Env(
    windows: bool,
    winProof: Option<(Path, Path, Path)>,      // on Windows: the proven prefix, npm and reported prefix
    canAsk: bool,                              // npm prefix and symlink probes exist
    canRead: bool,
    isCLI: Path -> bool,                       // a directory whose package.json names the CLI
    isNPM: Path -> bool,                       // likewise npm
    missing: Path -> bool,
    executable: Path -> bool,
    searchPath: seq<Entry>,
    shebang: Path -> Shebang,
    prefixOf: (Path, Path) -> Option<Path>,    // npm prefix -g, by npm and the directory first on PATH
    resolve: Path -> Option<Path>,
    canCheck: bool,
    writable: Path -> bool,
    nativeTargets: seq<Path>,
    latest: (Path, Path) -> Option<Id>,
    canProbe: bool,
    held: seq<Path> -> Held,
    updates: Run -> bool,                      // whether the updater exits without error
    reports: Run -> Option<Id>)                // the version PATH's codex reports after it

  // ---- the proof ----

  predicate IsPackageRoot(dir: Path, env: Env) {
    && |dir.segs| > |PACKAGE| && dir.segs[|dir.segs| - |PACKAGE|..] == PACKAGE && env.isCLI(dir)
  }

  /** The nearest package root among the next n directories from dir up. */
  function PackageRoot(dir: Path, n: nat, env: Env): Option<Path>
    decreases n
  {
    if n == 0 then None
    else if IsPackageRoot(dir, env) then Some(dir)
    else if Parent(dir) == dir then None
    else PackageRoot(Parent(dir), n - 1, env)
  }

  method NPMPackageRoot(p: Path, env: Env) returns (r: Option<Path>)
    ensures r == PackageRoot(Parent(p), MAX_WALK_UP, env)
  {
    var dir := Parent(p);
    for i := 0 to MAX_WALK_UP
      invariant PackageRoot(dir, MAX_WALK_UP - i, env) == PackageRoot(Parent(p), MAX_WALK_UP, env)
    {
      if IsPackageRoot(dir, env) {
        return Some(dir);
      }
      var parent := Parent(dir);
      if parent == dir {
        break;
      }
      dir := parent;
    }
    return None;
  }

  /** The first executable of this name on an absolute PATH entry. */
  function LookIn(name: Id, dirs: seq<Entry>, env: Env): Option<Path> {
    if dirs == [] then None
    else if dirs[0].Abs? && env.executable(Join(dirs[0].dir, [name])) then Some(Join(dirs[0].dir, [name]))
    else LookIn(name, dirs[1..], env)
  }

  method LookPathIn(name: Id, env: Env) returns (r: Option<Path>)
    ensures r == LookIn(name, env.searchPath, env)
  {
    for i := 0 to |env.searchPath|
      invariant LookIn(name, env.searchPath[i..], env) == LookIn(name, env.searchPath, env)
    {
      var e := env.searchPath[i];
      if e.Abs? {
        var p := Join(e.dir, [name]);
        if env.executable(p) {
          return Some(p);
        }
      }
    }
    return None;
  }

  /** The npm found on PATH, if it is npm itself, and its node's directory. */
  function FallbackNPM(env: Env): Option<(Path, Path)> {
    if !env.canRead then None
    else match LookIn(NPM, env.searchPath, env)
      case None => None
      case Some(npm) =>
        match env.resolve(npm)
        case None => None
        case Some(cli) =>
          if Base(cli) != CLI_JS || Base(Parent(cli)) != BIN || !env.isNPM(Parent(Parent(cli))) then None
          else match ShebangNode(cli, env)
            case None => None
            case Some(node) => if env.executable(node) then Some((npm, Parent(node))) else None
  }

  function ShebangNode(cli: Path, env: Env): Option<Path> {
    match env.shebang(cli)
    case EnvNode => LookIn(NODE, env.searchPath, env)
    case NodeAt(p) => Some(p)
    case OtherInterpreter => None
  }

  /** The npm to prove, the directory to put first on its PATH, and whether it
      had to be looked for outside the prefix. */
  function ChooseNPM(prefix: Path, env: Env): Option<(Path, Path, bool)> {
    var dir := Join(prefix, [BIN]);
    var own := Join(dir, [NPM]);
    if env.missing(own) then
      match FallbackNPM(env)
      case Some((npm, nodeDir)) => Some((npm, nodeDir, true))
      case None => None
    else if env.executable(own) && env.executable(Join(dir, [NODE])) then Some((own, dir, false))
    else None
  }

  function Prove(info: Install, env: Env): Option<Plan> {
    if info.kind != NPMGlobal || !info.byNPM then None
    else if env.windows then (if env.winProof.Some? then Some(WinPlan(env.winProof.value)) else None)
    else if !env.canAsk then None
    else match PackageRoot(Parent(info.realPath), MAX_WALK_UP, env)
      case None => None
      case Some(root) =>
        var prefix := PrefixOf(root);
        match ChooseNPM(prefix, env)
        case None => None
        case Some((npm, pathDir, fallback)) =>
          match env.prefixOf(npm, pathDir)
          case None => None
          case Some(reported) =>
            var want := env.resolve(root);
            if want.Some? && env.resolve(Join(reported, PACKAGE)) == want then
              Some(Plan(prefix, npm, pathDir, if fallback then Some(reported) else None,
                        [Join(prefix, PACKAGE[..2]), Join(prefix, [BIN])], []))
            else None
  }

  function WinPlan(proof: (Path, Path, Path)): Plan {
    var (prefix, npm, reported) := proof;
    Plan(prefix, npm, Parent(npm), Some(reported), [Join(prefix, PACKAGE[1..2]), prefix],
         [Join(prefix, PACKAGE[1..]), Join(prefix, [Id("codex")]), Join(prefix, [Id("codex.cmd")]),
          Join(prefix, [Id("codex.ps1")])])
  }

  function PrefixOf(root: Path): Path {
    if |root.segs| < |PACKAGE| then root else Path(root.segs[..|root.segs| - |PACKAGE|])
  }

  /** p is d or lies below it. */
  predicate Under(p: Path, d: Path) {
    d.segs <= p.segs
  }

  /** Where an npm run under this plan puts the package, symlinks followed. */
  function WritesInto(plan: Plan, env: Env): Option<Path> {
    match if plan.pin.Some? then plan.pin else env.prefixOf(plan.npm, plan.pathDir)
    case None => None
    case Some(prefix) => env.resolve(Join(prefix, PACKAGE))
  }

  /** k directories up from p. */
  function Up(p: Path, k: nat): Path
    decreases k
  {
    if k == 0 then p else Up(Parent(p), k - 1)
  }

  /** The root found is the first going up, within the limit; none is found
      only if there is none within the limit. */
  lemma {:induction false} NearestRoot(dir: Path, n: nat, env: Env) returns (k: nat)
    ensures k <= n && forall j :: 0 <= j < k ==> !IsPackageRoot(Up(dir, j), env)
    ensures PackageRoot(dir, n, env).Some? ==>
              k < n && PackageRoot(dir, n, env).value == Up(dir, k) && IsPackageRoot(Up(dir, k), env)
    ensures PackageRoot(dir, n, env) == None ==> k == n
    decreases n
  {
    if n == 0 || IsPackageRoot(dir, env) {
      k := 0;
    } else if Parent(dir) == dir {
      k := n;
      forall j | 0 <= j < n ensures Up(dir, j) == dir {
        StuckAtTop(dir, j);
      }
    } else {
      var m := NearestRoot(Parent(dir), n - 1, env);
      k := m + 1;
      forall j | 0 <= j < k ensures !IsPackageRoot(Up(dir, j), env) {
        if j > 0 {
          assert Up(dir, j) == Up(Parent(dir), j - 1);
        }
      }
    }
  }

  lemma {:induction false} StuckAtTop(p: Path, k: nat)
    requires Parent(p) == p
    ensures Up(p, k) == p
    decreases k
  {
    if k > 0 {
      StuckAtTop(p, k - 1);
    }
  }

  lemma RootSplits(root: Path, env: Env)
    requires IsPackageRoot(root, env)
    ensures Join(PrefixOf(root), PACKAGE) == root
    ensures Under(root, Join(PrefixOf(root), PACKAGE[..2]))
  {
    assert PACKAGE == PACKAGE[..2] + PACKAGE[2..];
    assert root.segs == PrefixOf(root).segs + PACKAGE;
    assert root.segs == Join(PrefixOf(root), PACKAGE[..2]).segs + PACKAGE[2..];
  }

  lemma ProvenPlan(info: Install, env: Env)
    requires !env.windows && Prove(info, env).Some?
    ensures var plan, root := Prove(info, env).value, PackageRoot(Parent(info.realPath), MAX_WALK_UP, env);
      && root.Some? && plan.prefix == PrefixOf(root.value)
      && env.resolve(root.value).Some? && WritesInto(plan, env) == env.resolve(root.value)
      && (plan.pin.Some? ==> plan.pin == env.prefixOf(plan.npm, plan.pathDir))
      && plan.targets == [Join(plan.prefix, PACKAGE[..2]), Join(plan.prefix, [BIN])]
  {
  }

  /** A proven unix plan: the package the plan's npm writes is, symlinks
      followed, the nearest package above the binary that PATH runs; a pinned
      prefix is the one npm reported; and the directories checked for writing
      are the one that holds this package and its own prefix's bin. */
  lemma ProofIsSound(info: Install, env: Env) returns (k: nat)
    requires !env.windows && Prove(info, env).Some?
    ensures var plan := Prove(info, env).value;
      var root := Join(plan.prefix, PACKAGE);
      && k < MAX_WALK_UP && root == Up(Parent(info.realPath), k) && IsPackageRoot(root, env)
      && (forall j :: 0 <= j < k ==> !IsPackageRoot(Up(Parent(info.realPath), j), env))
      && env.resolve(root).Some? && WritesInto(plan, env) == env.resolve(root)
      && (plan.pin.Some? ==> plan.pin == env.prefixOf(plan.npm, plan.pathDir))
      && |plan.targets| == 2 && Under(root, plan.targets[0]) && plan.targets[1] == Join(plan.prefix, [BIN])
  {
    ProvenPlan(info, env);
    k := NearestRoot(Parent(info.realPath), MAX_WALK_UP, env);
    RootSplits(PackageRoot(Parent(info.realPath), MAX_WALK_UP, env).value, env);
  }

  /** Looking up a name finds the first executable on an absolute entry. */
  lemma {:induction false} LookInIsFirst(name: Id, dirs: seq<Entry>, env: Env) returns (i: nat)
    ensures i <= |dirs|
    ensures forall j :: 0 <= j < i && dirs[j].Abs? ==> !env.executable(Join(dirs[j].dir, [name]))
    ensures i < |dirs| ==> dirs[i].Abs? && env.executable(Join(dirs[i].dir, [name]))
    ensures LookIn(name, dirs, env) == if i < |dirs| then Some(Join(dirs[i].dir, [name])) else None
  {
    i := 0;
    if dirs != [] && !(dirs[0].Abs? && env.executable(Join(dirs[0].dir, [name]))) {
      i := LookInIsFirst(name, dirs[1..], env);
      i := i + 1;
    }
  }

  /** The npm a proven unix plan runs. When there is a file where the prefix's
      own npm belongs, it is that one, with the node beside it, both executable,
      and nothing is pinned. When there is none, it is the first npm on PATH; it
      resolves to bin/npm-cli.js in a package that says it is npm; its node is
      executable too and in the directory put first on PATH; and the prefix it
      reports is pinned. */
  lemma ProvenNPM(info: Install, env: Env) returns (i: nat, j: nat)
    requires !env.windows && Prove(info, env).Some?
    ensures var plan := Prove(info, env).value;
      var dir := Join(plan.prefix, [BIN]);
      var own := Join(dir, [NPM]);
      if !env.missing(own) then
        && plan.npm == own && plan.pathDir == dir && plan.pin == None
        && env.executable(own) && env.executable(Join(dir, [NODE]))
      else
        && i < |env.searchPath| && env.searchPath[i].Abs? && plan.npm == Join(env.searchPath[i].dir, [NPM])
        && (forall e :: 0 <= e < i && env.searchPath[e].Abs? ==>
              !env.executable(Join(env.searchPath[e].dir, [NPM])))
        && env.executable(plan.npm)
        && env.resolve(plan.npm).Some?
        && var cli := env.resolve(plan.npm).value;
        && Base(cli) == CLI_JS && Base(Parent(cli)) == BIN && env.isNPM(Parent(Parent(cli)))
        && (match env.shebang(cli)
            case NodeAt(p) => env.executable(p) && plan.pathDir == Parent(p)
            case EnvNode =>
              && j < |env.searchPath| && env.searchPath[j].Abs?
              && env.executable(Join(env.searchPath[j].dir, [NODE])) && plan.pathDir == env.searchPath[j].dir
              && (forall e :: 0 <= e < j && env.searchPath[e].Abs? ==>
                    !env.executable(Join(env.searchPath[e].dir, [NODE])))
            case OtherInterpreter => false)
        && plan.pin.Some? && plan.pin == env.prefixOf(plan.npm, plan.pathDir)
  {
    i := LookInIsFirst(NPM, env.searchPath, env);
    j := LookInIsFirst(NODE, env.searchPath, env);
    if j < |env.searchPath| {
      assert Parent(Join(env.searchPath[j].dir, [NODE])) == env.searchPath[j].dir;
    }
  }

  /** An ordinary install is proven: the binary lies in the package under a
      prefix, within reach and with no other package of that name on the way,
      the prefix's own npm and node are executable, and the prefix npm reports
      leads to the same package. */
  lemma OrdinaryIsProven(info: Install, env: Env, prefix: Path, rest: seq<Id>, reported: Path)
    requires !env.windows && env.canAsk && info.kind == NPMGlobal && info.byNPM && prefix.segs != []
    requires 1 <= |rest| <= MAX_WALK_UP && info.realPath == Join(Join(prefix, PACKAGE), rest)
    requires forall d :: env.isCLI(d) <==> d == Join(prefix, PACKAGE)
    requires var dir := Join(prefix, [BIN]);
      && !env.missing(Join(dir, [NPM])) && env.executable(Join(dir, [NPM])) && env.executable(Join(dir, [NODE]))
      && env.prefixOf(Join(dir, [NPM]), dir) == Some(reported)
    requires env.resolve(Join(prefix, PACKAGE)).Some?
    requires env.resolve(Join(reported, PACKAGE)) == env.resolve(Join(prefix, PACKAGE))
    ensures Prove(info, env).Some? && Prove(info, env).value.prefix == prefix
    ensures Prove(info, env).value.npm == Join(Join(prefix, [BIN]), [NPM])
  {
    var root := Join(prefix, PACKAGE);
    assert Parent(info.realPath).segs == root.segs + rest[..|rest| - 1];
    FoundBelow(root, rest[..|rest| - 1], MAX_WALK_UP, env);
    assert Join(root, rest[..|rest| - 1]) == Parent(info.realPath);
    assert PrefixOf(root) == prefix;
  }

  lemma {:induction false} FoundBelow(root: Path, rest: seq<Id>, n: nat, env: Env)
    requires |rest| < n && IsPackageRoot(root, env) && forall d :: env.isCLI(d) ==> d == root
    ensures PackageRoot(Join(root, rest), n, env) == Some(root)
    decreases |rest|
  {
    if rest == [] {
      assert Join(root, rest) == root;
    } else {
      var p := Join(root, rest);
      assert |p.segs| > |root.segs|;
      assert Parent(p) == Join(root, rest[..|rest| - 1]);
      FoundBelow(root, rest[..|rest| - 1], n - 1, env);
    }
  }

  /** And where the prefix has no npm, the first one on PATH is taken when it is
      npm's own script in npm's own package and its node is there. */
  lemma FallbackIsTaken(env: Env, prefix: Path, i: nat, cli: Path, node: Path)
    requires env.canRead && env.missing(Join(Join(prefix, [BIN]), [NPM]))
    requires i < |env.searchPath| && env.searchPath[i].Abs? && env.executable(Join(env.searchPath[i].dir, [NPM]))
    requires forall e :: 0 <= e < i && env.searchPath[e].Abs? ==>
      !env.executable(Join(env.searchPath[e].dir, [NPM]))
    requires env.resolve(Join(env.searchPath[i].dir, [NPM])) == Some(cli)
    requires Base(cli) == CLI_JS && Base(Parent(cli)) == BIN && env.isNPM(Parent(Parent(cli)))
    requires env.shebang(cli) == NodeAt(node) && env.executable(node)
    ensures ChooseNPM(prefix, env) == Some((Join(env.searchPath[i].dir, [NPM]), Parent(node), true))
  {
    var j := LookInIsFirst(NPM, env.searchPath, env);
    assert i == j;
  }

  /** A proven plan on Windows: it runs the proven npm, pinned to the prefix that
      npm reported, with its own directory first on PATH; every file it
      replaces, the package and the three shims, lies in a directory that is
      checked for writing and is checked for being in use. */
  lemma WinPlanCovers(info: Install, env: Env, p: Path)
    requires env.windows && Prove(info, env).Some?
    ensures env.winProof.Some? && info.kind == NPMGlobal && info.byNPM
    ensures var plan := Prove(info, env).value;
      var (prefix, npm, reported) := env.winProof.value;
      && plan.prefix == prefix && plan.npm == npm && plan.pathDir == Parent(npm) && plan.pin == Some(reported)
      && (p in plan.inUse <==>
            || p == Join(prefix, [Id("node_modules"), Id("@openai"), Id("codex")])
            || (exists shim :: p == Join(prefix, [shim])
                 && (shim == Id("codex") || shim == Id("codex.cmd") || shim == Id("codex.ps1"))))
      && (p in plan.inUse ==> exists d :: d in plan.targets && Under(p, d))
  {
    var plan := Prove(info, env).value;
    var (prefix, npm, reported) := env.winProof.value;
    assert plan == WinPlan(env.winProof.value);
    assert PACKAGE[1..] == [Id("node_modules"), Id("@openai"), Id("codex")];
    assert PACKAGE[1..2] <= PACKAGE[1..];
    assert plan.targets[0] in plan.targets && plan.targets[1] in plan.targets;
    if p in plan.inUse {
      if p == Join(prefix, PACKAGE[1..]) {
        assert plan.targets[0].segs == prefix.segs + PACKAGE[1..2];
        assert p.segs == plan.targets[0].segs + PACKAGE[2..];
        assert Under(p, plan.targets[0]);
      } else {
        assert Under(p, plan.targets[1]);
      }
    }
  }

  /** An install another package manager made is never proven, and so never
      advertised. */
  lemma OthersNeverProven(info: Install, env: Env)
    requires info.kind == NPMGlobal && !info.byNPM
    ensures Prove(info, env) == None && !SelfManaged(info, env) && !Startable(info, env)
  {
  }

  // ---- the verdict and the update ----

  predicate Writable(dirs: seq<Path>, env: Env) {
    dirs == [] || (env.canCheck && env.writable(dirs[0]) && Writable(dirs[1..], env))
  }

  /** The verdict needs every directory the plan writes to be writable. */
  lemma {:induction false} WritableIff(dirs: seq<Path>, env: Env)
    ensures Writable(dirs, env) <==> forall d :: d in dirs ==> env.canCheck && env.writable(d)
  {
    if dirs != [] {
      WritableIff(dirs[1..], env);
      assert dirs[0] in dirs;
      if d :| d in dirs[1..] && !(env.canCheck && env.writable(d)) {
        assert d in dirs;
      }
    }
  }

  /** Whether Update would act for this install. */
  predicate SelfManaged(info: Install, env: Env) {
    match info.kind
    case Native => true
    case NPMGlobal => Prove(info, env).Some? && Writable(Prove(info, env).value.targets, env)
    case OtherMethod => false
  }

  datatype Outcome =
    | Manual | NotWritable | InUse(p: Path)
    | UpToDate(version: Id)
    | ResolveFailed | UpdaterFailed(run: Run) | Unread(run: Run) | WrongVersion(run: Run, after: Id)
    | Updated(run: Run, after: Id)

  /** installSelfManaged */
  method InstallSelfManaged(info: Install, env: Env) returns (r: bool)
    ensures r == SelfManaged(info, env)
  {
    match info.kind
    case Native => return true;
    case OtherMethod => return false;
    case NPMGlobal =>
      var plan := Prove(info, env);
      if plan == None {
        return false;
      }
      r := ProbeAll(plan.value.targets, env);
  }

  method ProbeAll(dirs: seq<Path>, env: Env) returns (ok: bool)
    ensures ok == Writable(dirs, env)
  {
    for i := 0 to |dirs|
      invariant Writable(dirs[i..], env) == Writable(dirs, env)
    {
      if !(env.canCheck && env.writable(dirs[i])) {
        return false;
      }
    }
    return true;
  }

  /** What npm would install has been resolved and is not installed yet. */
  function Wanted(info: Install, env: Env): Option<Id> {
    if info.kind != NPMGlobal || Prove(info, env) == None then None
    else var plan := Prove(info, env).value; env.latest(plan.npm, plan.pathDir)
  }

  /** A version to install has been resolved and is not the installed one. */
  predicate HasNewer(info: Install, env: Env) {
    Wanted(info, env).Some? && Wanted(info, env) != Some(info.version)
  }

  /** What may be started: codex's own updater, with every directory it writes
      writable; or the proven npm, likewise, pinned to a version that is not
      installed yet, with nothing it replaces held open. */
  predicate MayStart(info: Install, env: Env, run: Run) {
    match info.kind
    case OtherMethod => false
    case Native => run == NativeRun(info.path) && NativeReady(env)
    case NPMGlobal =>
      && SelfManaged(info, env) && HasNewer(info, env)
      && var plan := Prove(info, env).value;
         && run == NPMRun(plan.npm, plan.pathDir, plan.pin, Wanted(info, env).value)
         && (plan.inUse != [] ==> env.canProbe && env.held(plan.inUse) == Free)
  }

  predicate NativeReady(env: Env) {
    env.nativeTargets != [] && Writable(env.nativeTargets, env)
  }

  /** Some run is permitted. */
  predicate Startable(info: Install, env: Env) {
    match info.kind
    case OtherMethod => false
    case Native => NativeReady(env)
    case NPMGlobal =>
      && SelfManaged(info, env) && HasNewer(info, env)
      && var files := Prove(info, env).value.inUse; files != [] ==> env.canProbe && env.held(files) == Free
  }

  lemma StartableIff(info: Install, env: Env)
    ensures Startable(info, env) <==> exists run :: MayStart(info, env, run)
    ensures forall r1, r2 :: MayStart(info, env, r1) && MayStart(info, env, r2) ==> r1 == r2
  {
    if Startable(info, env) {
      if info.kind == Native {
        assert MayStart(info, env, NativeRun(info.path));
      } else {
        var plan := Prove(info, env).value;
        assert MayStart(info, env, NPMRun(plan.npm, plan.pathDir, plan.pin, Wanted(info, env).value));
      }
    }
  }

  /** A newer version is there, but whether files are in use cannot be told. */
  predicate InUseUnknown(info: Install, env: Env) {
    && HasNewer(info, env)
    && var files := Prove(info, env).value.inUse; files != [] && (!env.canProbe || env.held(files) == CannotTell)
  }

  /** A newer version is there, and this file it replaces is held open. */
  function FileInUse(info: Install, env: Env): Option<Path> {
    if !SelfManaged(info, env) || !HasNewer(info, env) then None
    else
      var files := Prove(info, env).value.inUse;
      if files != [] && env.canProbe && env.held(files).HeldOpen? then Some(env.held(files).p) else None
  }

  predicate Refused(r: Outcome) {
    r.Manual? || r.NotWritable?
  }

  /** runUpdate, up to the pinned command: what it runs, or why it runs nothing. */
  method Preflight(info: Install, env: Env) returns (run: Option<Run>, refusal: Outcome)
    ensures run.Some? ==> MayStart(info, env, run.value) && (run.value.NPMRun? <==> info.kind == NPMGlobal)
    ensures run.Some? <==> Startable(info, env)
    ensures run == None ==> !refusal.UpdaterFailed? && !refusal.Unread? && !refusal.WrongVersion? && !refusal.Updated?
    ensures run == None && refusal.UpToDate? <==>
              info.kind == NPMGlobal && SelfManaged(info, env) && Wanted(info, env) == Some(info.version)
    ensures run == None && refusal.UpToDate? ==> refusal.version == info.version
    ensures info.kind == NPMGlobal ==>
              (run == None && Refused(refusal) <==> !SelfManaged(info, env) || InUseUnknown(info, env))
    ensures info.kind == Native ==> (run == None && Refused(refusal) <==> !NativeReady(env))
    ensures info.kind == OtherMethod ==> refusal == Manual
    ensures run == None && refusal.ResolveFailed? <==>
              info.kind == NPMGlobal && SelfManaged(info, env) && Wanted(info, env) == None
    ensures run == None && refusal.InUse? <==> FileInUse(info, env).Some?
    ensures run == None && refusal.InUse? ==> FileInUse(info, env) == Some(refusal.p)
  {
    assert Prove(info, env).Some? ==> |Prove(info, env).value.targets| == 2;
    var targets;
    run, refusal := None, Manual;
    match info.kind {
      case OtherMethod =>
        return;
      case Native =>
        targets := env.nativeTargets;
      case NPMGlobal =>
        if Prove(info, env) == None {
          return;
        }
        targets := Prove(info, env).value.targets;
    }
    var ok := ProbeAll(targets, env);
    if |targets| == 0 || !ok {
      refusal := NotWritable;
      return;
    }
    if info.kind == Native {
      run := Some(NativeRun(info.path));
      return;
    }
    var plan := Prove(info, env).value;
    var latest := env.latest(plan.npm, plan.pathDir);
    if latest == None {
      refusal := ResolveFailed;
      return;
    }
    if latest.value == info.version {
      refusal := UpToDate(info.version);
      return;
    }
    if |plan.inUse| > 0 {
      if !env.canProbe || env.held(plan.inUse) == CannotTell {
        refusal := NotWritable;
        return;
      }
      match env.held(plan.inUse)
      case HeldOpen(p) =>
        refusal := InUse(p);
        return;
      case _ =>
    }
    run := Some(NPMRun(plan.npm, plan.pathDir, plan.pin, latest.value));
  }

  /** An update starts what it may, whenever there is such a run; it reports
      success just when the updater did and the version re-read, for npm the
      one it resolved, is there. A native install is refused just when a
      directory it writes is unknown or not writable, an npm install just when
      the advertised verdict is no or, on Windows, when it cannot tell whether
      a file is in use. */
  method RunUpdate(info: Install, env: Env) returns (r: Outcome, started: Option<Run>)
    ensures started.Some? <==> exists run :: MayStart(info, env, run)
    ensures started.Some? ==> MayStart(info, env, started.value)
    ensures r.Updated? ==> started == Some(r.run) && env.reports(r.run) == Some(r.after)
    ensures r.Updated? <==>
      && started.Some? && env.updates(started.value) && env.reports(started.value).Some?
      && (info.kind == NPMGlobal ==> env.reports(started.value) == Wanted(info, env))
    ensures r.UpToDate? <==> info.kind == NPMGlobal && SelfManaged(info, env) && Wanted(info, env) == Some(info.version)
    ensures r.UpToDate? ==> started == None && r.version == info.version
    ensures info.kind == NPMGlobal ==> (Refused(r) <==> !SelfManaged(info, env) || InUseUnknown(info, env))
    ensures info.kind == Native ==> (Refused(r) <==> !NativeReady(env))
    ensures info.kind == OtherMethod ==> r == Manual
    ensures r.ResolveFailed? <==> info.kind == NPMGlobal && SelfManaged(info, env) && Wanted(info, env) == None
    ensures r.InUse? <==> FileInUse(info, env).Some?
    ensures r.InUse? ==> FileInUse(info, env) == Some(r.p)
    ensures r.UpdaterFailed? <==> started.Some? && !env.updates(started.value)
    ensures r.Unread? <==> started.Some? && env.updates(started.value) && env.reports(started.value) == None
    ensures r.WrongVersion? <==>
      && started.Some? && env.updates(started.value) && env.reports(started.value).Some?
      && info.kind == NPMGlobal && env.reports(started.value) != Wanted(info, env)
    ensures r.UpdaterFailed? || r.Unread? || r.WrongVersion? ==> started == Some(r.run)
    ensures r.WrongVersion? ==> env.reports(r.run) == Some(r.after)
  {
    StartableIff(info, env);
    var refusal;
    started, refusal := Preflight(info, env);
    if started == None {
      return refusal, None;
    }
    var run := started.value;
    if !env.updates(run) {
      return UpdaterFailed(run), started;
    }
    var after := env.reports(run);
    if after == None {
      return Unread(run), started;
    }
    if run.NPMRun? && after.value != run.version {
      return WrongVersion(run, after.value), started;
    }
    return Updated(run, after.value), started;
  }

  /** An npm install on Windows that is proven and writable, with a newer
      version there, and an in-use probe that fails. */
  function Untellable(prefix: Path, newer: Id): Env {
    Env(true, Some((prefix, Join(prefix, [NPM]), prefix)), true, true, _ => true, _ => true, _ => false, _ => true, [],
        _ => EnvNode, (_, _) => Some(prefix), p => Some(p), true, _ => true, [], (_, _) => Some(newer),
        true, _ => CannotTell, _ => true, _ => Some(newer))
  }

  /** For it the advertised verdict is yes and an update is refused. */
  lemma VerdictsDiffer(prefix: Path, have: Id, newer: Id)
    requires have != newer
    ensures var info, env := Install(NPMGlobal, true, prefix, prefix, have), Untellable(prefix, newer);
      SelfManaged(info, env) && InUseUnknown(info, env) && !Startable(info, env)
  {
    var info, env := Install(NPMGlobal, true, prefix, prefix, have), Untellable(prefix, newer);
    assert Prove(info, env) == Some(WinPlan((prefix, Join(prefix, [NPM]), prefix)));
    assert WinPlan(env.winProof.value).targets[1..] == [prefix];
  }
}
