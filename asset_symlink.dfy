/**
 * `AssetSymlink.execute`: for every (logical name, public name) pair of the
 * normalised configuration, a symbolic link `public/assets/<public name>`
 * under the application root that points, by a relative path, at the
 * digested file the asset lookup names.
 */
module AssetSymlink {
  import opened Wrappers
  import opened OrderedHash
  import opened Configuration
  import opened Paths
  import opened FileSystem

  /**
   * What `execute` takes from the application: its root directory
   * (`Rails.root`), the assets URL prefix (`config.assets.prefix`) and the
   * asset lookup, logical name → digested path (`find_asset`).
   */
  datatype Context = Context(root: Path, prefix: string, assets: map<string, string>)

  /** `prefix.sub(%r{^/}, '')`: one leading `/` removed. */
  function StripLeadingSlash(s: string): (r: string)
    ensures |s| > 0 && s[0] == '/' ==> s == "/" + r
    ensures (|s| == 0 || s[0] != '/') ==> r == s
  {
    if |s| > 0 && s[0] == '/' then s[1..] else s
  }

  /** `Rails.root.join('public', prefix, asset)`. */
  function DigestedPath(ctx: Context, digest: string): Path
  {
    ctx.root + ["public"] + Split(StripLeadingSlash(ctx.prefix)) + Split(digest)
  }

  /** `Rails.root.join('public', 'assets', public_name)`: the prefix plays no part. */
  function PublicPath(root: Path, publicName: string): (r: Path)
    ensures |r| >= |root| + 2
  {
    root + ["public", "assets"] + Split(publicName)
  }

  /** `File.dirname(public_name) != '.'` */
  predicate HasDirectoryPart(publicName: string) {
    '/' in publicName
  }

  /** The relative path stored in the link made for a pair whose digest path is `digest`. */
  function LinkTarget(ctx: Context, digest: string, publicName: string): Path
  {
    RelativeFrom(DigestedPath(ctx, digest), Parent(PublicPath(ctx.root, publicName)))
  }

  /** A name written as a non-empty sequence of clean segments. */
  predicate CleanName(s: string) {
    Split(s) != [] && Clean(Split(s))
  }

  /** The paths the context supplies are written in clean segments. */
  predicate CleanContext(ctx: Context) {
    && Clean(ctx.root)
    && Clean(Split(StripLeadingSlash(ctx.prefix)))
    && forall n | n in ctx.assets :: CleanName(ctx.assets[n])
  }

  /** Every link name of the normalised configuration is clean. */
  predicate CleanLinkNames(h: Hash) {
    forall k | k in h.pairs :: CleanName(h.pairs[k])
  }

  /** Every name in `names` has a public name in `spec`. */
  predicate Listed(names: seq<string>, spec: map<string, string>) {
    forall i | 0 <= i < |names| :: names[i] in spec
  }

  lemma ListedTail(names: seq<string>, spec: map<string, string>)
    requires names != [] && Listed(names, spec)
    ensures names[0] in spec && Listed(names[1..], spec)
  {
    assert forall i | 0 <= i < |names| - 1 :: names[1..][i] == names[i + 1];
  }

  /** One iteration of the `execute` loop, on the state `s`. */
  function LinkStep(s: Snapshot, ctx: Context, name: string, publicName: string): (r: Result<Snapshot, Error>)
  {
    if name !in ctx.assets then Err(AssetNotFound(name))
    else
      var link := PublicPath(ctx.root, publicName);
      var made := if HasDirectoryPart(publicName) then MakeDirs(s, Parent(link)) else s;
      Ok(ForceLink(made, LinkTarget(ctx, ctx.assets[name], publicName), link))
  }

  /** The body of the `execute` loop for the context `ctx`, as a value. */
  function StepOf(ctx: Context): (Snapshot, string, string) -> Result<Snapshot, Error> {
    (t, name, publicName) => LinkStep(t, ctx, name, publicName)
  }

  /**
   * A loop over `names` with body `step`, stopping at the first failure:
   * the final state (which keeps what the earlier steps did) and the
   * failure, if any.
   */
  function Loop(s: Snapshot, step: (Snapshot, string, string) -> Result<Snapshot, Error>,
                names: seq<string>, spec: map<string, string>): (Snapshot, Option<Error>)
    requires Listed(names, spec)
    decreases names
  {
    if names == [] then (s, None)
    else
      match step(s, names[0], spec[names[0]])
      case Err(e) => (s, Some(e))
      case Ok(next) => Loop(next, step, names[1..], spec)
  }

  /** A loop over `xs + ys` that gets through `xs` goes on with `ys` from where `xs` left off. */
  lemma {:induction false} LoopThen(s: Snapshot, step: (Snapshot, string, string) -> Result<Snapshot, Error>,
                                    xs: seq<string>, ys: seq<string>, spec: map<string, string>)
    requires Listed(xs, spec) && Listed(ys, spec)
    requires Loop(s, step, xs, spec).1 == None
    ensures Listed(xs + ys, spec)
    ensures Loop(s, step, xs + ys, spec) == Loop(Loop(s, step, xs, spec).0, step, ys, spec)
    decreases |xs|
  {
    ListedAppend(xs, ys, spec);
    if xs == [] {
      assert xs + ys == ys;
    } else {
      ListedTail(xs, spec);
      assert (xs + ys)[0] == xs[0] && (xs + ys)[1..] == xs[1..] + ys;
      var next := step(s, xs[0], spec[xs[0]]).value;
      LoopThen(next, step, xs[1..], ys, spec);
    }
  }

  lemma ListedAppend(xs: seq<string>, ys: seq<string>, spec: map<string, string>)
    requires Listed(xs, spec) && Listed(ys, spec)
    ensures Listed(xs + ys, spec)
  {
    assert forall i | |xs| <= i < |xs| + |ys| :: (xs + ys)[i] == ys[i - |xs|];
  }

  /** The `execute` loop over `names`, starting from the state `s`. */
  function Run(s: Snapshot, ctx: Context, names: seq<string>, spec: map<string, string>): (Snapshot, Option<Error>)
    requires Listed(names, spec)
  {
    Loop(s, StepOf(ctx), names, spec)
  }

  lemma RunStopsHere(s: Snapshot, ctx: Context, names: seq<string>, spec: map<string, string>)
    requires names != [] && Listed(names, spec) && names[0] !in ctx.assets
    ensures Run(s, ctx, names, spec) == (s, Some(AssetNotFound(names[0])))
  {
    assert StepOf(ctx)(s, names[0], spec[names[0]]) == Err(AssetNotFound(names[0]));
  }

  lemma RunUnfolds(s: Snapshot, ctx: Context, names: seq<string>, spec: map<string, string>, next: Snapshot)
    requires names != [] && Listed(names, spec)
    requires LinkStep(s, ctx, names[0], spec[names[0]]) == Ok(next)
    ensures Run(s, ctx, names, spec) == Run(next, ctx, names[1..], spec)
  {
    assert StepOf(ctx)(s, names[0], spec[names[0]]) == Ok(next);
  }

  /** `execute(config)`: normalise first, then link every pair in order. */
  function Execution(s: Snapshot, ctx: Context, config: Config): (Snapshot, Option<Error>)
    requires WellFormedConfig(config)
  {
    match Normalize(config)
    case Err(e) => (s, Some(e))
    case Ok(h) => Run(s, ctx, h.keys, h.pairs)
  }

  /** `create_public_path!(public_name)`. */
  method CreatePublicPath(disk: Disk, root: Path, publicName: string) returns (path: Path)
    modifies disk
    ensures path == PublicPath(root, publicName)
    ensures disk.State() ==
      if HasDirectoryPart(publicName) then MakeDirs(old(disk.State()), Parent(path)) else old(disk.State())
  {
    path := PublicPath(root, publicName);
    if HasDirectoryPart(publicName) {
      disk.MkdirP(Parent(path));
    }
  }

  /** `execute(config)` on `disk`; returns the error that stopped it, if any. */
  method Execute(disk: Disk, ctx: Context, config: Config) returns (failure: Option<Error>)
    requires WellFormedConfig(config)
    modifies disk
    ensures (disk.State(), failure) == Execution(old(disk.State()), ctx, config)
  {
    var normalized := Normalize(config);
    if normalized.Err? {
      return Some(normalized.error);
    }
    failure := LinkEach(disk, ctx, normalized.value);
  }

  /** The `each` loop of `execute` over the normalised pairs, in key order. */
  method LinkEach(disk: Disk, ctx: Context, h: Hash) returns (failure: Option<Error>)
    requires WellFormed(h)
    modifies disk
    ensures (disk.State(), failure) == Run(old(disk.State()), ctx, h.keys, h.pairs)
  {
    ghost var start := disk.State();
    assert Listed(h.keys, h.pairs);
    var i := 0;
    while i < |h.keys|
      invariant 0 <= i <= |h.keys|
      invariant Listed(h.keys[i..], h.pairs)
      invariant Run(start, ctx, h.keys, h.pairs) == Run(disk.State(), ctx, h.keys[i..], h.pairs)
    {
      ghost var before := disk.State();
      ghost var rest := h.keys[i..];
      var name := h.keys[i];
      assert rest[0] == name;
      ListedTail(rest, h.pairs);
      var publicName := h.pairs[name];
      if name !in ctx.assets {
        RunStopsHere(before, ctx, rest, h.pairs);
        return Some(AssetNotFound(name));
      }
      LinkOne(disk, ctx, name, publicName);
      assert rest[1..] == h.keys[i + 1..];
      RunUnfolds(before, ctx, rest, h.pairs, disk.State());
      i := i + 1;
    }
    failure := None;
  }

  /** The body of the loop for a name the asset lookup finds. */
  method LinkOne(disk: Disk, ctx: Context, name: string, publicName: string)
    requires name in ctx.assets
    modifies disk
    ensures LinkStep(old(disk.State()), ctx, name, publicName) == Ok(disk.State())
  {
    var prefix := StripLeadingSlash(ctx.prefix);
    var digested := ctx.root + ["public"] + Split(prefix) + Split(ctx.assets[name]);
    var publicPath := CreatePublicPath(disk, ctx.root, publicName);
    var relative := RelativeFrom(digested, Parent(publicPath));
    disk.LnSf(relative, publicPath);
  }

  /*
   * Properties of one iteration.
   */

  /** Every segment of the digested path is clean when the context is. */
  lemma DigestedPathClean(ctx: Context, digest: string)
    requires CleanContext(ctx) && CleanName(digest)
    ensures Clean(DigestedPath(ctx, digest))
  {
    var p := DigestedPath(ctx, digest);
    var pre, dig := Split(StripLeadingSlash(ctx.prefix)), Split(digest);
    assert p == ctx.root + ["public"] + pre + dig;
    forall i | 0 <= i < |p| ensures Segment(p[i]) {
      if i < |ctx.root| {
        assert p[i] == ctx.root[i];
      } else if i == |ctx.root| {
        assert p[i] == "public";
      } else if i < |ctx.root| + 1 + |pre| {
        assert p[i] == pre[i - |ctx.root| - 1];
      } else {
        assert p[i] == dig[i - |ctx.root| - 1 - |pre|];
      }
    }
  }

  /**
   * The relative path stored in a link, followed from the directory the link
   * sits in, reaches the digested file `public/<prefix>/<digest path>`.
   */
  lemma LinkTargetResolves(ctx: Context, digest: string, publicName: string)
    requires CleanContext(ctx) && CleanName(digest) && CleanName(publicName)
    ensures Resolve(Parent(PublicPath(ctx.root, publicName)), LinkTarget(ctx, digest, publicName))
         == DigestedPath(ctx, digest)
  {
    DigestedPathClean(ctx, digest);
    RelativeFromResolves(DigestedPath(ctx, digest), Parent(PublicPath(ctx.root, publicName)));
  }

  /**
   * One pair: a missing asset fails before anything is touched; otherwise
   * the link at `public/assets/<public name>` is (re)written to the relative
   * target, which resolves to the digested file when the names are clean, no
   * other link changes, and exactly the directories above the link are
   * created when the public name has a directory part, none otherwise.
   */
  lemma LinkStepEffect(s: Snapshot, ctx: Context, name: string, publicName: string)
    ensures name !in ctx.assets ==> LinkStep(s, ctx, name, publicName) == Err(AssetNotFound(name))
    ensures name in ctx.assets ==> LinkStep(s, ctx, name, publicName).Ok?
    ensures name in ctx.assets ==>
      var r, link := LinkStep(s, ctx, name, publicName).value, PublicPath(ctx.root, publicName);
      && link in r.links
      && (CleanContext(ctx) && CleanName(publicName) ==>
            Resolve(Parent(link), r.links[link]) == DigestedPath(ctx, ctx.assets[name]))
      && (forall l | l != link :: (l in r.links <==> l in s.links))
      && (forall l | l != link && l in s.links :: r.links[l] == s.links[l])
      && (HasDirectoryPart(publicName) ==> r.dirs == s.dirs + Ancestors(Parent(link)))
      && (!HasDirectoryPart(publicName) ==> r.dirs == s.dirs)
  {
    if name in ctx.assets {
      LinkStepFound(s, ctx, name, publicName);
      if CleanContext(ctx) && CleanName(publicName) {
        LinkTargetResolves(ctx, ctx.assets[name], publicName);
      }
    }
  }

  /** An iteration never leaves a directory without its parents. */
  lemma LinkStepPrefixClosed(s: Snapshot, ctx: Context, name: string, publicName: string)
    requires PrefixClosed(s.dirs) && LinkStep(s, ctx, name, publicName).Ok?
    ensures PrefixClosed(LinkStep(s, ctx, name, publicName).value.dirs)
  {
    if HasDirectoryPart(publicName) {
      MakeDirsPrefixClosed(s, Parent(PublicPath(ctx.root, publicName)));
    }
  }

  /**
   * The test for a directory part holds exactly for names of two or more
   * fields; for a name in clean segments that is `File.dirname(public_name) != '.'`.
   */
  lemma DirectoryPartMeansNested(publicName: string)
    ensures HasDirectoryPart(publicName) <==> |Split(publicName)| > 1
  {
    if publicName != "" {
      SlashFields(publicName);
    }
  }

  /*
   * Properties of the whole loop.
   */

  predicate AllFound(ctx: Context, names: seq<string>) {
    forall i | 0 <= i < |names| :: names[i] in ctx.assets
  }

  lemma AllFoundTail(ctx: Context, names: seq<string>)
    requires names != [] && AllFound(ctx, names)
    ensures names[0] in ctx.assets && AllFound(ctx, names[1..])
  {
    assert forall i | 0 <= i < |names| - 1 :: names[1..][i] == names[i + 1];
  }

  /** The directories one pair creates: those above its link, when the public name is nested. */
  function StepDirs(ctx: Context, publicName: string): set<Path> {
    if HasDirectoryPart(publicName) then Ancestors(Parent(PublicPath(ctx.root, publicName))) else {}
  }

  /** The link one pair writes. */
  function StepLink(ctx: Context, digest: string, publicName: string): map<Path, Path> {
    map[PublicPath(ctx.root, publicName) := LinkTarget(ctx, digest, publicName)]
  }

  /** The `ln_sf` calls the pairs `names` make, in order, as (link, target) pairs. */
  function Writes(ctx: Context, names: seq<string>, spec: map<string, string>): (r: seq<(Path, Path)>)
    requires Listed(names, spec)
    requires AllFound(ctx, names)
    ensures |r| == |names|
    decreases names
  {
    if names == [] then []
    else
      var n := names[0];
      [(PublicPath(ctx.root, spec[n]), LinkTarget(ctx, ctx.assets[n], spec[n]))] + Writes(ctx, names[1..], spec)
  }

  lemma {:induction false} WritesAt(ctx: Context, names: seq<string>, spec: map<string, string>, i: nat)
    requires Listed(names, spec) && AllFound(ctx, names) && i < |names|
    ensures Writes(ctx, names, spec)[i] ==
      (PublicPath(ctx.root, spec[names[i]]), LinkTarget(ctx, ctx.assets[names[i]], spec[names[i]]))
    decreases i
  {
    if i > 0 {
      ListedTail(names, spec);
      AllFoundTail(ctx, names);
      WritesAt(ctx, names[1..], spec, i - 1);
      assert names[1..][i - 1] == names[i];
    }
  }

  /** The links the pairs `names` make, a later pair overriding an earlier one at the same place. */
  function MadeLinks(ctx: Context, names: seq<string>, spec: map<string, string>): map<Path, Path>
    requires Listed(names, spec)
    requires AllFound(ctx, names)
  {
    Written(Writes(ctx, names, spec))
  }

  lemma MadeLinksUnfold(ctx: Context, names: seq<string>, spec: map<string, string>)
    requires names != [] && Listed(names, spec) && AllFound(ctx, names)
    ensures Listed(names[1..], spec) && AllFound(ctx, names[1..])
    ensures MadeLinks(ctx, names, spec) ==
      StepLink(ctx, ctx.assets[names[0]], spec[names[0]]) + MadeLinks(ctx, names[1..], spec)
  {
    ListedTail(names, spec);
    AllFoundTail(ctx, names);
    var ws := Writes(ctx, names, spec);
    assert ws[1..] == Writes(ctx, names[1..], spec);
  }

  /** The directories the pairs `names` create. */
  function MadeDirs(ctx: Context, names: seq<string>, spec: map<string, string>): set<Path>
    requires Listed(names, spec)
    decreases names
  {
    if names == [] then {}
    else StepDirs(ctx, spec[names[0]]) + MadeDirs(ctx, names[1..], spec)
  }

  /** A pair whose asset is found adds its directories and writes its link over the state. */
  lemma LinkStepFound(s: Snapshot, ctx: Context, name: string, publicName: string)
    requires name in ctx.assets
    ensures LinkStep(s, ctx, name, publicName) ==
      Ok(Snapshot(s.dirs + StepDirs(ctx, publicName), s.links + StepLink(ctx, ctx.assets[name], publicName)))
  {
    var link, target := PublicPath(ctx.root, publicName), LinkTarget(ctx, ctx.assets[name], publicName);
    var made := if HasDirectoryPart(publicName) then MakeDirs(s, Parent(link)) else s;
    assert made == Snapshot(s.dirs + StepDirs(ctx, publicName), s.links);
    ForceLinkOverwrites(made, target, link);
    assert StepLink(ctx, ctx.assets[name], publicName) == map[link := target];
  }

  /**
   * When every asset is found the loop succeeds, and its effect does not
   * depend on the state it starts from: it adds the same directories and
   * writes the same links over whatever was there.
   */
  lemma {:induction false} RunSucceeds(s: Snapshot, ctx: Context, names: seq<string>, spec: map<string, string>)
    requires Listed(names, spec)
    requires AllFound(ctx, names)
    ensures Run(s, ctx, names, spec) ==
      (Snapshot(s.dirs + MadeDirs(ctx, names, spec), s.links + MadeLinks(ctx, names, spec)), None)
    decreases names
  {
    if names != [] {
      var n, rest := names[0], names[1..];
      var dirs, link := StepDirs(ctx, spec[n]), StepLink(ctx, ctx.assets[n], spec[n]);
      var next := Snapshot(s.dirs + dirs, s.links + link);
      LinkStepFound(s, ctx, n, spec[n]);
      RunUnfolds(s, ctx, names, spec, next);
      assert AllFound(ctx, rest) by {
        forall i | 0 <= i < |rest| ensures rest[i] in ctx.assets {
          assert rest[i] == names[i + 1];
        }
      }
      RunSucceeds(next, ctx, rest, spec);
      assert MadeDirs(ctx, names, spec) == dirs + MadeDirs(ctx, rest, spec);
      MadeLinksUnfold(ctx, names, spec);
      OverwriteInSteps(s, dirs, link, MadeDirs(ctx, rest, spec), MadeLinks(ctx, rest, spec));
    } else {
      assert s.dirs + MadeDirs(ctx, names, spec) == s.dirs;
      assert MadeLinks(ctx, names, spec) == map[];
      assert s.links + MadeLinks(ctx, names, spec) == s.links;
    }
  }

  /** Adding directories and writing links in two steps is doing both at once. */
  lemma OverwriteInSteps(s: Snapshot, d1: set<Path>, l1: map<Path, Path>, d2: set<Path>, l2: map<Path, Path>)
    ensures Snapshot(s.dirs + d1 + d2, s.links + l1 + l2) == Snapshot(s.dirs + (d1 + d2), s.links + (l1 + l2))
  {
    assert s.links + l1 + l2 == s.links + (l1 + l2);
  }

  /**
   * The loop stops at the first pair whose asset is missing, reports it, and
   * leaves the state the pairs before it produced; no later pair is processed.
   */
  lemma RunStopsAtMissing(s: Snapshot, ctx: Context, names: seq<string>, spec: map<string, string>, k: nat)
    requires Listed(names, spec)
    requires k < |names| && names[k] !in ctx.assets && AllFound(ctx, names[..k])
    ensures Run(s, ctx, names[..k], spec).1 == None
    ensures Run(s, ctx, names, spec) == (Run(s, ctx, names[..k], spec).0, Some(AssetNotFound(names[k])))
  {
    ListedPrefix(names, spec, k);
    RunThroughFound(s, ctx, names[..k], spec);
    var t := Run(s, ctx, names[..k], spec).0;
    assert StepOf(ctx)(t, names[k], spec[names[k]]) == Err(AssetNotFound(names[k]));
    LoopStopsAt(s, StepOf(ctx), names, spec, k);
  }

  /** A run over names that are all found reports no failure. */
  lemma RunThroughFound(s: Snapshot, ctx: Context, names: seq<string>, spec: map<string, string>)
    requires Listed(names, spec) && AllFound(ctx, names)
    ensures Run(s, ctx, names, spec).1 == None
  {
    RunSucceeds(s, ctx, names, spec);
  }

  /** A loop whose step fails at `names[k]`, after getting through `names[..k]`, stops there. */
  lemma LoopStopsAt(s: Snapshot, step: (Snapshot, string, string) -> Result<Snapshot, Error>,
                    names: seq<string>, spec: map<string, string>, k: nat)
    requires Listed(names, spec) && k < |names|
    ensures Listed(names[..k], spec)
    ensures (Loop(s, step, names[..k], spec).1 == None &&
             step(Loop(s, step, names[..k], spec).0, names[k], spec[names[k]]).Err?) ==>
      Loop(s, step, names, spec) ==
        (Loop(s, step, names[..k], spec).0, Some(step(Loop(s, step, names[..k], spec).0, names[k], spec[names[k]]).error))
  {
    var before, after := names[..k], names[k..];
    ListedPrefix(names, spec, k);
    ListedSuffix(names, spec, k);
    if Loop(s, step, before, spec).1 == None {
      assert before + after == names;
      LoopThen(s, step, before, after, spec);
      assert after[0] == names[k];
    }
  }

  lemma ListedSuffix(names: seq<string>, spec: map<string, string>, k: nat)
    requires Listed(names, spec) && k <= |names|
    ensures Listed(names[k..], spec)
  {
    assert forall i | 0 <= i < |names| - k :: names[k..][i] == names[i + k];
  }

  lemma ListedPrefix(names: seq<string>, spec: map<string, string>, k: nat)
    requires Listed(names, spec) && k <= |names|
    ensures Listed(names[..k], spec)
  {
    assert forall i | 0 <= i < k :: names[..k][i] == names[i];
  }

  /** A place gets a link only from a pair whose public path it is. */
  lemma MadeLinksKeys(ctx: Context, names: seq<string>, spec: map<string, string>, l: Path)
    requires Listed(names, spec)
    requires AllFound(ctx, names)
    ensures l in MadeLinks(ctx, names, spec) <==>
      exists i | 0 <= i < |names| :: PublicPath(ctx.root, spec[names[i]]) == l
  {
    var ws := Writes(ctx, names, spec);
    WrittenKeys(ws, l);
    forall i | 0 <= i < |names| ensures ws[i].0 == PublicPath(ctx.root, spec[names[i]]) {
      WritesAt(ctx, names, spec, i);
    }
  }

  /** Where several pairs link the same place, the last of them decides the target. */
  lemma MadeLinksLastWins(ctx: Context, names: seq<string>, spec: map<string, string>, i: nat)
    requires Listed(names, spec)
    requires AllFound(ctx, names)
    requires i < |names|
    requires forall j | i < j < |names| :: spec[names[j]] != spec[names[i]]
    ensures PublicPath(ctx.root, spec[names[i]]) in MadeLinks(ctx, names, spec)
    ensures MadeLinks(ctx, names, spec)[PublicPath(ctx.root, spec[names[i]])]
         == LinkTarget(ctx, ctx.assets[names[i]], spec[names[i]])
  {
    var ws := Writes(ctx, names, spec);
    WritesAt(ctx, names, spec, i);
    forall j | i < j < |ws| ensures ws[j].0 != ws[i].0 {
      WritesAt(ctx, names, spec, j);
      if ws[j].0 == ws[i].0 {
        PublicPathInjective(ctx.root, spec[names[j]], spec[names[i]]);
      }
    }
    WrittenLastWins(ws, i);
  }

  /** Distinct public names are linked at distinct places. */
  lemma PublicPathInjective(root: Path, a: string, b: string)
    requires PublicPath(root, a) == PublicPath(root, b)
    ensures a == b
  {
    var n := |root| + 2;
    assert Split(a) == PublicPath(root, a)[n..];
    assert Split(b) == PublicPath(root, b)[n..];
    JoinSplit(a);
    JoinSplit(b);
  }

  /**
   * After a successful run every link a pair made resolves, from its own
   * directory, to the digested file of the last pair linked there.
   */
  lemma RunLinksResolve(s: Snapshot, ctx: Context, names: seq<string>, spec: map<string, string>, i: nat)
    requires Listed(names, spec)
    requires CleanContext(ctx) && AllFound(ctx, names)
    requires i < |names| && CleanName(spec[names[i]])
    requires forall j | i < j < |names| :: spec[names[j]] != spec[names[i]]
    ensures var r, l := Run(s, ctx, names, spec).0, PublicPath(ctx.root, spec[names[i]]);
      && l in r.links
      && Resolve(Parent(l), r.links[l]) == DigestedPath(ctx, ctx.assets[names[i]])
  {
    RunSucceeds(s, ctx, names, spec);
    MadeLinksLastWins(ctx, names, spec, i);
    LinkTargetResolves(ctx, ctx.assets[names[i]], spec[names[i]]);
  }

  /** Links at places no pair names are left as they were. */
  lemma RunKeepsOtherLinks(s: Snapshot, ctx: Context, names: seq<string>, spec: map<string, string>, l: Path)
    requires Listed(names, spec)
    requires AllFound(ctx, names)
    requires forall j | 0 <= j < |names| :: PublicPath(ctx.root, spec[names[j]]) != l
    ensures var r := Run(s, ctx, names, spec).0;
      (l in r.links <==> l in s.links) && (l in s.links ==> r.links[l] == s.links[l])
  {
    RunSucceeds(s, ctx, names, spec);
    MadeLinksKeys(ctx, names, spec, l);
  }

  /*
   * Properties of `execute`.
   */

  /**
   * A configuration of an unexpected kind is rejected before the filesystem
   * is touched, naming the first offending item.
   */
  lemma ExecutionRejectsInvalid(s: Snapshot, ctx: Context, config: Config)
    requires WellFormedConfig(config) && Offenders(config) != []
    ensures Execution(s, ctx, config) == (s, Some(InvalidConfiguration(Other(Offenders(config)[0]))))
  {
    NormalizeFails(config);
  }

  /**
   * Running `execute` again on its own result changes nothing and reports
   * the same outcome: links are overwritten in place, never duplicated.
   */
  lemma ExecutionIdempotent(s: Snapshot, ctx: Context, config: Config)
    requires WellFormedConfig(config)
    ensures Execution(Execution(s, ctx, config).0, ctx, config) == Execution(s, ctx, config)
  {
    match Normalize(config)
    case Err(_) =>
    case Ok(h) =>
      assert Listed(h.keys, h.pairs);
      RunIdempotent(s, ctx, h.keys, h.pairs);
  }

  lemma RunIdempotent(s: Snapshot, ctx: Context, names: seq<string>, spec: map<string, string>)
    requires Listed(names, spec)
    ensures Run(Run(s, ctx, names, spec).0, ctx, names, spec) == Run(s, ctx, names, spec)
  {
    if AllFound(ctx, names) {
      RunSucceeds(s, ctx, names, spec);
      RunSucceeds(Run(s, ctx, names, spec).0, ctx, names, spec);
      OverwriteTwice(s, MadeDirs(ctx, names, spec), MadeLinks(ctx, names, spec));
    } else {
      var k :| 0 <= k < |names| && names[k] !in ctx.assets;
      k := FirstMissing(ctx, names, k);
      ListedPrefix(names, spec, k);
      var before := names[..k];
      RunStopsAtMissing(s, ctx, names, spec, k);
      RunSucceeds(s, ctx, before, spec);
      var mid := Run(s, ctx, before, spec).0;
      RunStopsAtMissing(mid, ctx, names, spec, k);
      RunSucceeds(mid, ctx, before, spec);
      OverwriteTwice(s, MadeDirs(ctx, before, spec), MadeLinks(ctx, before, spec));
    }
  }

  /** Writing the same links twice is writing them once. */
  lemma OverwriteTwice(s: Snapshot, dirs: set<Path>, links: map<Path, Path>)
    ensures Snapshot(s.dirs + dirs + dirs, s.links + links + links) == Snapshot(s.dirs + dirs, s.links + links)
  {
    assert s.links + links + links == s.links + links;
  }

  /** The first index at or before `k` whose asset is missing. */
  lemma {:induction false} FirstMissing(ctx: Context, names: seq<string>, k: nat) returns (first: nat)
    requires k < |names| && names[k] !in ctx.assets
    ensures first <= k && names[first] !in ctx.assets && AllFound(ctx, names[..first])
    decreases k
  {
    if AllFound(ctx, names[..k]) {
      first := k;
    } else {
      var j :| 0 <= j < k && names[..k][j] !in ctx.assets;
      first := FirstMissing(ctx, names, j);
    }
  }
}
