/**
 * The scenarios of the gem's own test suite, stated on the model: the
 * normaliser's examples and the links `execute` leaves in a sandbox whose
 * root is `tmp`.
 */
module TestCases {
  import opened Wrappers
  import opened OrderedHash
  import opened Configuration
  import opened Paths
  import opened FileSystem
  import opened AssetSymlink

  /*
   * normalize_configuration
   */

  /** `nil` gives `{}`. */
  lemma NilGivesEmpty()
    ensures Normalize(Nil) == Ok(Hash([], map[]))
  {
  }

  /** `'foo.js'` gives `{ 'foo.js' => 'foo.js' }`. */
  lemma StringGivesSingleton(a: string)
    ensures Normalize(Str(a)) == Ok(Hash([a], map[a := a]))
  {
  }

  /** Two one-pair hashes with different keys merge into a two-pair hash, in order. */
  lemma MergeTwoSingletons(a: string, va: string, b: string, vb: string)
    requires a != b
    ensures Merge(Singleton(a, va), Singleton(b, vb)) == Hash([a, b], map[a := va, b := vb])
  {
    assert Unseen([b], map[a := va]) == [b];
    assert [a] + [b] == [a, b];
    assert map[a := va] + map[b := vb] == map[a := va, b := vb];
  }

  /** A two-element array normalises to the merge of its elements. */
  lemma NormalizePair(x: Config, y: Config)
    requires Normalize(x).Ok? && Normalize(y).Ok?
    ensures Normalize(List([x, y])) == Ok(Merge(Normalize(x).value, Normalize(y).value))
  {
    NormalizeSnoc([x], y);
    assert [x] + [y] == [x, y];
    NormalizeSingletonList(x);
  }

  /** `%w(foo.js bar.js)` gives `{ 'foo.js' => 'foo.js', 'bar.js' => 'bar.js' }`. */
  lemma StringsGiveHash(a: string, b: string)
    requires a != b
    ensures Normalize(List([Str(a), Str(b)])) == Ok(Hash([a, b], map[a := a, b := b]))
  {
    NormalizePair(Str(a), Str(b));
    MergeTwoSingletons(a, a, b, b);
  }

  /** `[{ 'foo.js' => 'v1/foo.js' }, { 'bar.js' => 'v1/bar.js' }]` merges the two hashes. */
  lemma HashesMerged(a: string, va: string, b: string, vb: string)
    requires a != b
    ensures Normalize(List([Map(Singleton(a, va)), Map(Singleton(b, vb))]))
         == Ok(Hash([a, b], map[a := va, b := vb]))
  {
    NormalizePair(Map(Singleton(a, va)), Map(Singleton(b, vb)));
    MergeTwoSingletons(a, va, b, vb);
  }

  /** `['foo.js', { 'bar.js' => 'v1/bar.js' }]`: strings and hashes mix. */
  lemma StringsAndHashesMixed(a: string, b: string, vb: string)
    requires a != b
    ensures Normalize(List([Str(a), Map(Singleton(b, vb))])) == Ok(Hash([a, b], map[a := a, b := vb]))
  {
    NormalizePair(Str(a), Map(Singleton(b, vb)));
    MergeTwoSingletons(a, a, b, vb);
  }

  /** `{ 'foo.js' => 'bar.js' }` comes back unchanged, also as the only element of an array. */
  lemma HashUnchanged(h: Hash)
    ensures Normalize(Map(h)) == Ok(h)
    ensures Normalize(List([Map(h)])) == Ok(h)
  {
    NormalizeSingletonList(Map(h));
  }

  /** `[1]` raises `ArgumentError`, naming the offending item. */
  lemma UnexpectedItemRejected(v: string)
    ensures Normalize(List([Other(v)])) == Err(InvalidConfiguration(Other(v)))
  {
    NormalizeSingletonList(Other(v));
  }

  /*
   * execute, for any clean application root and single-segment names
   */

  /** A name without `/` splits into itself. */
  lemma SplitSegment(x: string)
    requires Segment(x)
    ensures Split(x) == [x]
  {
    SplitJoin([x]);
  }

  /** `x/y` splits into its two segments. */
  lemma SplitTwo(x: string, y: string)
    requires Segment(x) && Segment(y)
    ensures Split(x + "/" + y) == [x, y]
  {
    SplitJoin([x, y]);
    assert Join([x, y]) == x + "/" + y;
  }

  /** The default prefix `/assets` names `public/assets`. */
  lemma DefaultPrefix()
    ensures Split(StripLeadingSlash("/assets")) == ["assets"]
  {
    assert StripLeadingSlash("/assets") == "assets";
    SplitSegment("assets");
  }

  /** A single name is linked to itself. */
  lemma ExecutionOfName(s: Snapshot, ctx: Context, name: string)
    ensures Execution(s, ctx, Str(name)) == Run(s, ctx, [name], map[name := name])
  {
  }

  /** A hash configuration is linked pair by pair, in key order. */
  lemma ExecutionOfHash(s: Snapshot, ctx: Context, h: Hash)
    requires WellFormed(h)
    ensures Execution(s, ctx, Map(h)) == Run(s, ctx, h.keys, h.pairs)
  {
  }

  /** One pair whose asset is found makes exactly that pair's link. */
  lemma OnePair(s: Snapshot, ctx: Context, name: string, publicName: string)
    requires name in ctx.assets
    ensures Run(s, ctx, [name], map[name := publicName]) ==
      (Snapshot(s.dirs + StepDirs(ctx, publicName), s.links + StepLink(ctx, ctx.assets[name], publicName)), None)
  {
    var names, spec := [name], map[name := publicName];
    var next := Snapshot(s.dirs + StepDirs(ctx, publicName), s.links + StepLink(ctx, ctx.assets[name], publicName));
    LinkStepFound(s, ctx, name, publicName);
    RunUnfolds(s, ctx, names, spec, next);
    assert names[1..] == [];
  }

  /** `public/assets` under the root. */
  function AssetsDir(root: Path): Path {
    root + ["public", "assets"]
  }

  /** A one-segment public name is linked directly in `public/assets`, and no directory is made. */
  lemma TopLevelPublicPath(root: Path, name: string)
    requires Segment(name)
    ensures PublicPath(root, name) == AssetsDir(root) + [name]
    ensures !HasDirectoryPart(name)
  {
    SplitSegment(name);
  }

  /** `d/f` is linked in `public/assets/d`, which is created first. */
  lemma NestedPublicPath(root: Path, dir: string, file: string)
    requires Segment(dir) && Segment(file)
    ensures PublicPath(root, dir + "/" + file) == AssetsDir(root) + [dir, file]
    ensures HasDirectoryPart(dir + "/" + file)
  {
    SplitTwo(dir, file);
    assert (dir + "/" + file)[|dir|] == '/';
  }

  /** With the prefix `/assets`, a digest path of segments `d` is `public/assets/d`. */
  lemma DefaultDigestedPath(ctx: Context, digest: string, d: Path)
    requires ctx.prefix == "/assets" && Split(digest) == d
    ensures DigestedPath(ctx, digest) == AssetsDir(ctx.root) + d
  {
    DefaultPrefix();
  }

  /** The link state after writing `target` at `link` over `s`, when no directory is made. */
  lemma OnePairLink(s: Snapshot, ctx: Context, name: string, publicName: string, link: Path, target: Path)
    requires name in ctx.assets && !HasDirectoryPart(publicName)
    requires PublicPath(ctx.root, publicName) == link
    requires LinkTarget(ctx, ctx.assets[name], publicName) == target
    ensures Run(s, ctx, [name], map[name := publicName]) == (s.(links := s.links[link := target]), None)
  {
    OnePair(s, ctx, name, publicName);
    ForceLinkOverwrites(s, target, link);
    assert s.dirs + StepDirs(ctx, publicName) == s.dirs;
  }

  /**
   * `execute('widget.js')` with `widget.js` found at `widget-abc123.js`:
   * the link `public/assets/widget.js` holds `widget-abc123.js`, and no
   * directory is created.
   */
  lemma TopLevelLink(s: Snapshot, root: Path, name: string, digest: string)
    requires Segment(name) && Segment(digest)
    ensures var ctx := Context(root, "/assets", map[name := digest]);
      Execution(s, ctx, Str(name)) == (s.(links := s.links[AssetsDir(root) + [name] := [digest]]), None)
  {
    var ctx := Context(root, "/assets", map[name := digest]);
    ExecutionOfName(s, ctx, name);
    TopLevelRun(s, ctx, name, digest);
  }

  lemma TopLevelRun(s: Snapshot, ctx: Context, name: string, digest: string)
    requires Segment(name) && Segment(digest)
    requires ctx.prefix == "/assets" && ctx.assets == map[name := digest]
    ensures Run(s, ctx, [name], map[name := name]) == (s.(links := s.links[AssetsDir(ctx.root) + [name] := [digest]]), None)
  {
    var assets := AssetsDir(ctx.root);
    TopLevelPublicPath(ctx.root, name);
    SplitSegment(digest);
    DefaultDigestedPath(ctx, digest, [digest]);
    RelativeFromSharedRoot(assets, [digest], []);
    assert assets + [] == assets;
    OnePairLink(s, ctx, name, name, assets + [name], [digest]);
  }

  /** The state after one pair whose public name has a directory part. */
  lemma OnePairNestedLink(s: Snapshot, ctx: Context, name: string, publicName: string, link: Path, target: Path)
    requires name in ctx.assets && HasDirectoryPart(publicName)
    requires PublicPath(ctx.root, publicName) == link
    requires LinkTarget(ctx, ctx.assets[name], publicName) == target
    ensures Run(s, ctx, [name], map[name := publicName]) ==
      (Snapshot(s.dirs + Ancestors(Parent(link)), s.links[link := target]), None)
  {
    OnePair(s, ctx, name, publicName);
    ForceLinkOverwrites(s, target, link);
  }

  /**
   * `execute('widget.js' => 'v1/foo.js')`: `public/assets/v1` is created
   * and the link `public/assets/v1/foo.js` holds `../widget-abc123.js`.
   */
  lemma NestedLinkCreatesDirectory(s: Snapshot, root: Path, name: string, dir: string, file: string, digest: string)
    requires Segment(dir) && Segment(file) && Segment(digest) && dir != digest
    ensures var ctx := Context(root, "/assets", map[name := digest]);
      var publicName := dir + "/" + file;
      && Execution(s, ctx, Map(Singleton(name, publicName))) ==
           (Snapshot(s.dirs + Ancestors(AssetsDir(root) + [dir]),
                     s.links[AssetsDir(root) + [dir, file] := ["..", digest]]), None)
      && Join(["..", digest]) == "../" + digest
  {
    var ctx := Context(root, "/assets", map[name := digest]);
    var publicName := dir + "/" + file;
    UpOneText(digest);
    ExecutionOfHash(s, ctx, Singleton(name, publicName));
    NestedRun(s, ctx, name, dir, file, digest);
  }

  lemma UpOneText(x: string)
    ensures Join(["..", x]) == "../" + x
  {
    JoinUp(x, [x]);
    assert [".."] + [x] == ["..", x];
  }

  /** A path that climbs one level, written as a string. */
  lemma JoinUp(x: string, p: Path)
    requires p != []
    requires Join(p) == x
    ensures Join([".."] + p) == "../" + x
  {
    assert ([".."] + p)[1..] == p;
    assert ".." + "/" + x == "../" + x;
  }

  lemma NestedRun(s: Snapshot, ctx: Context, name: string, dir: string, file: string, digest: string)
    requires Segment(dir) && Segment(file) && Segment(digest) && dir != digest
    requires ctx.prefix == "/assets" && ctx.assets == map[name := digest]
    ensures Run(s, ctx, [name], map[name := dir + "/" + file]) ==
      (Snapshot(s.dirs + Ancestors(AssetsDir(ctx.root) + [dir]),
                s.links[AssetsDir(ctx.root) + [dir, file] := ["..", digest]]), None)
  {
    var assets := AssetsDir(ctx.root);
    var link := assets + [dir, file];
    NestedPublicPath(ctx.root, dir, file);
    SplitSegment(digest);
    DefaultDigestedPath(ctx, digest, [digest]);
    assert Parent(link) == assets + [dir];
    RelativeFromSharedRoot(assets, [digest], [dir]);
    assert RelativeFrom([digest], [dir]) == ["..", digest] by {
      assert CommonPrefixLength([digest], [dir]) == 0;
      assert Ups(1) == [".."];
    }
    OnePairNestedLink(s, ctx, name, dir + "/" + file, link, ["..", digest]);
  }

  /**
   * `execute('external/widget.js')` with the asset at
   * `external/widget-abc123.js`: the link in `public/assets/external` holds
   * `widget-abc123.js`, relative to its own directory.
   */
  lemma LinkIsRelative(s: Snapshot, root: Path, dir: string, file: string, digestFile: string)
    requires Segment(dir) && Segment(file) && Segment(digestFile)
    ensures var name, digest := dir + "/" + file, dir + "/" + digestFile;
      var ctx := Context(root, "/assets", map[name := digest]);
      Execution(s, ctx, Str(name)) ==
        (Snapshot(s.dirs + Ancestors(AssetsDir(root) + [dir]),
                  s.links[AssetsDir(root) + [dir, file] := [digestFile]]), None)
  {
    var name, digest := dir + "/" + file, dir + "/" + digestFile;
    var ctx := Context(root, "/assets", map[name := digest]);
    ExecutionOfName(s, ctx, name);
    RelativeRun(s, ctx, dir, file, digestFile);
  }

  lemma RelativeRun(s: Snapshot, ctx: Context, dir: string, file: string, digestFile: string)
    requires Segment(dir) && Segment(file) && Segment(digestFile)
    requires ctx.prefix == "/assets" && ctx.assets == map[dir + "/" + file := dir + "/" + digestFile]
    ensures var name := dir + "/" + file;
      Run(s, ctx, [name], map[name := name]) ==
        (Snapshot(s.dirs + Ancestors(AssetsDir(ctx.root) + [dir]),
                  s.links[AssetsDir(ctx.root) + [dir, file] := [digestFile]]), None)
  {
    var name := dir + "/" + file;
    var link := AssetsDir(ctx.root) + [dir, file];
    NestedPublicPath(ctx.root, dir, file);
    RelativeTarget(ctx, dir, file, digestFile);
    OnePairNestedLink(s, ctx, name, name, link, [digestFile]);
  }

  /** The digested file sits in the link's own directory, so the target is its bare name. */
  lemma RelativeTarget(ctx: Context, dir: string, file: string, digestFile: string)
    requires Segment(dir) && Segment(file) && Segment(digestFile) && ctx.prefix == "/assets"
    ensures Parent(AssetsDir(ctx.root) + [dir, file]) == AssetsDir(ctx.root) + [dir]
    ensures LinkTarget(ctx, dir + "/" + digestFile, dir + "/" + file) == [digestFile]
  {
    var here := AssetsDir(ctx.root) + [dir];
    NestedPublicPath(ctx.root, dir, file);
    SplitTwo(dir, digestFile);
    DefaultDigestedPath(ctx, dir + "/" + digestFile, [dir, digestFile]);
    assert AssetsDir(ctx.root) + [dir, file] == here + [file];
    assert AssetsDir(ctx.root) + [dir, digestFile] == here + [digestFile];
    RelativeFromSharedRoot(here, [digestFile], []);
    assert here + [] == here;
  }

  /** An old link `widget.js` → `widget-old.js` is replaced by the new target. */
  lemma OldLinkOverwritten(dirs: set<Path>, root: Path, name: string, digest: string, previous: Path)
    requires Segment(name) && Segment(digest)
    ensures var ctx := Context(root, "/assets", map[name := digest]);
      var link := AssetsDir(root) + [name];
      Execution(Snapshot(dirs, map[link := previous]), ctx, Str(name)) == (Snapshot(dirs, map[link := [digest]]), None)
  {
    var link := AssetsDir(root) + [name];
    TopLevelLink(Snapshot(dirs, map[link := previous]), root, name, digest);
    UpdateReplaces(link, previous, [digest]);
  }

  lemma UpdateReplaces(link: Path, x: Path, y: Path)
    ensures map[link := x][link := y] == map[link := y]
  {
  }

  /**
   * With the prefix `/path/to/assets` the link still sits in
   * `public/assets`, and holds `../path/to/assets/widget-abc123.js`.
   */
  lemma ChangedPrefix(s: Snapshot, root: Path, name: string, digest: string, a: string, b: string, c: string)
    requires Segment(name) && Segment(digest) && Segment(a) && Segment(b) && Segment(c) && a != "assets"
    ensures var ctx := Context(root, "/" + a + "/" + b + "/" + c, map[name := digest]);
      && Execution(s, ctx, Str(name)) == (s.(links := s.links[AssetsDir(root) + [name] := ["..", a, b, c, digest]]), None)
      && Join(["..", a, b, c, digest]) == "../" + (a + "/" + b + "/" + c + "/" + digest)
  {
    var ctx := Context(root, "/" + a + "/" + b + "/" + c, map[name := digest]);
    ChangedPrefixText(a, b, c, digest);
    ExecutionOfName(s, ctx, name);
    ChangedPrefixRun(s, ctx, name, digest, a, b, c);
  }

  lemma ChangedPrefixText(a: string, b: string, c: string, d: string)
    ensures Join(["..", a, b, c, d]) == "../" + (a + "/" + b + "/" + c + "/" + d)
  {
    JoinThree(a, b, c, d);
    JoinUp(a + "/" + b + "/" + c + "/" + d, [a, b, c, d]);
    assert [".."] + [a, b, c, d] == ["..", a, b, c, d];
  }

  lemma JoinThree(a: string, b: string, c: string, d: string)
    ensures Join([a, b, c, d]) == a + "/" + b + "/" + c + "/" + d
  {
    var p := [a, b, c, d];
    assert p[1..] == [b, c, d] && p[1..][1..] == [c, d] && p[1..][1..][1..] == [d];
    assert Join([c, d]) == c + "/" + d;
    assert Join([b, c, d]) == b + "/" + (c + "/" + d);
    assert Join(p) == a + "/" + (b + "/" + (c + "/" + d));
  }

  lemma ChangedPrefixRun(s: Snapshot, ctx: Context, name: string, digest: string, a: string, b: string, c: string)
    requires Segment(name) && Segment(digest) && Segment(a) && Segment(b) && Segment(c) && a != "assets"
    requires ctx.prefix == "/" + a + "/" + b + "/" + c && ctx.assets == map[name := digest]
    ensures Run(s, ctx, [name], map[name := name]) ==
      (s.(links := s.links[AssetsDir(ctx.root) + [name] := ["..", a, b, c, digest]]), None)
  {
    var public := ctx.root + ["public"];
    ChangedDigestedPath(ctx, digest, a, b, c);
    TopLevelPublicPath(ctx.root, name);
    assert AssetsDir(ctx.root) == public + ["assets"];
    RelativeFromSharedRoot(public, [a, b, c, digest], ["assets"]);
    assert RelativeFrom([a, b, c, digest], ["assets"]) == ["..", a, b, c, digest] by {
      assert CommonPrefixLength([a, b, c, digest], ["assets"]) == 0;
      assert Ups(1) == [".."];
    }
    OnePairLink(s, ctx, name, name, AssetsDir(ctx.root) + [name], ["..", a, b, c, digest]);
  }

  lemma ChangedDigestedPath(ctx: Context, digest: string, a: string, b: string, c: string)
    requires Segment(digest) && Segment(a) && Segment(b) && Segment(c)
    requires ctx.prefix == "/" + a + "/" + b + "/" + c
    ensures DigestedPath(ctx, digest) == ctx.root + ["public"] + [a, b, c, digest]
  {
    assert StripLeadingSlash(ctx.prefix) == a + "/" + b + "/" + c;
    PrefixSegments(a, b, c);
    SplitSegment(digest);
  }

  /** A prefix of three segments, written with `/` between them. */
  lemma PrefixSegments(a: string, b: string, c: string)
    requires Segment(a) && Segment(b) && Segment(c)
    ensures Split(a + "/" + b + "/" + c) == [a, b, c]
  {
    var p := [a, b, c];
    SplitJoin(p);
    assert p[1..] == [b, c] && p[1..][1..] == [c];
    assert Join([b, c]) == b + "/" + c;
    assert Join(p) == a + "/" + (b + "/" + c) == a + "/" + b + "/" + c;
  }

  /** A name the asset lookup does not know stops `execute` before anything is linked. */
  lemma MissingAssetStops(s: Snapshot, ctx: Context, name: string)
    requires name !in ctx.assets
    ensures Execution(s, ctx, Str(name)) == (s, Some(AssetNotFound(name)))
  {
    ExecutionOfName(s, ctx, name);
  }
}
