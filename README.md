# asset_symlink in Dafny

`asset_symlink` is a Rails plugin. After asset precompilation it publishes
some assets under stable names: for every pair (logical name, public name)
of `config.asset_symlink`, it makes a symbolic link
`public/assets/<public name>` under the application root. The link points,
by a relative path, at the digested file `public/<assets prefix>/<digest
path>` that the asset lookup returns for the logical name.

The model has five modules:

- `OrderedHash` — a Ruby Hash as an insertion-ordered key sequence plus a map,
  with `Hash#merge` and a left fold of merges (`MergeAll`).
- `Configuration` — the configuration value (`nil`, String, Hash, Array,
  anything else) and `normalize_configuration` (`Normalize`, with `Inject`
  for the array fold). It proves what the result is for each shape. It also
  proves that an array is a left fold of merges: the keys are the union, the
  last element wins, and the first offending leaf is rejected.
- `Paths` — paths as sequences of segments, the `/`-separated string form
  (`Split`/`Join`, with both round trips), `Pathname#relative_path_from`
  (`RelativeFrom`) and a lexical resolver (`Resolve`) as its independent
  partner.
- `FileSystem` — the directories and links as a value (`Snapshot`), with
  `mkdir_p` (`MakeDirs`) and `ln_sf` (`ForceLink`, an overwrite). The class
  `Disk` holds the state in fields that its methods `MkdirP` and `LnSf`
  update.
- `AssetSymlink` — one loop iteration as a function (`LinkStep`) and the loop
  that stops at the first failure (`Run`, an instance of the generic `Loop`).
  `execute` is the function `Execution`, and the imperative `Execute`,
  `LinkEach`, `LinkOne` and `CreatePublicPath` are proved against it. The
  lemmas state:
  - where each link goes and what it holds;
  - that the link resolves to the digested file;
  - the closed form of a successful run: directories added, links
    overwritten, last writer wins, other links untouched;
  - fail-fast stopping at the first missing asset;
  - idempotence of `execute`.

`TestCases` restates the repository's test scenarios as lemmas over
arbitrary names, roots and states.

The application's globals are parameters in a `Context`:
- `Rails.root`;
- `config.assets.prefix`;
- the asset lookup, as a map from logical name to digest path.

A failure is a value. `execute` returns the state it left (any links made
before the failure) together with an `Option<Error>`:
- `InvalidConfiguration` stands for the `ArgumentError` of the normaliser;
- `AssetNotFound` stands for a lookup that finds nothing.

## Model

| member | source | states |
|---|---|---|
| Configuration.Normalize | lib/asset_symlink.rb:17-30 | the result of a well-formed configuration is a well-formed ordered hash; every failure is an `InvalidConfiguration` naming an item of unexpected kind |
| Configuration.Inject | lib/asset_symlink.rb:24 | the fold of merges over an array keeps the accumulator well formed; it fails only with an `InvalidConfiguration` of an unexpected item |
| Configuration.NormalizeFails | lib/asset_symlink.rb:27-28 | normalisation fails exactly when some leaf at any depth is of an unexpected kind; the error names the first such leaf, left to right |
| Configuration.InjectFails | lib/asset_symlink.rb:24-28 | the array fold fails exactly when one of its items has an offending leaf, and reports the first |
| Configuration.InjectAppend | lib/asset_symlink.rb:24 | folding over `xs + ys` is folding `ys` from the result of `xs`, and an error in `xs` is final |
| Configuration.NormalizeSnoc | lib/asset_symlink.rb:23-24 | an array with one more element is the merge of the shorter array's hash with that element's hash; the first error wins |
| Configuration.NormalizeSingletonList | lib/asset_symlink.rb:23-24 | `[c]` normalises exactly like `c` |
| Configuration.NormalizeRegroup | lib/asset_symlink.rb:23-24 | `[A, B, C]` and `[[A, B], C]` normalise to the same hash, key order included |
| Configuration.NormalizeEach | lib/asset_symlink.rb:24 | on success, each output hash is its element's normalisation; on failure, an element returns that error and every element before it succeeds |
| Configuration.InjectIsMergeAll | lib/asset_symlink.rb:24 | the fold returns the first element error, or else the left fold of merges of the elements' hashes |
| Configuration.NormalizeListMergesElements | lib/asset_symlink.rb:23-24 | an array normalises to the left fold of merges of its elements' normalisations into `{}`, or to the first element's error |
| Configuration.NormalizeListKeys | lib/asset_symlink.rb:23-24 | the key set of a normalised array is the union of its elements' key sets |
| Configuration.NormalizeListLastWins | lib/asset_symlink.rb:23-24 | on a key that several elements define, the last of them gives the value |
| OrderedHash.Empty | lib/asset_symlink.rb:26 | `{}` is a well-formed hash with no pairs |
| OrderedHash.Singleton | lib/asset_symlink.rb:22 | `{ s => s }` is a well-formed hash of exactly that pair |
| OrderedHash.UnseenMembers | lib/asset_symlink.rb:24 | a key is among the new keys of the right operand exactly when the right operand has it and the left does not |
| OrderedHash.UnseenDistinct | lib/asset_symlink.rb:24 | the new keys of a well-formed right operand are listed once each |
| OrderedHash.Merge | lib/asset_symlink.rb:24 | `Hash#merge` keeps the left operand's key order as a prefix of the result and keeps both operands' well-formedness |
| OrderedHash.MergeEmptyLeft | lib/asset_symlink.rb:24 | `{}.merge(h) == h`, so the fold's starting value adds nothing |
| OrderedHash.MergeAssociative | lib/asset_symlink.rb:24 | merging is associative, key order included |
| OrderedHash.UnseenAppend | lib/asset_symlink.rb:24 | the new keys of a concatenation are the new keys of each part, in order |
| OrderedHash.MergeAll | lib/asset_symlink.rb:24 | the left fold of merges is well formed and extends the accumulator's key order |
| OrderedHash.MergeAllKeys | lib/asset_symlink.rb:24 | a key is in the fold's result exactly when the accumulator or some merged hash has it |
| OrderedHash.MergeAllLastWins | lib/asset_symlink.rb:24 | a key's value comes from the last merged hash that defines it |
| OrderedHash.MergeAllKeepsUntouched | lib/asset_symlink.rb:24 | a key that no merged hash defines keeps the accumulator's value |
| Paths.Split | lib/asset_symlink.rb:10 | a path string as its `/`-separated segments, the empty string having none; `Join` undoes it (JoinSplit, and SplitJoin in the other direction) |
| Paths.Join | lib/asset_symlink.rb:12-13 | segments written with `/` between them: the string form of a path, such as the relative path `ln_sf` stores |
| Paths.RelativeFrom | lib/asset_symlink.rb:12 | `relative_path_from(base)`: one `..` for each segment of `base` past the common prefix, then the rest of the target, or `.` for the same path; RelativeFromResolves is its partner |
| Paths.Resolve | lib/asset_symlink.rb:12-13 | the path a relative link names, read from its directory: `..` climbs, `.` stays, any other segment descends |
| Paths.Parent | lib/asset_symlink.rb:12 | `dirname` drops exactly the last segment |
| Paths.JoinSplit | lib/asset_symlink.rb:10 | splitting a path string on `/` and joining the segments gives the string back |
| Paths.SplitJoin | lib/asset_symlink.rb:10 | joining non-empty, slash-free segments and splitting the result gives the segments back |
| Paths.SlashFields | lib/asset_symlink.rb:47 | a string contains `/` exactly when it has more than one field |
| Paths.CommonPrefixLength | lib/asset_symlink.rb:12 | the result is a shared prefix of both paths and is maximal |
| Paths.Ups | lib/asset_symlink.rb:12 | `n` steps, each of them `..` |
| Paths.ResolveDescends | lib/asset_symlink.rb:12 | a clean relative path resolves by appending its segments |
| Paths.ResolveClimbs | lib/asset_symlink.rb:12 | `k` steps of `..` drop the last `k` segments of the directory |
| Paths.RelativeFromResolves | lib/asset_symlink.rb:12 | resolving `relative_path_from(base)` from `base` lexically reaches the target again |
| Paths.RelativeFromSharedRoot | lib/asset_symlink.rb:10-12 | a root shared by target and base does not change the relative path |
| FileSystem.Ancestors | lib/asset_symlink.rb:47 | the directories `mkdir_p` needs are exactly the non-empty prefixes of the path |
| FileSystem.MakeDirs | lib/asset_symlink.rb:47 | `mkdir_p` makes the directory and only its ancestors; nothing else changes |
| FileSystem.MakeDirsIdempotent | lib/asset_symlink.rb:47 | a second `mkdir_p` of the same directory changes nothing |
| FileSystem.MakeDirsPrefixClosed | lib/asset_symlink.rb:47 | `mkdir_p` never leaves a directory without its parents |
| FileSystem.ForceLink | lib/asset_symlink.rb:13 | `ln_sf` makes the link hold the target, whatever was there; other links and the directories are unchanged |
| FileSystem.ForceLinkOverwrites | lib/asset_symlink.rb:13 | `ln_sf` is an override of one entry of the link table |
| FileSystem.Written | lib/asset_symlink.rb:7-13 | the links a sequence of `ln_sf` calls leaves, a later call at the same link overriding an earlier one; WrittenKeys and WrittenLastWins characterise it |
| FileSystem.WrittenKeys | lib/asset_symlink.rb:7-13 | after a sequence of `ln_sf` calls, a link exists exactly when some call wrote it |
| FileSystem.WrittenLastWins | lib/asset_symlink.rb:7-13 | the last call at a link decides what it holds |
| FileSystem.Disk.MkdirP | lib/asset_symlink.rb:47 | the disk's new state is `mkdir_p` applied to its old state |
| FileSystem.Disk.LnSf | lib/asset_symlink.rb:13 | the disk's new state is `ln_sf` applied to its old state |
| AssetSymlink.DigestedPath | lib/asset_symlink.rb:10 | `root/public/<prefix minus one leading />/<digest path>`, segment by segment |
| AssetSymlink.PublicPath | lib/asset_symlink.rb:46 | `root/public/assets/<public name>`, whatever the prefix; at least two segments below the root |
| AssetSymlink.HasDirectoryPart | lib/asset_symlink.rb:47 | the public name contains `/`; for names in clean segments this is `File.dirname(public_name) != '.'` (DirectoryPartMeansNested) |
| AssetSymlink.LinkTarget | lib/asset_symlink.rb:12 | the digested path made relative to the directory of the public path |
| AssetSymlink.LinkStep | lib/asset_symlink.rb:8-13 | one iteration: an unknown name fails with `AssetNotFound` before the disk is touched; otherwise `mkdir_p` for a nested name, then `ln_sf` of the relative target (LinkStepEffect, LinkStepFound) |
| AssetSymlink.Loop | lib/asset_symlink.rb:7-14 | the `each` loop with its body as a value: steps through the names in order and stops at the first failure, keeping the state the earlier steps left (LoopThen, LoopStopsAt) |
| AssetSymlink.Run | lib/asset_symlink.rb:7-14 | `Loop` with `LinkStep` for the context as its body (RunSucceeds, RunStopsAtMissing) |
| AssetSymlink.Execution | lib/asset_symlink.rb:6-15 | normalise first; a normalisation error leaves the disk as it was, otherwise the pairs are linked in key order (ExecutionRejectsInvalid, ExecutionIdempotent) |
| AssetSymlink.StripLeadingSlash | lib/asset_symlink.rb:8 | one leading `/` is removed and the string is otherwise unchanged; a string without one is returned as is |
| AssetSymlink.CreatePublicPath | lib/asset_symlink.rb:45-49 | returns `root/public/assets/<public name>`; runs `mkdir_p` of its directory exactly when the public name has a directory part, and otherwise leaves the disk alone |
| AssetSymlink.LinkOne | lib/asset_symlink.rb:8-13 | one iteration for a found asset: the disk ends in the state `LinkStep` gives |
| AssetSymlink.LinkEach | lib/asset_symlink.rb:7-14 | the loop over the hash, in key order, ends in the state and with the failure that `Run` gives |
| AssetSymlink.Execute | lib/asset_symlink.rb:6-15 | `execute(config)` ends in the state and with the failure that `Execution` gives |
| AssetSymlink.DigestedPathClean | lib/asset_symlink.rb:10 | with a clean root, prefix and digest path, the digested path is clean |
| AssetSymlink.LinkTargetResolves | lib/asset_symlink.rb:10-12 | for names in clean segments, the stored relative path, followed from the link's directory, reaches `root/public/<prefix minus one leading />/<digest path>` |
| AssetSymlink.LinkStepEffect | lib/asset_symlink.rb:8-13 | a missing asset fails with nothing changed. Otherwise the link at `public/assets/<public name>` is written, and every other link is unchanged. For names in clean segments its target resolves to the digested file. A nested public name adds exactly the link's directory and its ancestors; any other name leaves the directories unchanged |
| AssetSymlink.LinkStepPrefixClosed | lib/asset_symlink.rb:47 | an iteration keeps every directory's ancestors present |
| AssetSymlink.DirectoryPartMeansNested | lib/asset_symlink.rb:47 | the directory-part test holds exactly for public names of two or more `/`-separated fields, which for names in clean segments is `File.dirname(public_name) != '.'` |
| AssetSymlink.LinkStepFound | lib/asset_symlink.rb:9-13 | a found asset's iteration adds its directories and overrides its one link |
| AssetSymlink.LoopThen | lib/asset_symlink.rb:7 | a loop over `xs + ys` that gets through `xs` goes on with `ys` from where `xs` left the state |
| AssetSymlink.LoopStopsAt | lib/asset_symlink.rb:7 | a loop whose body fails at position `k`, after succeeding before it, stops there with that failure and processes nothing later |
| AssetSymlink.RunSucceeds | lib/asset_symlink.rb:7-14 | when every asset is found, the run succeeds. It adds the same directories and writes the same links over any starting state |
| AssetSymlink.RunStopsAtMissing | lib/asset_symlink.rb:7-14 | the run stops at the first missing asset and reports it; the state is what the earlier pairs left |
| AssetSymlink.MadeLinksKeys | lib/asset_symlink.rb:7-13 | a successful run writes a link exactly at the public paths of its pairs |
| AssetSymlink.MadeLinksLastWins | lib/asset_symlink.rb:7-13 | where several pairs share a public name, the last of them decides the link's target |
| AssetSymlink.PublicPathInjective | lib/asset_symlink.rb:46 | distinct public names give distinct link paths |
| AssetSymlink.RunLinksResolve | lib/asset_symlink.rb:7-14 | after a successful run, each link with a clean public name resolves from its own directory to the digested file of the last pair linked there |
| AssetSymlink.RunKeepsOtherLinks | lib/asset_symlink.rb:7-14 | links at places no pair names are left as they were |
| AssetSymlink.ExecutionRejectsInvalid | lib/asset_symlink.rb:6-7 | a configuration with an unexpected item fails before the filesystem is touched, naming the first such item |
| AssetSymlink.ExecutionIdempotent | lib/asset_symlink.rb:6-15 | running `execute` again on its own result changes nothing and reports the same outcome |
| AssetSymlink.RunIdempotent | lib/asset_symlink.rb:7-14 | a second run of the same pairs over the first run's result leaves the state and outcome as they were |
| TestCases.NilGivesEmpty | spec/asset_symlink_spec.rb:66-68 | `nil` normalises to `{}` |
| TestCases.StringGivesSingleton | spec/asset_symlink_spec.rb:70-74 | a string normalises to the one-pair hash mapping it to itself |
| TestCases.MergeTwoSingletons | lib/asset_symlink.rb:24 | two one-pair hashes with different keys merge into the two-pair hash, in order |
| TestCases.NormalizePair | lib/asset_symlink.rb:24 | a two-element array normalises to the merge of its elements |
| TestCases.StringsGiveHash | spec/asset_symlink_spec.rb:76-80 | an array of two strings gives each string mapped to itself, in order |
| TestCases.HashUnchanged | spec/asset_symlink_spec.rb:82-86 | a hash configuration comes back unchanged, also as the only element of an array |
| TestCases.HashesMerged | spec/asset_symlink_spec.rb:88-92 | an array of one-pair hashes merges them in order |
| TestCases.StringsAndHashesMixed | spec/asset_symlink_spec.rb:94-98 | strings and hashes mix in one array |
| TestCases.UnexpectedItemRejected | spec/asset_symlink_spec.rb:100-102 | `[1]` is rejected with an error naming the item |
| TestCases.TopLevelLink | spec/asset_symlink_spec.rb:26-30 | `public/assets/widget.js` holds `widget-abc123.js`; no directory is made |
| TestCases.NestedLinkCreatesDirectory | spec/asset_symlink_spec.rb:32-36 | `public/assets/v1` is created, and `public/assets/v1/foo.js` holds `../widget-abc123.js` |
| TestCases.LinkIsRelative | spec/asset_symlink_spec.rb:38-42 | `public/assets/external/widget.js` holds the bare name `widget-abc123.js` |
| TestCases.OldLinkOverwritten | spec/asset_symlink_spec.rb:44-51 | an existing link `widget.js` → `widget-old.js` is replaced by the digested target |
| TestCases.ChangedPrefix | spec/asset_symlink_spec.rb:54-61 | with prefix `/path/to/assets` the link stays in `public/assets` and holds `../path/to/assets/widget-abc123.js` |
| TestCases.MissingAssetStops | lib/asset_symlink.rb:9 | a name the lookup does not know stops `execute` before anything is linked |
| TestCases.DefaultPrefix | spec/asset_symlink_spec.rb:8 | the default prefix `/assets` names the single segment `assets` |

## Left out

- `find_asset` (lib/asset_symlink.rb:32-43): its three lookup strategies are
  replaced by one map from logical name to digest path. These are the live
  Sprockets environment, `Sprockets::Railtie.build_manifest` and the
  precompiled manifest. An unknown name makes the Ruby code fail with
  `NoMethodError` (nil has no `digest_path`) or `TypeError` (joining nil).
  The model reports `AssetNotFound` instead, at the same point and before
  that iteration touches the disk.
- `Rails.root`, `config.assets.prefix` and the asset environment are global
  state in the source. Here they are the `Context` parameter.
- Real I/O is left out: permissions, disk errors, races between processes
  and atomicity of `ln_sf`. Neither `mkdir_p` nor `ln_sf` ever fails in the
  model.
- A link whose directory does not exist: `ln_sf` raises `ENOENT` in the
  source, for example for a top-level link when `public/assets` is missing.
  The model creates the link regardless.
- `ln_sf` onto a path that is an existing directory: Ruby then makes the
  link inside that directory. Links and directories are kept apart in the
  model.
- Names that are not written in clean segments are outside the model's
  promises. A clean segment is one that is not empty and is not `.` or `..`.
  Ruby tidies such names and the model takes them literally:
  - `Pathname#join` consumes a leading `..` or `.` and restarts at `/`;
  - `relative_path_from` cleans both of its paths;
  - `File.dirname` ignores a trailing `/`.

  The lines below name what this costs each member.
- AssetSymlink.PublicPath: splits the public name literally, so
  `../x.js` gives the link `public/assets/../x.js`; Ruby links
  `public/x.js`. AssetSymlink.CreatePublicPath and AssetSymlink.LinkStep
  inherit this.
- AssetSymlink.DigestedPath: splits the prefix and digest path literally,
  so the prefix `/assets/` gives an empty segment, which Ruby drops.
- AssetSymlink.HasDirectoryPart: holds for `v1/` and `./x`, where
  `File.dirname` gives `.` and Ruby skips `mkdir_p`. As a result
  AssetSymlink.DirectoryPartMeansNested matches `File.dirname` only for
  clean names.
- AssetSymlink.LinkTargetResolves: proved only when the root, the stripped
  prefix, the digest path and the public name are written in clean
  segments. Outside them the lexical `Resolve` can drop a `..` of the link's
  own path, which the kernel would follow instead.
- AssetSymlink.RunLinksResolve: has the same clean-segment preconditions as
  LinkTargetResolves, for the pair whose link it speaks of.
- AssetSymlink.LinkStepEffect: claims that the target resolves only for a
  clean context and a clean public name. Its other clauses hold for every
  name.
- An absolute digest path or public name (one starting with `/`) makes
  `Pathname#join` restart from the filesystem root. The model splits such a
  name like any other.
- AssetSymlink.StripLeadingSlash: the Ruby pattern `^/` is anchored at the
  start of any line. The model strips a slash only at the start of the
  string, so a prefix containing a newline followed by `/` is not modelled.
- `Configuration.Config`: Hash keys and values are strings. In the source a
  key may be any object the asset lookup accepts. A value may be anything
  `Pathname#join` accepts, a String or a Pathname.
- The text of the `ArgumentError` message. The error keeps the offending
  item instead.
- The railtie that calls `execute` after `assets:precompile`, and the
  version constant: neither is part of the core logic.
