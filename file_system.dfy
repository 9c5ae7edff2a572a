/**
 * The part of the filesystem the links are made in: the set of directories
 * and the symbolic links, each link mapped to the relative path it holds.
 * `Snapshot` is its value; `Disk` is the state the resolver updates.
 */
module FileSystem {
  import opened Paths

  datatype Snapshot = Snapshot(dirs: set<Path>, links: map<Path, Path>)

  /** A directory set in which every directory's ancestors exist too. */
  ghost predicate PrefixClosed(dirs: set<Path>) {
    forall d, i | d in dirs && 0 < i < |d| :: d[..i] in dirs
  }

  /** `dir` and every directory above it (the non-empty prefixes of `dir`). */
  function Ancestors(dir: Path): (r: set<Path>)
    ensures forall q :: q in r <==> 0 < |q| <= |dir| && q == dir[..|q|]
  {
    set i | 0 < i <= |dir| :: dir[..i]
  }

  /** `FileUtils.mkdir_p(dir)`: `dir` and all its missing ancestors exist afterwards. */
  function MakeDirs(s: Snapshot, dir: Path): (r: Snapshot)
    ensures dir != [] ==> dir in r.dirs
    ensures s.dirs <= r.dirs && r.links == s.links
    ensures forall q | q in r.dirs && q !in s.dirs :: 0 < |q| <= |dir| && q == dir[..|q|]
  {
    assert dir != [] ==> dir == dir[..|dir|];
    Snapshot(s.dirs + Ancestors(dir), s.links)
  }

  /** `FileUtils.ln_sf(target, link)`: `link` holds `target`, replacing what was there. */
  function ForceLink(s: Snapshot, target: Path, link: Path): (r: Snapshot)
    ensures link in r.links && r.links[link] == target
    ensures forall l | l in s.links && l != link :: l in r.links && r.links[l] == s.links[l]
    ensures forall l | l in r.links :: l == link || l in s.links
    ensures r.dirs == s.dirs
  {
    Snapshot(s.dirs, s.links[link := target])
  }

  /** `ln_sf` is an overwrite: the link's entry replaces any earlier one. */
  lemma ForceLinkOverwrites(s: Snapshot, target: Path, link: Path)
    ensures ForceLink(s, target, link) == Snapshot(s.dirs, s.links + map[link := target])
  {
    assert s.links[link := target] == s.links + map[link := target];
  }

  /**
   * The links left by a sequence of `ln_sf` calls, given in order as
   * (link, target) pairs: a later call at the same link overrides an earlier one.
   */
  function Written(ws: seq<(Path, Path)>): map<Path, Path>
    decreases |ws|
  {
    if ws == [] then map[] else map[ws[0].0 := ws[0].1] + Written(ws[1..])
  }

  /** A link exists afterwards exactly when some call wrote it. */
  lemma {:induction false} WrittenKeys(ws: seq<(Path, Path)>, l: Path)
    ensures l in Written(ws) <==> exists i | 0 <= i < |ws| :: ws[i].0 == l
    decreases |ws|
  {
    if ws != [] {
      var rest := ws[1..];
      WrittenKeys(rest, l);
      if exists i | 0 <= i < |ws| :: ws[i].0 == l {
        var i :| 0 <= i < |ws| && ws[i].0 == l;
        if i > 0 {
          assert rest[i - 1] == ws[i];
        }
      }
      if exists i | 0 <= i < |rest| :: rest[i].0 == l {
        var i :| 0 <= i < |rest| && rest[i].0 == l;
        assert ws[i + 1] == rest[i];
      }
    }
  }

  /** The last call at a link decides what it holds. */
  lemma {:induction false} WrittenLastWins(ws: seq<(Path, Path)>, i: nat)
    requires i < |ws|
    requires forall j | i < j < |ws| :: ws[j].0 != ws[i].0
    ensures ws[i].0 in Written(ws) && Written(ws)[ws[i].0] == ws[i].1
    decreases |ws|
  {
    var rest := ws[1..];
    if i == 0 {
      WrittenKeys(rest, ws[0].0);
      forall j | 0 <= j < |rest| ensures rest[j].0 != ws[0].0 {
        assert rest[j] == ws[j + 1];
      }
    } else {
      assert rest[i - 1] == ws[i];
      forall j | i - 1 < j < |rest| ensures rest[j].0 != rest[i - 1].0 {
        assert rest[j] == ws[j + 1];
      }
      WrittenLastWins(rest, i - 1);
    }
  }

  /** Creating directories that already exist changes nothing. */
  lemma MakeDirsIdempotent(s: Snapshot, dir: Path)
    ensures MakeDirs(MakeDirs(s, dir), dir) == MakeDirs(s, dir)
  {
  }

  /** `mkdir_p` keeps every directory's ancestors present. */
  lemma MakeDirsPrefixClosed(s: Snapshot, dir: Path)
    requires PrefixClosed(s.dirs)
    ensures PrefixClosed(MakeDirs(s, dir).dirs)
  {
    var r := MakeDirs(s, dir);
    forall d, i | d in r.dirs && 0 < i < |d| ensures d[..i] in r.dirs {
      if d !in s.dirs {
        assert d == dir[..|d|];
        assert d[..i] == dir[..i];
      }
    }
  }

  class Disk {
    var dirs: set<Path>
    var links: map<Path, Path>

    constructor (dirs: set<Path>, links: map<Path, Path>)
      ensures this.dirs == dirs && this.links == links
    {
      this.dirs := dirs;
      this.links := links;
    }

    function State(): Snapshot
      reads this
    {
      Snapshot(dirs, links)
    }

    method MkdirP(dir: Path)
      modifies this
      ensures State() == MakeDirs(old(State()), dir)
    {
      dirs := dirs + Ancestors(dir);
    }

    method LnSf(target: Path, link: Path)
      modifies this
      ensures State() == ForceLink(old(State()), target, link)
    {
      links := links[link := target];
    }
  }
}
