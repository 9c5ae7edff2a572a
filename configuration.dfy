/**
 * The `config.asset_symlink` value and its normalisation into one ordered
 * logical-name → link-name hash (`AssetSymlink.normalize_configuration`).
 */
module Configuration {
  import opened Wrappers
  import opened OrderedHash

  /**
   * The shapes a configuration value can take: `nil`, a String, a Hash,
   * an Array of configuration values, or any other Ruby object (kept as
   * its textual form, for the error).
   */
  datatype Config =
    | Nil
    | Str(name: string)
    | Map(hash: Hash)
    | List(items: seq<Config>)
    | Other(value: string)

  /** Every Hash inside the value is a genuine Ruby Hash (see `WellFormed`). */
  predicate WellFormedConfig(c: Config)
    decreases c
  {
    match c
    case Map(h) => WellFormed(h)
    case List(items) => forall i | 0 <= i < |items| :: WellFormedConfig(items[i])
    case _ => true
  }

  datatype Error =
    | InvalidConfiguration(item: Config)   // ArgumentError raised by the normaliser
    | AssetNotFound(name: string)          // the asset lookup found nothing

  /** `normalize_configuration(config)`. */
  function Normalize(c: Config): (r: Result<Hash, Error>)
    ensures r.Ok? && WellFormedConfig(c) ==> WellFormed(r.value)
    ensures r.Err? ==> r.error.InvalidConfiguration? && r.error.item.Other?
    decreases c
  {
    match c
    case Map(h) => Ok(h)
    case Str(s) => Ok(Singleton(s, s))
    case List(items) => Inject(items, Empty())
    case Nil => Ok(Empty())
    case Other(_) => Err(InvalidConfiguration(c))
  }

  /** `items.inject(acc) { |a, e| a.merge(normalize_configuration(e)) }`. */
  function Inject(items: seq<Config>, acc: Hash): (r: Result<Hash, Error>)
    ensures r.Ok? && WellFormed(acc) && (forall i | 0 <= i < |items| :: WellFormedConfig(items[i])) ==>
      WellFormed(r.value)
    ensures r.Err? ==> r.error.InvalidConfiguration? && r.error.item.Other?
    decreases items
  {
    if items == [] then Ok(acc)
    else
      match Normalize(items[0])
      case Err(e) => Err(e)
      case Ok(h) =>
        assert forall i | 0 <= i < |items[1..]| :: items[1..][i] == items[i + 1];
        Inject(items[1..], Merge(acc, h))
  }

  /** The non-hash, non-string, non-array, non-nil leaves of `c`, left to right. */
  function Offenders(c: Config): seq<string>
    decreases c
  {
    match c
    case Other(v) => [v]
    case List(items) => OffendersAll(items)
    case _ => []
  }

  function OffendersAll(items: seq<Config>): seq<string>
    decreases items
  {
    if items == [] then [] else Offenders(items[0]) + OffendersAll(items[1..])
  }

  /**
   * Normalisation fails exactly when some leaf, at any depth, is of an
   * unexpected kind, and the error names the first such leaf.
   */
  lemma {:induction false} NormalizeFails(c: Config)
    ensures Normalize(c).Err? <==> Offenders(c) != []
    ensures Normalize(c).Err? ==> Normalize(c).error == InvalidConfiguration(Other(Offenders(c)[0]))
    decreases c
  {
    match c
    case List(items) => InjectFails(items, Empty());
    case _ =>
  }

  lemma {:induction false} InjectFails(items: seq<Config>, acc: Hash)
    ensures Inject(items, acc).Err? <==> OffendersAll(items) != []
    ensures Inject(items, acc).Err? ==> Inject(items, acc).error == InvalidConfiguration(Other(OffendersAll(items)[0]))
    decreases items
  {
    if items != [] {
      NormalizeFails(items[0]);
      match Normalize(items[0])
      case Err(_) =>
      case Ok(h) => InjectFails(items[1..], Merge(acc, h));
    }
  }

  /** Folding over `xs + ys` is folding over `xs`, then over `ys` from that result. */
  lemma {:induction false} InjectAppend(xs: seq<Config>, ys: seq<Config>, acc: Hash)
    ensures Inject(xs + ys, acc) == match Inject(xs, acc) case Err(e) => Err(e) case Ok(h) => Inject(ys, h)
  {
    if xs == [] {
      assert xs + ys == ys;
    } else {
      assert (xs + ys)[0] == xs[0];
      assert (xs + ys)[1..] == xs[1..] + ys;
      match Normalize(xs[0])
      case Err(_) =>
      case Ok(h) => InjectAppend(xs[1..], ys, Merge(acc, h));
    }
  }

  /**
   * Normalising an array is a left fold of merges: the array without its
   * last element is normalised first, and the last element's hash is merged
   * into that result.
   */
  lemma NormalizeSnoc(items: seq<Config>, x: Config)
    ensures Normalize(List(items)).Err? ==> Normalize(List(items + [x])) == Normalize(List(items))
    ensures Normalize(List(items)).Ok? && Normalize(x).Err? ==> Normalize(List(items + [x])) == Normalize(x)
    ensures Normalize(List(items)).Ok? && Normalize(x).Ok? ==>
      Normalize(List(items + [x])) == Ok(Merge(Normalize(List(items)).value, Normalize(x).value))
  {
    InjectAppend(items, [x], Empty());
  }

  /** A one-element array normalises like its element. */
  lemma NormalizeSingletonList(c: Config)
    ensures Normalize(List([c])) == Normalize(c)
  {
    assert [] + [c] == [c];
    NormalizeSnoc([], c);
    if Normalize(c).Ok? {
      MergeEmptyLeft(Normalize(c).value);
    }
  }

  /**
   * Normalising `[A, B, C]` equals normalising `[[A, B], C]`: a nested array
   * may be merged first.
   */
  lemma NormalizeRegroup(xs: seq<Config>, ys: seq<Config>)
    ensures Normalize(List(xs + ys)) == Normalize(List([List(xs)] + ys))
  {
    InjectAppend(xs, ys, Empty());
    var l := [List(xs)] + ys;
    assert l[0] == List(xs) && l[1..] == ys;
    if Normalize(List(xs)).Ok? {
      MergeEmptyLeft(Normalize(List(xs)).value);
    }
  }

  /**
   * Every element normalised on its own, stopping at the first one that
   * fails.
   */
  function NormalizeEach(items: seq<Config>): (r: Result<seq<Hash>, Error>)
    ensures r.Ok? ==> |r.value| == |items| && forall i | 0 <= i < |items| :: Normalize(items[i]) == Ok(r.value[i])
    ensures r.Err? ==> exists i | 0 <= i < |items| ::
      && Normalize(items[i]) == Err(r.error)
      && forall j | 0 <= j < i :: Normalize(items[j]).Ok?
    decreases items
  {
    if items == [] then Ok([])
    else
      match Normalize(items[0])
      case Err(e) => Err(e)
      case Ok(h) =>
        match NormalizeEach(items[1..])
        case Err(e) => Err(e)
        case Ok(hs) => Ok([h] + hs)
  }

  lemma {:induction false} InjectIsMergeAll(items: seq<Config>, acc: Hash)
    ensures NormalizeEach(items).Err? ==> Inject(items, acc) == Err(NormalizeEach(items).error)
    ensures NormalizeEach(items).Ok? ==> Inject(items, acc) == Ok(MergeAll(acc, NormalizeEach(items).value))
    decreases items
  {
    if items != [] {
      match Normalize(items[0])
      case Err(_) =>
      case Ok(h) =>
        InjectIsMergeAll(items[1..], Merge(acc, h));
        if NormalizeEach(items).Ok? {
          var hs := NormalizeEach(items).value;
          assert hs[0] == h && hs[1..] == NormalizeEach(items[1..]).value;
        }
    }
  }

  /**
   * Normalising an array normalises each element, failing with the first
   * element that fails, and merges the resulting hashes left to right into
   * `{}`.
   */
  lemma NormalizeListMergesElements(items: seq<Config>)
    ensures NormalizeEach(items).Err? ==> Normalize(List(items)) == Err(NormalizeEach(items).error)
    ensures NormalizeEach(items).Ok? ==> Normalize(List(items)) == Ok(MergeAll(Empty(), NormalizeEach(items).value))
  {
    InjectIsMergeAll(items, Empty());
  }

  /**
   * The keys of a normalised array are the keys of its elements'
   * normalisations, and on a shared key the last element that defines it wins.
   */
  lemma NormalizeListKeys(items: seq<Config>, k: string)
    requires Normalize(List(items)).Ok?
    ensures forall i | 0 <= i < |items| :: Normalize(items[i]).Ok?
    ensures k in Normalize(List(items)).value.pairs <==>
      exists i | 0 <= i < |items| :: k in Normalize(items[i]).value.pairs
  {
    NormalizeListMergesElements(items);
    var hs := NormalizeEach(items).value;
    MergeAllKeys(Empty(), hs, k);
    if exists i | 0 <= i < |items| :: k in Normalize(items[i]).value.pairs {
      var i :| 0 <= i < |items| && k in Normalize(items[i]).value.pairs;
      assert k in hs[i].pairs;
    }
  }

  lemma NormalizeListLastWins(items: seq<Config>, i: nat, k: string)
    requires Normalize(List(items)).Ok?
    requires i < |items| && Normalize(items[i]).Ok? && k in Normalize(items[i]).value.pairs
    requires forall j | i < j < |items| :: Normalize(items[j]).Ok? ==> k !in Normalize(items[j]).value.pairs
    ensures k in Normalize(List(items)).value.pairs
    ensures Normalize(List(items)).value.pairs[k] == Normalize(items[i]).value.pairs[k]
  {
    NormalizeListMergesElements(items);
    var hs := NormalizeEach(items).value;
    assert forall j | i < j < |items| :: k !in hs[j].pairs;
    MergeAllLastWins(Empty(), hs, i, k);
  }
}
