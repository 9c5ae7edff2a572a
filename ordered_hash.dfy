/**
 * Ruby's Hash restricted to string keys and values: a key→value table that
 * remembers the order in which keys were first inserted. `keys` is that
 * order, `pairs` the table itself; every key appears in `keys` exactly once.
 */
module OrderedHash {

  predicate Distinct(s: seq<string>) {
    forall i, j | 0 <= i < j < |s| :: s[i] != s[j]
  }

  datatype Hash = Hash(keys: seq<string>, pairs: map<string, string>)

  /** What a Ruby Hash guarantees: `keys` lists every key of `pairs` exactly once. */
  predicate WellFormed(h: Hash) {
    && Distinct(h.keys)
    && (forall k | k in h.keys :: k in h.pairs)
    && (forall k | k in h.pairs :: k in h.keys)
  }

  /** `{}` */
  function Empty(): (r: Hash)
    ensures WellFormed(r) && r.pairs == map[]
  {
    Hash([], map[])
  }

  /** `{ s => s }` */
  function Singleton(k: string, v: string): (r: Hash)
    ensures WellFormed(r) && r.pairs == map[k := v]
  {
    Hash([k], map[k := v])
  }

  /** The elements of `s`, in order, that are not keys of `m`. */
  function Unseen(s: seq<string>, m: map<string, string>): (r: seq<string>)
    ensures |r| <= |s|
  {
    if s == [] then []
    else if s[0] in m then Unseen(s[1..], m)
    else [s[0]] + Unseen(s[1..], m)
  }

  lemma {:induction false} UnseenMembers(s: seq<string>, m: map<string, string>)
    ensures forall k :: k in Unseen(s, m) <==> k in s && k !in m
  {
    if s != [] {
      UnseenMembers(s[1..], m);
      assert forall k :: k in s <==> k == s[0] || k in s[1..];
    }
  }

  lemma {:induction false} UnseenDistinct(s: seq<string>, m: map<string, string>)
    requires Distinct(s)
    ensures Distinct(Unseen(s, m))
  {
    if s != [] {
      var tail := s[1..];
      assert Distinct(tail) by {
        forall i, j | 0 <= i < j < |tail| ensures tail[i] != tail[j] {
          assert tail[i] == s[i + 1] && tail[j] == s[j + 1];
        }
      }
      UnseenDistinct(tail, m);
      if s[0] !in m {
        UnseenMembers(tail, m);
        assert s[0] !in tail by {
          assert forall j | 0 < j < |s| :: s[j] != s[0];
        }
        var r := [s[0]] + Unseen(tail, m);
        forall i, j | 0 <= i < j < |r| ensures r[i] != r[j] {
          if i == 0 {
            assert r[j] in Unseen(tail, m);
          } else {
            assert r[i] == Unseen(tail, m)[i - 1] && r[j] == Unseen(tail, m)[j - 1];
          }
        }
      }
    }
  }

  lemma {:induction false} UnseenComposes(s: seq<string>, a: map<string, string>, b: map<string, string>)
    ensures Unseen(Unseen(s, b), a) == Unseen(s, a + b)
  {
    if s != [] {
      UnseenComposes(s[1..], a, b);
    }
  }

  lemma {:induction false} UnseenNothing(s: seq<string>)
    ensures Unseen(s, map[]) == s
  {
    if s != [] {
      UnseenNothing(s[1..]);
    }
  }

  /**
   * `a.merge(b)`: the keys of `a` keep their position, keys new in `b`
   * follow in `b`'s order, and on a shared key `b`'s value wins.
   */
  function Merge(a: Hash, b: Hash): (r: Hash)
    ensures WellFormed(a) && WellFormed(b) ==> WellFormed(r)
    ensures |a.keys| <= |r.keys| && r.keys[..|a.keys|] == a.keys
  {
    var added := Unseen(b.keys, a.pairs);
    var keys := a.keys + added;
    assert WellFormed(a) && WellFormed(b) ==> WellFormed(Hash(keys, a.pairs + b.pairs)) by {
      if WellFormed(a) && WellFormed(b) {
        UnseenMembers(b.keys, a.pairs);
        UnseenDistinct(b.keys, a.pairs);
        forall i, j | 0 <= i < j < |keys| ensures keys[i] != keys[j] {
          if j >= |a.keys| && i < |a.keys| {
            assert keys[i] in a.keys;
            assert keys[j] in added;
          }
        }
      }
    }
    Hash(keys, a.pairs + b.pairs)
  }

  lemma {:induction false} MergeEmptyLeft(h: Hash)
    ensures Merge(Empty(), h) == h
  {
    UnseenNothing(h.keys);
  }

  /** Merging is associative, key order included. */
  lemma {:induction false} MergeAssociative(a: Hash, b: Hash, c: Hash)
    ensures Merge(Merge(a, b), c) == Merge(a, Merge(b, c))
  {
    MergeKeysAssociative(a, b, c);
    MapUnionAssociative(a.pairs, b.pairs, c.pairs);
    assert Merge(Merge(a, b), c).pairs == (a.pairs + b.pairs) + c.pairs;
    assert Merge(a, Merge(b, c)).pairs == a.pairs + (b.pairs + c.pairs);
  }

  lemma MapUnionAssociative(x: map<string, string>, y: map<string, string>, z: map<string, string>)
    ensures (x + y) + z == x + (y + z)
  {
  }

  lemma {:induction false} MergeKeysAssociative(a: Hash, b: Hash, c: Hash)
    ensures Merge(Merge(a, b), c).keys == Merge(a, Merge(b, c)).keys
  {
    UnseenOrderAssociative(a.keys, b.keys, c.keys, a.pairs, b.pairs);
  }

  lemma {:induction false} UnseenOrderAssociative(ak: seq<string>, bk: seq<string>, ck: seq<string>,
                                                  ap: map<string, string>, bp: map<string, string>)
    ensures ak + Unseen(bk, ap) + Unseen(ck, ap + bp) == ak + Unseen(bk + Unseen(ck, bp), ap)
  {
    UnseenComposes(ck, ap, bp);
    UnseenAppend(bk, Unseen(ck, bp), ap);
    var u1, u2 := Unseen(bk, ap), Unseen(ck, ap + bp);
    assert ak + u1 + u2 == ak + (u1 + u2);
  }

  lemma {:induction false} UnseenAppend(s: seq<string>, t: seq<string>, m: map<string, string>)
    ensures Unseen(s + t, m) == Unseen(s, m) + Unseen(t, m)
  {
    if s != [] {
      var st := s + t;
      assert st[0] == s[0] && st[1..] == s[1..] + t;
      UnseenAppend(s[1..], t, m);
      var front, back := Unseen(s[1..], m), Unseen(t, m);
      if s[0] !in m {
        assert Unseen(st, m) == [s[0]] + (front + back);
        assert Unseen(s, m) == [s[0]] + front;
        assert [s[0]] + (front + back) == ([s[0]] + front) + back;
      } else {
        assert Unseen(st, m) == front + back;
        assert Unseen(s, m) == front;
      }
    } else {
      assert s + t == t;
    }
  }

  /** `hs.inject(acc) { |a, h| a.merge(h) }`: merge the hashes into `acc` left to right. */
  function MergeAll(acc: Hash, hs: seq<Hash>): (r: Hash)
    ensures WellFormed(acc) && (forall i | 0 <= i < |hs| :: WellFormed(hs[i])) ==> WellFormed(r)
    ensures |acc.keys| <= |r.keys| && r.keys[..|acc.keys|] == acc.keys
    decreases hs
  {
    if hs == [] then acc else MergeAll(Merge(acc, hs[0]), hs[1..])
  }

  /** The merged keys are those of `acc` and of every hash merged in. */
  lemma {:induction false} MergeAllKeys(acc: Hash, hs: seq<Hash>, k: string)
    ensures k in MergeAll(acc, hs).pairs <==> k in acc.pairs || exists i | 0 <= i < |hs| :: k in hs[i].pairs
    decreases hs
  {
    if hs != [] {
      var next, rest := Merge(acc, hs[0]), hs[1..];
      assert next.pairs == acc.pairs + hs[0].pairs;
      MergeAllKeys(next, rest, k);
      assert (exists i | 0 <= i < |hs| :: k in hs[i].pairs) <==>
             k in hs[0].pairs || exists i | 0 <= i < |rest| :: k in rest[i].pairs
      by {
        if exists i | 0 <= i < |hs| :: k in hs[i].pairs {
          var i :| 0 <= i < |hs| && k in hs[i].pairs;
          if i > 0 {
            assert rest[i - 1] == hs[i];
          }
        }
        if exists i | 0 <= i < |rest| :: k in rest[i].pairs {
          var i :| 0 <= i < |rest| && k in rest[i].pairs;
          assert hs[i + 1] == rest[i];
        }
      }
    }
  }

  /**
   * On a key several hashes define, the merged value is that of the last
   * hash that defines it.
   */
  lemma {:induction false} MergeAllLastWins(acc: Hash, hs: seq<Hash>, i: nat, k: string)
    requires i < |hs| && k in hs[i].pairs
    requires forall j | i < j < |hs| :: k !in hs[j].pairs
    ensures k in MergeAll(acc, hs).pairs && MergeAll(acc, hs).pairs[k] == hs[i].pairs[k]
    decreases hs
  {
    var rest := hs[1..];
    if i == 0 {
      assert forall j | 0 <= j < |rest| :: k !in rest[j].pairs by {
        forall j | 0 <= j < |rest| ensures k !in rest[j].pairs {
          assert rest[j] == hs[j + 1];
        }
      }
      MergeAllKeepsUntouched(Merge(acc, hs[0]), rest, k);
    } else {
      assert rest[i - 1] == hs[i];
      assert forall j | i - 1 < j < |rest| :: k !in rest[j].pairs by {
        forall j | i - 1 < j < |rest| ensures k !in rest[j].pairs {
          assert rest[j] == hs[j + 1];
        }
      }
      MergeAllLastWins(Merge(acc, hs[0]), rest, i - 1, k);
    }
  }

  /** A key no merged hash defines keeps its value from `acc`. */
  lemma {:induction false} MergeAllKeepsUntouched(acc: Hash, hs: seq<Hash>, k: string)
    requires k in acc.pairs
    requires forall j | 0 <= j < |hs| :: k !in hs[j].pairs
    ensures k in MergeAll(acc, hs).pairs && MergeAll(acc, hs).pairs[k] == acc.pairs[k]
    decreases hs
  {
    if hs != [] {
      MergeAllKeepsUntouched(Merge(acc, hs[0]), hs[1..], k);
    }
  }
}
