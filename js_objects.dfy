/**
 * The order in which `Object.values` lists the own properties of a plain object:
 * first the keys that are array indices, in ascending numeric order, then every
 * other string key in the order it was first added.
 */
module JsObjects {
  import opened JsText

  /** 2^32 - 2, the largest array index. */
  const MaxArrayIndex: nat := 4294967294

  /** A key is an array index when it is the canonical decimal form of an integer in [0, 2^32 - 2]. */
  predicate IsArrayIndex(k: string) {
    |k| > 0 && AllDigits(k) && (k[0] != '0' || |k| == 1) && DigitsValue(k) <= MaxArrayIndex
  }

  function IndexValue(k: string): nat
    requires IsArrayIndex(k)
  {
    DigitsValue(k)
  }

  predicate AllIndices(s: seq<string>) {
    forall i :: 0 <= i < |s| ==> IsArrayIndex(s[i])
  }

  predicate SortedByIndex(s: seq<string>) {
    AllIndices(s) && forall i, j :: 0 <= i < j < |s| ==> IndexValue(s[i]) <= IndexValue(s[j])
  }

  /** The array-index keys of `ks`, in their order in `ks`. */
  function IndexKeys(ks: seq<string>): (r: seq<string>)
    ensures AllIndices(r)
    ensures multiset(r) <= multiset(ks)
  {
    if ks == [] then []
    else
      assert ks == [ks[0]] + ks[1..];
      if IsArrayIndex(ks[0]) then [ks[0]] + IndexKeys(ks[1..]) else IndexKeys(ks[1..])
  }

  /** The keys of `ks` that are not array indices, in their order in `ks`. */
  function OtherKeys(ks: seq<string>): (r: seq<string>)
    ensures forall i :: 0 <= i < |r| ==> !IsArrayIndex(r[i])
    ensures multiset(r) <= multiset(ks)
  {
    if ks == [] then []
    else
      assert ks == [ks[0]] + ks[1..];
      if IsArrayIndex(ks[0]) then OtherKeys(ks[1..]) else [ks[0]] + OtherKeys(ks[1..])
  }

  lemma {:induction false} SplitKeysPermutes(ks: seq<string>)
    ensures multiset(IndexKeys(ks)) + multiset(OtherKeys(ks)) == multiset(ks)
  {
    if ks != [] {
      SplitKeysPermutes(ks[1..]);
      assert ks == [ks[0]] + ks[1..];
    }
  }

  /** Inserting an index key into a sorted run of index keys keeps it sorted and adds exactly that key. */
  function InsertByIndex(k: string, s: seq<string>): (r: seq<string>)
    requires IsArrayIndex(k) && SortedByIndex(s)
    ensures SortedByIndex(r)
    ensures multiset(r) == multiset(s) + multiset{k}
  {
    if s == [] then [k]
    else if IndexValue(k) <= IndexValue(s[0]) then [k] + s
    else
      var tail := InsertByIndex(k, s[1..]);
      assert s == [s[0]] + s[1..];
      InsertStep(k, s, tail);
      [s[0]] + tail
  }

  lemma InsertStep(k: string, s: seq<string>, tail: seq<string>)
    requires IsArrayIndex(k) && SortedByIndex(s) && s != [] && IndexValue(s[0]) < IndexValue(k)
    requires SortedByIndex(tail) && multiset(tail) == multiset(s[1..]) + multiset{k}
    ensures SortedByIndex([s[0]] + tail)
  {
    forall x | x in tail ensures IndexValue(s[0]) <= IndexValue(x) {
      assert x in multiset(tail);
      if x != k {
        assert x in multiset(s[1..]);
        var m :| 0 <= m < |s[1..]| && s[1..][m] == x;
        assert s[m + 1] == x;
      }
    }
    var r := [s[0]] + tail;
    forall i, j | 0 <= i < j < |r| ensures IndexValue(r[i]) <= IndexValue(r[j]) {
      if i == 0 {
        assert r[j] == tail[j - 1];
        assert r[j] in tail;
      } else {
        assert r[i] == tail[i - 1] && r[j] == tail[j - 1];
      }
    }
  }

  /** Insertion sort of index keys by their numeric value. */
  function SortByIndex(s: seq<string>): (r: seq<string>)
    requires AllIndices(s)
    ensures SortedByIndex(r)
    ensures multiset(r) == multiset(s)
  {
    if s == [] then []
    else
      assert s == [s[0]] + s[1..];
      InsertByIndex(s[0], SortByIndex(s[1..]))
  }

  /** The order of `Object.values` for an object whose keys were added in the order `insertion`. */
  function OwnKeysOrder(insertion: seq<string>): (r: seq<string>)
    ensures multiset(r) == multiset(insertion)
  {
    SplitKeysPermutes(insertion);
    SortByIndex(IndexKeys(insertion)) + OtherKeys(insertion)
  }

  /** Without array-index keys, `Object.values` follows insertion order. */
  lemma {:induction false} OwnKeysOrderWithoutIndices(ks: seq<string>)
    requires forall i :: 0 <= i < |ks| ==> !IsArrayIndex(ks[i])
    ensures OwnKeysOrder(ks) == ks
  {
    NoIndexKeys(ks);
    OtherKeysWithoutIndices(ks);
  }

  lemma {:induction false} NoIndexKeys(ks: seq<string>)
    requires forall i :: 0 <= i < |ks| ==> !IsArrayIndex(ks[i])
    ensures IndexKeys(ks) == []
  {
    if ks != [] {
      NoIndexKeys(ks[1..]);
    }
  }

  lemma {:induction false} OtherKeysWithoutIndices(ks: seq<string>)
    requires forall i :: 0 <= i < |ks| ==> !IsArrayIndex(ks[i])
    ensures OtherKeys(ks) == ks
  {
    if ks != [] {
      OtherKeysWithoutIndices(ks[1..]);
      assert ks == [ks[0]] + ks[1..];
    }
  }

  /** Filtering out the index keys keeps any strictly increasing ranking increasing. */
  lemma {:induction false} OtherKeysKeepRank(ks: seq<string>, rank: string -> int)
    requires forall i, j :: 0 <= i < j < |ks| ==> rank(ks[i]) < rank(ks[j])
    ensures forall i, j :: 0 <= i < j < |OtherKeys(ks)| ==> rank(OtherKeys(ks)[i]) < rank(OtherKeys(ks)[j])
  {
    if ks != [] {
      OtherKeysKeepRank(ks[1..], rank);
      var r := OtherKeys(ks);
      var t := OtherKeys(ks[1..]);
      if !IsArrayIndex(ks[0]) {
        forall i, j | 0 <= i < j < |r| ensures rank(r[i]) < rank(r[j]) {
          if i == 0 {
            assert r[j] == t[j - 1];
            assert t[j - 1] in multiset(ks[1..]);
            var m :| 0 <= m < |ks[1..]| && ks[1..][m] == t[j - 1];
            assert ks[0 + 1 + m] == r[j];
          } else {
            assert r[i] == t[i - 1] && r[j] == t[j - 1];
          }
        }
      }
    }
  }

  /**
   * Sorted index keys followed by ranked other keys: every index key precedes every
   * other key, the index keys ascend by value, and the other keys ascend by rank.
   */
  lemma ConcatShape(sorted: seq<string>, others: seq<string>, rank: string -> int)
    requires SortedByIndex(sorted)
    requires forall i :: 0 <= i < |others| ==> !IsArrayIndex(others[i])
    requires forall i, j :: 0 <= i < j < |others| ==> rank(others[i]) < rank(others[j])
    ensures var r := sorted + others;
      forall i, j :: 0 <= i < j < |r| && IsArrayIndex(r[j]) ==> IsArrayIndex(r[i]) && IndexValue(r[i]) <= IndexValue(r[j])
    ensures var r := sorted + others;
      forall i, j :: 0 <= i < j < |r| && !IsArrayIndex(r[i]) ==> !IsArrayIndex(r[j]) && rank(r[i]) < rank(r[j])
  {
    var r := sorted + others;
    var n := |sorted|;
    assert forall k :: 0 <= k < n ==> r[k] == sorted[k];
    assert forall k :: n <= k < |r| ==> r[k] == others[k - n];
    forall i, j | 0 <= i < j < |r| && IsArrayIndex(r[j])
      ensures IsArrayIndex(r[i]) && IndexValue(r[i]) <= IndexValue(r[j])
    {
      assert j < n;
    }
    forall i, j | 0 <= i < j < |r| && !IsArrayIndex(r[i])
      ensures !IsArrayIndex(r[j]) && rank(r[i]) < rank(r[j])
    {
      assert n <= i;
    }
  }

  /**
   * The shape of `Object.values` order: every index key precedes every other key,
   * the index keys ascend by value, and the other keys keep their insertion ranking.
   */
  lemma OwnKeysOrderShape(ks: seq<string>, rank: string -> int, r: seq<string>)
    requires forall i, j :: 0 <= i < j < |ks| ==> rank(ks[i]) < rank(ks[j])
    requires r == OwnKeysOrder(ks)
    ensures forall i, j :: 0 <= i < j < |r| && IsArrayIndex(r[j]) ==> IsArrayIndex(r[i]) && IndexValue(r[i]) <= IndexValue(r[j])
    ensures forall i, j :: 0 <= i < j < |r| && !IsArrayIndex(r[i]) ==> !IsArrayIndex(r[j]) && rank(r[i]) < rank(r[j])
  {
    OtherKeysKeepRank(ks, rank);
    ConcatShape(SortByIndex(IndexKeys(ks)), OtherKeys(ks), rank);
  }

  // ---------------------------------------------------------------- distinct keys

  predicate Distinct(s: seq<string>) {
    forall i, j :: 0 <= i < j < |s| ==> s[i] != s[j]
  }

  lemma {:induction false} DistinctMultiplicity(s: seq<string>)
    ensures Distinct(s) <==> forall x :: multiset(s)[x] <= 1
  {
    if s != [] {
      DistinctMultiplicity(s[1..]);
      assert s == [s[0]] + s[1..];
      if Distinct(s) {
        assert s[0] !in s[1..];
        assert Distinct(s[1..]) by {
          forall i, j | 0 <= i < j < |s[1..]| ensures s[1..][i] != s[1..][j] {
            assert s[1..][i] == s[i + 1] && s[1..][j] == s[j + 1];
          }
        }
      }
      if forall x :: multiset(s)[x] <= 1 {
        assert forall x :: multiset(s[1..])[x] <= 1 by {
          forall x ensures multiset(s[1..])[x] <= 1 {
            assert multiset(s)[x] == multiset(s[1..])[x] + (if x == s[0] then 1 else 0);
          }
        }
        assert multiset(s)[s[0]] == multiset(s[1..])[s[0]] + 1;
        assert s[0] !in multiset(s[1..]);
        forall i, j | 0 <= i < j < |s| ensures s[i] != s[j] {
          if i == 0 {
            assert s[j] == s[1..][j - 1];
          } else {
            assert s[i] == s[1..][i - 1] && s[j] == s[1..][j - 1];
          }
        }
      }
    }
  }

  /** A permutation of a sequence without repetitions has no repetitions. */
  lemma DistinctPermutation(a: seq<string>, b: seq<string>)
    requires Distinct(a) && multiset(a) == multiset(b)
    ensures Distinct(b)
  {
    DistinctMultiplicity(a);
    DistinctMultiplicity(b);
  }

  /** Two orderings of the same keys have the same members. */
  lemma SameMembers(a: seq<string>, b: seq<string>)
    requires multiset(a) == multiset(b)
    ensures forall k :: k in a <==> k in b
  {
    forall k ensures k in a <==> k in b {
      assert k in a <==> k in multiset(a);
      assert k in b <==> k in multiset(b);
    }
  }
}
