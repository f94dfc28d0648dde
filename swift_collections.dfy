/**
 The few behaviours of the Swift standard library that the modelled code relies
 on: integer division on `Int`, `Array.joined(separator:)`, `Dictionary.max(by:)`
 and `Array.sort(by:)`.
 */
module SwiftCollections {

  /** Swift's `/` on `Int` truncates toward zero (Dafny's `/` is Euclidean). */
  function TruncatingDivide(a: int, b: int): (q: int)
    requires b > 0
    ensures a >= 0 ==> 0 <= a - q * b < b
    ensures a < 0 ==> -b < a - q * b <= 0
  {
    if a >= 0 then a / b else -((-a) / b)
  }

  /** `parts.joined(separator: separator)` for an array of strings. */
  function Join(parts: seq<string>, separator: string): (r: string)
    ensures |parts| == 0 ==> r == ""
    ensures |parts| == 1 ==> r == parts[0]
  {
    if |parts| == 0 then ""
    else if |parts| == 1 then parts[0]
    else parts[0] + separator + Join(parts[1..], separator)
  }

  /** Joining a first part onto a non-empty rest puts one separator between them. */
  lemma JoinCons(first: string, rest: seq<string>, separator: string)
    requires |rest| > 0
    ensures Join([first] + rest, separator) == first + separator + Join(rest, separator)
  {
    assert ([first] + rest)[1..] == rest;
  }

  /**
   `table.max { $0.value < $1.value }!.key`: the dictionary's entries are walked
   in its own (unspecified) order, and an entry replaces the current best only
   when its value is strictly larger. Which of several equally frequent keys
   comes out is therefore not determined; only that its value is maximal.
   The force-unwrap traps on an empty dictionary.
   */
  method MaxByValue<K>(table: map<K, nat>) returns (key: K)
    requires |table| > 0
    ensures key in table
    ensures forall k :: k in table ==> table[k] <= table[key]
  {
    var rest := table.Keys;
    assert |rest| == |table|;
    key :| key in rest;
    rest := rest - {key};
    while rest != {}
      invariant rest <= table.Keys
      invariant key in table
      invariant forall k :: k in table && k !in rest ==> table[k] <= table[key]
      decreases rest
    {
      var k :| k in rest;
      if table[key] < table[k] {
        key := k;
      }
      rest := rest - {k};
    }
  }

  /** The next key of a dictionary iteration: some key not yet visited, in an
      order the program does not control. */
  method AnyKey<K>(keys: set<K>) returns (key: K)
    requires keys != {}
    ensures key in keys
  {
    key :| key in keys;
  }

  /** `s` is in non-decreasing order of `key`. */
  ghost predicate SortedBy<T>(s: seq<T>, key: T -> real)
  {
    forall p, q :: 0 <= p < q < |s| ==> key(s[p]) <= key(s[q])
  }

  /** No two elements of `s` share a key. */
  ghost predicate DistinctKeys<T>(s: seq<T>, key: T -> real)
  {
    forall p, q :: 0 <= p < q < |s| ==> key(s[p]) != key(s[q])
  }

  method Swap<T>(a: array<T>, i: int, j: int)
    requires 0 <= i < j < a.Length
    modifies a
    ensures a[i] == old(a[j]) && a[j] == old(a[i])
    ensures forall m :: 0 <= m < a.Length && m != i && m != j ==> a[m] == old(a[m])
    ensures multiset(a[..]) == old(multiset(a[..]))
  {
    a[i], a[j] := a[j], a[i];
  }

  /**
   `a.sort { key($0) < key($1) }`: rearranges the array in place into
   non-decreasing order of `key`. The library's algorithm is not part of the
   program; an insertion sort stands for it, since only the outcome (a sorted
   permutation) is relied on.
   */
  method SortBy<T>(a: array<T>, key: T -> real)
    modifies a
    ensures SortedBy(a[..], key)
    ensures multiset(a[..]) == old(multiset(a[..]))
  {
    if a.Length == 0 {
      return;
    }
    for i := 1 to a.Length
      invariant SortedBy(a[..i], key)
      invariant multiset(a[..]) == old(multiset(a[..]))
    {
      var j := i;
      while j > 0 && key(a[j - 1]) > key(a[j])
        invariant 0 <= j <= i
        invariant forall p, q :: 0 <= p < q <= i && p != j && q != j ==> key(a[p]) <= key(a[q])
        invariant forall q :: j < q <= i ==> key(a[j]) <= key(a[q])
        invariant multiset(a[..]) == old(multiset(a[..]))
      {
        Swap(a, j - 1, j);
        j := j - 1;
      }
    }
  }

  /** An element whose key no other element shares occurs at most once. */
  lemma {:induction false} DistinctKeysOccurOnce<T>(s: seq<T>, key: T -> real, x: T)
    requires DistinctKeys(s, key)
    ensures multiset(s)[x] <= 1
  {
    if |s| > 0 {
      assert s == [s[0]] + s[1..];
      assert DistinctKeys(s[1..], key) by {
        forall p, q | 0 <= p < q < |s[1..]| ensures key(s[1..][p]) != key(s[1..][q]) {
          assert s[1..][p] == s[p + 1] && s[1..][q] == s[q + 1];
        }
      }
      DistinctKeysOccurOnce(s[1..], key, x);
      if s[0] == x {
        assert x !in s[1..] by {
          forall q | 0 <= q < |s[1..]| ensures s[1..][q] != x {
            assert key(s[0]) != key(s[q + 1]);
          }
        }
      }
    }
  }

  /** A value that stands at two positions occurs at least twice. */
  lemma TwoPositionsTwice<T>(t: seq<T>, p: int, q: int)
    requires 0 <= p < q < |t| && t[p] == t[q]
    ensures multiset(t)[t[p]] >= 2
  {
    assert t == t[..q] + t[q..];
    assert t[p] == t[..q][p];
    assert t[q] == t[q..][0];
  }

  /** Rearranging a sequence keeps its keys pairwise distinct. */
  lemma PermutationKeepsDistinctKeys<T>(s: seq<T>, t: seq<T>, key: T -> real)
    requires multiset(s) == multiset(t)
    requires DistinctKeys(s, key)
    ensures DistinctKeys(t, key)
  {
    forall p, q | 0 <= p < q < |t| ensures key(t[p]) != key(t[q]) {
      if key(t[p]) == key(t[q]) {
        assert t[p] in multiset(s) && t[q] in multiset(s);
        var i :| 0 <= i < |s| && s[i] == t[p];
        var j :| 0 <= j < |s| && s[j] == t[q];
        assert i == j;
        TwoPositionsTwice(t, p, q);
        DistinctKeysOccurOnce(s, key, t[p]);
        assert false;
      }
    }
  }
}
