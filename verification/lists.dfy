/** Generic sequence helpers shared by both registry revisions: first match
    by key, order-preserving filter, and the facts relating them. */
module Lists {
  import opened Outcomes

  /** r can be obtained from s by deleting elements, keeping the order. */
  predicate IsSubseq<T(==)>(r: seq<T>, s: seq<T>)
    decreases |s|
  {
    r == [] || (s != [] && ((r[0] == s[0] && IsSubseq(r[1..], s[1..])) || IsSubseq(r, s[1..])))
  }

  /** The keys of s strictly increase from left to right. */
  predicate StrictlyIncreasing<T>(s: seq<T>, key: T -> int) {
    forall i, j :: 0 <= i < j < |s| ==> key(s[i]) < key(s[j])
  }

  /** Position of the first element whose key is k, if any. */
  function FirstIndex<T>(s: seq<T>, key: T -> int, k: int): (r: Option<nat>)
    ensures r.None? <==> forall i :: 0 <= i < |s| ==> key(s[i]) != k
    ensures r.Some? ==> r.value < |s| && key(s[r.value]) == k
    ensures r.Some? ==> forall j :: 0 <= j < r.value ==> key(s[j]) != k
  {
    if s == [] then None
    else if key(s[0]) == k then Some(0)
    else match FirstIndex(s[1..], key, k)
      case None => None
      case Some(i) => Some(i + 1)
  }

  /** The elements of s satisfying p, in their original order. */
  function Filter<T(==)>(s: seq<T>, p: T -> bool): (r: seq<T>)
    ensures |r| <= |s|
    ensures forall i :: 0 <= i < |r| ==> r[i] in s && p(r[i])
    ensures forall i :: 0 <= i < |s| && p(s[i]) ==> s[i] in r
    ensures IsSubseq(r, s)
  {
    if s == [] then []
    else if p(s[0]) then [s[0]] + Filter(s[1..], p)
    else Filter(s[1..], p)
  }

  /** Filter keeps every copy of an element that passes the test, and no
      copy of one that fails it. */
  lemma {:induction false} FilterCounts<T>(s: seq<T>, p: T -> bool)
    ensures forall x :: multiset(Filter(s, p))[x] == if p(x) then multiset(s)[x] else 0
    decreases |s|
  {
    if s != [] {
      assert s == [s[0]] + s[1..];
      FilterCounts(s[1..], p);
    }
  }

  /** The predicate "key differs from k". */
  function KeyIsNot<T>(key: T -> int, k: int): T -> bool {
    x => key(x) != k
  }

  lemma {:induction false} FilterAppend<T>(s: seq<T>, t: seq<T>, p: T -> bool)
    ensures Filter(s + t, p) == Filter(s, p) + Filter(t, p)
    decreases |s|
  {
    if s == [] {
      assert s + t == t;
    } else {
      assert (s + t)[1..] == s[1..] + t;
      FilterAppend(s[1..], t, p);
    }
  }

  lemma {:induction false} FilterAll<T>(s: seq<T>, p: T -> bool)
    requires forall i :: 0 <= i < |s| ==> p(s[i])
    ensures Filter(s, p) == s
    decreases |s|
  {
    if s != [] {
      FilterAll(s[1..], p);
      assert [s[0]] + s[1..] == s;
    }
  }

  /** Every element of a subsequence comes from the original sequence. */
  lemma {:induction false} SubseqMembers<T>(r: seq<T>, s: seq<T>)
    requires IsSubseq(r, s)
    ensures forall i :: 0 <= i < |r| ==> r[i] in s
    decreases |s|
  {
    if r != [] {
      if r[0] == s[0] && IsSubseq(r[1..], s[1..]) {
        SubseqMembers(r[1..], s[1..]);
        forall i | 0 <= i < |r| ensures r[i] in s {
          if i > 0 {
            assert r[i] == r[1..][i - 1];
          }
        }
      } else {
        SubseqMembers(r, s[1..]);
      }
    }
  }

  /** Deleting elements cannot break a strictly increasing order. */
  lemma {:induction false} SubseqKeepsIncreasing<T>(r: seq<T>, s: seq<T>, key: T -> int)
    requires IsSubseq(r, s)
    requires StrictlyIncreasing(s, key)
    ensures StrictlyIncreasing(r, key)
    decreases |s|
  {
    if r != [] {
      if r[0] == s[0] && IsSubseq(r[1..], s[1..]) {
        SubseqKeepsIncreasing(r[1..], s[1..], key);
        SubseqMembers(r[1..], s[1..]);
        forall i, j | 0 <= i < j < |r| ensures key(r[i]) < key(r[j]) {
          if i > 0 {
            assert key(r[1..][i - 1]) < key(r[1..][j - 1]);
          } else {
            assert r[j] in s[1..] by { assert r[j] == r[1..][j - 1]; }
            var m :| 0 <= m < |s[1..]| && s[1..][m] == r[j];
            assert s[m + 1] == r[j];
          }
        }
      } else {
        SubseqKeepsIncreasing(r, s[1..], key);
      }
    }
  }

  /** Removing the element at position i keeps the others in order. */
  lemma {:induction false} RemoveAtIsSubseq<T>(s: seq<T>, i: nat)
    requires i < |s|
    ensures IsSubseq(s[..i] + s[i + 1..], s)
    decreases i
  {
    if i == 0 {
      assert s[..0] + s[1..] == s[1..];
      SubseqOfSelf(s[1..]);
    } else {
      RemoveAtIsSubseq(s[1..], i - 1);
      assert (s[..i] + s[i + 1..])[0] == s[0];
      assert (s[..i] + s[i + 1..])[1..] == s[1..][..i - 1] + s[1..][i..];
    }
  }

  lemma {:induction false} SubseqOfSelf<T>(s: seq<T>)
    ensures IsSubseq(s, s)
    decreases |s|
  {
    if s != [] {
      SubseqOfSelf(s[1..]);
    }
  }

  /** With strictly increasing keys, removing the first element whose key is
      k is the same as filtering out every element whose key is k. */
  lemma RemoveFirstIsFilter<T>(s: seq<T>, key: T -> int, k: int, i: nat)
    requires StrictlyIncreasing(s, key)
    requires FirstIndex(s, key, k) == Some(i)
    ensures s[..i] + s[i + 1..] == Filter(s, KeyIsNot(key, k))
  {
    var p := KeyIsNot(key, k);
    var before, after := s[..i], s[i + 1..];
    forall j | 0 <= j < |before| ensures p(before[j]) {
      assert before[j] == s[j];
    }
    forall j | 0 <= j < |after| ensures p(after[j]) {
      assert after[j] == s[i + 1 + j];
      assert key(s[i]) < key(s[i + 1 + j]);
    }
    FilterAll(before, p);
    FilterAll(after, p);
    FilterSplit(s, i, p);
  }

  lemma FilterSplit<T>(s: seq<T>, i: nat, p: T -> bool)
    requires i < |s|
    requires !p(s[i])
    requires Filter(s[..i], p) == s[..i]
    requires Filter(s[i + 1..], p) == s[i + 1..]
    ensures s[..i] + s[i + 1..] == Filter(s, p)
  {
    var before, x, after := s[..i], s[i], s[i + 1..];
    calc {
      Filter(s, p);
      == { SplitAround(s, i); }
      Filter((before + [x]) + after, p);
      == { FilterAppend(before + [x], after, p); }
      Filter(before + [x], p) + Filter(after, p);
      == { FilterAppend(before, [x], p); FilterDropsOne(x, p); }
      (before + []) + after;
      == { assert before + [] == before; }
      before + after;
    }
  }

  lemma SplitAround<T>(s: seq<T>, i: nat)
    requires i < |s|
    ensures s == (s[..i] + [s[i]]) + s[i + 1..]
  {
  }

  lemma FilterDropsOne<T>(x: T, p: T -> bool)
    requires !p(x)
    ensures Filter([x], p) == []
  {
    assert [x][1..] == [];
  }

  /** s without its element at position i. */
  function RemoveAt<T(==)>(s: seq<T>, i: nat): (r: seq<T>)
    requires i < |s|
    ensures |r| == |s| - 1
    ensures IsSubseq(r, s)
    ensures multiset(r) == multiset(s) - multiset{s[i]}
  {
    RemoveAtIsSubseq(s, i);
    assert s == s[..i] + [s[i]] + s[i + 1..];
    s[..i] + s[i + 1..]
  }

  /** Replacing the first element with key k by another with key k leaves it
      the first one. */
  lemma ReplaceKeepsFirst<T>(s: seq<T>, key: T -> int, k: int, i: nat, x: T)
    requires FirstIndex(s, key, k) == Some(i)
    requires key(x) == k
    ensures FirstIndex(s[i := x], key, k) == Some(i)
  {
    var t := s[i := x];
    assert i < |t| && key(t[i]) == k;
    forall j | 0 <= j < i ensures key(t[j]) != k {
      assert t[j] == s[j];
    }
  }

  /** Replacing an element by one with the same key keeps the key order. */
  lemma ReplaceKeepsIncreasing<T>(s: seq<T>, key: T -> int, i: nat, x: T)
    requires i < |s| && key(x) == key(s[i])
    requires StrictlyIncreasing(s, key)
    ensures StrictlyIncreasing(s[i := x], key)
  {
    var t := s[i := x];
    forall j, m | 0 <= j < m < |t| ensures key(t[j]) < key(t[m]) {
      assert key(t[j]) == key(s[j]) && key(t[m]) == key(s[m]);
    }
  }

  /** With strictly increasing keys, removing the first element with key k
      removes every element with key k and keeps the order. */
  lemma RemoveFirstDropsKey<T>(s: seq<T>, key: T -> int, k: int, i: nat)
    requires StrictlyIncreasing(s, key)
    requires FirstIndex(s, key, k) == Some(i)
    ensures StrictlyIncreasing(RemoveAt(s, i), key)
    ensures forall j :: 0 <= j < |RemoveAt(s, i)| ==> key(RemoveAt(s, i)[j]) != k
  {
    var r := RemoveAt(s, i);
    SubseqKeepsIncreasing(r, s, key);
    forall j | 0 <= j < |r| ensures key(r[j]) != k {
      if j < i {
        assert r[j] == s[j];
      } else {
        assert r[j] == s[j + 1];
        assert key(s[i]) < key(s[j + 1]);
      }
    }
  }
}
