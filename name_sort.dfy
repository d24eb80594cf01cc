/**
 * `channel_list.sort(key=lambda x: x.name)`: Python's list sort is stable,
 * so it is modelled by insertion sort, which puts each entry after every
 * earlier entry whose name does not sort above its own.
 */
module NameSort {
  import opened Classifier
  import opened NameOrder

  predicate SortedByName(s: seq<ChannelInfo>) {
    forall i, j | 0 <= i < j < |s| :: AtMost(s[i].name, s[j].name)
  }

  /** The entries of `s` named `n`, in their order in `s`. */
  function WithName(s: seq<ChannelInfo>, n: string): seq<ChannelInfo> {
    if s == [] then []
    else WithName(s[..|s| - 1], n) + (if s[|s| - 1].name == n then [s[|s| - 1]] else [])
  }

  /** Inserts `x` behind every entry of `s` whose name is not above its own. */
  function Insert(s: seq<ChannelInfo>, x: ChannelInfo): (r: seq<ChannelInfo>)
    ensures |r| == |s| + 1 && x in r
  {
    if s == [] || !Below(x.name, s[|s| - 1].name) then s + [x]
    else Insert(s[..|s| - 1], x) + [s[|s| - 1]]
  }

  /** The stable sort by name. */
  function SortByName(s: seq<ChannelInfo>): (r: seq<ChannelInfo>)
    ensures |r| == |s|
  {
    if s == [] then [] else Insert(SortByName(s[..|s| - 1]), s[|s| - 1])
  }

  lemma {:induction false} InsertPermutes(s: seq<ChannelInfo>, x: ChannelInfo)
    ensures multiset(Insert(s, x)) == multiset(s) + multiset{x}
  {
    if s != [] && Below(x.name, s[|s| - 1].name) {
      assert s == s[..|s| - 1] + [s[|s| - 1]];
      InsertPermutes(s[..|s| - 1], x);
    }
  }

  /** The sort only reorders: the result is a permutation of its input. */
  lemma {:induction false} SortByNamePermutes(s: seq<ChannelInfo>)
    ensures multiset(SortByName(s)) == multiset(s)
  {
    if s != [] {
      assert s == s[..|s| - 1] + [s[|s| - 1]];
      SortByNamePermutes(s[..|s| - 1]);
      InsertPermutes(SortByName(s[..|s| - 1]), s[|s| - 1]);
    }
  }

  lemma AppendSorted(t: seq<ChannelInfo>, x: ChannelInfo)
    requires SortedByName(t)
    requires forall i | 0 <= i < |t| :: AtMost(t[i].name, x.name)
    ensures SortedByName(t + [x])
  {
  }

  lemma {:induction false} InsertSorted(s: seq<ChannelInfo>, x: ChannelInfo)
    requires SortedByName(s)
    ensures SortedByName(Insert(s, x))
  {
    if s == [] {
    } else if !Below(x.name, s[|s| - 1].name) {
      var last := s[|s| - 1];
      forall i | 0 <= i < |s| ensures AtMost(s[i].name, x.name) {
        if i < |s| - 1 {
          AtMostTransitive(s[i].name, last.name, x.name);
        } else {
          BelowIrreflexive(x.name);
        }
      }
      AppendSorted(s, x);
    } else {
      var init, last := s[..|s| - 1], s[|s| - 1];
      InsertSorted(init, x);
      var t := Insert(init, x);
      InsertPermutes(init, x);
      forall i | 0 <= i < |t| ensures AtMost(t[i].name, last.name) {
        assert t[i] in multiset(t);
        if t[i] == x {
          BelowAsymmetric(x.name, last.name);
        } else {
          assert t[i] in multiset(init);
          var k :| 0 <= k < |init| && init[k] == t[i];
          assert s[k] == t[i];
        }
      }
      AppendSorted(t, last);
    }
  }

  /** The result of the sort is ordered by name. */
  lemma {:induction false} SortByNameSorted(s: seq<ChannelInfo>)
    ensures SortedByName(SortByName(s))
  {
    if s != [] {
      SortByNameSorted(s[..|s| - 1]);
      InsertSorted(SortByName(s[..|s| - 1]), s[|s| - 1]);
    }
  }

  lemma WithNameSnoc(s: seq<ChannelInfo>, x: ChannelInfo, n: string)
    ensures WithName(s + [x], n) == WithName(s, n) + (if x.name == n then [x] else [])
  {
    assert (s + [x])[..|s|] == s;
  }

  lemma {:induction false} InsertWithName(s: seq<ChannelInfo>, x: ChannelInfo, n: string)
    ensures WithName(Insert(s, x), n) == WithName(s, n) + (if x.name == n then [x] else [])
  {
    if s == [] || !Below(x.name, s[|s| - 1].name) {
      WithNameSnoc(s, x, n);
    } else {
      var init, last := s[..|s| - 1], s[|s| - 1];
      InsertWithName(init, x, n);
      WithNameSnoc(Insert(init, x), last, n);
      WithNameSnoc(init, last, n);
      assert s == init + [last];
      BelowIrreflexive(x.name);
    }
  }

  /**
   * Stability: for every name, the entries carrying it keep their relative
   * order.
   */
  lemma {:induction false} SortByNameStable(s: seq<ChannelInfo>, n: string)
    ensures WithName(SortByName(s), n) == WithName(s, n)
  {
    if s != [] {
      SortByNameStable(s[..|s| - 1], n);
      InsertWithName(SortByName(s[..|s| - 1]), s[|s| - 1], n);
    }
  }

  /**
   * `x` goes right after `p[..j]` when every entry from `j` on sorts strictly
   * above it and the entry before `j`, if any, does not.
   */
  lemma {:induction false} InsertSplit(p: seq<ChannelInfo>, j: nat, x: ChannelInfo)
    requires j <= |p|
    requires j == 0 || !Below(x.name, p[j - 1].name)
    requires forall k | j <= k < |p| :: Below(x.name, p[k].name)
    ensures Insert(p, x) == p[..j] + [x] + p[j..]
  {
    if j < |p| {
      var init := p[..|p| - 1];
      assert init[..j] == p[..j];
      InsertSplit(init, j, x);
      assert p[j..] == init[j..] + [p[|p| - 1]];
    } else {
      assert p[..j] == p;
    }
  }

  /**
   * Shifts one place right the entries at the end of the sorted prefix
   * `a[..i]` whose names sort strictly above `x`, and returns the index of
   * the gap this opens.
   */
  method OpenGap(a: array<ChannelInfo>, i: nat, x: ChannelInfo) returns (j: nat)
    requires i < a.Length
    modifies a
    ensures j <= i
    ensures forall k | 0 <= k < j :: a[k] == old(a[k])
    ensures forall k | j < k <= i :: a[k] == old(a[k - 1])
    ensures forall k | i < k < a.Length :: a[k] == old(a[k])
    ensures j == 0 || !Below(x.name, old(a[j - 1]).name)
    ensures forall k | j <= k < i :: Below(x.name, old(a[k]).name)
  {
    j := i;
    while j > 0 && Below(x.name, a[j - 1].name)
      invariant 0 <= j <= i
      invariant forall k | 0 <= k < j :: a[k] == old(a[k])
      invariant forall k | j < k <= i :: a[k] == old(a[k - 1])
      invariant forall k | i < k < a.Length :: a[k] == old(a[k])
      invariant forall k | j <= k < i :: Below(x.name, old(a[k]).name)
    {
      a[j] := a[j - 1];
      j := j - 1;
    }
  }

  /** A sequence that agrees with `p` around position `j` and holds `x` there is `p` with `x` put at `j`. */
  lemma GapFilled(b: seq<ChannelInfo>, p: seq<ChannelInfo>, j: nat, x: ChannelInfo)
    requires j <= |p| && |b| == |p| + 1 && b[j] == x
    requires forall k | 0 <= k < j :: b[k] == p[k]
    requires forall k | j < k < |b| :: b[k] == p[k - 1]
    ensures b == p[..j] + [x] + p[j..]
  {
  }

  /**
   * Moves `a[i]` left past the entries of the sorted prefix `a[..i]` whose
   * names sort strictly above its own.
   */
  method InsertAt(a: array<ChannelInfo>, i: nat)
    requires i < a.Length
    modifies a
    ensures a[..i + 1] == Insert(old(a[..i]), old(a[i]))
    ensures a[i + 1..] == old(a[i + 1..])
  {
    ghost var prefix := a[..i];
    var x := a[i];
    var j := OpenGap(a, i, x);
    a[j] := x;
    InsertSplit(prefix, j, x);
    GapFilled(a[..i + 1], prefix, j, x);
    assert a[i + 1..] == old(a[i + 1..]);
  }

  /** Sorts `a` in place by name, keeping equal names in their order. */
  method SortInPlace(a: array<ChannelInfo>)
    modifies a
    ensures a[..] == SortByName(old(a[..]))
  {
    ghost var input := a[..];
    for i := 0 to a.Length
      invariant a[..i] == SortByName(input[..i])
      invariant a[i..] == input[i..]
    {
      InsertAt(a, i);
      assert input[..i + 1][..i] == input[..i];
    }
    assert a[..] == a[..a.Length] && input == input[..a.Length];
  }
}
