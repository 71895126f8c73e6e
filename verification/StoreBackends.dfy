/** The cache store: which items `_get_items_to_delete` picks, and what `enforce_store_limits` leaves. */
module StoreBackends {
  datatype Limit = Unlimited | AtMost(value: int)

  datatype CacheItemInfo = CacheItemInfo(path: nat, size: nat, lastAccess: int)

  datatype Limits = Limits(bytes: Limit, items: Limit, age: Limit)

  // ---------------------------------------------------------------- limits

  predicate Within(n: int, limit: Limit) { limit.Unlimited? || n <= limit.value }

  function Total(items: seq<CacheItemInfo>): nat {
    if items == [] then 0 else items[0].size + Total(items[1..])
  }

  /** The limits hold of what is left: bytes, count, and nothing accessed longer ago than the age. */
  predicate Hold(items: seq<CacheItemInfo>, limits: Limits, now: int) {
    && Within(Total(items), limits.bytes) && Within(|items|, limits.items)
    && forall i :: 0 <= i < |items| ==> Within(now - items[i].lastAccess, limits.age)
  }

  predicate OldestFirst(items: seq<CacheItemInfo>) {
    forall i, j :: 0 <= i < j < |items| ==> items[i].lastAccess <= items[j].lastAccess
  }

  /** Where an item goes: after every item of the same age, so that the sort is stable. */
  function Place(item: CacheItemInfo, items: seq<CacheItemInfo>): (p: nat)
    requires OldestFirst(items)
    ensures p <= |items|
    ensures forall i :: 0 <= i < p ==> items[i].lastAccess <= item.lastAccess
    ensures forall i :: p <= i < |items| ==> item.lastAccess < items[i].lastAccess
  {
    if items == [] || item.lastAccess < items[0].lastAccess then 0 else 1 + Place(item, items[1..])
  }

  function Insert(item: CacheItemInfo, items: seq<CacheItemInfo>): (r: seq<CacheItemInfo>)
    requires OldestFirst(items)
    ensures OldestFirst(r) && multiset(r) == multiset(items) + multiset{item}
  {
    var p := Place(item, items);
    SpliceContents(items, p, item);
    SpliceSorted(items, p, item);
    Splice(items, p, item)
  }

  function Splice(items: seq<CacheItemInfo>, p: nat, item: CacheItemInfo): seq<CacheItemInfo>
    requires p <= |items|
  {
    items[..p] + [item] + items[p..]
  }

  lemma SpliceContents(items: seq<CacheItemInfo>, p: nat, item: CacheItemInfo)
    requires p <= |items|
    ensures multiset(Splice(items, p, item)) == multiset(items) + multiset{item}
  {
    assert items == items[..p] + items[p..];
  }

  lemma SpliceSorted(items: seq<CacheItemInfo>, p: nat, item: CacheItemInfo)
    requires OldestFirst(items) && p <= |items|
    requires forall i :: 0 <= i < p ==> items[i].lastAccess <= item.lastAccess
    requires forall i :: p <= i < |items| ==> item.lastAccess < items[i].lastAccess
    ensures OldestFirst(Splice(items, p, item))
  {
    var r := Splice(items, p, item);
    forall i, j | 0 <= i < j < |r| ensures r[i].lastAccess <= r[j].lastAccess {
      assert r[i] == if i < p then items[i] else if i == p then item else items[i - 1];
      assert r[j] == if j < p then items[j] else if j == p then item else items[j - 1];
    }
  }

  function ByAccess(items: seq<CacheItemInfo>): (r: seq<CacheItemInfo>)
    ensures OldestFirst(r) && multiset(r) == multiset(items)
  {
    if items == [] then []
    else
      assert items == items[..|items| - 1] + [items[|items| - 1]];
      Insert(items[|items| - 1], ByAccess(items[..|items| - 1]))
  }

  lemma {:induction false} TotalAppend(items: seq<CacheItemInfo>, item: CacheItemInfo)
    ensures Total(items + [item]) == Total(items) + item.size
  {
    if items == [] {
      assert [item][1..] == [];
    } else {
      TotalAppend(items[1..], item);
      assert (items + [item])[1..] == items[1..] + [item];
    }
  }

  lemma {:induction false} TotalSplit(items: seq<CacheItemInfo>, k: nat)
    requires k <= |items|
    ensures Total(items) == Total(items[..k]) + Total(items[k..])
  {
    if k > 0 {
      TotalSplit(items[1..], k - 1);
      assert items[..k][1..] == items[1..][..k - 1];
    } else {
      assert items[0..] == items;
    }
  }

  lemma {:induction false} TotalPermuted(xs: seq<CacheItemInfo>, ys: seq<CacheItemInfo>)
    requires multiset(xs) == multiset(ys)
    ensures Total(xs) == Total(ys) && |xs| == |ys|
  {
    assert |multiset(xs)| == |xs| && |multiset(ys)| == |ys|;
    if xs != [] {
      var i := Occurrence(ys, xs[0]);
      assert xs == [xs[0]] + xs[1..];
      TotalPermuted(xs[1..], ys[..i] + ys[i + 1..]);
      TotalRemove(ys, i);
    }
  }

  lemma {:induction false} Occurrence(ys: seq<CacheItemInfo>, x: CacheItemInfo) returns (i: nat)
    requires x in multiset(ys)
    ensures i < |ys| && ys[i] == x && multiset(ys[..i] + ys[i + 1..]) == multiset(ys) - multiset{x}
  {
    i :| 0 <= i < |ys| && ys[i] == x;
    assert ys == ys[..i] + [ys[i]] + ys[i + 1..];
  }

  lemma {:induction false} TotalRemove(items: seq<CacheItemInfo>, i: nat)
    requires i < |items|
    ensures Total(items) == items[i].size + Total(items[..i] + items[i + 1..])
  {
    if i == 0 {
      assert items[..0] + items[1..] == items[1..];
    } else {
      TotalRemove(items[1..], i - 1);
      assert (items[..i] + items[i + 1..])[1..] == items[1..][..i - 1] + items[1..][i..];
    }
  }

  /** Whether the limits hold does not depend on the order. */
  lemma {:induction false} HoldPermuted(xs: seq<CacheItemInfo>, ys: seq<CacheItemInfo>, limits: Limits, now: int)
    requires multiset(xs) == multiset(ys) && Hold(xs, limits, now)
    ensures Hold(ys, limits, now)
  {
    TotalPermuted(xs, ys);
    forall i | 0 <= i < |ys| ensures Within(now - ys[i].lastAccess, limits.age) {
      assert ys[i] in multiset(xs);
      var j :| 0 <= j < |xs| && xs[j] == ys[i];
    }
  }

  // ---------------------------------------------------------------- what is deleted

  /** `cut` is the shortest oldest-first prefix of the items after which the limits hold; it is all of
      them when the limits cannot hold otherwise. */
  ghost predicate ShortestCut(items: seq<CacheItemInfo>, cut: seq<CacheItemInfo>, limits: Limits, now: int) {
    var sorted := ByAccess(items);
    && cut <= sorted
    && (|cut| < |sorted| ==> Hold(sorted[|cut|..], limits, now))
    && forall k :: 0 <= k < |cut| ==> !Hold(sorted[k..], limits, now)
  }

  method GetItemsToDelete(items: seq<CacheItemInfo>, limits: Limits, now: int) returns (cut: seq<CacheItemInfo>)
    ensures ShortestCut(items, cut, limits, now)
    ensures Hold(items, limits, now) ==> cut == []
    ensures |cut| <= |ByAccess(items)| && (|cut| == |ByAccess(items)| || Fits(ByAccess(items)[|cut|..], limits, now))
    ensures cut != [] ==> !Fits(ByAccess(items)[|cut| - 1..], limits, now)
  {
    HoldIsFits(limits, now);
    hide Hold, OldestFirst, Fits;
    var sorted := ByAccess(items);
    cut := CutSorted(sorted, limits, now);
    assert sorted[0..] == sorted;
    if Hold(items, limits, now) { HoldPermuted(items, sorted, limits, now); }
  }

  /** The limits in plain numbers: total bytes, count of items, and time since the last access of each. */
  ghost predicate Fits(kept: seq<CacheItemInfo>, limits: Limits, now: int) {
    && (limits.bytes.AtMost? ==> Total(kept) <= limits.bytes.value)
    && (limits.items.AtMost? ==> |kept| <= limits.items.value)
    && (limits.age.AtMost? ==> forall i :: 0 <= i < |kept| ==> now - kept[i].lastAccess <= limits.age.value)
  }

  lemma HoldIsFits(limits: Limits, now: int)
    ensures forall kept :: Hold(kept, limits, now) <==> Fits(kept, limits, now)
  {
  }

  method CutSorted(sorted: seq<CacheItemInfo>, limits: Limits, now: int) returns (cut: seq<CacheItemInfo>)
    requires OldestFirst(sorted)
    ensures cut <= sorted && (|cut| < |sorted| ==> Hold(sorted[|cut|..], limits, now))
    ensures forall k :: 0 <= k < |cut| ==> !Hold(sorted[k..], limits, now)
  {
    hide Hold, OldestFirst, Within;
    cut := [];
    var size := 0;
    var total := Size(sorted);
    while |cut| < |sorted|
      invariant cut <= sorted && size == Total(cut) && total == Total(sorted)
      invariant forall k :: 0 <= k < |cut| ==> !Hold(sorted[k..], limits, now)
      decreases |sorted| - |cut|
    {
      var item := sorted[|cut|];
      assert sorted[..|cut|] == cut;
      Decided(sorted, |cut|, limits, now);
      if Within(total - size, limits.bytes) && Within(|sorted| - |cut|, limits.items)
         && Within(now - item.lastAccess, limits.age) {
        break;
      }
      TotalAppend(cut, item);
      size := size + item.size;
      cut := cut + [item];
    }
  }

  method Size(items: seq<CacheItemInfo>) returns (n: nat)
    ensures n == Total(items)
  {
    n := 0;
    for i := 0 to |items|
      invariant n == Total(items[..i])
    {
      n := n + items[i].size;
      TotalAppend(items[..i], items[i]);
      assert items[..i + 1] == items[..i] + [items[i]];
    }
    assert items[..|items|] == items;
  }

  /** What is left is within the limits as soon as its oldest item, its count and its size are. */
  lemma {:induction false} Decided(sorted: seq<CacheItemInfo>, k: nat, limits: Limits, now: int)
    requires OldestFirst(sorted) && k < |sorted|
    ensures Hold(sorted[k..], limits, now) <==>
            && Within(Total(sorted) - Total(sorted[..k]), limits.bytes) && Within(|sorted| - k, limits.items)
            && Within(now - sorted[k].lastAccess, limits.age)
  {
    TotalSplit(sorted, k);
    assert sorted[k..][0] == sorted[k];
  }

  /** A shortest cut, and nothing else, is least recently used first: what survives is at least as
      recent as what goes, is within the limits, and is, with what goes, everything there was. */
  lemma {:induction false} CutIsLeastRecentlyUsed(items: seq<CacheItemInfo>, cut: seq<CacheItemInfo>, limits: Limits,
                                                  now: int)
    requires ShortestCut(items, cut, limits, now)
    ensures var kept := ByAccess(items)[|cut|..];
            && multiset(cut) + multiset(kept) == multiset(items)
            && (forall x, y :: x in cut && y in kept ==> x.lastAccess <= y.lastAccess)
            && (kept == [] || Hold(kept, limits, now))
            && (cut == [] <==> items == [] || Hold(items, limits, now))
  {
    var sorted := ByAccess(items);
    assert sorted == cut + sorted[|cut|..];
    if cut == [] {
      assert sorted[0..] == sorted;
      if items != [] { HoldPermuted(sorted, items, limits, now); }
    } else {
      assert sorted[0..] == sorted;
      if Hold(items, limits, now) { HoldPermuted(items, sorted, limits, now); }
      assert |multiset(items)| == |items| && |multiset(sorted)| == |sorted|;
    }
  }

  class StoreBackend {
    var items: seq<CacheItemInfo>

    /** Deletes what has to go. Items that cannot be removed just now (`busy`) stay. */
    method EnforceStoreLimits(limits: Limits, now: int, busy: set<nat>)
      modifies this
      ensures exists cut :: ShortestCut(old(items), cut, limits, now) && items == Without(old(items), Paths(cut) - busy)
    {
      hide Without, ShortestCut, Fits, Hold, ByAccess, OldestFirst, Total;
      var cut := GetItemsToDelete(items, limits, now);
      WithoutNone(items);
      assert Paths(cut[..0]) - busy == {};
      for i := 0 to |cut|
        invariant items == Without(old(items), Paths(cut[..i]) - busy)
      {
        hide Paths;
        assert cut[..i + 1] == cut[..i] + [cut[i]];
        PathsAppend(cut[..i], cut[i]);
        var path := cut[i].path;
        if path in busy {
          assert Paths(cut[..i + 1]) - busy == Paths(cut[..i]) - busy;
        } else {
          WithoutTwice(old(items), Paths(cut[..i]) - busy, {path});
          assert Paths(cut[..i + 1]) - busy == Paths(cut[..i]) - busy + {path};
          items := Without(items, {path});
        }
      }
      assert cut[..|cut|] == cut;
    }
  }

  function Paths(items: seq<CacheItemInfo>): set<nat> { set i | 0 <= i < |items| :: items[i].path }

  lemma PathsAppend(items: seq<CacheItemInfo>, item: CacheItemInfo)
    ensures Paths(items + [item]) == Paths(items) + {item.path}
  {
    assert forall i :: 0 <= i < |items| ==> (items + [item])[i] == items[i];
    assert (items + [item])[|items|] == item;
    forall p | p in Paths(items) ensures p in Paths(items + [item]) {
      var i :| 0 <= i < |items| && items[i].path == p;
      assert (items + [item])[i].path == p;
    }
  }

  function Without(items: seq<CacheItemInfo>, paths: set<nat>): seq<CacheItemInfo> {
    if items == [] then []
    else if items[0].path in paths then Without(items[1..], paths) else [items[0]] + Without(items[1..], paths)
  }

  lemma {:induction false} WithoutNone(items: seq<CacheItemInfo>)
    ensures Without(items, {}) == items
  {
    if items != [] { WithoutNone(items[1..]); }
  }

  lemma {:induction false} WithoutTwice(items: seq<CacheItemInfo>, a: set<nat>, b: set<nat>)
    ensures Without(Without(items, a), b) == Without(items, a + b)
  {
    if items != [] { WithoutTwice(items[1..], a, b); }
  }

  predicate DistinctPaths(items: seq<CacheItemInfo>) {
    forall i, j :: 0 <= i < j < |items| ==> items[i].path != items[j].path
  }

  lemma {:induction false} WithoutCount(items: seq<CacheItemInfo>, paths: set<nat>, x: CacheItemInfo)
    ensures multiset(Without(items, paths))[x] == if x.path in paths then 0 else multiset(items)[x]
  {
    if items != [] {
      assert items == [items[0]] + items[1..];
      WithoutCount(items[1..], paths, x);
    }
  }

  lemma {:induction false} PathOnce(items: seq<CacheItemInfo>, x: CacheItemInfo, y: CacheItemInfo)
    requires DistinctPaths(items) && x in multiset(items) && y in multiset(items)
    ensures multiset(items)[x] == 1 && (x.path == y.path ==> x == y)
  {
    assert items == [items[0]] + items[1..];
    if x in multiset(items[1..]) {
      PathOnce(items[1..], x, x);
    }
  }

  /** When every deletion succeeds the survivors meet the limits, and doing it again deletes nothing. */
  lemma {:induction false} EnforcedMeetsLimits(items: seq<CacheItemInfo>, cut: seq<CacheItemInfo>, limits: Limits,
                                               now: int)
    requires DistinctPaths(items) && ShortestCut(items, cut, limits, now)
    ensures var left := Without(items, Paths(cut));
            && multiset(left) == multiset(ByAccess(items)[|cut|..])
            && (left == [] || Hold(left, limits, now))
  {
    CutIsLeastRecentlyUsed(items, cut, limits, now);
    hide ByAccess, Hold, ShortestCut, OldestFirst, Without, DistinctPaths, Paths;
    SurvivorsAreKept(items, cut, ByAccess(items)[|cut|..]);
    HoldsToo(ByAccess(items)[|cut|..], Without(items, Paths(cut)), limits, now);
  }

  lemma {:induction false} SurvivorsAreKept(items: seq<CacheItemInfo>, cut: seq<CacheItemInfo>,
                                            kept: seq<CacheItemInfo>)
    requires DistinctPaths(items) && multiset(cut) + multiset(kept) == multiset(items)
    ensures multiset(Without(items, Paths(cut))) == multiset(kept)
  {
    hide Without, Paths, DistinctPaths;
    forall x ensures multiset(Without(items, Paths(cut)))[x] == multiset(kept)[x] {
      SurvivorCount(items, cut, kept, x);
    }
  }

  lemma {:induction false} HoldsToo(kept: seq<CacheItemInfo>, left: seq<CacheItemInfo>, limits: Limits, now: int)
    requires multiset(kept) == multiset(left) && (kept == [] || Hold(kept, limits, now))
    ensures left == [] || Hold(left, limits, now)
  {
    if kept == [] { assert |multiset(left)| == 0; } else { HoldPermuted(kept, left, limits, now); }
  }

  lemma {:induction false} SurvivorCount(items: seq<CacheItemInfo>, cut: seq<CacheItemInfo>, kept: seq<CacheItemInfo>,
                                         x: CacheItemInfo)
    requires DistinctPaths(items) && multiset(cut) + multiset(kept) == multiset(items)
    ensures multiset(Without(items, Paths(cut)))[x] == multiset(kept)[x]
  {
    hide Without, DistinctPaths;
    WithoutCount(items, Paths(cut), x);
    assert multiset(items)[x] == multiset(cut)[x] + multiset(kept)[x];
    if x.path in Paths(cut) {
      var i :| 0 <= i < |cut| && cut[i].path == x.path;
      assert cut[i] in multiset(cut);
      if x in multiset(items) { PathOnce(items, x, cut[i]); }
    } else {
      hide Paths;
      if x in cut { OfPaths(cut, x); }
      assert x !in multiset(cut);
    }
  }

  lemma OfPaths(items: seq<CacheItemInfo>, x: CacheItemInfo)
    requires x in items
    ensures x.path in Paths(items)
  {
    var i :| 0 <= i < |items| && items[i] == x;
  }
}
