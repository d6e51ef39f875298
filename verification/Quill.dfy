/** What the panel driver hands to the display controller: the damage clustered
    into few rectangles, or its bounding box. */
module Quill {
  import opened Geometry
  import opened Tiles
  import opened Ink
  import opened Delta

  const MAX_BATCH_REGIONS: nat := 32
  const SPARSE_SWAP_COST_PIXELS: nat := 8192

  predicate Contains(outer: Rect, inner: Rect) {
    && outer.x <= inner.x && inner.x + inner.width <= outer.x + outer.width
    && outer.y <= inner.y && inner.y + inner.height <= outer.y + outer.height
  }

  /** Every rectangle lies inside one of the clusters. */
  predicate Gathered(rects: seq<Rect>, clusters: seq<Rect>) {
    forall k :: 0 <= k < |rects| ==> InSome(rects[k], clusters)
  }

  predicate InSome(r: Rect, clusters: seq<Rect>) {
    exists c :: 0 <= c < |clusters| && Contains(clusters[c], r)
  }

  /** The order of the clustering: top to bottom, then left to right. */
  predicate Before(a: Rect, b: Rect) {
    a.y < b.y || (a.y == b.y &&
                  (a.x < b.x || (a.x == b.x && (a.height < b.height || (a.height == b.height && a.width <= b.width)))))
  }

  function Insert(s: seq<Rect>, r: Rect): seq<Rect> {
    if s == [] || Before(s[|s| - 1], r) then s + [r] else Insert(s[..|s| - 1], r) + [s[|s| - 1]]
  }

  function InOrder(rects: seq<Rect>): seq<Rect> {
    if rects == [] then [] else Insert(InOrder(rects[..|rects| - 1]), rects[|rects| - 1])
  }

  lemma {:induction false} InsertKeeps(s: seq<Rect>, r: Rect)
    ensures multiset(Insert(s, r)) == multiset(s) + multiset{r}
  {
    if s != [] && !Before(s[|s| - 1], r) {
      InsertKeeps(s[..|s| - 1], r);
      assert s == s[..|s| - 1] + [s[|s| - 1]];
    }
  }

  lemma {:induction false} InOrderKeeps(rects: seq<Rect>)
    ensures multiset(InOrder(rects)) == multiset(rects)
  {
    if rects != [] {
      InOrderKeeps(rects[..|rects| - 1]);
      InsertKeeps(InOrder(rects[..|rects| - 1]), rects[|rects| - 1]);
      assert rects == rects[..|rects| - 1] + [rects[|rects| - 1]];
    }
  }

  lemma UnionContains(a: Rect, b: Rect)
    ensures Contains(Union(a, b), a) && Contains(Union(a, b), b)
  {
  }

  lemma UnionValid(w: nat, h: nat, a: Rect, b: Rect)
    requires ValidRect(w, h, a) && ValidRect(w, h, b)
    ensures ValidRect(w, h, Union(a, b))
  {
  }

  /** Two neighbouring clusters become one. */
  lemma MergeGathers(rects: seq<Rect>, clusters: seq<Rect>, k: nat, next: seq<Rect>)
    requires Gathered(rects, clusters) && k + 1 < |clusters|
    requires next == clusters[..k] + [Union(clusters[k], clusters[k + 1])] + clusters[k + 2..]
    ensures Gathered(rects, next)
  {
    hide Union;
    UnionContains(clusters[k], clusters[k + 1]);
    forall j | 0 <= j < |rects| ensures InSome(rects[j], next) {
      assert InSome(rects[j], clusters);
      var c :| 0 <= c < |clusters| && Contains(clusters[c], rects[j]);
      assert Contains(next[if c <= k then c else c - 1], rects[j]);
    }
  }

  /** One more rectangle, either on its own or joined to the last cluster. */
  lemma AddGathers(rects: seq<Rect>, clusters: seq<Rect>, r: Rect, next: seq<Rect>)
    requires Gathered(rects, clusters)
    requires next == clusters + [r] || (clusters != [] && next == clusters[..|clusters| - 1] + [Union(clusters[|clusters| - 1], r)])
    ensures Gathered(rects + [r], next)
  {
    hide Union;
    if clusters != [] { UnionContains(clusters[|clusters| - 1], r); }
    forall j | 0 <= j < |rects + [r]| ensures InSome((rects + [r])[j], next) {
      if j < |rects| {
        assert (rects + [r])[j] == rects[j] && InSome(rects[j], clusters);
        var c :| 0 <= c < |clusters| && Contains(clusters[c], rects[j]);
        assert Contains(next[c], rects[j]);
      } else {
        assert Contains(next[|next| - 1], r);
      }
    }
  }

  /** The neighbours whose union adds the fewest pixels, the first of them. */
  method CheapestPair(clusters: seq<Rect>) returns (index: nat)
    requires |clusters| >= 2
    ensures index + 1 < |clusters|
    ensures forall k :: 0 <= k < |clusters| - 1 ==> Added(clusters, index) <= Added(clusters, k)
    ensures forall k :: 0 <= k < index ==> Added(clusters, index) < Added(clusters, k)
  {
    hide Added;
    index := 0;
    for k := 1 to |clusters| - 1
      invariant index < k
      invariant forall j :: 0 <= j < k ==> Added(clusters, index) <= Added(clusters, j)
      invariant forall j :: 0 <= j < index ==> Added(clusters, index) < Added(clusters, j)
    {
      if Added(clusters, k) < Added(clusters, index) {
        index := k;
      }
    }
  }

  function Added(clusters: seq<Rect>, k: nat): nat
    requires k + 1 < |clusters|
  {
    SatSub(Area(Union(clusters[k], clusters[k + 1])), Area(clusters[k]) + Area(clusters[k + 1]))
  }

  /** One more rectangle: joined to the last cluster when that costs no pixels, or
      a cluster of its own. */
  function Joined(clusters: seq<Rect>, r: Rect): (next: seq<Rect>)
    ensures 0 < |next| <= |clusters| + 1
  {
    var n := |clusters| - 1;
    if clusters != [] && Area(Union(clusters[n], r)) <= Area(clusters[n]) + Area(r) then
      clusters[..n] + [Union(clusters[n], r)]
    else clusters + [r]
  }

  function JoinedAll(sorted: seq<Rect>): (clusters: seq<Rect>)
    ensures |clusters| <= |sorted|
  {
    if sorted == [] then [] else Joined(JoinedAll(sorted[..|sorted| - 1]), sorted[|sorted| - 1])
  }

  /** The first of the cheapest among the first `n` pairs of neighbours. */
  function Cheapest(clusters: seq<Rect>, n: nat): (k: nat)
    requires 0 < n < |clusters|
    ensures k < n
    ensures forall j :: 0 <= j < n ==> Added(clusters, k) <= Added(clusters, j)
    ensures forall j :: 0 <= j < k ==> Added(clusters, k) < Added(clusters, j)
  {
    if n == 1 then 0
    else
      var k := Cheapest(clusters, n - 1);
      if Added(clusters, n - 1) < Added(clusters, k) then n - 1 else k
  }

  /** Neighbours joined, the cheapest first, until there are few enough. */
  function Few(clusters: seq<Rect>, limit: nat): (few: seq<Rect>)
    requires limit > 0
    ensures |few| <= limit && (|clusters| <= limit ==> few == clusters)
    decreases |clusters|
  {
    if |clusters| <= limit then clusters
    else
      var k := Cheapest(clusters, |clusters| - 1);
      Few(clusters[..k] + [Union(clusters[k], clusters[k + 1])] + clusters[k + 2..], limit)
  }

  /** The clusters of some damage. */
  function Clusters(rects: seq<Rect>, limit: nat): seq<Rect> {
    if limit == 0 then [] else Few(JoinedAll(InOrder(rects)), limit)
  }

  /** Sorting moves rectangles about, and so keeps their area. */
  lemma {:induction false} InsertArea(s: seq<Rect>, r: Rect)
    ensures TotalArea(Insert(s, r)) == TotalArea(s) + Area(r)
  {
    hide Area, Before, TotalArea;
    if s == [] || Before(s[|s| - 1], r) {
      AreaSnoc(s, r);
    } else {
      var n := |s| - 1;
      InsertArea(s[..n], r);
      AreaSnoc(Insert(s[..n], r), s[n]);
      AreaSnoc(s[..n], s[n]);
      assert s == s[..n] + [s[n]];
    }
  }

  lemma {:induction false} InOrderArea(rects: seq<Rect>)
    ensures TotalArea(InOrder(rects)) == TotalArea(rects) && |InOrder(rects)| == |rects|
  {
    hide Insert;
    InOrderKeeps(rects);
    assert |multiset(InOrder(rects))| == |multiset(rects)|;
    if rects != [] {
      var n := |rects| - 1;
      InOrderArea(rects[..n]);
      InsertArea(InOrder(rects[..n]), rects[n]);
    }
  }

  predicate Sorted(s: seq<Rect>) {
    forall i, j :: 0 <= i < j < |s| ==> Before(s[i], s[j])
  }

  lemma {:induction false} InsertSorted(s: seq<Rect>, r: Rect)
    requires Sorted(s)
    ensures Sorted(Insert(s, r))
  {
    if s != [] && !Before(s[|s| - 1], r) {
      var n := |s| - 1;
      InsertSorted(s[..n], r);
      var t := Insert(s[..n], r);
      InsertKeeps(s[..n], r);
      forall i | 0 <= i < |t| ensures Before(t[i], s[n]) {
        assert t[i] in multiset(t);
        assert t[i] in s[..n] || t[i] == r;
      }
    }
  }

  /** The clusters are built from top to bottom, whatever the order of the damage. */
  lemma {:induction false} InOrderSorted(rects: seq<Rect>)
    ensures Sorted(InOrder(rects))
  {
    hide Before, Insert;
    if rects != [] {
      InOrderSorted(rects[..|rects| - 1]);
      InsertSorted(InOrder(rects[..|rects| - 1]), rects[|rects| - 1]);
    }
  }

  method AddRect(w: nat, h: nat, ghost rects: seq<Rect>, clusters: seq<Rect>, r: Rect) returns (next: seq<Rect>)
    requires AllValid(w, h, clusters) && Gathered(rects, clusters) && ValidRect(w, h, r)
    ensures next == Joined(clusters, r)
    ensures AllValid(w, h, next) && Gathered(rects + [r], next) && next != []
    ensures TotalArea(next) <= TotalArea(clusters) + Area(r)
  {
    hide ValidRect, Union, Area, Gathered, TotalArea;
    AreaSnoc(clusters, r);
    if clusters != [] {
      var n := |clusters| - 1;
      var combined := Union(clusters[n], r);
      if Area(combined) <= Area(clusters[n]) + Area(r) {
        UnionValid(w, h, clusters[n], r);
        assert clusters == clusters[..n] + [clusters[n]];
        AreaSnoc(clusters[..n], clusters[n]);
        AreaSnoc(clusters[..n], combined);
        next := clusters[..n] + [combined];
        AddGathers(rects, clusters, r, next);
        return;
      }
    }
    next := clusters + [r];
    AddGathers(rects, clusters, r, next);
  }

  /** Sorted rectangles, joined to the last cluster whenever that costs no
      pixels. */
  method JoinFree(w: nat, h: nat, sorted: seq<Rect>) returns (clusters: seq<Rect>)
    requires AllValid(w, h, sorted)
    ensures clusters == JoinedAll(sorted)
    ensures AllValid(w, h, clusters) && Gathered(sorted, clusters)
    ensures TotalArea(clusters) <= TotalArea(sorted)
    ensures sorted != [] ==> clusters != []
  {
    hide ValidRect, Area, Gathered, Joined;
    clusters := [];
    NothingGathered();
    for k := 0 to |sorted|
      invariant clusters == JoinedAll(sorted[..k])
      invariant AllValid(w, h, clusters) && Gathered(sorted[..k], clusters)
      invariant TotalArea(clusters) <= TotalArea(sorted[..k])
      invariant k > 0 ==> clusters != []
    {
      assert sorted[..k + 1] == sorted[..k] + [sorted[k]];
      assert sorted[..k + 1][..k] == sorted[..k];
      AreaSnoc(sorted[..k], sorted[k]);
      clusters := AddRect(w, h, sorted[..k], clusters, sorted[k]);
    }
    assert sorted[..|sorted|] == sorted;
  }

  lemma AreaSnoc(rects: seq<Rect>, r: Rect)
    ensures TotalArea(rects + [r]) == TotalArea(rects) + Area(r)
  {
    assert (rects + [r])[..|rects|] == rects;
  }

  lemma NothingGathered()
    ensures Gathered([], [])
  {
  }

  /** Joins the cheapest neighbours until there are few enough. */
  method JoinCheapest(w: nat, h: nat, ghost rects: seq<Rect>, clusters: seq<Rect>, limit: nat) returns (few: seq<Rect>)
    requires limit > 0 && AllValid(w, h, clusters) && Gathered(rects, clusters)
    ensures few == Few(clusters, limit)
    ensures |few| <= limit && AllValid(w, h, few) && Gathered(rects, few)
    ensures clusters != [] ==> few != []
  {
    hide ValidRect, Union, Gathered, Added;
    few := clusters;
    while |few| > limit
      invariant Few(few, limit) == Few(clusters, limit)
      invariant AllValid(w, h, few) && Gathered(rects, few)
      invariant clusters != [] ==> few != []
    {
      var index := CheapestPair(few);
      assert index == Cheapest(few, |few| - 1);
      var combined := Union(few[index], few[index + 1]);
      UnionValid(w, h, few[index], few[index + 1]);
      var next := few[..index] + [combined] + few[index + 2..];
      MergeGathers(rects, few, index, next);
      few := next;
    }
  }

  /** At most `limit` rectangles that together cover all of the damage. */
  method ClusterDamage(w: nat, h: nat, rects: seq<Rect>, limit: nat) returns (clusters: seq<Rect>)
    requires w > 0 && AllValid(w, h, rects)
    ensures clusters == Clusters(rects, limit)
    ensures |clusters| <= limit && AllValid(w, h, clusters)
    ensures limit > 0 ==> forall i: nat :: Covered(w, rects, i) ==> Covered(w, clusters, i)
    ensures limit > 0 && rects != [] ==> clusters != []
    ensures |rects| <= limit ==> TotalArea(clusters) <= TotalArea(rects)
  {
    hide ValidRect, Gathered, Covered, InOrder, AllValid, TotalArea;
    InOrderArea(rects);
    if limit == 0 {
      assert AllValid(w, h, []) by { NoneValid(w, h); }
      assert TotalArea([]) <= TotalArea(rects) by { NoneValid(w, h); }
      return [];
    }
    OrderedValid(w, h, rects);
    var joined := JoinFree(w, h, InOrder(rects));
    clusters := JoinCheapest(w, h, InOrder(rects), joined, limit);
    GatheredCovers(w, rects, InOrder(rects), clusters);
  }

  lemma NoneValid(w: nat, h: nat)
    ensures AllValid(w, h, []) && TotalArea([]) == 0
  {
  }

  lemma OrderedValid(w: nat, h: nat, rects: seq<Rect>)
    requires AllValid(w, h, rects)
    ensures AllValid(w, h, InOrder(rects)) && forall r :: r in rects <==> r in InOrder(rects)
    ensures rects != [] ==> InOrder(rects) != []
  {
    hide ValidRect, InOrder;
    var sorted := InOrder(rects);
    InOrderKeeps(rects);
    SameMembers(rects, sorted);
    forall k | 0 <= k < |sorted| ensures ValidRect(w, h, sorted[k]) { assert sorted[k] in rects; }
    if rects != [] { assert rects[0] in sorted; }
  }

  lemma SameMembers(a: seq<Rect>, b: seq<Rect>)
    requires multiset(a) == multiset(b)
    ensures forall r :: r in a <==> r in b
  {
    forall r ensures r in a <==> r in b {
      assert r in a <==> r in multiset(a);
    }
  }

  lemma GatheredCovers(w: nat, rects: seq<Rect>, sorted: seq<Rect>, clusters: seq<Rect>)
    requires w > 0 && Gathered(sorted, clusters) && forall r :: r in rects <==> r in sorted
    ensures forall i: nat :: Covered(w, rects, i) ==> Covered(w, clusters, i)
  {
    hide Col, Row;
    forall i: nat | Covered(w, rects, i) ensures Covered(w, clusters, i) {
      var k :| 0 <= k < |rects| && InRect(w, rects[k], i);
      assert rects[k] in sorted;
      var j :| 0 <= j < |sorted| && sorted[j] == rects[k];
      assert InSome(sorted[j], clusters);
      var c :| 0 <= c < |clusters| && Contains(clusters[c], sorted[j]);
      assert InRect(w, clusters[c], i);
    }
  }

  /** Several rectangles pay off only when they save more pixels than the swaps
      cost. */
  predicate UseSparse(count: nat, submitted: nat, unionPixels: nat, complete: bool) {
    !complete && count >= 2 && unionPixels > submitted + count * SPARSE_SWAP_COST_PIXELS
  }

  /** The rectangles submitted for some damage: they cover all of it, are few,
      stay on the panel, and never cost more pixels than the bounding box. */
  method ChooseSubmission(w: nat, h: nat, damage: seq<Rect>, complete: bool) returns (submit: seq<Rect>)
    requires w > 0 && damage != [] && AllValid(w, h, damage)
    ensures 1 <= |submit| <= MAX_BATCH_REGIONS && AllValid(w, h, submit)
    ensures forall i: nat :: Covered(w, damage, i) ==> Covered(w, submit, i)
    ensures TotalArea(submit) <= Area(Hull(damage))
    ensures var clusters := Clusters(damage, 32);
            submit == if !complete && |clusters| > 1 && Area(Hull(damage)) > TotalArea(clusters) + 8192 * |clusters|
                      then clusters else [Hull(damage)]
    ensures |damage| <= 32 && |submit| > 1 ==> TotalArea(submit) <= TotalArea(damage)
  {
    hide ValidRect, Covered, Area, Hull, InRect, Clusters, TotalArea;
    HullContains(w, h, damage);
    var hull := HullOf(damage);
    var clustered := ClusterDamage(w, h, damage, MAX_BATCH_REGIONS);
    if UseSparse(|clustered|, TotalArea(clustered), Area(hull), complete) {
      return clustered;
    }
    submit := [hull];
    forall i: nat | Covered(w, damage, i) ensures Covered(w, submit, i) { CoveredOne(w, hull, i); }
    AreaSnoc([], hull);
    NoneValid(w, h);
    assert [] + [hull] == [hull];
  }
}
