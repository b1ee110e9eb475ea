/**
 * What GroupDetailViewModel's image bookkeeping guarantees: the assets
 * comparison, the initial requests, the effect of an asset update, the
 * delivery rules, cancellation, the preload window and the caching lists.
 */
module ImageProperties {
  import opened Optional
  import opened ScanSpec
  import opened ImageSpec

  // ---------------------------------------------------------------------
  // areAssetsEqual
  // ---------------------------------------------------------------------

  /** The comparison holds exactly when the lists agree identifier by identifier. */
  lemma AreAssetsEqualMeaning(a: seq<Asset>, b: seq<Asset>)
    ensures AreAssetsEqual(a, b) <==>
            |a| == |b| && forall i :: 0 <= i < |a| ==> a[i].localIdentifier == b[i].localIdentifier
  {
    if |a| == |b| && forall i :: 0 <= i < |a| ==> a[i].localIdentifier == b[i].localIdentifier {
      assert Ids(a) == Ids(b);
    }
  }

  /** An asset is its identifier here, so the comparison is list equality. */
  lemma AreAssetsEqualIsEquality(a: seq<Asset>, b: seq<Asset>)
    ensures AreAssetsEqual(a, b) <==> a == b
  {
    AreAssetsEqualMeaning(a, b);
    if AreAssetsEqual(a, b) {
      assert forall i :: 0 <= i < |a| ==> a[i] == b[i];
    }
  }

  /**
   * Dropping a duplicate publication (`removeDuplicates(by: areAssetsEqual)`)
   * loses nothing: the update it suppresses would not change the state.
   */
  lemma DuplicateUpdateIsNoOp<Img>(d: Detail<Img>, newAssets: seq<Asset>, idAt: nat -> int)
    requires AreAssetsEqual(d.assets, newAssets)
    ensures UpdateAssets(d, newAssets, idAt) == d
  {
    AreAssetsEqualIsEquality(d.assets, newAssets);
  }

  // ---------------------------------------------------------------------
  // loadImage over a range of indices
  // ---------------------------------------------------------------------

  /**
   * `r` is `d` after one provider request for each index of `lo..<hi`, in
   * increasing order, each identifier recorded under its index.
   */
  ghost predicate LoadedRange<Img>(d: Detail<Img>, r: Detail<Img>, lo: nat, hi: nat, idAt: nat -> int)
    requires lo <= hi <= |d.assets|
  {
    && r.assets == d.assets && r.images == d.images
    && LoadedCalls(d, r.calls, lo, hi, idAt)
    && LoadedRequests(d, r.requests, lo, hi, idAt)
  }

  /** The calls of `d` followed by the requests for `lo..<hi`. */
  ghost predicate LoadedCalls<Img>(d: Detail<Img>, calls: seq<ProviderCall>, lo: nat, hi: nat, idAt: nat -> int)
    requires lo <= hi <= |d.assets|
  {
    && |calls| == |d.calls| + (hi - lo) && calls[..|d.calls|] == d.calls
    && (forall j :: |d.calls| <= j < |calls| ==>
          calls[j] == Request(lo + j - |d.calls|, d.assets[lo + j - |d.calls|], idAt(j)))
  }

  /** The tracked requests of `d` with those for `lo..<hi` recorded over them. */
  ghost predicate LoadedRequests<Img>(d: Detail<Img>, requests: map<nat, int>, lo: nat, hi: nat, idAt: nat -> int) {
    && (forall k :: k in requests ==> k in d.requests || lo <= k < hi)
    && (forall k :: k in d.requests ==> k in requests)
    && (forall k: nat :: lo <= k < hi ==> k in requests)
    && (forall k :: k in requests ==>
          requests[k] == if lo <= k < hi then idAt(|d.calls| + k - lo) else d.requests[k])
  }

  lemma LoadedCallsStep<Img>(d: Detail<Img>, prev: seq<ProviderCall>, lo: nat, hi: nat, idAt: nat -> int)
    requires lo < hi <= |d.assets|
    requires LoadedCalls(d, prev, lo, hi - 1, idAt)
    ensures LoadedCalls(d, prev + [Request(hi - 1, d.assets[hi - 1], idAt(|prev|))], lo, hi, idAt)
  {
    var calls := prev + [Request(hi - 1, d.assets[hi - 1], idAt(|prev|))];
    assert calls[..|d.calls|] == prev[..|d.calls|];
  }

  lemma LoadedRequestsStep<Img>(d: Detail<Img>, prev: map<nat, int>, lo: nat, hi: nat, idAt: nat -> int)
    requires lo < hi
    requires LoadedRequests(d, prev, lo, hi - 1, idAt)
    ensures LoadedRequests(d, prev[hi - 1 := idAt(|d.calls| + (hi - 1 - lo))], lo, hi, idAt)
  {
  }

  lemma {:induction false} LoadRangeEffect<Img>(d: Detail<Img>, lo: nat, hi: nat, idAt: nat -> int)
    requires lo <= hi <= |d.assets|
    ensures LoadedRange(d, LoadRange(d, lo, hi, idAt), lo, hi, idAt)
    decreases hi
  {
    if hi > lo {
      var prev := LoadRange(d, lo, hi - 1, idAt);
      LoadRangeEffect(d, lo, hi - 1, idAt);
      assert LoadRange(d, lo, hi, idAt) == LoadImage(prev, hi - 1, idAt);
      LoadedCallsStep(d, prev.calls, lo, hi, idAt);
      LoadedRequestsStep(d, prev.requests, lo, hi, idAt);
    } else {
      assert d.calls[..|d.calls|] == d.calls;
    }
  }

  /**
   * `init`: one nil slot per asset of the group (or of `others`) and one
   * request for each of the first `min(30, n)` indices, in order.
   */
  ghost predicate InitialShape<Img>(r: Detail<Img>, assets: seq<Asset>, idAt: nat -> int) {
    && r.assets == assets
    && |r.images| == |assets| && (forall i :: 0 <= i < |r.images| ==> r.images[i].None?)
    && |r.calls| == Min(InitialLoad, |assets|)
    && (forall j :: 0 <= j < |r.calls| ==> r.calls[j] == Request(j, assets[j], idAt(j)))
    && (forall k :: k in r.requests ==> k < |r.calls|)
    && (forall k: nat :: k < |r.calls| ==> k in r.requests)
    && (forall k :: k in r.requests ==> r.requests[k] == idAt(k))
  }

  lemma InitialRequests<G, Img>(groups: map<G, seq<Asset>>, others: seq<Asset>, group: Option<G>, idAt: nat -> int)
    ensures InitialShape<Img>(Initial(groups, others, group, idAt),
                              match group case Some(g) => Lookup(groups, g) case None => others, idAt)
  {
    var assets := match group case Some(g) => Lookup(groups, g) case None => others;
    var d: Detail<Img> := Detail(assets, Nils(|assets|), map[], []);
    var m := Min(InitialLoad, |assets|);
    var r := LoadRange(d, 0, m, idAt);
    assert r == Initial(groups, others, group, idAt);
    LoadRangeEffect(d, 0, m, idAt);
    InitialFromRange(d, r, m, idAt);
  }

  lemma InitialFromRange<Img>(d: Detail<Img>, r: Detail<Img>, m: nat, idAt: nat -> int)
    requires d == Detail(d.assets, Nils(|d.assets|), map[], []) && m == Min(InitialLoad, |d.assets|)
    requires LoadedRange(d, r, 0, m, idAt)
    ensures InitialShape(r, d.assets, idAt)
  {
    CallsFromNone(d, r.calls, m, idAt);
    RequestsFromNone(d, r.requests, m, idAt);
  }

  /** Requests for `0..<m` made before any other call are the first `m` calls. */
  lemma CallsFromNone<Img>(d: Detail<Img>, calls: seq<ProviderCall>, m: nat, idAt: nat -> int)
    requires d.calls == [] && m <= |d.assets|
    requires LoadedCalls(d, calls, 0, m, idAt)
    ensures |calls| == m
    ensures forall j :: 0 <= j < |calls| ==> calls[j] == Request(j, d.assets[j], idAt(j))
  {
    forall j | 0 <= j < |calls| ensures calls[j] == Request(j, d.assets[j], idAt(j)) {
      assert |d.calls| <= j < |calls|;
      assert calls[j] == Request(0 + j - |d.calls|, d.assets[0 + j - |d.calls|], idAt(j));
    }
  }

  /** Requests for `0..<m` with nothing tracked before track exactly `0..<m`, under the call positions. */
  lemma RequestsFromNone<Img>(d: Detail<Img>, requests: map<nat, int>, m: nat, idAt: nat -> int)
    requires d.calls == [] && d.requests == map[]
    requires LoadedRequests(d, requests, 0, m, idAt)
    ensures forall k :: k in requests ==> k < m
    ensures forall k: nat :: k < m ==> k in requests
    ensures forall k :: k in requests ==> requests[k] == idAt(k)
  {
  }

  // ---------------------------------------------------------------------
  // loadImage, cancelImageRequest
  // ---------------------------------------------------------------------

  /**
   * A request followed by its cancellation leaves the index untracked and
   * cancels exactly the identifier that request returned.
   */
  lemma LoadThenCancel<Img>(d: Detail<Img>, index: nat, idAt: nat -> int)
    requires index < |d.assets|
    ensures CancelImageRequest(LoadImage(d, index, idAt), index).requests == d.requests - {index}
    ensures CancelImageRequest(LoadImage(d, index, idAt), index).calls ==
            d.calls + [Request(index, d.assets[index], idAt(|d.calls|)), Cancel(idAt(|d.calls|))]
  {
  }

  /** Loading again replaces the identifier tracked under the index with the newer one. */
  lemma ReloadReplaces<Img>(d: Detail<Img>, index: nat, idAt: nat -> int)
    requires index < |d.assets|
    ensures LoadImage(LoadImage(d, index, idAt), index, idAt).requests == d.requests[index := idAt(|d.calls| + 1)]
    ensures |LoadImage(LoadImage(d, index, idAt), index, idAt).calls| == |d.calls| + 2
  {
  }

  /** `loadImageIfNeeded` issues a request exactly for a slot that exists and is still nil. */
  lemma LoadIfNeededIssues<Img>(d: Detail<Img>, index: nat, idAt: nat -> int)
    ensures LoadImageIfNeeded(d, index, idAt) != d <==>
            index < |d.assets| && index < |d.images| && d.images[index].None?
    ensures LoadImageIfNeeded(d, index, idAt).images == d.images
  {
    var r := LoadImageIfNeeded(d, index, idAt);
    if Needed(d, index) {
      assert |r.calls| == |d.calls| + 1;
    }
  }

  // ---------------------------------------------------------------------
  // updateAssets
  // ---------------------------------------------------------------------

  /** The new list replaces the old one, and every slot both lists still cover is kept. */
  lemma UpdateKeepsSlots<Img>(d: Detail<Img>, newAssets: seq<Asset>, idAt: nat -> int)
    ensures UpdateAssets(d, newAssets, idAt).assets == newAssets
    ensures forall i :: 0 <= i < |d.images| && i < |newAssets| ==>
              i < |UpdateAssets(d, newAssets, idAt).images| && UpdateAssets(d, newAssets, idAt).images[i] == d.images[i]
  {
    if |newAssets| > |d.assets| {
      var d1 := d.(assets := newAssets, images := d.images + Nils(|newAssets| - |d.assets|));
      LoadRangeEffect(d1, |d.assets|, |newAssets|, idAt);
    }
  }

  /** One image slot per asset before an update means one slot per asset after it. */
  lemma UpdateKeepsAlignment<Img>(d: Detail<Img>, newAssets: seq<Asset>, idAt: nat -> int)
    requires |d.images| == |d.assets|
    ensures |UpdateAssets(d, newAssets, idAt).images| == |newAssets|
  {
    if |newAssets| > |d.assets| {
      var d1 := d.(assets := newAssets, images := d.images + Nils(|newAssets| - |d.assets|));
      LoadRangeEffect(d1, |d.assets|, |newAssets|, idAt);
    }
  }

  /** Growth appends nil slots and requests every new index, in order. */
  lemma UpdateGrowthLoadsNew<Img>(d: Detail<Img>, newAssets: seq<Asset>, idAt: nat -> int)
    requires |newAssets| > |d.assets|
    ensures UpdateAssets(d, newAssets, idAt).images == d.images + Nils(|newAssets| - |d.assets|)
    ensures LoadedRange(d.(assets := newAssets, images := d.images + Nils(|newAssets| - |d.assets|)),
                        UpdateAssets(d, newAssets, idAt), |d.assets|, |newAssets|, idAt)
  {
    var d1 := d.(assets := newAssets, images := d.images + Nils(|newAssets| - |d.assets|));
    LoadRangeEffect(d1, |d.assets|, |newAssets|, idAt);
  }

  /**
   * A shrink or an update of the same length issues no request and cancels
   * nothing; a shrink truncates the slots, the same length leaves them alone.
   */
  lemma UpdateWithoutGrowth<Img>(d: Detail<Img>, newAssets: seq<Asset>, idAt: nat -> int)
    requires |newAssets| <= |d.assets|
    ensures UpdateAssets(d, newAssets, idAt).requests == d.requests
    ensures UpdateAssets(d, newAssets, idAt).calls == d.calls
    ensures |newAssets| < |d.assets| ==> UpdateAssets(d, newAssets, idAt).images == d.images[..Min(|newAssets|, |d.images|)]
    ensures |newAssets| == |d.assets| ==> UpdateAssets(d, newAssets, idAt).images == d.images
  {
  }

  // ---------------------------------------------------------------------
  // The delivery closure
  // ---------------------------------------------------------------------

  /**
   * A delivery changes at most its own slot and its own tracking entry: a
   * cancelled one nothing; a final one records the image and stops tracking
   * the index; a degraded one fills only an empty slot.
   */
  lemma DeliverEffect<Img>(d: Detail<Img>, index: nat, img: Option<Img>, isDegraded: bool, isCancelled: bool,
                           r: Detail<Img>)
    requires r == Deliver(d, index, img, isDegraded, isCancelled)
    ensures r.assets == d.assets && r.calls == d.calls && |r.images| == |d.images|
    ensures isCancelled ==> r == d
    ensures forall i :: 0 <= i < |d.images| && i != index ==> r.images[i] == d.images[i]
    ensures !isCancelled && index < |d.images| ==>
              r.images[index] == if !isDegraded || d.images[index].None? then img else d.images[index]
    ensures forall k :: k in r.requests <==> k in d.requests && (k != index || isDegraded || isCancelled)
    ensures forall k :: k in r.requests ==> r.requests[k] == d.requests[k]
  {
  }

  /** A final result overrides an earlier degraded one. */
  lemma FinalAfterDegraded<Img>(d: Detail<Img>, index: nat, low: Option<Img>, high: Option<Img>)
    requires index < |d.images|
    ensures Deliver(Deliver(d, index, low, true, false), index, high, false, false).images[index] == high
    ensures index !in Deliver(Deliver(d, index, low, true, false), index, high, false, false).requests
  {
  }

  /** A degraded result arriving after a non-nil final one does not replace it. */
  lemma DegradedAfterFinal<Img>(d: Detail<Img>, index: nat, low: Option<Img>, high: Option<Img>)
    requires index < |d.images| && high.Some?
    ensures Deliver(Deliver(d, index, high, false, false), index, low, true, false).images[index] == high
  {
  }

  // ---------------------------------------------------------------------
  // Cancelling several requests
  // ---------------------------------------------------------------------

  /** The cancellation list names, position by position, the identifier tracked under each key. */
  lemma {:induction false} CancelCallsAt(order: seq<nat>, requests: map<nat, int>)
    requires forall k :: k in order ==> k in requests
    ensures |CancelCalls(order, requests)| == |order|
    ensures forall j :: 0 <= j < |order| ==> CancelCalls(order, requests)[j] == Cancel(requests[order[j]])
    decreases |order|
  {
    if order != [] {
      CancelCallsAt(order[..|order| - 1], requests);
    }
  }

  /** When `order` enumerates the keys, every tracked identifier is cancelled. */
  lemma CancelCallsCover(order: seq<nat>, keys: set<nat>, requests: map<nat, int>)
    requires Enumerates(order, keys) && keys <= requests.Keys
    ensures forall k :: k in keys ==> Cancel(requests[k]) in CancelCalls(order, requests)
  {
    CancelCallsAt(order, requests);
    forall k | k in keys
      ensures Cancel(requests[k]) in CancelCalls(order, requests)
    {
      var j :| 0 <= j < |order| && order[j] == k;
      assert CancelCalls(order, requests)[j] == Cancel(requests[k]);
    }
  }

  /** `requests` without the keys of `order`. */
  function Without(requests: map<nat, int>, order: seq<nat>): (r: map<nat, int>)
    ensures forall k :: k in r <==> k in requests && k !in order
    ensures forall k :: k in r ==> r[k] == requests[k]
  {
    map k | k in requests && k !in order :: requests[k]
  }

  /**
   * Cancelling distinct tracked indices one by one untracks exactly them and
   * cancels each one's identifier, in the same order; the slots stay.
   */
  lemma {:induction false} CancelEachEffect<Img>(d: Detail<Img>, order: seq<nat>)
    requires forall k :: k in order ==> k in d.requests
    requires forall i, j :: 0 <= i < j < |order| ==> order[i] != order[j]
    ensures CancelEach(d, order).assets == d.assets && CancelEach(d, order).images == d.images
    ensures CancelEach(d, order).requests == Without(d.requests, order)
    ensures CancelEach(d, order).calls == d.calls + CancelCalls(order, d.requests)
    decreases |order|
  {
    if order != [] {
      var n := |order|;
      var front := order[..n - 1];
      var last := order[n - 1];
      CancelEachEffect(d, front);
      var prev := CancelEach(d, front);
      assert last !in front by {
        forall i | 0 <= i < n - 1 ensures front[i] != last {
          assert order[i] != order[n - 1];
        }
      }
      assert last in prev.requests && prev.requests[last] == d.requests[last];
      var r := CancelEach(d, order);
      assert r == CancelImageRequest(prev, last);
      assert r.requests == Without(d.requests, order);
    }
  }

  /**
   * `cancelAllRequests` cancels every tracked identifier, each key once,
   * and tracks nothing afterwards.
   */
  lemma CancelAllCancelsEach(order: seq<nat>, requests: map<nat, int>)
    requires Enumerates(order, requests.Keys)
    ensures |CancelCalls(order, requests)| == |order|
    ensures forall j :: 0 <= j < |order| ==> CancelCalls(order, requests)[j] == Cancel(requests[order[j]])
    ensures forall k :: k in requests ==> Cancel(requests[k]) in CancelCalls(order, requests)
  {
    CancelCallsAt(order, requests);
    CancelCallsCover(order, requests.Keys, requests);
  }

  // ---------------------------------------------------------------------
  // preloadImages
  // ---------------------------------------------------------------------

  /** `index` lies in the closed range `w.start...w.end`. */
  predicate InWindow(w: Window, k: int) {
    w.start <= k <= w.end
  }

  /**
   * The preload window holds exactly the asset indices within `PreloadCount`
   * of the visible range, so every visible asset index is in it.
   */
  lemma PreloadWindowMeaning(visible: seq<int>, count: nat)
    requires visible != []
    ensures var w := PreloadWindow(visible, count);
            && w.start >= 0
            && (forall k: int :: InWindow(w, k) <==>
                  0 <= k < count && MinOf(visible) - PreloadCount <= k <= MaxOf(visible) + PreloadCount)
            && (forall v :: v in visible && 0 <= v < count ==> w.start <= v <= w.end)
  {
  }

  /**
   * The slots `loadImageIfNeeded` loads over `lo..<hi` are exactly the
   * needed slots of that range, in strictly increasing order.
   */
  lemma {:induction false} NeededInMeaning<Img>(d: Detail<Img>, lo: nat, hi: nat)
    ensures forall j :: 0 <= j < |NeededIn(d, lo, hi)| ==>
              lo <= NeededIn(d, lo, hi)[j] < hi && Needed(d, NeededIn(d, lo, hi)[j])
    ensures forall i, j :: 0 <= i < j < |NeededIn(d, lo, hi)| ==> NeededIn(d, lo, hi)[i] < NeededIn(d, lo, hi)[j]
    ensures forall k: nat :: k in NeededIn(d, lo, hi) <==> lo <= k < hi && Needed(d, k)
    decreases hi
  {
    if hi > lo {
      NeededInMeaning(d, lo, hi - 1);
      var n := NeededIn(d, lo, hi - 1);
      if Needed(d, hi - 1) {
        var m := n + [hi - 1];
        assert NeededIn(d, lo, hi) == m;
        forall i, j | 0 <= i < j < |m| ensures m[i] < m[j] {
          if j < |n| {
            assert m[i] == n[i] && m[j] == n[j];
          } else {
            assert m[i] == n[i] && n[i] in n;
          }
        }
      } else {
        assert NeededIn(d, lo, hi) == n + [] == n;
      }
    }
  }

  /** The slots a preload loads lie in its window. */
  lemma NeededInWindow<Img>(d: Detail<Img>, w: Window)
    requires 0 <= w.start <= w.end
    ensures forall k :: k in NeededIn(d, w.start as nat, (w.end + 1) as nat) ==> InWindow(w, k)
  {
    NeededInMeaning(d, w.start as nat, (w.end + 1) as nat);
  }

  /**
   * `r` is `d` after `loadImageIfNeeded` over `lo..<hi`: one provider
   * request per needed slot of that range, in increasing order, each slot
   * tracked under its own request's identifier (replacing an earlier one),
   * and no slot touched.
   */
  ghost predicate LoadedIfNeeded<Img>(d: Detail<Img>, r: Detail<Img>, lo: nat, hi: nat, idAt: nat -> int) {
    && r.assets == d.assets && r.images == d.images
    && NeededCalls(d, r.calls, NeededIn(d, lo, hi), idAt)
    && NeededRequests(d, r.requests, NeededIn(d, lo, hi), idAt)
  }

  /** The calls of `d` followed by one request for each index of `n`, in that order. */
  ghost predicate NeededCalls<Img>(d: Detail<Img>, calls: seq<ProviderCall>, n: seq<nat>, idAt: nat -> int) {
    && |calls| == |d.calls| + |n| && calls[..|d.calls|] == d.calls
    && (forall j :: 0 <= j < |n| ==>
          n[j] < |d.assets| && calls[|d.calls| + j] == Request(n[j], d.assets[n[j]], idAt(|d.calls| + j)))
  }

  /** The tracked requests of `d` with the identifier of the request for `n[j]` recorded under `n[j]`. */
  ghost predicate NeededRequests<Img>(d: Detail<Img>, requests: map<nat, int>, n: seq<nat>, idAt: nat -> int) {
    && (forall k :: k in requests ==> k in d.requests || k in n)
    && (forall k :: k in d.requests ==> k in requests)
    && (forall j :: 0 <= j < |n| ==> n[j] in requests && requests[n[j]] == idAt(|d.calls| + j))
    && (forall k :: k in d.requests && k !in n ==> requests[k] == d.requests[k])
  }

  lemma NeededCallsStep<Img>(d: Detail<Img>, prev: seq<ProviderCall>, n: seq<nat>, k: nat, idAt: nat -> int)
    requires k < |d.assets| && NeededCalls(d, prev, n, idAt)
    ensures NeededCalls(d, prev + [Request(k, d.assets[k], idAt(|prev|))], n + [k], idAt)
  {
    var calls := prev + [Request(k, d.assets[k], idAt(|prev|))];
    assert calls[..|d.calls|] == prev[..|d.calls|];
  }

  lemma NeededRequestsStep<Img>(d: Detail<Img>, prev: map<nat, int>, n: seq<nat>, k: nat, idAt: nat -> int)
    requires k !in n && NeededRequests(d, prev, n, idAt)
    ensures NeededRequests(d, prev[k := idAt(|d.calls| + |n|)], n + [k], idAt)
  {
    var requests := prev[k := idAt(|d.calls| + |n|)];
    forall j | 0 <= j < |n| + 1
      ensures (n + [k])[j] in requests && requests[(n + [k])[j]] == idAt(|d.calls| + j)
    {
      if j < |n| {
        assert (n + [k])[j] == n[j] && n[j] != k;
      }
    }
  }

  /** Loading one more needed slot `k` extends the range's effect by that slot. */
  lemma LoadedIfNeededStep<Img>(d: Detail<Img>, prev: Detail<Img>, n: seq<nat>, k: nat, idAt: nat -> int)
    requires prev.assets == d.assets && prev.images == d.images
    requires NeededCalls(d, prev.calls, n, idAt) && NeededRequests(d, prev.requests, n, idAt)
    requires k < |d.assets| && k !in n
    ensures LoadImage(prev, k, idAt).assets == d.assets && LoadImage(prev, k, idAt).images == d.images
    ensures NeededCalls(d, LoadImage(prev, k, idAt).calls, n + [k], idAt)
    ensures NeededRequests(d, LoadImage(prev, k, idAt).requests, n + [k], idAt)
  {
    NeededCallsStep(d, prev.calls, n, k, idAt);
    NeededRequestsStep(d, prev.requests, n, k, idAt);
  }

  lemma LoadedIfNeededFrom<Img>(d: Detail<Img>, r: Detail<Img>, lo: nat, hi: nat, n: seq<nat>, idAt: nat -> int)
    requires n == NeededIn(d, lo, hi)
    requires r.assets == d.assets && r.images == d.images
    requires NeededCalls(d, r.calls, n, idAt) && NeededRequests(d, r.requests, n, idAt)
    ensures LoadedIfNeeded(d, r, lo, hi, idAt)
  {
  }

  /** One more index of the range, needed or not. */
  lemma LoadIfNeededRangeStep<Img>(d: Detail<Img>, lo: nat, hi: nat, idAt: nat -> int)
    requires lo < hi
    requires LoadedIfNeeded(d, LoadIfNeededRange(d, lo, hi - 1, idAt), lo, hi - 1, idAt)
    ensures LoadedIfNeeded(d, LoadIfNeededRange(d, lo, hi, idAt), lo, hi, idAt)
  {
    var prev := LoadIfNeededRange(d, lo, hi - 1, idAt);
    assert Needed(prev, hi - 1) == Needed(d, hi - 1);
    if Needed(d, hi - 1) {
      LoadNeededStep(d, prev, lo, hi, idAt);
      assert LoadIfNeededRange(d, lo, hi, idAt) == LoadImage(prev, hi - 1, idAt);
    } else {
      assert NeededIn(d, lo, hi) == NeededIn(d, lo, hi - 1) + [] == NeededIn(d, lo, hi - 1);
    }
  }

  /** A needed last slot is appended to the needed slots below it, where it did not occur. */
  lemma NeededInSnoc<Img>(d: Detail<Img>, lo: nat, hi: nat)
    requires lo < hi && Needed(d, hi - 1)
    ensures NeededIn(d, lo, hi) == NeededIn(d, lo, hi - 1) + [hi - 1]
    ensures hi - 1 !in NeededIn(d, lo, hi - 1)
  {
    NeededInMeaning(d, lo, hi - 1);
  }

  lemma LoadNeededStep<Img>(d: Detail<Img>, prev: Detail<Img>, lo: nat, hi: nat, idAt: nat -> int)
    requires lo < hi && Needed(d, hi - 1)
    requires LoadedIfNeeded(d, prev, lo, hi - 1, idAt)
    ensures LoadedIfNeeded(d, LoadImage(prev, hi - 1, idAt), lo, hi, idAt)
  {
    var n := NeededIn(d, lo, hi - 1);
    NeededInSnoc(d, lo, hi);
    LoadedIfNeededStep(d, prev, n, hi - 1, idAt);
    LoadedIfNeededFrom(d, LoadImage(prev, hi - 1, idAt), lo, hi, n + [hi - 1], idAt);
  }

  lemma {:induction false} LoadIfNeededRangeEffect<Img>(d: Detail<Img>, lo: nat, hi: nat, idAt: nat -> int)
    ensures LoadedIfNeeded(d, LoadIfNeededRange(d, lo, hi, idAt), lo, hi, idAt)
    decreases hi
  {
    if hi > lo {
      LoadIfNeededRangeEffect(d, lo, hi - 1, idAt);
      LoadIfNeededRangeStep(d, lo, hi, idAt);
    } else {
      assert d.calls[..|d.calls|] == d.calls;
      LoadedIfNeededFrom(d, LoadIfNeededRange(d, lo, hi, idAt), lo, hi, [], idAt);
    }
  }

  /**
   * A preload over the window `w`: the calls of `d`, then one request per
   * needed slot of the window in increasing order, then one cancel per
   * request tracked outside the window in the order `order` lists them.
   * Afterwards the tracked indices all lie in the window: those tracked
   * before inside it, and the needed slots under their new identifiers;
   * no slot changed.
   */
  ghost predicate PreloadShape<Img>(d: Detail<Img>, r: Detail<Img>, w: Window, order: seq<nat>, idAt: nat -> int)
    requires 0 <= w.start <= w.end
  {
    && r.assets == d.assets && r.images == d.images
    && Enumerates(order, Outside(d.requests, w))
    && PreloadCalls(d, r.calls, NeededIn(d, w.start as nat, (w.end + 1) as nat), order, idAt)
    && PreloadRequests(d, r.requests, w, NeededIn(d, w.start as nat, (w.end + 1) as nat), idAt)
  }

  ghost predicate PreloadCalls<Img>(d: Detail<Img>, calls: seq<ProviderCall>, n: seq<nat>, order: seq<nat>,
                                    idAt: nat -> int) {
    && |d.calls| + |n| <= |calls|
    && NeededCalls(d, calls[..|d.calls| + |n|], n, idAt)
    && (forall k :: k in order ==> k in d.requests)
    && calls[|d.calls| + |n|..] == CancelCalls(order, d.requests)
  }

  ghost predicate PreloadRequests<Img>(d: Detail<Img>, requests: map<nat, int>, w: Window, n: seq<nat>, idAt: nat -> int) {
    && (forall k :: k in requests ==> InWindow(w, k))
    && (forall k :: k in requests ==> k in d.requests || k in n)
    && (forall k :: k in d.requests && InWindow(w, k) ==> k in requests)
    && (forall j :: 0 <= j < |n| ==> n[j] in requests && requests[n[j]] == idAt(|d.calls| + j))
    && (forall k :: k in d.requests && InWindow(w, k) && k !in n ==> requests[k] == d.requests[k])
  }

  /** Two maps that agree on the keys of `order` give the same cancellation list. */
  lemma CancelCallsAgree(order: seq<nat>, a: map<nat, int>, b: map<nat, int>)
    requires forall k :: k in order ==> k in a && k in b && a[k] == b[k]
    ensures CancelCalls(order, a) == CancelCalls(order, b)
  {
    CancelCallsAt(order, a);
    CancelCallsAt(order, b);
  }

  /** The calls of the eviction after the loads. */
  lemma EvictCalls<Img>(d: Detail<Img>, loaded: Detail<Img>, w: Window, order: seq<nat>, idAt: nat -> int)
    requires 0 <= w.start <= w.end
    requires LoadedIfNeeded(d, loaded, w.start as nat, (w.end + 1) as nat, idAt)
    requires Enumerates(order, Outside(loaded.requests, w))
    ensures Outside(loaded.requests, w) == Outside(d.requests, w)
    ensures PreloadCalls(d, CancelEach(loaded, order).calls, NeededIn(d, w.start as nat, (w.end + 1) as nat), order, idAt)
  {
    var n := NeededIn(d, w.start as nat, (w.end + 1) as nat);
    NeededInWindow(d, w);
    forall k | k in order
      ensures k in loaded.requests && k in d.requests && loaded.requests[k] == d.requests[k]
    {
      assert k in Outside(loaded.requests, w);
      assert !InWindow(w, k);
      assert k !in n;
    }
    CancelEachEffect(loaded, order);
    CancelCallsAgree(order, loaded.requests, d.requests);
    var calls := CancelEach(loaded, order).calls;
    assert calls == loaded.calls + CancelCalls(order, d.requests);
    assert calls[..|d.calls| + |n|] == loaded.calls;
    assert calls[|d.calls| + |n|..] == CancelCalls(order, d.requests);
  }

  /** The tracked requests after the eviction. */
  lemma EvictRequests<Img>(d: Detail<Img>, loaded: Detail<Img>, w: Window, order: seq<nat>, idAt: nat -> int)
    requires 0 <= w.start <= w.end
    requires LoadedIfNeeded(d, loaded, w.start as nat, (w.end + 1) as nat, idAt)
    requires Enumerates(order, Outside(loaded.requests, w))
    ensures PreloadRequests(d, CancelEach(loaded, order).requests, w, NeededIn(d, w.start as nat, (w.end + 1) as nat), idAt)
  {
    var n := NeededIn(d, w.start as nat, (w.end + 1) as nat);
    NeededInWindow(d, w);
    assert forall k :: k in order ==> k in loaded.requests;
    CancelEachEffect(loaded, order);
    EvictedRequests(d, loaded.requests, w, n, order, idAt);
  }

  lemma EvictedRequests<Img>(d: Detail<Img>, loaded: map<nat, int>, w: Window, n: seq<nat>, order: seq<nat>,
                             idAt: nat -> int)
    requires NeededRequests(d, loaded, n, idAt)
    requires forall j :: 0 <= j < |n| ==> InWindow(w, n[j])
    requires forall k :: k in order ==> k in Outside(loaded, w)
    requires forall k :: k in Outside(loaded, w) ==> k in order
    ensures PreloadRequests(d, Without(loaded, order), w, n, idAt)
  {
    var r := Without(loaded, order);
    forall k | k in r ensures InWindow(w, k) {
      assert k !in Outside(loaded, w);
    }
    forall j | 0 <= j < |n| ensures n[j] in r && r[n[j]] == idAt(|d.calls| + j) {
      assert n[j] !in Outside(loaded, w);
    }
    forall k | k in d.requests && InWindow(w, k) ensures k in r {
      assert k !in Outside(loaded, w);
    }
  }

  /** Evicting the tracked indices outside the window after the loads gives the preload's promise. */
  lemma EvictEffect<Img>(d: Detail<Img>, loaded: Detail<Img>, w: Window, order: seq<nat>, idAt: nat -> int)
    requires 0 <= w.start <= w.end
    requires LoadedIfNeeded(d, loaded, w.start as nat, (w.end + 1) as nat, idAt)
    requires Enumerates(order, Outside(loaded.requests, w))
    ensures PreloadShape(d, CancelEach(loaded, order), w, order, idAt)
  {
    assert forall k :: k in order ==> k in loaded.requests;
    CancelEachEffect(loaded, order);
    EvictCalls(d, loaded, w, order, idAt);
    EvictRequests(d, loaded, w, order, idAt);
  }

  /**
   * `preloadImages`: the calls, the tracked requests and the slots after a
   * preload are those `PreloadShape` gives, and every identifier tracked
   * outside the window beforehand is cancelled.
   */
  lemma PreloadEffect<Img>(d: Detail<Img>, visible: seq<int>, order: seq<nat>, idAt: nat -> int)
    requires visible != []
    requires PreloadWindow(visible, |d.assets|).start <= PreloadWindow(visible, |d.assets|).end
    requires var w := PreloadWindow(visible, |d.assets|);
             Enumerates(order, Outside(LoadIfNeededRange(d, w.start as nat, (w.end + 1) as nat, idAt).requests, w))
    ensures PreloadWindow(visible, |d.assets|).start >= 0
    ensures PreloadShape(d, Preloaded(d, visible, order, idAt), PreloadWindow(visible, |d.assets|), order, idAt)
    ensures forall k :: k in Outside(d.requests, PreloadWindow(visible, |d.assets|)) ==>
              Cancel(d.requests[k]) in Preloaded(d, visible, order, idAt).calls
  {
    var w := PreloadWindow(visible, |d.assets|);
    var loaded := LoadIfNeededRange(d, w.start as nat, (w.end + 1) as nat, idAt);
    LoadIfNeededRangeEffect(d, w.start as nat, (w.end + 1) as nat, idAt);
    EvictEffect(d, loaded, w, order, idAt);
    var r := Preloaded(d, visible, order, idAt);
    var m := |d.calls| + |NeededIn(d, w.start as nat, (w.end + 1) as nat)|;
    CancelCallsCover(order, Outside(d.requests, w), d.requests);
    forall k | k in Outside(d.requests, w) ensures Cancel(d.requests[k]) in r.calls {
      assert Cancel(d.requests[k]) in r.calls[m..];
    }
  }

  // ---------------------------------------------------------------------
  // startCaching, stopCaching
  // ---------------------------------------------------------------------

  /** The forwarded assets of two index lists are those of each, in order. */
  lemma {:induction false} AssetsAtAppend(a: seq<nat>, b: seq<nat>, assets: seq<Asset>)
    ensures AssetsAt(a + b, assets) == AssetsAt(a, assets) + AssetsAt(b, assets)
    decreases |a|
  {
    if a != [] {
      assert (a + b)[0] == a[0] && (a + b)[1..] == a[1..] + b;
      AssetsAtAppend(a[1..], b, assets);
      var h := if a[0] < |assets| then [assets[a[0]]] else [];
      calc {
        AssetsAt(a + b, assets);
        h + AssetsAt(a[1..] + b, assets);
        h + (AssetsAt(a[1..], assets) + AssetsAt(b, assets));
        (h + AssetsAt(a[1..], assets)) + AssetsAt(b, assets);
        AssetsAt(a, assets) + AssetsAt(b, assets);
      }
    } else {
      assert a + b == b;
    }
  }

  /** Exactly the assets at the in-range indices are forwarded. */
  lemma {:induction false} AssetsAtMembers(indices: seq<nat>, assets: seq<Asset>)
    ensures forall x :: x in AssetsAt(indices, assets) <==>
              exists i :: i in indices && i < |assets| && assets[i] == x
    decreases |indices|
  {
    if indices != [] {
      AssetsAtMembers(indices[1..], assets);
      assert forall i :: i in indices <==> i == indices[0] || i in indices[1..];
    }
  }

  /** With every index in range, the forwarded list is the assets at those indices, position by position. */
  lemma {:induction false} AssetsAtInRange(indices: seq<nat>, assets: seq<Asset>)
    requires forall j :: 0 <= j < |indices| ==> indices[j] < |assets|
    ensures |AssetsAt(indices, assets)| == |indices|
    ensures forall j :: 0 <= j < |indices| ==> AssetsAt(indices, assets)[j] == assets[indices[j]]
    decreases |indices|
  {
    if indices != [] {
      AssetsAtInRange(indices[1..], assets);
    }
  }
}
