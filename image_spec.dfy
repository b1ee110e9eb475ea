/**
 * GroupDetailViewModel's image bookkeeping as pure definitions over its
 * observable state: the asset list, the image slots, the tracked request
 * identifiers, and the calls made to the image provider
 * (`PHCachingImageManager`). Every request queue block, delivery and main
 * queue hop is one atomic step, applied in the order the calls are made.
 */
module ImageSpec {
  import opened Optional
  import opened ScanSpec

  /** `initialBatchSize`'s bound in `loadInitialImages`. */
  const InitialLoad: nat := 30
  /** `preloadCount` */
  const PreloadCount: nat := 10

  /** A call the view model makes to the image provider. */
  datatype ProviderCall =
    | Request(index: nat, asset: Asset, id: int)
    | Cancel(id: int)
    | StartCaching(assets: seq<Asset>)
    | StopCaching(assets: seq<Asset>)

  /**
   * `assets`, `images`, `imageRequests` and the provider calls so far. `Img`
   * stands for `UIImage`; a slot is `None` while it holds `nil`.
   */
  datatype Detail<Img> = Detail(assets: seq<Asset>, images: seq<Option<Img>>,
                                requests: map<nat, int>, calls: seq<ProviderCall>)

  /** `Array(repeating: nil, count: n)` */
  function Nils<Img>(n: nat): (r: seq<Option<Img>>)
    ensures |r| == n && forall i :: 0 <= i < n ==> r[i] == None
  {
    seq(n, _ => None)
  }

  /**
   * `areAssetsEqual`: the lengths agree and so do the identifier lists.
   */
  function AreAssetsEqual(old_: seq<Asset>, new_: seq<Asset>): bool {
    |old_| == |new_| && Ids(old_) == Ids(new_)
  }

  /**
   * `loadImage(at:)`: nothing for an index past the assets; otherwise one
   * request to the provider, whose identifier `idAt(|calls|)` is recorded
   * under the index, replacing any earlier one.
   */
  function LoadImage<Img>(d: Detail<Img>, index: nat, idAt: nat -> int): Detail<Img> {
    if index >= |d.assets| then d
    else
      var id := idAt(|d.calls|);
      d.(calls := d.calls + [Request(index, d.assets[index], id)], requests := d.requests[index := id])
  }

  /** `for index in lo..<hi { loadImage(at: index) }` */
  function LoadRange<Img>(d: Detail<Img>, lo: nat, hi: nat, idAt: nat -> int): Detail<Img>
    decreases hi
  {
    if hi <= lo then d else LoadImage(LoadRange(d, lo, hi - 1, idAt), hi - 1, idAt)
  }

  /** `loadImageIfNeeded(at:)`: load only a slot that exists on both sides and is still nil. */
  function LoadImageIfNeeded<Img>(d: Detail<Img>, index: nat, idAt: nat -> int): Detail<Img> {
    if Needed(d, index) then LoadImage(d, index, idAt) else d
  }

  /** `for index in lo..<hi { loadImageIfNeeded(at: index) }` */
  function LoadIfNeededRange<Img>(d: Detail<Img>, lo: nat, hi: nat, idAt: nat -> int): Detail<Img>
    decreases hi
  {
    if hi <= lo then d else LoadImageIfNeeded(LoadIfNeededRange(d, lo, hi - 1, idAt), hi - 1, idAt)
  }

  /** `init`: the group's list, or `others`, with one nil slot per asset, then `loadInitialImages`. */
  function Initial<G, Img>(groups: map<G, seq<Asset>>, others: seq<Asset>, group: Option<G>,
                           idAt: nat -> int): Detail<Img>
  {
    var assets := match group case Some(g) => Lookup(groups, g) case None => others;
    var d := Detail(assets, Nils(|assets|), map[], []);
    LoadRange(d, 0, Min(InitialLoad, |assets|), idAt)
  }

  /** `Array(images.prefix(n))` */
  function Prefix<Img>(images: seq<Option<Img>>, n: nat): seq<Option<Img>> {
    images[..Min(n, |images|)]
  }

  /**
   * `updateAssets`: replace `assets`; on growth append nil slots and load
   * every new index; on shrink truncate `images`; `imageRequests` is not
   * touched by a shrink.
   */
  function UpdateAssets<Img>(d: Detail<Img>, newAssets: seq<Asset>, idAt: nat -> int): Detail<Img> {
    var oldCount := |d.assets|;
    var d1 := d.(assets := newAssets);
    if |newAssets| > oldCount then
      LoadRange(d1.(images := d.images + Nils(|newAssets| - oldCount)), oldCount, |newAssets|, idAt)
    else if |newAssets| < oldCount then d1.(images := Prefix(d.images, |newAssets|))
    else d1
  }

  /**
   * The delivery closure of the request for `index`: a cancelled delivery
   * changes nothing; otherwise the slot (when it exists) takes `img` unless
   * the result is degraded and the slot is already filled, and a final
   * (non-degraded) result stops tracking the index.
   */
  function Deliver<Img>(d: Detail<Img>, index: nat, img: Option<Img>, isDegraded: bool, isCancelled: bool): Detail<Img> {
    if isCancelled then d
    else
      var images := if index < |d.images| && (!isDegraded || d.images[index].None?)
                    then d.images[index := img] else d.images;
      var requests := if !isDegraded then d.requests - {index} else d.requests;
      d.(images := images, requests := requests)
  }

  /** `cancelImageRequest(at:)` */
  function CancelImageRequest<Img>(d: Detail<Img>, index: nat): Detail<Img> {
    if index in d.requests then d.(calls := d.calls + [Cancel(d.requests[index])], requests := d.requests - {index})
    else d
  }

  /**
   * `cancelImageRequest(at:)` for each index of `order` in turn; the
   * eviction loop of `preloadImages` runs the same body for each index.
   */
  function CancelEach<Img>(d: Detail<Img>, order: seq<nat>): Detail<Img>
    decreases |order|
  {
    if order == [] then d else CancelImageRequest(CancelEach(d, order[..|order| - 1]), order[|order| - 1])
  }

  /** The provider calls that cancel the requests tracked under `keys`, in that order. */
  function CancelCalls(keys: seq<nat>, requests: map<nat, int>): seq<ProviderCall>
    requires forall k :: k in keys ==> k in requests
    decreases |keys|
  {
    if keys == [] then [] else CancelCalls(keys[..|keys| - 1], requests) + [Cancel(requests[keys[|keys| - 1]])]
  }

  /** `order` lists every element of `keys` exactly once. */
  ghost predicate Enumerates(order: seq<nat>, keys: set<nat>) {
    && (forall i, j :: 0 <= i < j < |order| ==> order[i] != order[j])
    && (forall k :: k in order <==> k in keys)
  }

  /** The smallest element of a non-empty list (`visibleIndices.min()`). */
  function MinOf(s: seq<int>): (m: int)
    requires s != []
    ensures m in s && forall x :: x in s ==> m <= x
    decreases |s|
  {
    if |s| == 1 then s[0]
    else
      var t := MinOf(s[1..]);
      assert forall x :: x in s ==> x == s[0] || x in s[1..];
      if s[0] <= t then s[0] else t
  }

  /** The largest element of a non-empty list (`visibleIndices.max()`). */
  function MaxOf(s: seq<int>): (m: int)
    requires s != []
    ensures m in s && forall x :: x in s ==> x <= m
    decreases |s|
  {
    if |s| == 1 then s[0]
    else
      var t := MaxOf(s[1..]);
      assert forall x :: x in s ==> x == s[0] || x in s[1..];
      if s[0] >= t then s[0] else t
  }

  /** The preload window `[preloadStart, preloadEnd]` around `visible` among `count` assets. */
  datatype Window = Window(start: int, end: int)

  function PreloadWindow(visible: seq<int>, count: nat): Window
    requires visible != []
  {
    Window(if MinOf(visible) - PreloadCount >= 0 then MinOf(visible) - PreloadCount else 0,
           Min(count - 1, MaxOf(visible) + PreloadCount))
  }

  /** The tracked indices outside the window, which `preloadImages` cancels. */
  function Outside(requests: map<nat, int>, w: Window): set<nat> {
    set k | k in requests && (k < w.start || k > w.end)
  }

  /** A slot `loadImageIfNeeded` would load. */
  predicate Needed<Img>(d: Detail<Img>, index: nat) {
    index < |d.assets| && index < |d.images| && d.images[index].None?
  }

  /** The slots of `lo..<hi` that `loadImageIfNeeded` loads, in increasing order. */
  function NeededIn<Img>(d: Detail<Img>, lo: nat, hi: nat): seq<nat>
    decreases hi
  {
    if hi <= lo then [] else NeededIn(d, lo, hi - 1) + if Needed(d, hi - 1) then [hi - 1] else []
  }

  /**
   * `preloadImages(visibleIndices:)`: nothing for an empty list or an empty
   * window; otherwise `loadImageIfNeeded` for every index of the window,
   * then the cancellation of the tracked indices outside it, in `order`.
   */
  function Preloaded<Img>(d: Detail<Img>, visible: seq<int>, order: seq<nat>, idAt: nat -> int): Detail<Img> {
    if visible == [] then d
    else
      var w := PreloadWindow(visible, |d.assets|);
      if w.start > w.end then d
      else CancelEach(LoadIfNeededRange(d, w.start as nat, (w.end + 1) as nat, idAt), order)
  }

  /** `indices.compactMap { index < assets.count ? assets[index] : nil }` */
  function AssetsAt(indices: seq<nat>, assets: seq<Asset>): seq<Asset>
    decreases |indices|
  {
    if indices == [] then []
    else (if indices[0] < |assets| then [assets[indices[0]]] else []) + AssetsAt(indices[1..], assets)
  }

  /** `startCaching(for:)` */
  function StartCachingResult<Img>(d: Detail<Img>, indices: seq<nat>): Detail<Img> {
    d.(calls := d.calls + [StartCaching(AssetsAt(indices, d.assets))])
  }

  /** `stopCaching(for:)` */
  function StopCachingResult<Img>(d: Detail<Img>, indices: seq<nat>): Detail<Img> {
    d.(calls := d.calls + [StopCaching(AssetsAt(indices, d.assets))])
  }
}
