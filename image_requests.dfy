/**
 * GroupDetailViewModel: the assets of one photo group, one image slot per
 * asset, the provider requests still tracked per index, and the calls the
 * view model has made to the image provider. Each method is proved against
 * the matching definition of ImageSpec, whose properties ImageProperties
 * proves.
 */
module ImageRequests {
  import opened Optional
  import opened ScanSpec
  import opened ImageSpec

  class GroupDetailViewModel<G(==), Img> {
    var images: seq<Option<Img>>
    var assets: seq<Asset>
    /** `imageRequests`: the provider request identifier tracked per slot index. */
    var imageRequests: map<nat, int>
    /** What has been asked of `PHCachingImageManager`, in order. */
    var calls: seq<ProviderCall>

    const groupName: string
    const group: Option<G>
    /** The identifier the provider hands out for a request made after `n` earlier calls. */
    const requestId: nat -> int

    ghost function State(): Detail<Img>
      reads this
    {
      Detail(assets, images, imageRequests, calls)
    }

    /**
     * `init(scanViewModel:group:groupName:)`, with the scan's `groups` and
     * `others` passed in: the group's assets, one nil slot each, and the
     * initial requests.
     */
    constructor(groups: map<G, seq<Asset>>, others: seq<Asset>, group: Option<G>, groupName: string,
                requestId: nat -> int)
      ensures State() == Initial(groups, others, group, requestId)
      ensures this.group == group && this.groupName == groupName && this.requestId == requestId
    {
      this.group := group;
      this.groupName := groupName;
      this.requestId := requestId;
      var groupAssets := match group case Some(g) => Lookup(groups, g) case None => others;
      assets := groupAssets;
      images := Nils(|groupAssets|);
      imageRequests := map[];
      calls := [];
      new;
      LoadInitialImages();
    }

    /** `updateAssets(_:)` */
    method UpdateAssets(newAssets: seq<Asset>)
      modifies this
      ensures State() == ImageSpec.UpdateAssets(old(State()), newAssets, requestId)
    {
      var oldCount := |assets|;
      assets := newAssets;
      if |newAssets| > oldCount {
        var additionalCount := |newAssets| - oldCount;
        images := images + Nils(additionalCount);
        ghost var grown := State();
        for i := oldCount to |newAssets|
          invariant State() == LoadRange(grown, oldCount, i, requestId)
        {
          LoadImage(i);
        }
      } else if |newAssets| < oldCount {
        images := Prefix(images, |newAssets|);
      }
    }

    /** `loadInitialImages()`: the first `min(30, assets.count)` indices. */
    method LoadInitialImages()
      modifies this
      ensures State() == LoadRange(old(State()), 0, Min(InitialLoad, |old(assets)|), requestId)
    {
      var initialBatchSize := Min(InitialLoad, |assets|);
      for index := 0 to initialBatchSize
        invariant State() == LoadRange(old(State()), 0, index, requestId)
      {
        LoadImage(index);
      }
    }

    /** `loadImageIfNeeded(at:)` */
    method LoadImageIfNeeded(index: nat)
      modifies this
      ensures State() == ImageSpec.LoadImageIfNeeded(old(State()), index, requestId)
    {
      if index < |assets| && index < |images| && images[index].None? {
        LoadImage(index);
      }
    }

    /**
     * `loadImage(at:)`: the request to the provider, then (on the request
     * queue) its identifier recorded under the index.
     */
    method LoadImage(index: nat)
      modifies this
      ensures State() == ImageSpec.LoadImage(old(State()), index, requestId)
    {
      if index >= |assets| {
        return;
      }
      var asset := assets[index];
      var requestID := requestId(|calls|);
      calls := calls + [Request(index, asset, requestID)];
      imageRequests := imageRequests[index := requestID];
    }

    /**
     * The result handler `loadImage(at:)` registers, run for one delivery;
     * `isDegraded` and `isCancelled` are the delivery's info flags (an
     * absent flag is false).
     */
    method DeliverImage(index: nat, img: Option<Img>, isDegraded: bool, isCancelled: bool)
      modifies this
      ensures State() == Deliver(old(State()), index, img, isDegraded, isCancelled)
    {
      if isCancelled {
        return;
      }
      if index < |images| && (!isDegraded || images[index].None?) {
        images := images[index := img];
      }
      if !isDegraded {
        imageRequests := imageRequests - {index};
      }
    }

    /** `cancelImageRequest(at:)` */
    method CancelImageRequest(index: nat)
      modifies this
      ensures State() == ImageSpec.CancelImageRequest(old(State()), index)
    {
      if index in imageRequests {
        var requestID := imageRequests[index];
        calls := calls + [Cancel(requestID)];
        imageRequests := imageRequests - {index};
      }
    }

    /**
     * `cancelAllRequests()`: cancel every tracked identifier, in the
     * dictionary's order (`order`, unspecified), then track nothing.
     */
    method CancelAllRequests() returns (ghost order: seq<nat>)
      modifies this
      ensures Enumerates(order, old(imageRequests).Keys)
      ensures State() == old(State()).(calls := old(calls) + CancelCalls(order, old(imageRequests)), requests := map[])
    {
      var pending := imageRequests.Keys;
      order := [];
      while pending != {}
        invariant pending <= old(imageRequests).Keys
        invariant Enumerates(order, old(imageRequests).Keys - pending)
        invariant State() == old(State()).(calls := old(calls) + CancelCalls(order, old(imageRequests)))
        decreases pending
      {
        var index :| index in pending;
        calls := calls + [Cancel(imageRequests[index])];
        assert (order + [index])[..|order|] == order;
        order := order + [index];
        pending := pending - {index};
      }
      imageRequests := map[];
    }

    /**
     * `preloadImages(visibleIndices:)`: load the window around the visible
     * indices, then cancel the tracked requests outside it (in the
     * dictionary's order, `order`).
     */
    method PreloadImages(visible: seq<int>) returns (ghost order: seq<nat>)
      modifies this
      ensures State() == Preloaded(old(State()), visible, order, requestId)
      ensures visible != [] && PreloadWindow(visible, |old(assets)|).start <= PreloadWindow(visible, |old(assets)|).end ==>
                var w := PreloadWindow(visible, |old(assets)|);
                Enumerates(order, Outside(LoadIfNeededRange(old(State()), w.start as nat, (w.end + 1) as nat, requestId).requests, w))
    {
      order := [];
      if visible == [] {
        return;
      }
      var minIndex := MinOf(visible);
      var maxIndex := MaxOf(visible);
      var preloadStart: nat := if minIndex - PreloadCount >= 0 then minIndex - PreloadCount else 0;
      var preloadEnd := Min(|assets| - 1, maxIndex + PreloadCount);
      if preloadStart > preloadEnd {
        return;
      }
      for index := preloadStart to preloadEnd + 1
        invariant State() == LoadIfNeededRange(old(State()), preloadStart, index, requestId)
      {
        LoadImageIfNeeded(index);
      }
      order := CancelOutside(Window(preloadStart, preloadEnd));
    }

    /** The eviction block of `preloadImages`: cancel every tracked index outside `w`. */
    method CancelOutside(w: Window) returns (ghost order: seq<nat>)
      modifies this
      ensures Enumerates(order, Outside(old(imageRequests), w))
      ensures State() == CancelEach(old(State()), order)
    {
      var indicesToCancel := set k | k in imageRequests && (k < w.start || k > w.end);
      var pending := indicesToCancel;
      order := [];
      while pending != {}
        invariant pending <= indicesToCancel
        invariant Enumerates(order, indicesToCancel - pending)
        invariant State() == CancelEach(old(State()), order)
        decreases pending
      {
        var index :| index in pending;
        if index in imageRequests {
          var requestID := imageRequests[index];
          calls := calls + [Cancel(requestID)];
          imageRequests := imageRequests - {index};
        }
        assert (order + [index])[..|order|] == order;
        order := order + [index];
        pending := pending - {index};
      }
    }

    /** `startCaching(for:)`: hand the in-range assets, in index order, to the provider. */
    method StartCaching(indices: seq<nat>)
      modifies this
      ensures State() == StartCachingResult(old(State()), indices)
    {
      var assetsToCache := AssetsAt(indices, assets);
      calls := calls + [ProviderCall.StartCaching(assetsToCache)];
    }

    /** `stopCaching(for:)` */
    method StopCaching(indices: seq<nat>)
      modifies this
      ensures State() == StopCachingResult(old(State()), indices)
    {
      var assetsToStop := AssetsAt(indices, assets);
      calls := calls + [ProviderCall.StopCaching(assetsToStop)];
    }
  }
}
