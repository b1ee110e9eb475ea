/**
 * ScanViewModel as an object: its published and internal state as fields,
 * `startScan` as a method whose loops follow the source's loops, and
 * `cancelScan`. Each method is proved against the definitions of ScanSpec,
 * so what ScanProperties proves about those holds of the object.
 */
module Scanning {
  import opened Optional
  import opened ScanSpec
  import ScanProperties

  /** `fetch.enumerateObjects` appending every asset whose identifier is not held to `assetsToProcess`. */
  method CollectUnheld(fetch: seq<Asset>, held: set<string>) returns (todo: seq<Asset>)
    ensures todo == Unheld(fetch, held)
  {
    todo := [];
    var i := 0;
    while i < |fetch|
      invariant 0 <= i <= |fetch|
      invariant todo == Unheld(fetch[..i], held)
    {
      assert fetch[..i + 1][..i] == fetch[..i];
      if fetch[i].localIdentifier !in held {
        todo := todo + [fetch[i]];
      }
      i := i + 1;
    }
    assert fetch[..i] == fetch;
  }

  /**
   * The worker's item loop over `batch`, which starts at position `start` of
   * the assets to process: it stops at the first asset at which `isCancelled`
   * reads true, and sends each asset before it to its group or to `others`.
   */
  method ClassifyBatch<G(==)>(batch: seq<Asset>, start: nat, cancelAt: Option<nat>, groupOf: Asset -> Option<G>)
    returns (batchGroups: map<G, seq<Asset>>, batchOthers: seq<Asset>)
    ensures batchGroups == Classify(batch[..Reach(cancelAt, start, |batch|)], groupOf).groups
    ensures batchOthers == Classify(batch[..Reach(cancelAt, start, |batch|)], groupOf).others
  {
    batchGroups, batchOthers := map[], [];
    var i := 0;
    while i < |batch|
      invariant 0 <= i <= Reach(cancelAt, start, |batch|)
      invariant batchGroups == Classify(batch[..i], groupOf).groups
      invariant batchOthers == Classify(batch[..i], groupOf).others
      decreases |batch| - i
    {
      if CancelledBy(cancelAt, start + i) {
        break;
      }
      var asset := batch[i];
      assert batch[..i + 1][..i] == batch[..i];
      match groupOf(asset) {
        case Some(group) =>
          batchGroups := batchGroups[group := Lookup(batchGroups, group) + [asset]];
        case None =>
          batchOthers := batchOthers + [asset];
      }
      i := i + 1;
    }
  }

  /** `for (key, value) in batchGroups { tempGroups[key, default: []].append(contentsOf: value) }` */
  method MergeInto<G(==)>(tempGroups: map<G, seq<Asset>>, batchGroups: map<G, seq<Asset>>)
    returns (merged: map<G, seq<Asset>>)
    ensures merged == Merge(tempGroups, batchGroups)
  {
    merged := tempGroups;
    var pending := batchGroups.Keys;
    while pending != {}
      invariant pending <= batchGroups.Keys
      invariant merged.Keys == tempGroups.Keys + (batchGroups.Keys - pending)
      invariant forall g :: g in merged ==>
                  merged[g] == Lookup(tempGroups, g) + (if g in pending then [] else Lookup(batchGroups, g))
      decreases pending
    {
      var key :| key in pending;
      merged := merged[key := Lookup(merged, key) + batchGroups[key]];
      pending := pending - {key};
    }
    assert merged.Keys == Merge(tempGroups, batchGroups).Keys;
  }

  /**
   * The view model. `progress` is left out: it is `processed / total` as a
   * floating-point number. `saves` records, in order, every snapshot handed
   * to `save()`; writing it to disk is left out.
   */
  class ScanViewModel<G(==)> {
    var groups: map<G, seq<Asset>>
    var others: seq<Asset>
    var processed: int
    var total: int
    var isScanning: bool
    var isCancelled: bool
    var lastUIUpdate: int
    var lastSaveDate: int
    var saves: seq<SavedScanData<G>>

    /** `PhotoGroup.allCases` */
    const allCases: seq<G>
    /** `PhotoGroup.group(for: asset.reliableHash())` */
    const groupOf: Asset -> Option<G>

    /** The observable state as a ScanSpec session. */
    ghost function State(): Session<G>
      reads this
    {
      Session(Acc(groups, others, processed), total, isScanning, isCancelled, lastUIUpdate, lastSaveDate, saves)
    }

    /** `init()`, before the saved data (if any) is loaded; `now` is `Date()`. */
    constructor(allCases: seq<G>, groupOf: Asset -> Option<G>, now: int)
      ensures this.allCases == allCases && this.groupOf == groupOf
      ensures State() == Session(Acc(map[], [], 0), 0, false, false, now, DistantPast, [])
    {
      this.allCases := allCases;
      this.groupOf := groupOf;
      groups, others, processed, total := map[], [], 0, 0;
      isScanning, isCancelled := false, false;
      lastUIUpdate, lastSaveDate := now, DistantPast;
      saves := [];
    }

    /** `save()`: the projection of the published state to `SavedScanData`. */
    method Save()
      modifies this
      ensures saves == old(saves) + [Snapshot(Acc(groups, others, processed), total)]
      ensures groups == old(groups) && others == old(others) && processed == old(processed)
      ensures total == old(total) && isScanning == old(isScanning) && isCancelled == old(isCancelled)
      ensures lastUIUpdate == old(lastUIUpdate) && lastSaveDate == old(lastSaveDate)
    {
      var model := SavedScanData(processed, total, map g | g in groups :: Ids(groups[g]), Ids(others));
      saves := saves + [model];
    }

    /** `cancelScan()` */
    method CancelScan()
      modifies this
      ensures State() == old(State()).(isCancelled := true, isScanning := false)
    {
      isCancelled := true;
      isScanning := false;
    }

    /**
     * `startScan(resetExisting:)` over the fetch result `fetch`, started at
     * `startTime`, with merge `j` at time `clock(j)` and `isCancelled`
     * reading true from position `cancelAt` of the assets to process.
     */
    method StartScan(resetExisting: bool, fetch: seq<Asset>, startTime: int, clock: nat -> int, cancelAt: Option<nat>)
      modifies this
      ensures State() == StartScanResult(old(State()), resetExisting, fetch, startTime, clock, cancelAt, allCases, groupOf)
    {
      ghost var s := State();
      isScanning := true;
      isCancelled := false;
      lastUIUpdate := startTime;
      total := |fetch|;
      if total == 0 {
        isScanning := false;
        ResultOfEmptyFetch(s, resetExisting, fetch, startTime, clock, cancelAt, allCases, groupOf, State());
        return;
      }
      var assetsToProcess := PrepareResume(resetExisting, fetch);
      var base := Acc(groups, others, processed);
      if assetsToProcess == [] {
        isScanning := false;
        ResultOfNothingToDo(s, resetExisting, fetch, startTime, clock, cancelAt, allCases, groupOf, base, State());
        return;
      }
      ghost var s1 := State();
      var temp := RunBatches(assetsToProcess, cancelAt, clock, base);
      ghost var r := Run(temp, State());
      Notify(temp, cancelAt.Some?);
      ResultOfFold(s, resetExisting, fetch, startTime, clock, cancelAt, allCases, groupOf, base, s1, r, State());
    }

    /**
     * The part of `startScan` before the batch loop: reset when asked or when
     * `groups` is empty, count the held identifiers into `processed`, and
     * collect the fetched assets whose identifier is not held.
     */
    method PrepareResume(resetExisting: bool, fetch: seq<Asset>) returns (assetsToProcess: seq<Asset>)
      modifies this
      ensures Acc(groups, others, processed) == Prepared(old(State()).shown, resetExisting, allCases)
      ensures State() == old(State()).(shown := Acc(groups, others, processed))
      ensures assetsToProcess == ToProcess(Acc(groups, others, processed), fetch)
    {
      if resetExisting || groups == map[] {
        groups := EmptyGroups(allCases);
        others := [];
        processed := 0;
      }
      var existingIDs := HeldIds(groups, others);
      processed := |existingIDs|;
      assetsToProcess := CollectUnheld(fetch, existingIDs);
    }

    /**
     * `dispatchGroup.notify`, once every worker has left: unless cancelled,
     * publish the accumulating state `temp` and save it; then clear `isScanning`.
     */
    method Notify(temp: Acc<G>, cancelled: bool)
      modifies this
      ensures State() == if cancelled then old(State()).(isScanning := false, isCancelled := true)
                         else old(State()).(shown := temp, saves := old(saves) + [Snapshot(temp, total)],
                                            isScanning := false)
    {
      if !cancelled {
        groups, others, processed := temp.groups, temp.others, temp.processed;
        Save();
      } else {
        isCancelled := true;
      }
      isScanning := false;
    }

    /**
     * The batch loop of `startScan` from the accumulating state `temp0`
     * (`tempGroups`, `tempOthers`, `currentProcessed`): the k-th value of
     * `stride(from: 0, to: n, by: batchSize)` is `k * batchSize`, and batch `k`
     * is handed to a worker and merged at time `clock(k)`.
     */
    method RunBatches(assetsToProcess: seq<Asset>, cancelAt: Option<nat>, clock: nat -> int, temp0: Acc<G>)
      returns (temp: Acc<G>)
      modifies this
      ensures Run(temp, State())
              == ScanBatches(Run(temp0, old(State())), assetsToProcess, BatchCount(|assetsToProcess|),
                             cancelAt, clock, Worker(groupOf))
    {
      ghost var r0 := Run(temp0, State());
      temp := temp0;
      for k := 0 to BatchCount(|assetsToProcess|)
        invariant Run(temp, State()) == ScanBatches(r0, assetsToProcess, k, cancelAt, clock, Worker(groupOf))
      {
        if CancelledBy(cancelAt, k * BatchSize) {
          ScanBatchesBreak(r0, assetsToProcess, k, cancelAt, clock, Worker(groupOf));
          return;
        }
        temp := DispatchBatch(assetsToProcess, k, cancelAt, clock, temp, r0);
      }
    }

    /**
     * Batch `k` handed to a worker (the `scanQueue.async` closure): its item
     * loop, then its merge at time `clock(k)`.
     */
    method DispatchBatch(assetsToProcess: seq<Asset>, k: nat, cancelAt: Option<nat>, clock: nat -> int,
                         temp: Acc<G>, ghost r0: Run<G>)
      returns (next: Acc<G>)
      modifies this
      requires k < BatchCount(|assetsToProcess|) && !CancelledBy(cancelAt, k * BatchSize)
      requires Run(temp, State()) == ScanBatches(r0, assetsToProcess, k, cancelAt, clock, Worker(groupOf))
      ensures Run(next, State()) == ScanBatches(r0, assetsToProcess, k + 1, cancelAt, clock, Worker(groupOf))
    {
      ghost var prev := Run(temp, State());
      var batchStart := k * BatchSize;
      var batchEnd := Min(batchStart + BatchSize, |assetsToProcess|);
      var batch := assetsToProcess[batchStart..batchEnd];
      var batchGroups, batchOthers := ClassifyBatch(batch, batchStart, cancelAt, groupOf);
      next := MergeBatch(temp, batchGroups, batchOthers, |batch|, clock(k),
                         batch[..Reach(cancelAt, batchStart, |batch|)]);
      ScanBatchesNext(r0, assetsToProcess, k, cancelAt, clock, Worker(groupOf), prev, batch, Run(next, State()));
    }

    /**
     * The `updateQueue.sync` block of a worker at time `now`: merge the
     * batch-local result of `items` and count `count` assets, then publish
     * and save as the throttle decides.
     */
    method MergeBatch(temp: Acc<G>, batchGroups: map<G, seq<Asset>>, batchOthers: seq<Asset>, count: nat, now: int,
                      ghost items: seq<Asset>)
      returns (next: Acc<G>)
      modifies this
      requires batchGroups == Classify(items, groupOf).groups && batchOthers == Classify(items, groupOf).others
      ensures Run(next, State()) == MergeStep(Run(temp, old(State())), items, count, now, Worker(groupOf))
    {
      var tempGroups := MergeInto(temp.groups, batchGroups);
      next := Acc(tempGroups, temp.others + batchOthers, temp.processed + count);
      if now - lastUIUpdate >= UIUpdateInterval {
        lastUIUpdate := now;
        groups, others, processed := next.groups, next.others, next.processed;
        if now - lastSaveDate >= SaveInterval {
          lastSaveDate := now;
          Save();
        }
      }
    }
  }

  /** One more batch the loop reaches: the fold takes one `MergeStep`. */
  lemma ScanBatchesNext<G>(r0: Run<G>, todo: seq<Asset>, k: nat, cancelAt: Option<nat>,
                           clock: nat -> int, absorb: Absorber<G>, prev: Run<G>, batch: seq<Asset>, next: Run<G>)
    requires k < BatchCount(|todo|) && !CancelledBy(cancelAt, k * BatchSize)
    requires prev == ScanBatches(r0, todo, k, cancelAt, clock, absorb)
    requires batch == todo[k * BatchSize .. Min(k * BatchSize + BatchSize, |todo|)]
    requires next == MergeStep(prev, batch[..Reach(cancelAt, k * BatchSize, |batch|)], |batch|, clock(k), absorb)
    ensures next == ScanBatches(r0, todo, k + 1, cancelAt, clock, absorb)
  {
    assert batch == Batch(todo, k);
  }

  /** The `break`: once cancelled at a batch start, the fold is done. */
  lemma ScanBatchesBreak<G>(r0: Run<G>, todo: seq<Asset>, k: nat, cancelAt: Option<nat>,
                            clock: nat -> int, absorb: Absorber<G>)
    requires k <= BatchCount(|todo|) && CancelledBy(cancelAt, k * BatchSize)
    ensures ScanBatches(r0, todo, BatchCount(|todo|), cancelAt, clock, absorb)
            == ScanBatches(r0, todo, k, cancelAt, clock, absorb)
  {
    ScanProperties.ScanBatchesStable(r0, todo, k, BatchCount(|todo|), cancelAt, clock, absorb);
  }

  /** `guard total > 0`: the scan only sets `total`, the flags and the update time. */
  lemma ResultOfEmptyFetch<G>(s: Session<G>, resetExisting: bool, fetch: seq<Asset>, startTime: int,
                                  clock: nat -> int, cancelAt: Option<nat>, allCases: seq<G>,
                                  groupOf: Asset -> Option<G>, final: Session<G>)
    requires |fetch| == 0 && final == Started(s, fetch, startTime).(isScanning := false)
    ensures final == StartScanResult(s, resetExisting, fetch, startTime, clock, cancelAt, allCases, groupOf)
  {
  }

  /** `guard !assetsToProcess.isEmpty`: the prepared state is published, nothing is saved. */
  lemma ResultOfNothingToDo<G>(s: Session<G>, resetExisting: bool, fetch: seq<Asset>, startTime: int,
                                   clock: nat -> int, cancelAt: Option<nat>, allCases: seq<G>,
                                   groupOf: Asset -> Option<G>, base: Acc<G>, final: Session<G>)
    requires |fetch| > 0 && base == Prepared(s.shown, resetExisting, allCases) && ToProcess(base, fetch) == []
    requires final == Started(s, fetch, startTime).(shown := base, isScanning := false)
    ensures final == StartScanResult(s, resetExisting, fetch, startTime, clock, cancelAt, allCases, groupOf)
  {
  }

  /** `dispatchGroup.notify`: the fold's result, published and saved unless cancelled. */
  lemma ResultOfFold<G>(s: Session<G>, resetExisting: bool, fetch: seq<Asset>, startTime: int,
                            clock: nat -> int, cancelAt: Option<nat>, allCases: seq<G>,
                            groupOf: Asset -> Option<G>, base: Acc<G>, s1: Session<G>, r: Run<G>, final: Session<G>)
    requires |fetch| > 0 && base == Prepared(s.shown, resetExisting, allCases) && ToProcess(base, fetch) != []
    requires s1 == Started(s, fetch, startTime).(shown := base)
    requires r == ScanBatches(Run(base, s1), ToProcess(base, fetch), BatchCount(|ToProcess(base, fetch)|),
                              cancelAt, clock, Worker(groupOf))
    requires final == if cancelAt.None?
                      then r.session.(shown := r.temp, saves := r.session.saves + [Snapshot(r.temp, r.session.total)],
                                      isScanning := false)
                      else r.session.(isScanning := false, isCancelled := true)
    ensures final == StartScanResult(s, resetExisting, fetch, startTime, clock, cancelAt, allCases, groupOf)
  {
    ScanProperties.ScanBatchesPublished(Run(base, s1), ToProcess(base, fetch), BatchCount(|ToProcess(base, fetch)|),
                                        cancelAt, clock, Worker(groupOf));
    assert r == ScanFold(s, resetExisting, fetch, startTime, clock, cancelAt, allCases, groupOf);
  }
}
