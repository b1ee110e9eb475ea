/**
 * The scan of ScanViewModel.startScan as pure definitions: the resume filter,
 * the batch partition, the per-batch classification, the merge into the
 * accumulating state, the publish/save throttle, the persisted projection,
 * and the whole scan as a function of the observable state before it.
 *
 * Concurrency is removed: batches are merged one after the other in batch
 * order, which is one of the interleavings the concurrent queue allows.
 * `isCancelled` becomes the input `cancelAt`: `Some(c)` means the flag reads
 * true from the c-th asset to process onwards, `None` that it never does.
 * Timestamps are integer milliseconds.
 */
module ScanSpec {
  import opened Optional

  /** A photo-library asset, reduced to its local identifier. */
  datatype Asset = Asset(localIdentifier: string)

  /** `batchSize` */
  const BatchSize: nat := 100
  /** `uiUpdateInterval` (0.1 s) in milliseconds. */
  const UIUpdateInterval: int := 100
  /** `saveInterval` (1.0 s) in milliseconds. */
  const SaveInterval: int := 1000
  /** `Date.distantPast` (1 January 0001) in milliseconds from the 2001 reference date. */
  const DistantPast: int := -63114076800000

  function Min(a: int, b: int): int { if a <= b then a else b }

  /** `dict[key] ?? []` */
  function Lookup<G>(m: map<G, seq<Asset>>, g: G): seq<Asset> {
    if g in m then m[g] else []
  }

  /** `assets.map { $0.localIdentifier }` */
  function Ids(s: seq<Asset>): (r: seq<string>)
    ensures |r| == |s|
    ensures forall i :: 0 <= i < |s| ==> r[i] == s[i].localIdentifier
  {
    if s == [] then [] else [s[0].localIdentifier] + Ids(s[1..])
  }

  /** The identifiers of a sequence of assets, as a set. */
  function IdSet(s: seq<Asset>): set<string> {
    set a | a in s :: a.localIdentifier
  }

  /** No identifier occurs twice (true of a photo-library fetch result). */
  predicate DistinctIds(s: seq<Asset>) {
    forall i, j :: 0 <= i < j < |s| ==> s[i].localIdentifier != s[j].localIdentifier
  }

  /** The cases of `PhotoGroup` are pairwise distinct. */
  predicate DistinctCases<G(==)>(allCases: seq<G>) {
    forall i, j :: 0 <= i < j < |allCases| ==> allCases[i] != allCases[j]
  }

  /** Every group the classifier returns is one of `PhotoGroup.allCases`. */
  ghost predicate Closed<G>(groupOf: Asset -> Option<G>, allCases: seq<G>) {
    forall a :: groupOf(a).Some? ==> groupOf(a).value in allCases
  }

  /** `existingIDs`: every identifier held in some group or in `others`. */
  function HeldIds<G>(groups: map<G, seq<Asset>>, others: seq<Asset>): set<string> {
    (set g, a | g in groups && a in groups[g] :: a.localIdentifier) + IdSet(others)
  }

  /** `assetsToProcess`: the fetched assets whose identifier is not held, in fetch order. */
  function Unheld(fetch: seq<Asset>, held: set<string>): seq<Asset>
    decreases |fetch|
  {
    if fetch == [] then []
    else
      var rest := Unheld(fetch[..|fetch| - 1], held);
      if fetch[|fetch| - 1].localIdentifier in held then rest else rest + [fetch[|fetch| - 1]]
  }

  // ---------------------------------------------------------------- batches

  /** The number of values `stride(from: 0, to: n, by: batchSize)` produces. */
  function BatchCount(n: nat): nat {
    (n + BatchSize - 1) / BatchSize
  }

  /** `assetsToProcess[batchStart..<batchEnd]` for the k-th stride value. */
  function Batch(s: seq<Asset>, k: nat): seq<Asset> {
    s[Min(k * BatchSize, |s|) .. Min(k * BatchSize + BatchSize, |s|)]
  }

  /** All the batches, in stride order. */
  function Batches(s: seq<Asset>): seq<seq<Asset>> {
    seq(BatchCount(|s|), k requires 0 <= k < BatchCount(|s|) => Batch(s, k))
  }

  function Flatten(ss: seq<seq<Asset>>): seq<Asset>
    decreases |ss|
  {
    if ss == [] then [] else Flatten(ss[..|ss| - 1]) + ss[|ss| - 1]
  }

  // --------------------------------------------------------- classification

  /** The assets of `items`, in order, that `groupOf` sends to `o` (`None` is `others`). */
  function Select<G(==)>(items: seq<Asset>, groupOf: Asset -> Option<G>, o: Option<G>): seq<Asset>
    decreases |items|
  {
    if items == [] then []
    else (if groupOf(items[0]) == o then [items[0]] else []) + Select(items[1..], groupOf, o)
  }

  /** A batch-local result: `batchGroups` and `batchOthers`. */
  datatype Delta<G> = Delta(groups: map<G, seq<Asset>>, others: seq<Asset>)

  /**
   * The batch-local result after the item loop has classified `items`, one
   * asset at a time; `groupOf(a)` stands for `PhotoGroup.group(for: a.reliableHash())`.
   */
  function Classify<G(==)>(items: seq<Asset>, groupOf: Asset -> Option<G>): Delta<G>
    decreases |items|
  {
    if items == [] then Delta(map[], [])
    else
      var d := Classify(items[..|items| - 1], groupOf);
      var a := items[|items| - 1];
      match groupOf(a)
      case Some(g) => Delta(d.groups[g := Lookup(d.groups, g) + [a]], d.others)
      case None => Delta(d.groups, d.others + [a])
  }

  /** `tempGroups[key, default: []].append(contentsOf: value)` for every entry of `d`. */
  function Merge<G(==)>(m: map<G, seq<Asset>>, d: map<G, seq<Asset>>): map<G, seq<Asset>> {
    map g | g in m.Keys + d.Keys :: Lookup(m, g) + Lookup(d, g)
  }

  // --------------------------------------------------------------- throttle

  datatype Decision = Decision(publish: bool, save: bool)

  /**
   * The decision taken inside a merge at time `now`: publish when at least
   * `uiUpdateInterval` has passed since the last publish, and, only inside a
   * publish, save when at least `saveInterval` has passed since the last save.
   */
  function Throttle(now: int, lastUIUpdate: int, lastSaveDate: int): (d: Decision)
    ensures d.save ==> d.publish
    ensures d.publish <==> now - lastUIUpdate >= UIUpdateInterval
    ensures d.save <==> d.publish && now - lastSaveDate >= SaveInterval
  {
    var publish := now - lastUIUpdate >= UIUpdateInterval;
    Decision(publish, publish && now - lastSaveDate >= SaveInterval)
  }

  /**
   * A throttle with interval `iv` that last fired at `last`, run over the
   * event times `ts` in order: an event fires when at least `iv` has passed
   * since the latest firing. The result is the times at which it fired.
   */
  function Thin(ts: seq<int>, last: int, iv: int): seq<int>
    decreases |ts|
  {
    if ts == [] then []
    else
      var fired := Thin(ts[..|ts| - 1], last, iv);
      if ts[|ts| - 1] - Latest(fired, last) >= iv then fired + [ts[|ts| - 1]] else fired
  }

  /** The latest firing time, or `last` when there was none. */
  function Latest(fired: seq<int>, last: int): int {
    if fired == [] then last else fired[|fired| - 1]
  }

  // ------------------------------------------------------------------ state

  /** Groups, others and the processed count: the accumulating or the published state. */
  datatype Acc<G> = Acc(groups: map<G, seq<Asset>>, others: seq<Asset>, processed: int)

  /** `SavedScanData`: the persisted projection, assets reduced to identifier strings. */
  datatype SavedScanData<G> = SavedScanData(processed: int, total: int,
                                            groups: map<G, seq<string>>, others: seq<string>)

  /** The `SavedScanData` that `save()` builds from the published state. */
  function Snapshot<G>(shown: Acc<G>, total: int): SavedScanData<G> {
    SavedScanData(shown.processed, total,
                  map g | g in shown.groups :: Ids(shown.groups[g]), Ids(shown.others))
  }

  /** Every identifier a saved snapshot mentions. */
  function SavedIds<G>(d: SavedScanData<G>): set<string> {
    (set g, id | g in d.groups && id in d.groups[g] :: id) + (set id | id in d.others)
  }

  /**
   * The observable state of a ScanViewModel (`progress` is left out): the
   * published groups/others/processed, `total`, the two flags, the two
   * throttle timestamps and the snapshots handed to `save()` so far.
   */
  datatype Session<G> = Session(shown: Acc<G>, total: int, isScanning: bool, isCancelled: bool,
                                lastUIUpdate: int, lastSaveDate: int,
                                saves: seq<SavedScanData<G>>)

  /** The state between two merges: `tempGroups`/`tempOthers`/`currentProcessed` and the session. */
  datatype Run<G> = Run(temp: Acc<G>, session: Session<G>)

  // ----------------------------------------------------------- cancellation

  /** `isCancelled` reads true when the asset at position `pos` is reached. */
  predicate CancelledBy(cancelAt: Option<nat>, pos: nat) {
    cancelAt.Some? && cancelAt.value <= pos
  }

  /** How many assets of a batch of `len` starting at `start` the item loop classifies. */
  function Reach(cancelAt: Option<nat>, start: nat, len: nat): (r: nat)
    ensures r <= len
  {
    match cancelAt
    case None => len
    case Some(c) => if c <= start then 0 else Min(len, c - start)
  }

  /** How many of `n` assets to process are classified before cancellation. */
  function Limit(cancelAt: Option<nat>, n: nat): nat {
    match cancelAt
    case None => n
    case Some(c) => Min(c, n)
  }

  // ------------------------------------------------------------------- scan

  /**
   * The `updateQueue.sync` block's first half: fold the batch-local result of
   * `items` (the assets the item loop reached) into the accumulating state and
   * count `count` assets (the whole batch).
   */
  function Absorb<G(==)>(temp: Acc<G>, items: seq<Asset>, count: nat, groupOf: Asset -> Option<G>): Acc<G> {
    var d := Classify(items, groupOf);
    Acc(Merge(temp.groups, d.groups), temp.others + d.others, temp.processed + count)
  }

  /** Its second half: the throttle at time `now`, publishing `temp` and handing it to `save()`. */
  function Publish<G>(s: Session<G>, temp: Acc<G>, now: int): Session<G> {
    var t := Throttle(now, s.lastUIUpdate, s.lastSaveDate);
    if !t.publish then s
    else if !t.save then s.(shown := temp, lastUIUpdate := now)
    else s.(shown := temp, lastUIUpdate := now, lastSaveDate := now,
            saves := s.saves + [Snapshot(temp, s.total)])
  }

  /**
   * What one worker contributes: the batch's classified assets folded into the
   * accumulating state with `count` assets counted. The scan passes
   * `Worker(groupOf)`; the fold below takes it as a parameter.
   */
  type Absorber<!G> = (Acc<G>, seq<Asset>, nat) -> Acc<G>

  function Worker<G(==)>(groupOf: Asset -> Option<G>): Absorber<G> {
    (temp: Acc<G>, items: seq<Asset>, count: nat) => Absorb(temp, items, count, groupOf)
  }

  /** One merge at time `now`. */
  function MergeStep<G>(r: Run<G>, items: seq<Asset>, count: nat, now: int, absorb: Absorber<G>): Run<G> {
    var temp := absorb(r.temp, items, count);
    Run(temp, Publish(r.session, temp, now))
  }

  /**
   * The state after the first `k` batches of `todo`: batch j is skipped once
   * `isCancelled` reads true at its start, otherwise its first `Reach` assets
   * are classified and it merges at time `clock(j)`.
   */
  function ScanBatches<G>(r0: Run<G>, todo: seq<Asset>, k: nat, cancelAt: Option<nat>,
                          clock: nat -> int, absorb: Absorber<G>): Run<G>
    decreases k
  {
    if k == 0 then r0
    else
      var r := ScanBatches(r0, todo, k - 1, cancelAt, clock, absorb);
      var start := (k - 1) * BatchSize;
      if CancelledBy(cancelAt, start) then r
      else
        var batch := Batch(todo, k - 1);
        MergeStep(r, batch[..Reach(cancelAt, start, |batch|)], |batch|, clock(k - 1), absorb)
  }

  /** The times of the merges among the first `k` batches: every batch that cancellation did not skip. */
  function MergeTimes(k: nat, cancelAt: Option<nat>, clock: nat -> int): seq<int>
    decreases k
  {
    if k == 0 then []
    else MergeTimes(k - 1, cancelAt, clock) + if CancelledBy(cancelAt, (k - 1) * BatchSize) then [] else [clock(k - 1)]
  }

  /** When the first `k` batches publish to the UI: the merges, thinned to one per `uiUpdateInterval`. */
  function PublishTimes<G>(r0: Run<G>, k: nat, cancelAt: Option<nat>, clock: nat -> int): seq<int> {
    Thin(MergeTimes(k, cancelAt, clock), r0.session.lastUIUpdate, UIUpdateInterval)
  }

  /** When the first `k` batches call `save()`: the publishes, thinned to one per `saveInterval`. */
  function SaveTimes<G>(r0: Run<G>, k: nat, cancelAt: Option<nat>, clock: nat -> int): seq<int> {
    Thin(PublishTimes(r0, k, cancelAt, clock), r0.session.lastSaveDate, SaveInterval)
  }

  /** `PhotoGroup.allCases.map { ($0, []) }` as a dictionary. */
  function EmptyGroups<G(==)>(allCases: seq<G>): map<G, seq<Asset>> {
    map g | g in allCases :: []
  }

  /** The state a scan starts from: reset when asked or when `groups` is empty, then `processed = existingIDs.count`. */
  function Prepared<G(==)>(shown: Acc<G>, resetExisting: bool, allCases: seq<G>): Acc<G> {
    var base := if resetExisting || shown.groups == map[] then Acc(EmptyGroups(allCases), [], 0) else shown;
    base.(processed := |HeldIds(base.groups, base.others)|)
  }

  /** `assetsToProcess` for a scan that starts from `base`. */
  function ToProcess<G>(base: Acc<G>, fetch: seq<Asset>): seq<Asset> {
    Unheld(fetch, HeldIds(base.groups, base.others))
  }

  /** The session once `startScan` has set the flags, `total` and the first update time. */
  function Started<G>(s: Session<G>, fetch: seq<Asset>, startTime: int): Session<G> {
    s.(total := |fetch|, isScanning := true, isCancelled := false, lastUIUpdate := startTime)
  }

  /** The batch loop of a scan with work to do, from the prepared state, published first. */
  function ScanFold<G(==)>(s: Session<G>, resetExisting: bool, fetch: seq<Asset>,
                           startTime: int, clock: nat -> int, cancelAt: Option<nat>,
                           allCases: seq<G>, groupOf: Asset -> Option<G>): Run<G>
  {
    var base := Prepared(s.shown, resetExisting, allCases);
    var todo := ToProcess(base, fetch);
    ScanBatches(Run(base, Started(s, fetch, startTime).(shown := base)), todo, BatchCount(|todo|),
                cancelAt, clock, Worker(groupOf))
  }

  /**
   * The whole of `startScan(resetExisting:)` over the fetch result `fetch`,
   * started at `startTime`; the final `isCancelled` is `cancelAt.Some?`.
   */
  function StartScanResult<G(==)>(s: Session<G>, resetExisting: bool, fetch: seq<Asset>,
                                  startTime: int, clock: nat -> int, cancelAt: Option<nat>,
                                  allCases: seq<G>, groupOf: Asset -> Option<G>): Session<G>
  {
    var s0 := Started(s, fetch, startTime);
    if |fetch| == 0 then s0.(isScanning := false)
    else
      var base := Prepared(s.shown, resetExisting, allCases);
      if ToProcess(base, fetch) == [] then s0.(shown := base, isScanning := false)
      else
        var r := ScanFold(s, resetExisting, fetch, startTime, clock, cancelAt, allCases, groupOf);
        if cancelAt.None? then
          r.session.(shown := r.temp, saves := r.session.saves + [Snapshot(r.temp, |fetch|)],
                     isScanning := false)
        else
          r.session.(isScanning := false, isCancelled := true)
  }
}
