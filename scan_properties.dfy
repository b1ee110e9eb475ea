/**
 * What startScan promises, proved about the definitions of ScanSpec: the
 * resume filter, the batch partition, classification into exactly one
 * bucket, the merge, and the effect of a whole scan, complete or cancelled.
 */
module ScanProperties {
  import opened Optional
  import opened ScanSpec

  // ------------------------------------------------------------ resume filter

  /** An asset is to be processed iff it was fetched and its identifier is not held. */
  lemma {:induction false} UnheldMembers(fetch: seq<Asset>, held: set<string>)
    ensures forall a :: a in Unheld(fetch, held) <==> a in fetch && a.localIdentifier !in held
    decreases |fetch|
  {
    if fetch != [] {
      var p := fetch[..|fetch| - 1];
      UnheldMembers(p, held);
      assert fetch == p + [fetch[|fetch| - 1]];
    }
  }

  /** The filter keeps fetch order: filtering a concatenation concatenates the filtered parts. */
  lemma {:induction false} UnheldAppend(f1: seq<Asset>, f2: seq<Asset>, held: set<string>)
    ensures Unheld(f1 + f2, held) == Unheld(f1, held) + Unheld(f2, held)
    decreases |f2|
  {
    if f2 == [] {
      assert f1 + f2 == f1;
    } else {
      var p := f2[..|f2| - 1];
      UnheldAppend(f1, p, held);
      assert (f1 + f2)[..|f1 + f2| - 1] == f1 + p;
    }
  }

  /** Nothing held: every fetched asset is to be processed. */
  lemma {:induction false} UnheldNothingHeld(fetch: seq<Asset>, held: set<string>)
    requires IdSet(fetch) !! held
    ensures Unheld(fetch, held) == fetch
    decreases |fetch|
  {
    if fetch != [] {
      var p := fetch[..|fetch| - 1];
      assert IdSet(p) <= IdSet(fetch);
      UnheldNothingHeld(p, held);
      assert fetch[|fetch| - 1] in fetch;
      assert fetch == p + [fetch[|fetch| - 1]];
    }
  }

  /** Everything held: nothing is to be processed. */
  lemma UnheldAllHeld(fetch: seq<Asset>, held: set<string>)
    requires IdSet(fetch) <= held
    ensures Unheld(fetch, held) == []
  {
    var u := Unheld(fetch, held);
    UnheldMembers(fetch, held);
    assert u != [] ==> u[0] in u && u[0].localIdentifier in IdSet(fetch);
  }

  lemma UnheldIdSet(fetch: seq<Asset>, held: set<string>)
    ensures IdSet(Unheld(fetch, held)) == IdSet(fetch) - held
  {
    UnheldMembers(fetch, held);
  }

  lemma {:induction false} UnheldDistinct(fetch: seq<Asset>, held: set<string>)
    requires DistinctIds(fetch)
    ensures DistinctIds(Unheld(fetch, held))
    decreases |fetch|
  {
    if fetch != [] {
      var p := fetch[..|fetch| - 1];
      var last := fetch[|fetch| - 1];
      assert DistinctIds(p);
      UnheldDistinct(p, held);
      UnheldMembers(p, held);
      var rest := Unheld(p, held);
      forall i | 0 <= i < |rest|
        ensures rest[i].localIdentifier != last.localIdentifier
      {
        assert rest[i] in p;
        var j :| 0 <= j < |p| && p[j] == rest[i];
        assert fetch[j] == p[j];
      }
    }
  }

  lemma IdSetSnoc(p: seq<Asset>, last: Asset)
    ensures IdSet(p + [last]) == IdSet(p) + {last.localIdentifier}
  {
    assert forall a :: a in p + [last] <==> a in p || a == last;
  }

  /** With distinct identifiers, the last identifier does not occur earlier. */
  lemma DistinctLastFresh(s: seq<Asset>)
    requires s != [] && DistinctIds(s)
    ensures DistinctIds(s[..|s| - 1])
    ensures s[|s| - 1].localIdentifier !in IdSet(s[..|s| - 1])
  {
    var p := s[..|s| - 1];
    forall a | a in p ensures a.localIdentifier != s[|s| - 1].localIdentifier {
      var j :| 0 <= j < |p| && p[j] == a;
      assert s[j] == a;
    }
  }

  /** A sequence with distinct identifiers has as many identifiers as elements. */
  lemma {:induction false} DistinctIdSetSize(s: seq<Asset>)
    requires DistinctIds(s)
    ensures |IdSet(s)| == |s|
    decreases |s|
  {
    if s != [] {
      var p := s[..|s| - 1];
      DistinctLastFresh(s);
      DistinctIdSetSize(p);
      IdSetSnoc(p, s[|s| - 1]);
      assert s == p + [s[|s| - 1]];
    }
  }

  // ------------------------------------------------------------------ batches

  /** Every batch holds between 1 and `batchSize` assets, and only the last can be short. */
  lemma BatchShape(s: seq<Asset>, k: nat)
    requires k < BatchCount(|s|)
    ensures 0 < |Batch(s, k)| <= BatchSize
    ensures k < BatchCount(|s|) - 1 ==> |Batch(s, k)| == BatchSize
  {
  }

  lemma {:induction false} FlattenPrefix(s: seq<Asset>, k: nat)
    requires k <= BatchCount(|s|)
    ensures Flatten(Batches(s)[..k]) == s[..Min(k * BatchSize, |s|)]
  {
    if k > 0 {
      FlattenPrefix(s, k - 1);
      var bs := Batches(s);
      assert bs[..k][..k - 1] == bs[..k - 1];
      assert bs[..k][k - 1] == Batch(s, k - 1);
      assert s[..(k - 1) * BatchSize] + Batch(s, k - 1) == s[..Min(k * BatchSize, |s|)];
    }
  }

  /** The stride batches cover `assetsToProcess` exactly once, in order. */
  lemma BatchesPartition(s: seq<Asset>)
    ensures Flatten(Batches(s)) == s
    ensures forall k :: 0 <= k < |Batches(s)| ==>
              Batches(s)[k] == s[k * BatchSize .. Min(k * BatchSize + BatchSize, |s|)]
    ensures forall k :: 0 <= k < |Batches(s)| ==> 0 < |Batches(s)[k]| <= BatchSize
    ensures forall k :: 0 <= k < |Batches(s)| - 1 ==> |Batches(s)[k]| == BatchSize
  {
    var n := BatchCount(|s|);
    FlattenPrefix(s, n);
    assert Batches(s)[..n] == Batches(s);
    forall k | 0 <= k < n
      ensures 0 < |Batches(s)[k]| <= BatchSize
      ensures k < n - 1 ==> |Batches(s)[k]| == BatchSize
    {
      BatchShape(s, k);
    }
  }

  // ----------------------------------------------------------- classification

  lemma {:induction false} SelectAppend<G(!new)>(a: seq<Asset>, b: seq<Asset>, groupOf: Asset -> Option<G>, o: Option<G>)
    ensures Select(a + b, groupOf, o) == Select(a, groupOf, o) + Select(b, groupOf, o)
    decreases |a|
  {
    if a == [] {
      assert a + b == b;
    } else {
      SelectAppend(a[1..], b, groupOf, o);
      assert (a + b)[1..] == a[1..] + b;
    }
  }

  /** Each asset lands in its own bucket as often as it occurs, and in no other. */
  lemma {:induction false} SelectCount<G(!new)>(items: seq<Asset>, groupOf: Asset -> Option<G>, o: Option<G>, x: Asset)
    ensures multiset(Select(items, groupOf, o))[x] == if groupOf(x) == o then multiset(items)[x] else 0
    decreases |items|
  {
    if items != [] {
      SelectCount(items[1..], groupOf, o, x);
      assert items == [items[0]] + items[1..];
    }
  }

  lemma SelectSub<G(!new)>(items: seq<Asset>, groupOf: Asset -> Option<G>, o: Option<G>)
    ensures forall x :: x in Select(items, groupOf, o) ==> x in items && groupOf(x) == o
  {
    forall x | x in Select(items, groupOf, o)
      ensures x in items && groupOf(x) == o
    {
      SelectCount(items, groupOf, o, x);
    }
  }

  /**
   * The item loop sends each asset to exactly one bucket, in order: the list
   * under g holds the assets classified as g, `batchOthers` those with no group,
   * and a key exists only for a group that received an asset.
   */
  lemma {:induction false} ClassifyMeaning<G(!new)>(items: seq<Asset>, groupOf: Asset -> Option<G>)
    ensures Classify(items, groupOf).others == Select(items, groupOf, None)
    ensures forall g :: Lookup(Classify(items, groupOf).groups, g) == Select(items, groupOf, Some(g))
    ensures forall g :: g in Classify(items, groupOf).groups <==> Select(items, groupOf, Some(g)) != []
  {
    ClassifyOthers(items, groupOf);
    forall g
      ensures Lookup(Classify(items, groupOf).groups, g) == Select(items, groupOf, Some(g))
      ensures g in Classify(items, groupOf).groups <==> Select(items, groupOf, Some(g)) != []
    {
      ClassifyLookup(items, groupOf, g);
    }
  }

  /** `batchOthers` collects the assets of no group, in order. */
  lemma {:induction false} ClassifyOthers<G(!new)>(items: seq<Asset>, groupOf: Asset -> Option<G>)
    ensures Classify(items, groupOf).others == Select(items, groupOf, None)
    decreases |items|
  {
    if items != [] {
      var p := items[..|items| - 1];
      var a := items[|items| - 1];
      ClassifyOthers(p, groupOf);
      assert items == p + [a];
      SelectAppend(p, [a], groupOf, None);
      assert [a][1..] == [];
    }
  }

  /** The batch-local list of one group is the batch's assets classified there. */
  lemma {:induction false} ClassifyLookup<G(!new)>(items: seq<Asset>, groupOf: Asset -> Option<G>, g: G)
    ensures Lookup(Classify(items, groupOf).groups, g) == Select(items, groupOf, Some(g))
    ensures g in Classify(items, groupOf).groups <==> Select(items, groupOf, Some(g)) != []
    decreases |items|
  {
    if items != [] {
      var p := items[..|items| - 1];
      var a := items[|items| - 1];
      ClassifyLookup(p, groupOf, g);
      assert items == p + [a];
      SelectAppend(p, [a], groupOf, Some(g));
      assert [a][1..] == [];
    }
  }

  /** `tempGroups[key, default: []].append(contentsOf:)` on every key of the delta. */
  lemma MergeLookup<G(!new)>(m: map<G, seq<Asset>>, d: map<G, seq<Asset>>, g: G)
    ensures g in Merge(m, d) <==> g in m || g in d
    ensures Lookup(Merge(m, d), g) == Lookup(m, g) + Lookup(d, g)
  {
  }

  // ----------------------------------------------------------------- counting

  /** The total size of the lists under `keys`. */
  ghost function SizeOver<G>(m: map<G, seq<Asset>>, keys: seq<G>): nat
    decreases |keys|
  {
    if keys == [] then 0 else |Lookup(m, keys[0])| + SizeOver(m, keys[1..])
  }

  /** How many of `items` are classified into one of the groups in `keys`. */
  ghost function SelectedOver<G>(items: seq<Asset>, groupOf: Asset -> Option<G>, keys: seq<G>): nat
    decreases |keys|
  {
    if keys == [] then 0 else |Select(items, groupOf, Some(keys[0]))| + SelectedOver(items, groupOf, keys[1..])
  }

  lemma {:induction false} SelectedOverEmpty<G(!new)>(groupOf: Asset -> Option<G>, keys: seq<G>)
    ensures SelectedOver([], groupOf, keys) == 0
    decreases |keys|
  {
    if keys != [] {
      SelectedOverEmpty(groupOf, keys[1..]);
    }
  }

  lemma {:induction false} SelectedOverCons<G(!new)>(x: Asset, rest: seq<Asset>, groupOf: Asset -> Option<G>, keys: seq<G>)
    requires DistinctCases(keys)
    ensures SelectedOver([x] + rest, groupOf, keys)
         == SelectedOver(rest, groupOf, keys) + (if groupOf(x).Some? && groupOf(x).value in keys then 1 else 0)
    decreases |keys|
  {
    if keys != [] {
      assert DistinctCases(keys[1..]) by {
        forall i, j | 0 <= i < j < |keys[1..]| ensures keys[1..][i] != keys[1..][j] {
          assert keys[1..][i] == keys[i + 1] && keys[1..][j] == keys[j + 1];
        }
      }
      SelectedOverCons(x, rest, groupOf, keys[1..]);
      assert ([x] + rest)[1..] == rest;
      if groupOf(x) == Some(keys[0]) {
        forall j | 0 <= j < |keys[1..]| ensures keys[1..][j] != keys[0] {
          assert keys[1..][j] == keys[j + 1];
        }
      }
      assert groupOf(x).Some? && groupOf(x).value in keys <==>
             groupOf(x) == Some(keys[0]) || (groupOf(x).Some? && groupOf(x).value in keys[1..]);
    }
  }

  /** No asset is dropped: with a closed classifier, every asset is in `others` or in one group. */
  lemma {:induction false} PartitionCount<G(!new)>(items: seq<Asset>, groupOf: Asset -> Option<G>, allCases: seq<G>)
    requires DistinctCases(allCases) && Closed(groupOf, allCases)
    ensures |items| == |Select(items, groupOf, None)| + SelectedOver(items, groupOf, allCases)
    decreases |items|
  {
    if items == [] {
      SelectedOverEmpty(groupOf, allCases);
    } else {
      PartitionCount(items[1..], groupOf, allCases);
      assert items == [items[0]] + items[1..];
      SelectedOverCons(items[0], items[1..], groupOf, allCases);
    }
  }

  // ------------------------------------------------------------------- merges

  /** Under key `g`, `acc` holds the list of `base` extended by the items of group `g`. */
  ghost predicate KeyExtends<G(!new)>(base: Acc<G>, items: seq<Asset>, acc: Acc<G>,
                                    groupOf: Asset -> Option<G>, g: G)
  {
    && (g in acc.groups <==> g in base.groups || Select(items, groupOf, Some(g)) != [])
    && Lookup(acc.groups, g) == Lookup(base.groups, g) + Select(items, groupOf, Some(g))
  }

  /**
   * `acc` is `base` with `items` classified into it and `added` counted:
   * every list of `base` is extended by the items of its group, `others` by
   * the items of no group, and nothing is removed or reordered.
   */
  ghost predicate Extends<G(!new)>(base: Acc<G>, items: seq<Asset>, added: int, acc: Acc<G>,
                                 groupOf: Asset -> Option<G>)
  {
    && (forall g :: KeyExtends(base, items, acc, groupOf, g))
    && acc.others == base.others + Select(items, groupOf, None)
    && acc.processed == base.processed + added
  }

  /** One merge under key `g`: the chunk's assets of group `g` are appended to the list. */
  lemma AbsorbLookup<G(!new)>(acc: Acc<G>, chunk: seq<Asset>, count: nat, groupOf: Asset -> Option<G>, g: G)
    ensures g in Absorb(acc, chunk, count, groupOf).groups <==> g in acc.groups || Select(chunk, groupOf, Some(g)) != []
    ensures Lookup(Absorb(acc, chunk, count, groupOf).groups, g) == Lookup(acc.groups, g) + Select(chunk, groupOf, Some(g))
  {
    ClassifyLookup(chunk, groupOf, g);
    MergeLookup(acc.groups, Classify(chunk, groupOf).groups, g);
  }

  /** A merge keeps a key iff it was present or the chunk has assets of that group. */
  lemma MergeKey<G(!new)>(base: Acc<G>, items: seq<Asset>, acc: Acc<G>, chunk: seq<Asset>,
                        count: nat, groupOf: Asset -> Option<G>, g: G)
    requires g in acc.groups <==> g in base.groups || Select(items, groupOf, Some(g)) != []
    ensures g in Absorb(acc, chunk, count, groupOf).groups
            <==> g in base.groups || Select(items + chunk, groupOf, Some(g)) != []
  {
    AbsorbLookup(acc, chunk, count, groupOf, g);
    SelectAppend(items, chunk, groupOf, Some(g));
  }

  /** A merge appends the chunk's assets of group `g` to the list under `g`. */
  lemma MergeList<G(!new)>(base: Acc<G>, items: seq<Asset>, acc: Acc<G>, chunk: seq<Asset>,
                         count: nat, groupOf: Asset -> Option<G>, g: G)
    requires Lookup(acc.groups, g) == Lookup(base.groups, g) + Select(items, groupOf, Some(g))
    ensures Lookup(Absorb(acc, chunk, count, groupOf).groups, g)
            == Lookup(base.groups, g) + Select(items + chunk, groupOf, Some(g))
  {
    AbsorbLookup(acc, chunk, count, groupOf, g);
    SelectAppend(items, chunk, groupOf, Some(g));
  }

  lemma ExtendsStepKey<G(!new)>(base: Acc<G>, items: seq<Asset>, acc: Acc<G>, chunk: seq<Asset>,
                              count: nat, groupOf: Asset -> Option<G>, g: G)
    requires KeyExtends(base, items, acc, groupOf, g)
    ensures KeyExtends(base, items + chunk, Absorb(acc, chunk, count, groupOf), groupOf, g)
  {
    MergeKey(base, items, acc, chunk, count, groupOf, g);
    MergeList(base, items, acc, chunk, count, groupOf, g);
  }

  lemma ExtendsStepOthers<G(!new)>(base: Acc<G>, items: seq<Asset>, acc: Acc<G>, chunk: seq<Asset>,
                                 count: nat, groupOf: Asset -> Option<G>)
    requires acc.others == base.others + Select(items, groupOf, None)
    ensures Absorb(acc, chunk, count, groupOf).others == base.others + Select(items + chunk, groupOf, None)
  {
    ClassifyMeaning(chunk, groupOf);
    SelectAppend(items, chunk, groupOf, None);
  }

  lemma ExtendsRewrite<G(!new)>(base: Acc<G>, items: seq<Asset>, added: int, acc: Acc<G>,
                              items': seq<Asset>, added': int, acc': Acc<G>, groupOf: Asset -> Option<G>)
    requires Extends(base, items, added, acc, groupOf)
    requires items == items' && added == added' && acc == acc'
    ensures Extends(base, items', added', acc', groupOf)
  {
  }

  /** Merging one more batch-local result extends the accumulated state by that batch. */
  lemma ExtendsStep<G(!new)>(base: Acc<G>, items: seq<Asset>, added: int, acc: Acc<G>,
                           chunk: seq<Asset>, count: nat, groupOf: Asset -> Option<G>)
    requires Extends(base, items, added, acc, groupOf)
    ensures Extends(base, items + chunk, added + count, Absorb(acc, chunk, count, groupOf), groupOf)
  {
    forall g ensures KeyExtends(base, items + chunk, Absorb(acc, chunk, count, groupOf), groupOf, g) {
      ExtendsStepKey(base, items, acc, chunk, count, groupOf, g);
    }
    ExtendsStepOthers(base, items, acc, chunk, count, groupOf);
  }

  /** The held identifiers after classifying `items` into `base` are the old ones and those of `items`. */
  lemma ExtendsHeld<G(!new)>(base: Acc<G>, items: seq<Asset>, added: int, acc: Acc<G>, groupOf: Asset -> Option<G>)
    requires Extends(base, items, added, acc, groupOf)
    ensures HeldIds(acc.groups, acc.others) == HeldIds(base.groups, base.others) + IdSet(items)
  {
    forall o: Option<G> { SelectSub(items, groupOf, o); }
    forall id | id in HeldIds(acc.groups, acc.others)
      ensures id in HeldIds(base.groups, base.others) + IdSet(items)
    {
      if id in IdSet(acc.others) {
        var a :| a in acc.others && a.localIdentifier == id;
        assert a in base.others || a in Select(items, groupOf, None);
      } else {
        var g, a :| g in acc.groups && a in acc.groups[g] && a.localIdentifier == id;
        assert KeyExtends(base, items, acc, groupOf, g);
        assert a in Lookup(base.groups, g) || a in Select(items, groupOf, Some(g));
      }
    }
    forall id | id in HeldIds(base.groups, base.others) + IdSet(items)
      ensures id in HeldIds(acc.groups, acc.others)
    {
      if id in IdSet(base.others) {
        var a :| a in base.others && a.localIdentifier == id;
        assert a in acc.others;
      } else if id in HeldIds(base.groups, base.others) {
        var g, a :| g in base.groups && a in base.groups[g] && a.localIdentifier == id;
        assert KeyExtends(base, items, acc, groupOf, g);
        assert a in Lookup(acc.groups, g);
      } else {
        var a :| a in items && a.localIdentifier == id;
        SelectCount(items, groupOf, groupOf(a), a);
        assert a in Select(items, groupOf, groupOf(a));
        match groupOf(a)
        case None =>
          assert a in acc.others;
        case Some(g) =>
          assert KeyExtends(base, items, acc, groupOf, g);
          assert a in Lookup(acc.groups, g);
      }
    }
  }

  /** The sizes of the lists under `keys` grow by the number of items classified into them. */
  lemma {:induction false} ExtendsSize<G(!new)>(base: Acc<G>, items: seq<Asset>, added: int, acc: Acc<G>,
                                              groupOf: Asset -> Option<G>, keys: seq<G>)
    requires Extends(base, items, added, acc, groupOf)
    ensures SizeOver(acc.groups, keys) == SizeOver(base.groups, keys) + SelectedOver(items, groupOf, keys)
    decreases |keys|
  {
    if keys != [] {
      assert KeyExtends(base, items, acc, groupOf, keys[0]);
      ExtendsSize(base, items, added, acc, groupOf, keys[1..]);
    }
  }

  // ------------------------------------------------------------- the batch loop

  /** Assets counted into `currentProcessed` after k batches: whole batches, even a cut-short one. */
  ghost function Counted(k: nat, n: nat, cancelAt: Option<nat>): nat {
    Min(Min(k, BatchCount(Limit(cancelAt, n))) * BatchSize, n)
  }

  /** The count covers every classified asset and over-counts by less than one batch. */
  lemma CountedBounds(k: nat, n: nat, cancelAt: Option<nat>)
    requires k <= BatchCount(n)
    ensures Min(k * BatchSize, Limit(cancelAt, n)) <= Counted(k, n, cancelAt)
            < Min(k * BatchSize, Limit(cancelAt, n)) + BatchSize
    ensures cancelAt.None? ==> Counted(k, n, cancelAt) == Min(k * BatchSize, n)
  {
  }

  /** A batch the loop reaches: it starts where the classified prefix ends, and the count catches up. */
  lemma CountedAdvance(k: nat, n: nat, cancelAt: Option<nat>)
    requires 0 < k <= BatchCount(n) && !CancelledBy(cancelAt, (k - 1) * BatchSize)
    ensures var start := (k - 1) * BatchSize;
            var len := Min(start + BatchSize, n) - start;
            && start < n
            && Min(start, Limit(cancelAt, n)) == start
            && Counted(k - 1, n, cancelAt) == start
            && Counted(k, n, cancelAt) == start + len
            && Min(k * BatchSize, Limit(cancelAt, n)) == start + Reach(cancelAt, start, len)
  {
  }

  /** A batch the loop skips after cancellation changes neither the prefix nor the count. */
  lemma CountedStays(k: nat, n: nat, cancelAt: Option<nat>)
    requires 0 < k <= BatchCount(n) && CancelledBy(cancelAt, (k - 1) * BatchSize)
    ensures Min(k * BatchSize, Limit(cancelAt, n)) == Min((k - 1) * BatchSize, Limit(cancelAt, n))
    ensures Counted(k, n, cancelAt) == Counted(k - 1, n, cancelAt)
  {
  }

  lemma BatchSlice(s: seq<Asset>, k: nat)
    requires k * BatchSize < |s|
    ensures Batch(s, k) == s[k * BatchSize .. Min(k * BatchSize + BatchSize, |s|)]
  {
  }

  lemma SlicePrefix(s: seq<Asset>, start: nat, end: nat, reach: nat)
    requires start <= end <= |s| && reach <= end - start
    ensures s[..start] + s[start..end][..reach] == s[..start + reach]
  {
  }

  /** The accumulating state after one more batch the loop reaches. */
  lemma ScanBatchesAdvance<G(!new)>(r0: Run<G>, todo: seq<Asset>, k: nat, cancelAt: Option<nat>,
                                  clock: nat -> int, absorb: Absorber<G>)
    requires 0 < k && !CancelledBy(cancelAt, (k - 1) * BatchSize)
    ensures var start := (k - 1) * BatchSize;
            var batch := Batch(todo, k - 1);
            ScanBatches(r0, todo, k, cancelAt, clock, absorb).temp
              == absorb(ScanBatches(r0, todo, k - 1, cancelAt, clock, absorb).temp,
                        batch[..Reach(cancelAt, start, |batch|)], |batch|)
  {
  }

  /**
   * After k batches the accumulating state is the start state with the first
   * assets up to the cancellation point classified into it, and every merged
   * batch counted in full.
   */
  lemma {:induction false} ScanBatchesTemp<G(!new)>(r0: Run<G>, todo: seq<Asset>, k: nat, cancelAt: Option<nat>,
                                                  clock: nat -> int, absorb: Absorber<G>, groupOf: Asset -> Option<G>)
    requires k <= BatchCount(|todo|)
    requires forall t, items, c :: absorb(t, items, c) == Absorb(t, items, c, groupOf)
    ensures Extends(r0.temp, todo[..Min(k * BatchSize, Limit(cancelAt, |todo|))], Counted(k, |todo|, cancelAt),
                    ScanBatches(r0, todo, k, cancelAt, clock, absorb).temp, groupOf)
    decreases k
  {
    if k == 0 {
      assert todo[..0] == [];
    } else {
      var n := |todo|;
      var start := (k - 1) * BatchSize;
      var r := ScanBatches(r0, todo, k - 1, cancelAt, clock, absorb);
      ScanBatchesTemp(r0, todo, k - 1, cancelAt, clock, absorb, groupOf);
      if CancelledBy(cancelAt, start) {
        CountedStays(k, n, cancelAt);
        ScanBatchesCancelledStep(r0, todo, k, cancelAt, clock, absorb);
      } else {
        ScanBatchesTempAdvance(r0, todo, k, cancelAt, clock, absorb, groupOf);
      }
    }
  }

  /** The chunk a reached batch classifies continues the classified prefix, and the count catches up. */
  lemma PrefixAdvance(todo: seq<Asset>, k: nat, cancelAt: Option<nat>)
    requires 0 < k <= BatchCount(|todo|) && !CancelledBy(cancelAt, (k - 1) * BatchSize)
    ensures var start := (k - 1) * BatchSize;
            var batch := Batch(todo, k - 1);
            todo[..Min(start, Limit(cancelAt, |todo|))] + batch[..Reach(cancelAt, start, |batch|)]
              == todo[..Min(k * BatchSize, Limit(cancelAt, |todo|))]
    ensures Counted(k - 1, |todo|, cancelAt) + |Batch(todo, k - 1)| == Counted(k, |todo|, cancelAt)
  {
    var n := |todo|;
    var start := (k - 1) * BatchSize;
    var end := Min(start + BatchSize, n);
    CountedAdvance(k, n, cancelAt);
    BatchSlice(todo, k - 1);
    SlicePrefix(todo, start, end, Reach(cancelAt, start, end - start));
  }

  /** With the worker law, a reached batch is absorbed by classifying and merging it. */
  lemma TempAdvance<G(!new)>(r0: Run<G>, todo: seq<Asset>, k: nat, cancelAt: Option<nat>,
                           clock: nat -> int, absorb: Absorber<G>, groupOf: Asset -> Option<G>)
    requires 0 < k && !CancelledBy(cancelAt, (k - 1) * BatchSize)
    requires forall t, items, c :: absorb(t, items, c) == Absorb(t, items, c, groupOf)
    ensures var start := (k - 1) * BatchSize;
            var batch := Batch(todo, k - 1);
            ScanBatches(r0, todo, k, cancelAt, clock, absorb).temp
              == Absorb(ScanBatches(r0, todo, k - 1, cancelAt, clock, absorb).temp,
                        batch[..Reach(cancelAt, start, |batch|)], |batch|, groupOf)
  {
    ScanBatchesAdvance(r0, todo, k, cancelAt, clock, absorb);
  }

  lemma ScanBatchesTempAdvance<G(!new)>(r0: Run<G>, todo: seq<Asset>, k: nat, cancelAt: Option<nat>,
                                      clock: nat -> int, absorb: Absorber<G>, groupOf: Asset -> Option<G>)
    requires 0 < k <= BatchCount(|todo|) && !CancelledBy(cancelAt, (k - 1) * BatchSize)
    requires forall t, items, c :: absorb(t, items, c) == Absorb(t, items, c, groupOf)
    requires Extends(r0.temp, todo[..Min((k - 1) * BatchSize, Limit(cancelAt, |todo|))],
                     Counted(k - 1, |todo|, cancelAt), ScanBatches(r0, todo, k - 1, cancelAt, clock, absorb).temp, groupOf)
    ensures Extends(r0.temp, todo[..Min(k * BatchSize, Limit(cancelAt, |todo|))], Counted(k, |todo|, cancelAt),
                    ScanBatches(r0, todo, k, cancelAt, clock, absorb).temp, groupOf)
  {
    var start := (k - 1) * BatchSize;
    var batch := Batch(todo, k - 1);
    var chunk := batch[..Reach(cancelAt, start, |batch|)];
    var prev := ScanBatches(r0, todo, k - 1, cancelAt, clock, absorb).temp;
    var done := todo[..Min(start, Limit(cancelAt, |todo|))];
    ExtendsStep(r0.temp, done, Counted(k - 1, |todo|, cancelAt), prev, chunk, |batch|, groupOf);
    PrefixAdvance(todo, k, cancelAt);
    TempAdvance(r0, todo, k, cancelAt, clock, absorb, groupOf);
    ExtendsRewrite(r0.temp, done + chunk, Counted(k - 1, |todo|, cancelAt) + |batch|,
                   Absorb(prev, chunk, |batch|, groupOf),
                   todo[..Min(k * BatchSize, Limit(cancelAt, |todo|))], Counted(k, |todo|, cancelAt),
                   ScanBatches(r0, todo, k, cancelAt, clock, absorb).temp, groupOf);
  }

  /** Once cancelled at a batch start, the remaining batches change nothing (the `break`). */
  lemma {:induction false} ScanBatchesStable<G>(r0: Run<G>, todo: seq<Asset>, j: nat, k: nat, cancelAt: Option<nat>,
                                                    clock: nat -> int, absorb: Absorber<G>)
    requires j <= k <= BatchCount(|todo|)
    requires CancelledBy(cancelAt, j * BatchSize)
    ensures ScanBatches(r0, todo, k, cancelAt, clock, absorb) == ScanBatches(r0, todo, j, cancelAt, clock, absorb)
    decreases k
  {
    if k > j {
      ScanBatchesCancelledStep(r0, todo, k, cancelAt, clock, absorb);
      ScanBatchesStable(r0, todo, j, k - 1, cancelAt, clock, absorb);
    }
  }

  lemma ScanBatchesCancelledStep<G>(r0: Run<G>, todo: seq<Asset>, k: nat, cancelAt: Option<nat>,
                                        clock: nat -> int, absorb: Absorber<G>)
    requires 0 < k <= BatchCount(|todo|)
    requires CancelledBy(cancelAt, (k - 1) * BatchSize)
    ensures ScanBatches(r0, todo, k, cancelAt, clock, absorb) == ScanBatches(r0, todo, k - 1, cancelAt, clock, absorb)
  {
  }

  /**
   * One throttle decision leaves `total` and the flags alone, publishes
   * either nothing or `temp`, and appends at most the snapshot of `temp`.
   */
  lemma PublishEffect<G>(s: Session<G>, temp: Acc<G>, now: int)
    ensures var p := Publish(s, temp, now);
            && p.total == s.total && p.isScanning == s.isScanning && p.isCancelled == s.isCancelled
            && (p.shown == s.shown || p.shown == temp)
            && (p.saves == s.saves || p.saves == s.saves + [Snapshot(temp, s.total)])
  {
  }

  /** One step of the batch fold, seen from the session. */
  lemma ScanBatchesSessionStep<G>(r0: Run<G>, todo: seq<Asset>, k: nat, cancelAt: Option<nat>,
                                      clock: nat -> int, absorb: Absorber<G>)
    requires 0 < k
    ensures var r := ScanBatches(r0, todo, k - 1, cancelAt, clock, absorb);
            var r' := ScanBatches(r0, todo, k, cancelAt, clock, absorb);
            && r'.session.total == r.session.total
            && r'.session.isScanning == r.session.isScanning
            && r'.session.isCancelled == r.session.isCancelled
            && (r'.session.shown == r.session.shown || r'.session.shown == r'.temp)
            && (r'.session.saves == r.session.saves
                || r'.session.saves == r.session.saves + [Snapshot(r'.temp, r.session.total)])
  {
    var r := ScanBatches(r0, todo, k - 1, cancelAt, clock, absorb);
    var start := (k - 1) * BatchSize;
    if !CancelledBy(cancelAt, start) {
      var batch := Batch(todo, k - 1);
      var temp := absorb(r.temp, batch[..Reach(cancelAt, start, |batch|)], |batch|);
      PublishEffect(r.session, temp, clock(k - 1));
    }
  }

  /**
   * A throttle fires only at event times, fewer times than there are events,
   * and each firing comes at least `iv` after the previous one (the first at
   * least `iv` after `last`).
   */
  lemma {:induction false} ThinSpacing(ts: seq<int>, last: int, iv: int)
    ensures |Thin(ts, last, iv)| <= |ts|
    ensures forall x :: x in Thin(ts, last, iv) ==> x in ts
    ensures Thin(ts, last, iv) != [] ==> Thin(ts, last, iv)[0] - last >= iv
    ensures forall i :: 0 < i < |Thin(ts, last, iv)| ==> Thin(ts, last, iv)[i] - Thin(ts, last, iv)[i - 1] >= iv
    decreases |ts|
  {
    if ts != [] {
      var p := ts[..|ts| - 1];
      var t := ts[|ts| - 1];
      ThinSpacing(p, last, iv);
      assert forall x :: x in p ==> x in ts;
      var fired := Thin(p, last, iv);
      if t - Latest(fired, last) >= iv {
        var f := fired + [t];
        assert Thin(ts, last, iv) == f;
        forall i | 0 < i < |f| ensures f[i] - f[i - 1] >= iv {
          if i < |fired| {
            assert f[i] == fired[i] && f[i - 1] == fired[i - 1];
          }
        }
      }
    }
  }

  /** One more event: the throttle fires at it exactly when `iv` has passed since its latest firing. */
  lemma ThinSnoc(ts: seq<int>, t: int, last: int, iv: int)
    ensures Thin(ts + [t], last, iv) ==
            if t - Latest(Thin(ts, last, iv), last) >= iv then Thin(ts, last, iv) + [t] else Thin(ts, last, iv)
  {
    assert (ts + [t])[..|ts|] == ts;
  }

  /** The timestamps and the save count after one throttle decision at `now`. */
  lemma PublishTimestamps<G>(s: Session<G>, temp: Acc<G>, now: int)
    ensures Publish(s, temp, now).lastUIUpdate ==
            if now - s.lastUIUpdate >= UIUpdateInterval then now else s.lastUIUpdate
    ensures Publish(s, temp, now).lastSaveDate ==
            if now - s.lastUIUpdate >= UIUpdateInterval && now - s.lastSaveDate >= SaveInterval then now else s.lastSaveDate
    ensures |Publish(s, temp, now).saves| ==
            |s.saves| + if now - s.lastUIUpdate >= UIUpdateInterval && now - s.lastSaveDate >= SaveInterval then 1 else 0
  {
  }

  /**
   * After `k` batches, `lastUIUpdate` is the time of the latest publish and
   * `lastSaveDate` that of the latest save (or the values before the loop),
   * and one snapshot was handed to `save()` per save time.
   */
  lemma {:induction false} ThrottleTimes<G>(r0: Run<G>, todo: seq<Asset>, k: nat, cancelAt: Option<nat>,
                                            clock: nat -> int, absorb: Absorber<G>)
    ensures ScanBatches(r0, todo, k, cancelAt, clock, absorb).session.lastUIUpdate
            == Latest(PublishTimes(r0, k, cancelAt, clock), r0.session.lastUIUpdate)
    ensures ScanBatches(r0, todo, k, cancelAt, clock, absorb).session.lastSaveDate
            == Latest(SaveTimes(r0, k, cancelAt, clock), r0.session.lastSaveDate)
    ensures |ScanBatches(r0, todo, k, cancelAt, clock, absorb).session.saves|
            == |r0.session.saves| + |SaveTimes(r0, k, cancelAt, clock)|
    decreases k
  {
    if k > 0 {
      ThrottleTimes(r0, todo, k - 1, cancelAt, clock, absorb);
      var r := ScanBatches(r0, todo, k - 1, cancelAt, clock, absorb);
      var m := MergeTimes(k - 1, cancelAt, clock);
      var shows := PublishTimes(r0, k - 1, cancelAt, clock);
      var start := (k - 1) * BatchSize;
      if !CancelledBy(cancelAt, start) {
        var t := clock(k - 1);
        var batch := Batch(todo, k - 1);
        var temp := absorb(r.temp, batch[..Reach(cancelAt, start, |batch|)], |batch|);
        assert ScanBatches(r0, todo, k, cancelAt, clock, absorb).session == Publish(r.session, temp, t);
        PublishTimestamps(r.session, temp, t);
        assert MergeTimes(k, cancelAt, clock) == m + [t];
        ThinSnoc(m, t, r0.session.lastUIUpdate, UIUpdateInterval);
        ThinSnoc(shows, t, r0.session.lastSaveDate, SaveInterval);
      } else {
        assert MergeTimes(k, cancelAt, clock) == m + [] == m;
        assert PublishTimes(r0, k, cancelAt, clock) == shows;
        assert ScanBatches(r0, todo, k, cancelAt, clock, absorb) == r;
      }
    }
  }

  /**
   * The throttle of the batch loop: the loop publishes at the merge times
   * `PublishTimes`, each at least `uiUpdateInterval` after the previous
   * publish, and saves at `SaveTimes`, which are publish times, each at
   * least `saveInterval` after the previous save; the two timestamps end at
   * the latest publish and the latest save.
   */
  lemma ThrottledBatches<G>(r0: Run<G>, todo: seq<Asset>, k: nat, cancelAt: Option<nat>,
                            clock: nat -> int, absorb: Absorber<G>)
    ensures ScanBatches(r0, todo, k, cancelAt, clock, absorb).session.lastUIUpdate
            == Latest(PublishTimes(r0, k, cancelAt, clock), r0.session.lastUIUpdate)
    ensures ScanBatches(r0, todo, k, cancelAt, clock, absorb).session.lastSaveDate
            == Latest(SaveTimes(r0, k, cancelAt, clock), r0.session.lastSaveDate)
    ensures |ScanBatches(r0, todo, k, cancelAt, clock, absorb).session.saves|
            == |r0.session.saves| + |SaveTimes(r0, k, cancelAt, clock)|
    ensures forall x :: x in PublishTimes(r0, k, cancelAt, clock) ==> x in MergeTimes(k, cancelAt, clock)
    ensures PublishTimes(r0, k, cancelAt, clock) != [] ==>
              PublishTimes(r0, k, cancelAt, clock)[0] - r0.session.lastUIUpdate >= UIUpdateInterval
    ensures forall i :: 0 < i < |PublishTimes(r0, k, cancelAt, clock)| ==>
              PublishTimes(r0, k, cancelAt, clock)[i] - PublishTimes(r0, k, cancelAt, clock)[i - 1] >= UIUpdateInterval
    ensures forall x :: x in SaveTimes(r0, k, cancelAt, clock) ==> x in PublishTimes(r0, k, cancelAt, clock)
    ensures SaveTimes(r0, k, cancelAt, clock) != [] ==>
              SaveTimes(r0, k, cancelAt, clock)[0] - r0.session.lastSaveDate >= SaveInterval
    ensures forall i :: 0 < i < |SaveTimes(r0, k, cancelAt, clock)| ==>
              SaveTimes(r0, k, cancelAt, clock)[i] - SaveTimes(r0, k, cancelAt, clock)[i - 1] >= SaveInterval
  {
    ThrottleTimes(r0, todo, k, cancelAt, clock, absorb);
    ThinSpacing(MergeTimes(k, cancelAt, clock), r0.session.lastUIUpdate, UIUpdateInterval);
    ThinSpacing(PublishTimes(r0, k, cancelAt, clock), r0.session.lastSaveDate, SaveInterval);
  }

  /** What one merge may do to the session of a run: the effect `PublishEffect` states. */
  ghost predicate SessionLaw<G>(r: Run<G>, r': Run<G>) {
    && r'.session.total == r.session.total
    && r'.session.isScanning == r.session.isScanning
    && r'.session.isCancelled == r.session.isCancelled
    && (r'.session.shown == r.session.shown || r'.session.shown == r'.temp)
    && (r'.session.saves == r.session.saves
        || r'.session.saves == r.session.saves + [Snapshot(r'.temp, r.session.total)])
  }

  /**
   * Along any sequence of runs whose steps obey `SessionLaw`: `total` and the
   * flags stay put, saves are only appended, what is shown is the first
   * session's or some later run's accumulating state, and each new save is
   * the snapshot of some later run's accumulating state.
   */
  lemma {:induction false} TraceFacts<G>(rs: seq<Run<G>>)
    requires |rs| > 0
    requires forall j :: 0 < j < |rs| ==> SessionLaw(rs[j - 1], rs[j])
    ensures var last := rs[|rs| - 1].session;
            && last.total == rs[0].session.total
            && last.isScanning == rs[0].session.isScanning
            && last.isCancelled == rs[0].session.isCancelled
            && rs[0].session.saves <= last.saves
            && (last.shown == rs[0].session.shown || exists j :: 1 <= j < |rs| && last.shown == rs[j].temp)
            && (forall i :: |rs[0].session.saves| <= i < |last.saves| ==>
                  exists j :: 1 <= j < |rs| && last.saves[i] == Snapshot(rs[j].temp, rs[0].session.total))
    decreases |rs|
  {
    if |rs| > 1 {
      var p := rs[..|rs| - 1];
      TraceFacts(p);
      var prev := p[|p| - 1];
      var last := rs[|rs| - 1];
      assert SessionLaw(prev, last);
      if last.session.shown != rs[0].session.shown && last.session.shown != last.temp {
        var j :| 1 <= j < |p| && prev.session.shown == p[j].temp;
        assert rs[j] == p[j];
      }
      forall i | |rs[0].session.saves| <= i < |last.session.saves|
        ensures exists j :: 1 <= j < |rs| && last.session.saves[i] == Snapshot(rs[j].temp, rs[0].session.total)
      {
        if i < |prev.session.saves| {
          var j :| 1 <= j < |p| && prev.session.saves[i] == Snapshot(p[j].temp, rs[0].session.total);
          assert rs[j] == p[j];
        } else {
          assert last.session.saves[i] == Snapshot(rs[|rs| - 1].temp, rs[0].session.total);
        }
      }
    }
  }

  /** The runs after 0, 1, ..., k batches. */
  ghost function Trace<G>(r0: Run<G>, todo: seq<Asset>, k: nat, cancelAt: Option<nat>,
                               clock: nat -> int, absorb: Absorber<G>): (rs: seq<Run<G>>)
    ensures |rs| == k + 1
    ensures forall j :: 0 <= j <= k ==> rs[j] == ScanBatches(r0, todo, j, cancelAt, clock, absorb)
  {
    seq(k + 1, j requires 0 <= j <= k => ScanBatches(r0, todo, j, cancelAt, clock, absorb))
  }

  /**
   * Observers only ever see the start state or the accumulating state of some
   * merge, `total` and the flags stay put, saves are only appended, and each
   * one is the snapshot of the accumulating state of some merge.
   */
  lemma ScanBatchesPublished<G>(r0: Run<G>, todo: seq<Asset>, k: nat, cancelAt: Option<nat>,
                                    clock: nat -> int, absorb: Absorber<G>)
    ensures ScanBatches(r0, todo, k, cancelAt, clock, absorb).session.total == r0.session.total
    ensures ScanBatches(r0, todo, k, cancelAt, clock, absorb).session.isScanning == r0.session.isScanning
    ensures ScanBatches(r0, todo, k, cancelAt, clock, absorb).session.isCancelled == r0.session.isCancelled
    ensures r0.session.saves <= ScanBatches(r0, todo, k, cancelAt, clock, absorb).session.saves
    ensures ScanBatches(r0, todo, k, cancelAt, clock, absorb).session.shown == r0.session.shown ||
            exists j :: 1 <= j <= k && ScanBatches(r0, todo, k, cancelAt, clock, absorb).session.shown
                                         == ScanBatches(r0, todo, j, cancelAt, clock, absorb).temp
    ensures forall i :: |r0.session.saves| <= i < |ScanBatches(r0, todo, k, cancelAt, clock, absorb).session.saves| ==>
              exists j :: 1 <= j <= k && ScanBatches(r0, todo, k, cancelAt, clock, absorb).session.saves[i]
                                           == Snapshot(ScanBatches(r0, todo, j, cancelAt, clock, absorb).temp, r0.session.total)
  {
    var rs := Trace(r0, todo, k, cancelAt, clock, absorb);
    forall j | 0 < j < |rs| ensures SessionLaw(rs[j - 1], rs[j]) {
      ScanBatchesSessionStep(r0, todo, j, cancelAt, clock, absorb);
    }
    TraceFacts(rs);
    var r := ScanBatches(r0, todo, k, cancelAt, clock, absorb);
    assert r == rs[k] && r0 == rs[0];
    if r.session.shown != r0.session.shown {
      var j :| 1 <= j < |rs| && r.session.shown == rs[j].temp;
      assert 1 <= j <= k && r.session.shown == ScanBatches(r0, todo, j, cancelAt, clock, absorb).temp;
      assert exists j :: 1 <= j <= k && ScanBatches(r0, todo, k, cancelAt, clock, absorb).session.shown
                                          == ScanBatches(r0, todo, j, cancelAt, clock, absorb).temp;
    }
    forall i | |r0.session.saves| <= i < |ScanBatches(r0, todo, k, cancelAt, clock, absorb).session.saves|
      ensures exists j :: 1 <= j <= k && ScanBatches(r0, todo, k, cancelAt, clock, absorb).session.saves[i]
                            == Snapshot(ScanBatches(r0, todo, j, cancelAt, clock, absorb).temp, r0.session.total)
    {
      var j :| 1 <= j < |rs| && r.session.saves[i] == Snapshot(rs[j].temp, r0.session.total);
      assert 1 <= j <= k && rs[j] == ScanBatches(r0, todo, j, cancelAt, clock, absorb);
    }
    assert forall i :: |r0.session.saves| <= i < |ScanBatches(r0, todo, k, cancelAt, clock, absorb).session.saves| ==>
              exists j :: 1 <= j <= k && ScanBatches(r0, todo, k, cancelAt, clock, absorb).session.saves[i]
                                           == Snapshot(ScanBatches(r0, todo, j, cancelAt, clock, absorb).temp, r0.session.total);
  }

  // ------------------------------------------------------------- whole scans

  lemma WorkerAbsorbs<G(!new)>(groupOf: Asset -> Option<G>)
    ensures forall t, items, c :: Worker(groupOf)(t, items, c) == Absorb(t, items, c, groupOf)
  {
  }

  /** All `BatchCount(n)` batches cover the `n` assets, and all of them are counted. */
  lemma BatchesCover(n: nat)
    ensures Min(BatchCount(n) * BatchSize, Limit(None, n)) == n
    ensures Counted(BatchCount(n), n, None) == n
  {
  }

  /** Without cancellation the batch loop classifies every asset to process into the prepared state. */
  lemma FoldClassifies<G(!new)>(s: Session<G>, resetExisting: bool, fetch: seq<Asset>, startTime: int,
                              clock: nat -> int, allCases: seq<G>, groupOf: Asset -> Option<G>)
    ensures Extends(Prepared(s.shown, resetExisting, allCases), ToProcess(Prepared(s.shown, resetExisting, allCases), fetch),
                    |ToProcess(Prepared(s.shown, resetExisting, allCases), fetch)|,
                    ScanFold(s, resetExisting, fetch, startTime, clock, None, allCases, groupOf).temp, groupOf)
  {
    var base := Prepared(s.shown, resetExisting, allCases);
    var todo := ToProcess(base, fetch);
    var r0 := Run(base, Started(s, fetch, startTime).(shown := base));
    var k := BatchCount(|todo|);
    WorkerAbsorbs(groupOf);
    ScanBatchesTemp(r0, todo, k, None, clock, Worker(groupOf), groupOf);
    BatchesCover(|todo|);
    assert todo[..|todo|] == todo;
    ExtendsRewrite(base, todo[..Min(k * BatchSize, Limit(None, |todo|))], Counted(k, |todo|, None),
                   ScanBatches(r0, todo, k, None, clock, Worker(groupOf)).temp,
                   todo, |todo|, ScanFold(s, resetExisting, fetch, startTime, clock, None, allCases, groupOf).temp, groupOf);
  }

  /** The batch loop leaves `total` and the flags as `startScan` set them and only appends saves. */
  lemma FoldSession<G(!new)>(s: Session<G>, resetExisting: bool, fetch: seq<Asset>, startTime: int,
                           clock: nat -> int, cancelAt: Option<nat>, allCases: seq<G>, groupOf: Asset -> Option<G>)
    ensures ScanFold(s, resetExisting, fetch, startTime, clock, cancelAt, allCases, groupOf).session.total == |fetch|
    ensures ScanFold(s, resetExisting, fetch, startTime, clock, cancelAt, allCases, groupOf).session.isScanning
    ensures !ScanFold(s, resetExisting, fetch, startTime, clock, cancelAt, allCases, groupOf).session.isCancelled
    ensures s.saves <= ScanFold(s, resetExisting, fetch, startTime, clock, cancelAt, allCases, groupOf).session.saves
  {
    var base := Prepared(s.shown, resetExisting, allCases);
    var todo := ToProcess(base, fetch);
    ScanBatchesPublished(Run(base, Started(s, fetch, startTime).(shown := base)), todo, BatchCount(|todo|),
                         cancelAt, clock, Worker(groupOf));
  }

  /**
   * Flags and guards: a scan always ends with `isScanning` false and `total`
   * the fetch count; an empty fetch changes no data and does not reset;
   * nothing left to process publishes only the (possibly reset) start state;
   * `isCancelled` ends true only for a cancelled scan that had work to do;
   * saves are only appended.
   */
  lemma ScanGuards<G(!new)>(s: Session<G>, resetExisting: bool, fetch: seq<Asset>, startTime: int,
                          clock: nat -> int, cancelAt: Option<nat>, allCases: seq<G>, groupOf: Asset -> Option<G>)
    ensures var r := StartScanResult(s, resetExisting, fetch, startTime, clock, cancelAt, allCases, groupOf);
            var base := Prepared(s.shown, resetExisting, allCases);
            && !r.isScanning && r.total == |fetch|
            && (|fetch| == 0 ==> r.shown == s.shown && r.saves == s.saves)
            && (|fetch| > 0 && ToProcess(base, fetch) == [] ==> r.shown == base && r.saves == s.saves)
            && (r.isCancelled <==> |fetch| > 0 && ToProcess(base, fetch) != [] && cancelAt.Some?)
            && s.saves <= r.saves
  {
    FoldSession(s, resetExisting, fetch, startTime, clock, cancelAt, allCases, groupOf);
  }

  /** With work to do and no cancellation, the scan publishes the fold's final state and saves it. */
  lemma CompletedResult<G(!new)>(s: Session<G>, resetExisting: bool, fetch: seq<Asset>, startTime: int,
                               clock: nat -> int, allCases: seq<G>, groupOf: Asset -> Option<G>)
    requires |fetch| > 0 && ToProcess(Prepared(s.shown, resetExisting, allCases), fetch) != []
    ensures StartScanResult(s, resetExisting, fetch, startTime, clock, None, allCases, groupOf).shown
            == ScanFold(s, resetExisting, fetch, startTime, clock, None, allCases, groupOf).temp
    ensures StartScanResult(s, resetExisting, fetch, startTime, clock, None, allCases, groupOf).saves
            == ScanFold(s, resetExisting, fetch, startTime, clock, None, allCases, groupOf).session.saves
               + [Snapshot(ScanFold(s, resetExisting, fetch, startTime, clock, None, allCases, groupOf).temp, |fetch|)]
  {
  }

  /**
   * A scan that is not cancelled classifies every asset to process into the
   * start state: each existing list is extended by the assets of its group,
   * `others` by those of no group, `processed` is the number of identifiers
   * already held plus the number of assets processed, and the final state is
   * what the last save records.
   */
  lemma ScanCompletes<G(!new)>(s: Session<G>, resetExisting: bool, fetch: seq<Asset>, startTime: int,
                             clock: nat -> int, allCases: seq<G>, groupOf: Asset -> Option<G>)
    requires |fetch| > 0
    ensures var r := StartScanResult(s, resetExisting, fetch, startTime, clock, None, allCases, groupOf);
            var base := Prepared(s.shown, resetExisting, allCases);
            var todo := ToProcess(base, fetch);
            && Extends(base, todo, |todo|, r.shown, groupOf)
            && r.shown.processed == |HeldIds(base.groups, base.others)| + |todo|
            && !r.isScanning && !r.isCancelled
            && (todo != [] ==> |r.saves| > |s.saves| && r.saves[|r.saves| - 1] == Snapshot(r.shown, |fetch|))
  {
    var base := Prepared(s.shown, resetExisting, allCases);
    var todo := ToProcess(base, fetch);
    ScanGuards(s, resetExisting, fetch, startTime, clock, None, allCases, groupOf);
    if todo == [] {
      assert Extends(base, todo, 0, base, groupOf);
    } else {
      FoldClassifies(s, resetExisting, fetch, startTime, clock, allCases, groupOf);
      FoldSession(s, resetExisting, fetch, startTime, clock, None, allCases, groupOf);
      CompletedResult(s, resetExisting, fetch, startTime, clock, allCases, groupOf);
    }
  }

  /** A resumed scan only classifies assets whose identifier was not already held. */
  lemma ResumeSkipsHeld<G(!new)>(s: Session<G>, resetExisting: bool, fetch: seq<Asset>, allCases: seq<G>)
    ensures var base := Prepared(s.shown, resetExisting, allCases);
            forall a :: a in ToProcess(base, fetch) <==>
                          a in fetch && a.localIdentifier !in HeldIds(base.groups, base.others)
  {
    var base := Prepared(s.shown, resetExisting, allCases);
    UnheldMembers(fetch, HeldIds(base.groups, base.others));
  }

  /**
   * Reset: the start state is every case mapped to an empty list, no others,
   * and no identifier held, so `processed` starts at 0.
   */
  lemma ResetStart<G(!new)>(shown: Acc<G>, resetExisting: bool, allCases: seq<G>)
    requires resetExisting || shown.groups == map[]
    ensures var base := Prepared(shown, resetExisting, allCases);
            && (forall g :: g in base.groups <==> g in allCases)
            && (forall g :: g in base.groups ==> base.groups[g] == [])
            && base.others == [] && HeldIds(base.groups, base.others) == {} && base.processed == 0
  {
    var e := EmptyGroups<G>(allCases);
    assert forall g :: g in e ==> e[g] == [];
    assert HeldIds(e, []) == {};
  }

  /**
   * `acc` holds exactly the assets of `items`, sorted by group: the cases are
   * the keys, each case's list is the items of that group in order, `others`
   * the items of no group, each asset in its own bucket as often as it occurs
   * in `items` and in no other, and the bucket sizes sum to `processed`.
   */
  ghost predicate ClassifiesExactly<G(!new)>(acc: Acc<G>, items: seq<Asset>, groupOf: Asset -> Option<G>, allCases: seq<G>)
  {
    && (forall g :: g in acc.groups <==> g in allCases)
    && (forall g :: Lookup(acc.groups, g) == Select(items, groupOf, Some(g)))
    && acc.others == Select(items, groupOf, None)
    && (forall g, x :: multiset(Lookup(acc.groups, g))[x] == if groupOf(x) == Some(g) then multiset(items)[x] else 0)
    && (forall x :: multiset(acc.others)[x] == if groupOf(x).None? then multiset(items)[x] else 0)
    && acc.processed == |items|
    && SizeOver(acc.groups, allCases) + |acc.others| == acc.processed
  }

  /** Into an empty start state over the cases, the keys are exactly the cases, each list its group's items. */
  lemma ExtendsFromEmptyLists<G(!new)>(base: Acc<G>, items: seq<Asset>, acc: Acc<G>,
                                     groupOf: Asset -> Option<G>, allCases: seq<G>)
    requires Closed(groupOf, allCases)
    requires forall g :: g in base.groups <==> g in allCases
    requires forall g :: g in base.groups ==> base.groups[g] == []
    requires Extends(base, items, |items|, acc, groupOf)
    ensures forall g :: g in acc.groups <==> g in allCases
    ensures forall g :: Lookup(acc.groups, g) == Select(items, groupOf, Some(g))
  {
    forall g ensures (g in acc.groups <==> g in allCases) && Lookup(acc.groups, g) == Select(items, groupOf, Some(g)) {
      assert KeyExtends(base, items, acc, groupOf, g);
      if Select(items, groupOf, Some(g)) != [] {
        SelectSub(items, groupOf, Some(g));
        assert Select(items, groupOf, Some(g))[0] in Select(items, groupOf, Some(g));
      }
    }
  }

  /** Lists equal to their group's items hold each asset as often as `items` does, and only there. */
  lemma SelectedMultiplicity<G(!new)>(acc: Acc<G>, items: seq<Asset>, groupOf: Asset -> Option<G>)
    requires forall g :: Lookup(acc.groups, g) == Select(items, groupOf, Some(g))
    requires acc.others == Select(items, groupOf, None)
    ensures forall g, x :: multiset(Lookup(acc.groups, g))[x] == if groupOf(x) == Some(g) then multiset(items)[x] else 0
    ensures forall x :: multiset(acc.others)[x] == if groupOf(x).None? then multiset(items)[x] else 0
  {
    forall g, x ensures multiset(Lookup(acc.groups, g))[x] == if groupOf(x) == Some(g) then multiset(items)[x] else 0 {
      SelectCount(items, groupOf, Some(g), x);
    }
    forall x ensures multiset(acc.others)[x] == if groupOf(x).None? then multiset(items)[x] else 0 {
      SelectCount(items, groupOf, None, x);
    }
  }

  /** Classifying `items` into the empty start state gives exactly their classification. */
  lemma ExtendsFromEmpty<G(!new)>(base: Acc<G>, items: seq<Asset>, acc: Acc<G>,
                                groupOf: Asset -> Option<G>, allCases: seq<G>)
    requires DistinctCases(allCases) && Closed(groupOf, allCases)
    requires forall g :: g in base.groups <==> g in allCases
    requires forall g :: g in base.groups ==> base.groups[g] == []
    requires base.others == [] && base.processed == 0
    requires Extends(base, items, |items|, acc, groupOf)
    ensures ClassifiesExactly(acc, items, groupOf, allCases)
  {
    ExtendsFromEmptyLists(base, items, acc, groupOf, allCases);
    SelectedMultiplicity(acc, items, groupOf);
    assert SizeOver(acc.groups, allCases) == SelectedOver(items, groupOf, allCases) by {
      ExtendsSize(base, items, |items|, acc, groupOf, allCases);
      SizeOverEmpty(base.groups, allCases);
    }
    PartitionCount(items, groupOf, allCases);
  }

  /**
   * A scan from scratch (a reset, not cancelled) classifies exactly the
   * fetched assets, in fetch order, each once per occurrence, and ends with
   * `processed == total`.
   */
  lemma FreshScanClassifiesFetch<G(!new)>(s: Session<G>, fetch: seq<Asset>, startTime: int, clock: nat -> int,
                                        allCases: seq<G>, groupOf: Asset -> Option<G>)
    requires |fetch| > 0 && DistinctCases(allCases) && Closed(groupOf, allCases)
    ensures ClassifiesExactly(StartScanResult(s, true, fetch, startTime, clock, None, allCases, groupOf).shown,
                              fetch, groupOf, allCases)
    ensures StartScanResult(s, true, fetch, startTime, clock, None, allCases, groupOf).total == |fetch|
  {
    var base := Prepared(s.shown, true, allCases);
    ResetStart(s.shown, true, allCases);
    UnheldNothingHeld(fetch, {});
    ScanCompletes(s, true, fetch, startTime, clock, allCases, groupOf);
    ScanGuards(s, true, fetch, startTime, clock, None, allCases, groupOf);
    ExtendsFromEmpty(base, fetch, StartScanResult(s, true, fetch, startTime, clock, None, allCases, groupOf).shown,
                     groupOf, allCases);
  }

  lemma {:induction false} SizeOverEmpty<G>(m: map<G, seq<Asset>>, keys: seq<G>)
    requires forall g :: g in m ==> m[g] == []
    ensures SizeOver(m, keys) == 0
    decreases |keys|
  {
    if keys != [] {
      SizeOverEmpty(m, keys[1..]);
    }
  }

  /**
   * With a closed classifier, the sizes of all buckets grow by exactly the
   * number of assets processed: none is dropped and none is duplicated.
   */
  lemma ScanKeepsCount<G(!new)>(s: Session<G>, resetExisting: bool, fetch: seq<Asset>, startTime: int,
                              clock: nat -> int, allCases: seq<G>, groupOf: Asset -> Option<G>)
    requires |fetch| > 0 && DistinctCases(allCases) && Closed(groupOf, allCases)
    ensures var r := StartScanResult(s, resetExisting, fetch, startTime, clock, None, allCases, groupOf);
            var base := Prepared(s.shown, resetExisting, allCases);
            SizeOver(r.shown.groups, allCases) + |r.shown.others|
              == SizeOver(base.groups, allCases) + |base.others| + |ToProcess(base, fetch)|
  {
    var base := Prepared(s.shown, resetExisting, allCases);
    var todo := ToProcess(base, fetch);
    var r := StartScanResult(s, resetExisting, fetch, startTime, clock, None, allCases, groupOf);
    ScanCompletes(s, resetExisting, fetch, startTime, clock, allCases, groupOf);
    ExtendsSize(base, todo, |todo|, r.shown, groupOf, allCases);
    PartitionCount(todo, groupOf, allCases);
  }

  /**
   * Classifying the unheld part of a fetch with distinct identifiers: the
   * state then holds the old identifiers and those of the fetch, and if
   * `processed` counted the held identifiers before, it still does.
   */
  lemma ExtendsUnheld<G(!new)>(base: Acc<G>, fetch: seq<Asset>, acc: Acc<G>, groupOf: Asset -> Option<G>)
    requires DistinctIds(fetch) && base.processed == |HeldIds(base.groups, base.others)|
    requires Extends(base, ToProcess(base, fetch), |ToProcess(base, fetch)|, acc, groupOf)
    ensures HeldIds(acc.groups, acc.others) == HeldIds(base.groups, base.others) + IdSet(fetch)
    ensures acc.processed == |HeldIds(acc.groups, acc.others)|
  {
    var held := HeldIds(base.groups, base.others);
    var todo := ToProcess(base, fetch);
    assert HeldIds(acc.groups, acc.others) == held + IdSet(todo) by {
      ExtendsHeld(base, todo, |todo|, acc, groupOf);
    }
    assert IdSet(todo) == IdSet(fetch) - held by {
      UnheldIdSet(fetch, held);
    }
    assert |IdSet(todo)| == |todo| by {
      UnheldDistinct(fetch, held);
      DistinctIdSetSize(todo);
    }
    assert acc.processed == base.processed + |todo|;
    HeldSplit(HeldIds(acc.groups, acc.others), held, IdSet(todo), IdSet(fetch), |todo|, base.processed, acc.processed);
  }

  lemma HeldSplit(now: set<string>, held: set<string>, added: set<string>, fetched: set<string>,
                  n: int, before: int, after: int)
    requires now == held + added && added == fetched - held && |added| == n
    requires before == |held| && after == before + n
    ensures now == held + fetched && after == |now|
  {
    assert held !! added;
  }

  /** After a complete scan of a fetch with distinct identifiers, `processed` counts the held identifiers. */
  lemma CompletedHolds<G(!new)>(s: Session<G>, resetExisting: bool, fetch: seq<Asset>, startTime: int,
                              clock: nat -> int, allCases: seq<G>, groupOf: Asset -> Option<G>)
    requires |fetch| > 0 && DistinctIds(fetch)
    ensures var r := StartScanResult(s, resetExisting, fetch, startTime, clock, None, allCases, groupOf);
            var base := Prepared(s.shown, resetExisting, allCases);
            && HeldIds(r.shown.groups, r.shown.others) == HeldIds(base.groups, base.others) + IdSet(fetch)
            && r.shown.processed == |HeldIds(r.shown.groups, r.shown.others)|
            && r.total == |fetch|
  {
    var base := Prepared(s.shown, resetExisting, allCases);
    ScanCompletes(s, resetExisting, fetch, startTime, clock, allCases, groupOf);
    ScanGuards(s, resetExisting, fetch, startTime, clock, None, allCases, groupOf);
    ExtendsUnheld(base, fetch, StartScanResult(s, resetExisting, fetch, startTime, clock, None, allCases, groupOf).shown,
                  groupOf);
  }

  /**
   * A resumed scan of a fetch with distinct identifiers that covers every
   * held identifier ends with `processed == total`.
   */
  lemma ResumedScanCountsFetch<G(!new)>(s: Session<G>, resetExisting: bool, fetch: seq<Asset>, startTime: int,
                                      clock: nat -> int, allCases: seq<G>, groupOf: Asset -> Option<G>)
    requires |fetch| > 0 && DistinctIds(fetch)
    requires var base := Prepared(s.shown, resetExisting, allCases);
             HeldIds(base.groups, base.others) <= IdSet(fetch)
    ensures var r := StartScanResult(s, resetExisting, fetch, startTime, clock, None, allCases, groupOf);
            r.shown.processed == r.total
  {
    var base := Prepared(s.shown, resetExisting, allCases);
    var r := StartScanResult(s, resetExisting, fetch, startTime, clock, None, allCases, groupOf);
    CompletedHolds(s, resetExisting, fetch, startTime, clock, allCases, groupOf);
    DistinctIdSetSize(fetch);
    CoveredCount(HeldIds(r.shown.groups, r.shown.others), HeldIds(base.groups, base.others), IdSet(fetch),
                 r.shown.processed, |fetch|);
  }

  lemma CoveredCount(now: set<string>, held: set<string>, fetched: set<string>, processed: int, n: int)
    requires now == held + fetched && held <= fetched && processed == |now| && |fetched| == n
    ensures processed == n
  {
    assert now == fetched;
  }

  /** A prepared state has a group key whenever there is a case or the state already had one. */
  lemma PreparedHasKey<G(!new)>(shown: Acc<G>, resetExisting: bool, allCases: seq<G>)
    requires allCases != []
    ensures Prepared(shown, resetExisting, allCases).groups != map[]
  {
    if resetExisting || shown.groups == map[] {
      assert allCases[0] in EmptyGroups(allCases);
    }
  }

  /** Extending never removes a key. */
  lemma ExtendsKeepsKeys<G(!new)>(base: Acc<G>, items: seq<Asset>, added: int, acc: Acc<G>, groupOf: Asset -> Option<G>)
    requires Extends(base, items, added, acc, groupOf) && base.groups != map[]
    ensures acc.groups != map[]
  {
    var g :| g in base.groups;
    assert KeyExtends(base, items, acc, groupOf, g);
  }

  /** The state a complete scan of a fetch with distinct identifiers publishes needs no preparing again. */
  lemma CompletedIsPrepared<G(!new)>(s: Session<G>, resetExisting: bool, fetch: seq<Asset>, startTime: int,
                                   clock: nat -> int, allCases: seq<G>, groupOf: Asset -> Option<G>)
    requires |fetch| > 0 && DistinctIds(fetch) && allCases != []
    ensures var r := StartScanResult(s, resetExisting, fetch, startTime, clock, None, allCases, groupOf);
            && Prepared(r.shown, false, allCases) == r.shown
            && IdSet(fetch) <= HeldIds(r.shown.groups, r.shown.others)
  {
    var base := Prepared(s.shown, resetExisting, allCases);
    var todo := ToProcess(base, fetch);
    var r := StartScanResult(s, resetExisting, fetch, startTime, clock, None, allCases, groupOf);
    ScanCompletes(s, resetExisting, fetch, startTime, clock, allCases, groupOf);
    CompletedHolds(s, resetExisting, fetch, startTime, clock, allCases, groupOf);
    PreparedHasKey(s.shown, resetExisting, allCases);
    ExtendsKeepsKeys(base, todo, |todo|, r.shown, groupOf);
  }

  /**
   * Scanning again without reset after a complete scan of the same fetch
   * (distinct identifiers, at least one group case) processes nothing and
   * leaves groups, others, processed, total and the saves as they were.
   */
  lemma RescanIsIdempotent<G(!new)>(s: Session<G>, resetExisting: bool, fetch: seq<Asset>,
                                  t1: int, clock1: nat -> int, t2: int, clock2: nat -> int,
                                  cancelAt: Option<nat>, allCases: seq<G>, groupOf: Asset -> Option<G>)
    requires |fetch| > 0 && DistinctIds(fetch) && allCases != []
    ensures var r1 := StartScanResult(s, resetExisting, fetch, t1, clock1, None, allCases, groupOf);
            var r2 := StartScanResult(r1, false, fetch, t2, clock2, cancelAt, allCases, groupOf);
            && ToProcess(Prepared(r1.shown, false, allCases), fetch) == []
            && r2.shown == r1.shown && r2.total == r1.total && r2.saves == r1.saves
            && !r2.isScanning && !r2.isCancelled
  {
    var r1 := StartScanResult(s, resetExisting, fetch, t1, clock1, None, allCases, groupOf);
    CompletedIsPrepared(s, resetExisting, fetch, t1, clock1, allCases, groupOf);
    CompletedHolds(s, resetExisting, fetch, t1, clock1, allCases, groupOf);
    UnheldAllHeld(fetch, HeldIds(r1.shown.groups, r1.shown.others));
    ScanGuards(r1, false, fetch, t2, clock2, cancelAt, allCases, groupOf);
  }

  /**
   * A cancelled scan still ends with `isScanning` false, publishes no final
   * state, and what observers see is the start state or the state of some
   * merge: a prefix of the assets to process, each classified once, with
   * whole batches counted.
   */
  lemma CancelledScanShowsPrefix<G(!new)>(s: Session<G>, resetExisting: bool, fetch: seq<Asset>, startTime: int,
                                         clock: nat -> int, c: nat, allCases: seq<G>, groupOf: Asset -> Option<G>)
    requires |fetch| > 0
    ensures var r := StartScanResult(s, resetExisting, fetch, startTime, clock, Some(c), allCases, groupOf);
            var base := Prepared(s.shown, resetExisting, allCases);
            var todo := ToProcess(base, fetch);
            && !r.isScanning && r.isCancelled == (todo != [])
            && (r.shown == base ||
                exists k :: 1 <= k <= BatchCount(|todo|) &&
                  Extends(base, todo[..Min(k * BatchSize, Min(c, |todo|))], Counted(k, |todo|, Some(c)), r.shown, groupOf))
  {
    var base := Prepared(s.shown, resetExisting, allCases);
    var todo := ToProcess(base, fetch);
    if todo != [] {
      var r0 := Run(base, Started(s, fetch, startTime).(shown := base));
      ScanBatchesPublished(r0, todo, BatchCount(|todo|), Some(c), clock, Worker(groupOf));
      var r := ScanBatches(r0, todo, BatchCount(|todo|), Some(c), clock, Worker(groupOf));
      if r.session.shown != base {
        var k :| 1 <= k <= BatchCount(|todo|) && r.session.shown == ScanBatches(r0, todo, k, Some(c), clock, Worker(groupOf)).temp;
        WorkerAbsorbs(groupOf);
        ScanBatchesTemp(r0, todo, k, Some(c), clock, Worker(groupOf), groupOf);
      }
    }
  }

  // --------------------------------------------------------------- persistence

  lemma IdsMembers(s: seq<Asset>)
    ensures forall id :: id in Ids(s) <==> id in IdSet(s)
  {
    forall id | id in IdSet(s) ensures id in Ids(s) {
      var a :| a in s && a.localIdentifier == id;
      var i :| 0 <= i < |s| && s[i] == a;
      assert Ids(s)[i] == id;
    }
  }

  /**
   * `save()` keeps counts, keys and list lengths, and the snapshot names
   * exactly the identifiers the state holds (the identifier-set round trip).
   */
  lemma SnapshotKeepsIdentifiers<G>(shown: Acc<G>, total: int)
    ensures var d := Snapshot(shown, total);
            && d.processed == shown.processed && d.total == total
            && d.groups.Keys == shown.groups.Keys
            && (forall g :: g in d.groups ==> |d.groups[g]| == |shown.groups[g]|)
            && |d.others| == |shown.others|
            && SavedIds(d) == HeldIds(shown.groups, shown.others)
  {
    var d := Snapshot(shown, total);
    IdsMembers(shown.others);
    forall g | g in shown.groups { IdsMembers(shown.groups[g]); }
    forall id | id in SavedIds(d) ensures id in HeldIds(shown.groups, shown.others) {
      if id !in d.others {
        var g :| g in d.groups && id in d.groups[g];
        var a :| a in shown.groups[g] && a.localIdentifier == id;
      }
    }
    forall id | id in HeldIds(shown.groups, shown.others) ensures id in SavedIds(d) {
      if id !in IdSet(shown.others) {
        var g, a :| g in shown.groups && a in shown.groups[g] && a.localIdentifier == id;
        assert id in IdSet(shown.groups[g]);
        assert id in d.groups[g];
      }
    }
  }
}
