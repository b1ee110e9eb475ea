/**
 * The home screen's group list: one row per non-empty photo group, in
 * `PhotoGroup.allCases` order, then an "OTHERS" row when anything is
 * unclassified; the count each row shows; and the detail model a selected
 * row opens.
 */
module Home {
  import opened Optional
  import opened ScanSpec
  import opened ImageSpec
  import opened ImageProperties

  /** The name of the row for the unclassified assets. */
  const OthersName: string := "OTHERS"

  /** An element of `allGroups`: the row's name and its group (`nil` for OTHERS). */
  datatype Row<G> = Row(name: string, group: Option<G>)

  /**
   * The `compactMap` of `allGroups`: a row for each case with a non-empty
   * list, named by `title` (`rawValue.uppercased()`).
   */
  function GroupRows<G>(cases: seq<G>, groups: map<G, seq<Asset>>, title: G -> string): seq<Row<G>>
    decreases |cases|
  {
    if cases == [] then []
    else (if Lookup(groups, cases[0]) == [] then [] else [Row(title(cases[0]), Some(cases[0]))])
         + GroupRows(cases[1..], groups, title)
  }

  /** `allGroups` */
  function AllGroups<G>(allCases: seq<G>, groups: map<G, seq<Asset>>, others: seq<Asset>,
                        title: G -> string): seq<Row<G>>
  {
    GroupRows(allCases, groups, title) + if others != [] then [Row(OthersName, None)] else []
  }

  /** `collectionView(_:numberOfItemsInSection:)` */
  function NumberOfItems<G>(allCases: seq<G>, groups: map<G, seq<Asset>>, others: seq<Asset>,
                            title: G -> string): nat
  {
    |AllGroups(allCases, groups, others, title)|
  }

  /** The count `cellForItemAt` shows for a row. */
  function RowCount<G>(row: Row<G>, groups: map<G, seq<Asset>>, others: seq<Asset>): nat {
    match row.group
    case Some(g) => |Lookup(groups, g)|
    case None => |others|
  }

  /** `collectionView(_:cellForItemAt:)`: the name and the count of row `item`. */
  function CellFor<G>(allCases: seq<G>, groups: map<G, seq<Asset>>, others: seq<Asset>,
                      title: G -> string, item: nat): (string, nat)
    requires item < NumberOfItems(allCases, groups, others, title)
  {
    var row := AllGroups(allCases, groups, others, title)[item];
    (row.name, RowCount(row, groups, others))
  }

  /**
   * `collectionView(_:didSelectItemAt:)`: the title and the detail model
   * built from the row's `(name, group)`.
   */
  function DidSelect<G, Img>(allCases: seq<G>, groups: map<G, seq<Asset>>, others: seq<Asset>,
                             title: G -> string, item: nat, requestId: nat -> int): (string, Detail<Img>)
    requires item < NumberOfItems(allCases, groups, others, title)
  {
    var row := AllGroups(allCases, groups, others, title)[item];
    (row.name, Initial(groups, others, row.group, requestId))
  }

  // ---------------------------------------------------------------------
  // Properties
  // ---------------------------------------------------------------------

  /** The group rows of two runs of cases are those of each, in order. */
  lemma {:induction false} GroupRowsAppend<G>(a: seq<G>, b: seq<G>, groups: map<G, seq<Asset>>, title: G -> string)
    ensures GroupRows(a + b, groups, title) == GroupRows(a, groups, title) + GroupRows(b, groups, title)
    decreases |a|
  {
    if a == [] {
      assert a + b == b;
    } else {
      assert (a + b)[0] == a[0] && (a + b)[1..] == a[1..] + b;
      GroupRowsAppend(a[1..], b, groups, title);
      var h := if Lookup(groups, a[0]) == [] then [] else [Row(title(a[0]), Some(a[0]))];
      calc {
        GroupRows(a + b, groups, title);
        h + GroupRows(a[1..] + b, groups, title);
        h + (GroupRows(a[1..], groups, title) + GroupRows(b, groups, title));
        (h + GroupRows(a[1..], groups, title)) + GroupRows(b, groups, title);
        GroupRows(a, groups, title) + GroupRows(b, groups, title);
      }
    }
  }

  /**
   * A group row is exactly a case with a non-empty list, named by its
   * title; no group row stands for OTHERS.
   */
  lemma {:induction false} GroupRowsMembers<G>(cases: seq<G>, groups: map<G, seq<Asset>>, title: G -> string)
    ensures forall r :: r in GroupRows(cases, groups, title) ==>
              r.group.Some? && r.group.value in cases && Lookup(groups, r.group.value) != [] && r.name == title(r.group.value)
    ensures forall g :: g in cases && Lookup(groups, g) != [] ==> Row(title(g), Some(g)) in GroupRows(cases, groups, title)
    decreases |cases|
  {
    if cases != [] {
      GroupRowsMembers(cases[1..], groups, title);
      assert forall g :: g in cases <==> g == cases[0] || g in cases[1..];
    }
  }

  /**
   * With distinct cases there is one group row per non-empty group, so the
   * row count is the number of non-empty groups plus one for OTHERS.
   */
  lemma {:induction false} GroupRowsCount<G>(cases: seq<G>, groups: map<G, seq<Asset>>, title: G -> string)
    requires DistinctCases(cases)
    ensures |GroupRows(cases, groups, title)| == |set g | g in cases && Lookup(groups, g) != []|
    decreases |cases|
  {
    if cases != [] {
      var rest := cases[1..];
      assert DistinctCases(rest) by {
        forall i, j | 0 <= i < j < |rest| ensures rest[i] != rest[j] {
          assert rest[i] == cases[i + 1] && rest[j] == cases[j + 1];
        }
      }
      GroupRowsCount(rest, groups, title);
      var here := set g | g in cases && Lookup(groups, g) != [];
      var there := set g | g in rest && Lookup(groups, g) != [];
      assert cases[0] !in rest by {
        forall i | 0 <= i < |rest| ensures rest[i] != cases[0] {
          assert rest[i] == cases[i + 1];
        }
      }
      assert forall g :: g in cases <==> g == cases[0] || g in rest;
      if Lookup(groups, cases[0]) == [] {
        assert here == there;
      } else {
        assert here == there + {cases[0]};
      }
    }
  }

  lemma RowCountMeaning<G>(allCases: seq<G>, groups: map<G, seq<Asset>>, others: seq<Asset>, title: G -> string)
    requires DistinctCases(allCases)
    ensures NumberOfItems(allCases, groups, others, title) ==
            |set g | g in allCases && Lookup(groups, g) != []| + if others != [] then 1 else 0
  {
    GroupRowsCount(allCases, groups, title);
  }

  /**
   * `allGroups` lists exactly the non-empty groups, each under its title,
   * in case order, and an OTHERS row exactly when `others` is non-empty,
   * always last.
   */
  lemma AllGroupsShape<G>(allCases: seq<G>, groups: map<G, seq<Asset>>, others: seq<Asset>, title: G -> string)
    ensures var rows := AllGroups(allCases, groups, others, title);
            && (forall g :: Row(title(g), Some(g)) in rows <==> g in allCases && Lookup(groups, g) != [])
            && (forall r :: r in rows && r.group.Some? ==> r.name == title(r.group.value))
            && (Row(OthersName, None) in rows <==> others != [])
            && (others != [] ==> rows[|rows| - 1] == Row(OthersName, None))
            && (forall i :: 0 <= i < |rows| && rows[i].group.None? ==> i == |rows| - 1)
  {
    GroupRowsMembers(allCases, groups, title);
    var valid := GroupRows(allCases, groups, title);
    var rows := AllGroups(allCases, groups, others, title);
    assert forall i :: 0 <= i < |valid| ==> valid[i] in valid && rows[i] == valid[i];
  }

  /**
   * Every row shows a positive count: its group's list length, or the
   * number of unclassified assets for OTHERS.
   */
  lemma CellCountPositive<G>(allCases: seq<G>, groups: map<G, seq<Asset>>, others: seq<Asset>,
                             title: G -> string, item: nat)
    requires item < NumberOfItems(allCases, groups, others, title)
    ensures CellFor(allCases, groups, others, title, item).1 > 0
    ensures var row := AllGroups(allCases, groups, others, title)[item];
            CellFor(allCases, groups, others, title, item) ==
            (row.name, if row.group.Some? then |Lookup(groups, row.group.value)| else |others|)
  {
    AllGroupsShape(allCases, groups, others, title);
    GroupRowsMembers(allCases, groups, title);
    var rows := AllGroups(allCases, groups, others, title);
    var valid := GroupRows(allCases, groups, title);
    if item < |valid| {
      assert rows[item] == valid[item] && valid[item] in valid;
    }
  }

  /**
   * Selecting a row opens the detail screen under the name the cell
   * shows, over exactly as many assets as the cell counts.
   */
  lemma SelectMatchesCell<G, Img>(allCases: seq<G>, groups: map<G, seq<Asset>>, others: seq<Asset>,
                                  title: G -> string, item: nat, requestId: nat -> int)
    requires item < NumberOfItems(allCases, groups, others, title)
    ensures var (name, detail) := DidSelect<G, Img>(allCases, groups, others, title, item, requestId);
            && name == CellFor(allCases, groups, others, title, item).0
            && |detail.assets| == CellFor(allCases, groups, others, title, item).1
            && |detail.images| == |detail.assets|
  {
    var row := AllGroups(allCases, groups, others, title)[item];
    InitialRequests<G, Img>(groups, others, row.group, requestId);
  }
}
