/**
 Source mappings: for every originally scanned entity set, where each
 materialized navigation path now sits inside the nested transparent-identifier
 row, and the bookkeeping a navigation join performs on them.
 */
module Mappings {
  import opened Common
  import opened Metadata
  import opened Expressions
  import opened NavigationTree

  /** One `TransparentIdentifierMapping` element: the member path that reaches the end of a navigation path. */
  datatype TIEntry = TIEntry(path: seq<string>, navigations: seq<Nav>)

  /**
   A `SourceMapping`. `entries` is its `TransparentIdentifierMapping`;
   `foundNavigations` holds the navigation trees found for this root.
   */
  datatype SourceMapping = SourceMapping(
    rootEntityType: string,
    initialPath: Option<seq<string>>,
    entries: seq<TIEntry>,
    foundNavigations: seq<NavigationTreeNode>)

  /**
   The mapping `VisitConstant` creates for a freshly scanned entity set: the root
   itself, at the empty path. Alone, it is consistent with any row that sits where
   the empty navigation path of the first mapping is placed, it cannot make the
   accessor lookup ambiguous, and it is rooted in any catalog.
   */
  function InitialMapping(rootEntityType: string): (m: SourceMapping)
    ensures m.rootEntityType == rootEntityType && m.foundNavigations == []
    ensures forall row: Row, place: Placement :: place(0, []) == row ==> Consistent([m], row, place)
    ensures Unambiguous([m])
    ensures forall catalog :: Rooted(catalog, m)
  {
    var m := SourceMapping(rootEntityType, None, [TIEntry([], [])], []);
    assert Chain(rootEntityType, []);
    m
  }

  /**
   `BuildTransparentIdentifierAccessorExpression`: member accesses along the
   initial path followed by the accessor path. A missing accessor path with no
   initial path leaves `source` as it is; a missing accessor path behind a set
   initial path is the null argument `Concat` refuses.
   */
  function BuildTransparentIdentifierAccessorExpression(
    source: Expr, initialPath: Option<seq<string>>, accessorPath: Option<seq<string>>): (r: Result<Expr>)
    ensures r.Failure? <==> initialPath.Some? && accessorPath.None?
    ensures r.Failure? ==> r.error == NullAccessorPath
    ensures initialPath.None? && accessorPath.None? ==> r == Success(source)
    ensures r.Success? && !source.Field? ==>
      SplitFieldChain(r.value) == (source, initialPath.GetOr([]) + accessorPath.GetOr([]))
  {
    if initialPath.Some? && accessorPath.None? then Failure(NullAccessorPath)
    else
      var fullPath := initialPath.GetOr([]) + accessorPath.GetOr([]);
      if source.Field? then Success(FieldChain(source, fullPath))
      else
        SplitFieldChainInverts(source, fullPath);
        Success(FieldChain(source, fullPath))
  }

  /** Read from a row parameter, the accessor reaches the row found along the full path. */
  lemma AccessorMeaning(p: Param, initialPath: Option<seq<string>>, accessorPath: Option<seq<string>>, env: Env)
    requires p in env
    ensures var r := BuildTransparentIdentifierAccessorExpression(ParamRef(p), initialPath, accessorPath);
      r.Success? ==> Eval(r.value, env) == Resolve(env[p], initialPath.GetOr([]) + accessorPath.GetOr([]))
  {
    FieldChainMeaning(p, initialPath.GetOr([]) + accessorPath.GetOr([]), env);
  }

  /**
   The "already materialized" test of `AddNavigationJoin`: some entry's
   navigations carry, one by one, the names of `path`. Navigations are compared
   by name only.
   */
  predicate IsMaterialized(m: SourceMapping, path: seq<string>) {
    exists j :: 0 <= j < |m.entries| && Names(m.entries[j].navigations) == path
  }

  /** The positions, in ascending order, of the entries among the first `n` whose navigation path is `navigations`. */
  function MatchingIndices(entries: seq<TIEntry>, navigations: seq<Nav>, n: nat): (r: seq<nat>)
    requires n <= |entries|
    ensures forall a :: 0 <= a < |r| ==> r[a] < n && entries[r[a]].navigations == navigations
    ensures forall j :: 0 <= j < n && entries[j].navigations == navigations ==> j in r
    ensures forall a, b :: 0 <= a < b < |r| ==> r[a] < r[b]
  {
    if n == 0 then []
    else
      var before := MatchingIndices(entries, navigations, n - 1);
      if entries[n - 1].navigations == navigations then
        AppendMatchingIndex(entries, navigations, n, before);
        before + [n - 1]
      else before
  }

  /** The step of `MatchingIndices` that appends position `n - 1`. */
  lemma AppendMatchingIndex(entries: seq<TIEntry>, navigations: seq<Nav>, n: nat, before: seq<nat>)
    requires 0 < n <= |entries| && entries[n - 1].navigations == navigations
    requires forall a :: 0 <= a < |before| ==> before[a] < n - 1 && entries[before[a]].navigations == navigations
    requires forall j :: 0 <= j < n - 1 && entries[j].navigations == navigations ==> j in before
    requires forall a, b :: 0 <= a < b < |before| ==> before[a] < before[b]
    ensures var r := before + [n - 1];
      && (forall a :: 0 <= a < |r| ==> r[a] < n && entries[r[a]].navigations == navigations)
      && (forall j :: 0 <= j < n && entries[j].navigations == navigations ==> j in r)
      && (forall a, b :: 0 <= a < b < |r| ==> r[a] < r[b])
  {
    var r := before + [n - 1];
    assert forall a :: 0 <= a < |before| ==> r[a] == before[a];
    assert r[|before|] == n - 1;
  }

  /**
   The accessor-path lookup of `AddNavigationJoin`: the path of the single entry
   whose navigations are exactly `navigationPath` (compared by identity), none
   when there is no such entry, and the exception of `SingleOrDefault` when
   there are several.
   */
  function LookupAccessorPath(entries: seq<TIEntry>, navigationPath: seq<Nav>): (r: Result<Option<seq<string>>>)
    ensures r == Success(None) <==> forall j :: 0 <= j < |entries| ==> entries[j].navigations != navigationPath
    ensures r.Failure? <==>
      exists a, b :: 0 <= a < b < |entries| && entries[a].navigations == navigationPath && entries[b].navigations == navigationPath
    ensures r.Failure? ==> r.error == AmbiguousAccessorPath
    ensures r.Success? && r.value.Some? ==>
      exists j :: 0 <= j < |entries| && entries[j].navigations == navigationPath && entries[j].path == r.value.value
  {
    var matches := MatchingIndices(entries, navigationPath, |entries|);
    if |matches| == 0 then Success(None)
    else if |matches| == 1 then
      Success(Some(entries[matches[0]].path))
    else
      assert matches[0] < matches[1];
      Failure(AmbiguousAccessorPath)
  }

  /** Every entry of the mapping has "Outer" (or "Outer", "Outer") put in front of its path. */
  function Shift(m: SourceMapping, prefix: seq<string>): (r: SourceMapping)
    ensures r == m.(entries := r.entries)
    ensures ShiftedFrom(m.entries, r.entries, prefix) && |r.entries| == |m.entries|
  {
    m.(entries := seq(|m.entries|, j requires 0 <= j < |m.entries| =>
      TIEntry(prefix + m.entries[j].path, m.entries[j].navigations)))
  }

  /** `after` starts with the entries of `before`, each moved under `prefix`. */
  ghost predicate ShiftedFrom(before: seq<TIEntry>, after: seq<TIEntry>, prefix: seq<string>) {
    && |before| <= |after|
    && forall j :: 0 <= j < |before| ==> after[j] == TIEntry(prefix + before[j].path, before[j].navigations)
  }

  /** The mapping has an entry for its root, with the empty navigation path. */
  predicate HasRootEntry(m: SourceMapping) {
    exists j :: 0 <= j < |m.entries| && |m.entries[j].navigations| == 0
  }

  /** A root-level join adds the root entry first when it is missing. */
  predicate AddsRootEntry(m: SourceMapping, navigationPath: seq<Nav>) {
    navigationPath == [] && !HasRootEntry(m)
  }

  function WithRootEntry(m: SourceMapping, navigationPath: seq<Nav>): SourceMapping {
    if AddsRootEntry(m, navigationPath) then m.(entries := m.entries + [TIEntry([], [])]) else m
  }

  /** The entry a join records for the navigation it materialized: the new target sits at `Inner`. */
  function InnerEntry(navigationPath: seq<Nav>, navigation: Nav): TIEntry {
    TIEntry(["Inner"], navigationPath + [navigation])
  }

  function Append(m: SourceMapping, e: TIEntry): SourceMapping {
    m.(entries := m.entries + [e])
  }

  /**
   The join bookkeeping as the code does it: the root entry of the processed
   mapping when missing, the shift of every entry of every mapping, and then the
   new `Inner` entry added to every mapping, not only to the processed one.
   */
  function RecordJoinAsWritten(ms: seq<SourceMapping>, k: nat, navigationPath: seq<Nav>, navigation: Nav, optional: bool)
    : (r: seq<SourceMapping>)
    requires k < |ms|
    ensures |r| == |ms|
    ensures forall i :: 0 <= i < |ms| ==> r[i] == ms[i].(entries := r[i].entries)
    ensures forall i :: 0 <= i < |ms| ==> ShiftedFrom(ms[i].entries, r[i].entries, OuterPrefix(optional))
    ensures forall i :: 0 <= i < |ms| ==>
      |r[i].entries| == |ms[i].entries| + (if i == k && AddsRootEntry(ms[k], navigationPath) then 2 else 1)
      && r[i].entries[|r[i].entries| - 1] == InnerEntry(navigationPath, navigation)
    ensures AddsRootEntry(ms[k], navigationPath) ==> r[k].entries[|ms[k].entries|] == TIEntry(OuterPrefix(optional), [])
  {
    var withRoot := ms[k := WithRootEntry(ms[k], navigationPath)];
    seq(|ms|, i requires 0 <= i < |ms| => Append(Shift(withRoot[i], OuterPrefix(optional)), InnerEntry(navigationPath, navigation)))
  }

  /**
   The join bookkeeping with the new `Inner` entry recorded on the processed
   mapping only: every other mapping is just shifted.
   */
  function RecordJoin(ms: seq<SourceMapping>, k: nat, navigationPath: seq<Nav>, navigation: Nav, optional: bool)
    : (r: seq<SourceMapping>)
    requires k < |ms|
    ensures |r| == |ms|
    ensures forall i :: 0 <= i < |ms| ==> r[i] == ms[i].(entries := r[i].entries)
    ensures forall i :: 0 <= i < |ms| ==> ShiftedFrom(ms[i].entries, r[i].entries, OuterPrefix(optional))
    ensures forall i :: 0 <= i < |ms| && i != k ==> |r[i].entries| == |ms[i].entries|
    ensures |r[k].entries| == |ms[k].entries| + (if AddsRootEntry(ms[k], navigationPath) then 2 else 1)
    ensures r[k].entries[|r[k].entries| - 1] == InnerEntry(navigationPath, navigation)
    ensures AddsRootEntry(ms[k], navigationPath) ==> r[k].entries[|ms[k].entries|] == TIEntry(OuterPrefix(optional), [])
  {
    var withRoot := ms[k := WithRootEntry(ms[k], navigationPath)];
    seq(|ms|, i requires 0 <= i < |ms| =>
      var shifted := Shift(withRoot[i], OuterPrefix(optional));
      if i == k then Append(shifted, InnerEntry(navigationPath, navigation)) else shifted)
  }

  /**
   Which join bookkeeping a join records: the code's, which adds the new
   `Inner` entry to every mapping, or the corrected one, which adds it to the
   processed mapping only.
   */
  datatype Bookkeeping = AsWritten | Corrected

  /**
   The bookkeeping of a join under either choice. Both shift every mapping and
   end the processed one with the new `Inner` entry; they differ only on the
   other mappings.
   */
  function Record(b: Bookkeeping, ms: seq<SourceMapping>, k: nat, navigationPath: seq<Nav>, navigation: Nav, optional: bool)
    : (r: seq<SourceMapping>)
    requires k < |ms|
    ensures |r| == |ms|
    ensures forall i :: 0 <= i < |ms| ==> r[i] == ms[i].(entries := r[i].entries)
    ensures forall i :: 0 <= i < |ms| ==> ShiftedFrom(ms[i].entries, r[i].entries, OuterPrefix(optional))
    ensures |r[k].entries| == |ms[k].entries| + (if AddsRootEntry(ms[k], navigationPath) then 2 else 1)
    ensures r[k].entries[|r[k].entries| - 1] == InnerEntry(navigationPath, navigation)
    ensures forall i :: 0 <= i < |ms| && i != k ==>
      |r[i].entries| == |ms[i].entries| + (if b == AsWritten then 1 else 0)
  {
    match b
    case AsWritten => RecordJoinAsWritten(ms, k, navigationPath, navigation, optional)
    case Corrected => RecordJoin(ms, k, navigationPath, navigation, optional)
  }

  /**
   Where each entry's navigation path ends inside a row: `place(i, navs)` is the
   row that the navigations `navs`, followed from the root of mapping `i`, reach.
   */
  type Placement = (nat, seq<Nav>) -> Row

  /** Every entry's member path leads, in `row`, to the row its navigation path reaches. */
  ghost predicate Consistent(ms: seq<SourceMapping>, row: Row, place: Placement) {
    forall i, j :: 0 <= i < |ms| && 0 <= j < |ms[i].entries| ==>
      Resolve(row, ms[i].entries[j].path) == Some(place(i, ms[i].entries[j].navigations))
  }

  /** The placement after a join: the new navigation path of mapping `k` reaches the joined target. */
  function Placed(place: Placement, k: nat, navigations: seq<Nav>, target: Row): Placement {
    (i: nat, navs: seq<Nav>) => if i == k && navs == navigations then target else place(i, navs)
  }

  /**
   The path-consistency theorem of the join bookkeeping: when the entries found
   their rows in the row the join started from, the recorded entries find them
   in the joined row, and the new entry finds the joined target.
   */
  lemma RecordJoinKeepsConsistent(
    ms: seq<SourceMapping>, k: nat, navigationPath: seq<Nav>, navigation: Nav, optional: bool,
    place: Placement, previous: Row, target: Row, group: Row)
    requires k < |ms|
    requires Consistent(ms, previous, place)
    requires forall j :: 0 <= j < |ms[k].entries| ==> ms[k].entries[j].navigations != navigationPath + [navigation]
    requires AddsRootEntry(ms[k], navigationPath) ==> place(k, []) == previous
    ensures Consistent(RecordJoin(ms, k, navigationPath, navigation, optional),
                       JoinedRow(previous, target, group, optional),
                       Placed(place, k, navigationPath + [navigation], target))
  {
    var r := RecordJoin(ms, k, navigationPath, navigation, optional);
    var joined := JoinedRow(previous, target, group, optional);
    var place' := Placed(place, k, navigationPath + [navigation], target);
    forall i, j | 0 <= i < |r| && 0 <= j < |r[i].entries|
      ensures Resolve(joined, r[i].entries[j].path) == Some(place'(i, r[i].entries[j].navigations))
    {
      if j < |ms[i].entries| {
        JoinedRowResolution(previous, target, group, optional, ms[i].entries[j].path);
      } else if j == |r[i].entries| - 1 {
        JoinedRowResolution(previous, target, group, optional, []);
      } else {
        JoinedRowResolution(previous, target, group, optional, []);
        assert OuterPrefix(optional) + [] == OuterPrefix(optional);
      }
    }
  }

  /** Side by side: the outer mappings first, then the inner ones renumbered after them. */
  function Merged(outerPlace: Placement, outerCount: nat, innerPlace: Placement): Placement {
    (i: nat, navs: seq<Nav>) => if i < outerCount then outerPlace(i, navs) else innerPlace(i - outerCount, navs)
  }

  /** The two-source merge: outer entries under `Outer`, inner entries under `Inner`, outer mappings first. */
  function MergeMappings(outer: seq<SourceMapping>, inner: seq<SourceMapping>): (r: seq<SourceMapping>)
    ensures |r| == |outer| + |inner|
    ensures forall i :: 0 <= i < |outer| ==> r[i] == Shift(outer[i], ["Outer"])
    ensures forall i :: 0 <= i < |inner| ==> r[|outer| + i] == Shift(inner[i], ["Inner"])
  {
    seq(|outer|, i requires 0 <= i < |outer| => Shift(outer[i], ["Outer"]))
      + seq(|inner|, i requires 0 <= i < |inner| => Shift(inner[i], ["Inner"]))
  }

  /** After the merge, every entry finds in the paired row what it found in its own side's row. */
  lemma MergeKeepsConsistent(
    outer: seq<SourceMapping>, inner: seq<SourceMapping>,
    outerRow: Row, innerRow: Row, outerPlace: Placement, innerPlace: Placement)
    requires Consistent(outer, outerRow, outerPlace)
    requires Consistent(inner, innerRow, innerPlace)
    ensures Consistent(MergeMappings(outer, inner), TIRow(outerRow, innerRow), Merged(outerPlace, |outer|, innerPlace))
  {
    var r := MergeMappings(outer, inner);
    var row := TIRow(outerRow, innerRow);
    var place := Merged(outerPlace, |outer|, innerPlace);
    assert Resolve(row, ["Outer"]) == Some(outerRow) by { assert ["Outer"][..0] == []; }
    assert Resolve(row, ["Inner"]) == Some(innerRow) by { assert ["Inner"][..0] == []; }
    ShiftedConsistent(outer, "Outer", row, outerRow, outerPlace);
    ShiftedConsistent(inner, "Inner", row, innerRow, innerPlace);
    forall i, j | 0 <= i < |r| && 0 <= j < |r[i].entries|
      ensures Resolve(row, r[i].entries[j].path) == Some(place(i, r[i].entries[j].navigations))
    {
      if i < |outer| {
        assert r[i] == Shift(outer[i], ["Outer"]);
      } else {
        assert r[i] == Shift(inner[i - |outer|], ["Inner"]);
      }
    }
  }

  /** Every entry of a consistent list, moved under `side`, resolves from the paired row as it did from that side's row. */
  lemma ShiftedConsistent(ms: seq<SourceMapping>, side: string, row: Row, sideRow: Row, place: Placement)
    requires Consistent(ms, sideRow, place) && Resolve(row, [side]) == Some(sideRow)
    ensures forall i, j :: 0 <= i < |ms| && 0 <= j < |Shift(ms[i], [side]).entries| ==>
      && Shift(ms[i], [side]).entries[j].navigations == ms[i].entries[j].navigations
      && Resolve(row, Shift(ms[i], [side]).entries[j].path) == Some(place(i, ms[i].entries[j].navigations))
  {
    forall i, j | 0 <= i < |ms| && 0 <= j < |Shift(ms[i], [side]).entries|
      ensures Shift(ms[i], [side]).entries[j].navigations == ms[i].entries[j].navigations
      ensures Resolve(row, Shift(ms[i], [side]).entries[j].path) == Some(place(i, ms[i].entries[j].navigations))
    {
      ShiftKeepsResolution(ms[i], side, row, sideRow, j);
    }
  }

  /** An entry moved under `side` resolves, from the paired row, to what it resolved to from that side's row. */
  lemma ShiftKeepsResolution(m: SourceMapping, side: string, row: Row, sideRow: Row, j: nat)
    requires Resolve(row, [side]) == Some(sideRow) && j < |m.entries|
    ensures Shift(m, [side]).entries[j].navigations == m.entries[j].navigations
    ensures Resolve(row, Shift(m, [side]).entries[j].path) == Resolve(sideRow, m.entries[j].path)
  {
    assert Shift(m, [side]).entries[j].path == [side] + m.entries[j].path;
    ResolveThrough(row, [side], m.entries[j].path);
  }

  /** Every entry of the mapping walks from its root through navigations the catalogue declares. */
  ghost predicate Rooted(catalog: set<Nav>, m: SourceMapping) {
    forall j :: 0 <= j < |m.entries| ==>
      Chain(m.rootEntityType, m.entries[j].navigations) && InCatalog(catalog, m.entries[j].navigations)
  }

  /**
   On a rooted mapping the name-based test is exact: a navigation path from the
   mapping's root passes it exactly when an entry holds that very path.
   */
  lemma NameTestExact(catalog: set<Nav>, m: SourceMapping, navs: seq<Nav>)
    requires UniqueNames(catalog) && Rooted(catalog, m)
    requires Chain(m.rootEntityType, navs) && InCatalog(catalog, navs)
    ensures IsMaterialized(m, Names(navs)) <==> exists j :: 0 <= j < |m.entries| && m.entries[j].navigations == navs
  {
    if IsMaterialized(m, Names(navs)) {
      var j :| 0 <= j < |m.entries| && Names(m.entries[j].navigations) == Names(navs);
      NamesDetermineChain(catalog, m.rootEntityType, m.entries[j].navigations, navs);
    }
  }

  /** The corrected bookkeeping keeps every mapping rooted when the new path walks from the processed root. */
  lemma RecordJoinKeepsRooted(
    catalog: set<Nav>, ms: seq<SourceMapping>, k: nat, navigationPath: seq<Nav>, navigation: Nav, optional: bool)
    requires k < |ms|
    requires forall i :: 0 <= i < |ms| ==> Rooted(catalog, ms[i])
    requires Chain(ms[k].rootEntityType, navigationPath + [navigation])
    requires InCatalog(catalog, navigationPath + [navigation])
    ensures var r := RecordJoin(ms, k, navigationPath, navigation, optional);
      forall i :: 0 <= i < |r| ==> Rooted(catalog, r[i])
  {
  }

  /**
   Orders joined with invoices: two source mappings whose roots both have a
   navigation named "Customer". After the order's customer is joined, the invoice mapping passes
   the name test for "Customer" although it holds no entry for the invoice's own
   navigation, so that navigation would never be joined. With the entry recorded
   on the processed mapping only, the invoice's customer still counts as missing.
   */
  lemma SharedInnerEntryMisleadsNameTest()
    ensures
      var orderCustomer := Nav(1, "Customer", "Order", "Customer", true, [], []);
      var invoiceCustomer := Nav(2, "Customer", "Invoice", "Customer", true, [], []);
      var ms := [InitialMapping("Order"), InitialMapping("Invoice")];
      var asWritten := RecordJoinAsWritten(ms, 0, [], orderCustomer, false);
      var corrected := RecordJoin(ms, 0, [], orderCustomer, false);
      && IsMaterialized(asWritten[1], Names([invoiceCustomer]))
      && (forall j :: 0 <= j < |asWritten[1].entries| ==> asWritten[1].entries[j].navigations != [invoiceCustomer])
      && !IsMaterialized(corrected[1], Names([invoiceCustomer]))
  {
    var orderCustomer := Nav(1, "Customer", "Order", "Customer", true, [], []);
    var invoiceCustomer := Nav(2, "Customer", "Invoice", "Customer", true, [], []);
    var ms := [InitialMapping("Order"), InitialMapping("Invoice")];
    var asWritten := RecordJoinAsWritten(ms, 0, [], orderCustomer, false);
    var corrected := RecordJoin(ms, 0, [], orderCustomer, false);
    assert HasRootEntry(ms[0]) by {
      assert |ms[0].entries[0].navigations| == 0;
    }
    assert |asWritten[1].entries| == 2;
    assert asWritten[1].entries[1] == InnerEntry([], orderCustomer);
    assert Names(asWritten[1].entries[1].navigations) == Names([invoiceCustomer]);
    assert |corrected[1].entries| == 1;
    assert corrected[1].entries[0].navigations == [];
  }

  /** No two entries of the mapping hold the same navigation path. */
  ghost predicate DistinctNavigations(m: SourceMapping) {
    forall a, b :: 0 <= a < b < |m.entries| ==> m.entries[a].navigations != m.entries[b].navigations
  }

  /** With distinct navigation paths the accessor lookup never finds two candidates. */
  lemma DistinctLookupSucceeds(m: SourceMapping, navigationPath: seq<Nav>)
    requires DistinctNavigations(m)
    ensures LookupAccessorPath(m.entries, navigationPath).Success?
  {
  }

  /** Every mapping holds distinct navigation paths and has no initial path: the lookups of a join cannot throw. */
  ghost predicate Unambiguous(ms: seq<SourceMapping>) {
    forall i :: 0 <= i < |ms| ==> DistinctNavigations(ms[i]) && ms[i].initialPath.None?
  }

  /** The corrected bookkeeping keeps the mappings unambiguous when the new navigation path is new to its mapping. */
  lemma RecordJoinKeepsUnambiguous(ms: seq<SourceMapping>, k: nat, navigationPath: seq<Nav>, navigation: Nav, optional: bool)
    requires k < |ms|
    requires Unambiguous(ms)
    requires forall j :: 0 <= j < |ms[k].entries| ==> ms[k].entries[j].navigations != navigationPath + [navigation]
    ensures Unambiguous(RecordJoin(ms, k, navigationPath, navigation, optional))
  {
    var rs := RecordJoin(ms, k, navigationPath, navigation, optional);
    forall i | 0 <= i < |rs|
      ensures DistinctNavigations(rs[i])
    {
      var r := rs[i];
      forall a, b | 0 <= a < b < |r.entries|
        ensures r.entries[a].navigations != r.entries[b].navigations
      {
        if i == k && b == |r.entries| - 1 {
          assert |r.entries[b].navigations| >= 1;
        } else if i == k && b >= |ms[k].entries| {
          assert r.entries[b].navigations == [];
          assert !HasRootEntry(ms[k]);
        }
      }
    }
  }
}
