/**
 The join injector: `AddNavigationJoin` turns each not yet materialized
 navigation of a navigation tree into a join against a fresh scan of its
 target, keeping the source mappings and the pending selector in step.
 */
module Joins {
  import opened Common
  import opened Metadata
  import opened Expressions
  import opened NavigationTree
  import opened Keys
  import opened Visitors
  import opened Mappings

  /**
   What `AddNavigationJoin` threads from call to call: the rewritten source, the
   current row parameter, the pending selector and all source mappings. `next`
   is the first parameter id not yet handed out; `bookkeeping` says how a join
   records its `Inner` entry.
   */
  datatype JoinState = JoinState(
    source: Expr,
    parameter: Param,
    pendingSelector: Option<Lambda>,
    mappings: seq<SourceMapping>,
    next: nat,
    bookkeeping: Bookkeeping)

  /** The operators a navigation join adds to the query. */
  predicate IsJoinOperator(op: Op) {
    op == Op.Join || op == GroupJoin || op == SelectManyWithResultSelector
  }

  /** The row type a navigation join produces; the optional form keeps the grouping beside the previous row. */
  function JoinedRowType(sourceType: Ty, target: string, optional: bool): Ty {
    if optional then TransparentIdentifierTy(TransparentIdentifierTy(sourceType, SequenceTy(EntityTy(target))), EntityTy(target))
    else TransparentIdentifierTy(sourceType, EntityTy(target))
  }

  /** A result selector `(a, b) => new TransparentIdentifier(a, b)`. */
  predicate PairsParameters(l: Expr) {
    l.Lam? && |l.params| == 2 && l.body == NewTI(ParamRef(l.params[0]), ParamRef(l.params[1]))
  }

  /** The five arguments of a navigation `Join` or `GroupJoin` over `source`. */
  predicate JoinArguments(call: Expr, source: Expr, target: string, outerParameter: Param, innerParameter: Param, keys: (Expr, Expr)) {
    && call.Call?
    && |call.args| == 5
    && call.args[0] == source
    && call.args[1] == EntityScan(target)
    && call.args[2] == Lam([outerParameter], keys.0)
    && call.args[3] == Lam([innerParameter], keys.1)
    && PairsParameters(call.args[4])
  }

  /**
   The join a navigation becomes. A required navigation gives
   `source.Join(scan, outerKey, innerKey, (o, i) => new TI(o, i))`; an optional
   one gives a group join paired with its grouping, flattened by
   `SelectMany(x => x.Inner.DefaultIfEmpty(), (x, i) => new TI(x, i))`. The
   result also carries the new row parameter and the next unused id.
   */
  function EmitJoin(
    source: Expr, outerParameter: Param, innerParameter: Param, keys: (Expr, Expr),
    target: string, optional: bool, next: nat): (r: (Expr, Param, nat))
    ensures r.1.ty == JoinedRowType(outerParameter.ty, target, optional)
    ensures r.1.name == innerParameter.name
    ensures next <= r.1.id < r.2
    ensures Spine(r.0) == (if optional then [SelectManyWithResultSelector, GroupJoin] else [Op.Join]) + Spine(source)
    ensures !optional ==> JoinArguments(r.0, source, target, outerParameter, innerParameter, keys)
    ensures optional ==>
      && |r.0.args| == 3
      && JoinArguments(r.0.args[0], source, target, outerParameter, innerParameter, keys)
      && PairsParameters(r.0.args[2]) && r.0.args[2].params[1] == innerParameter
      && r.0.args[1] == Lam([r.0.args[2].params[0]], Call(DefaultIfEmpty, [Field(ParamRef(r.0.args[2].params[0]), "Inner")]))
  {
    if optional then
      var grouping := SequenceTy(EntityTy(target));
      var groupJoinType := TransparentIdentifierTy(outerParameter.ty, grouping);
      var resultOuter := Param(next, outerParameter.name, outerParameter.ty);
      var resultInner := Param(next + 1, innerParameter.name, grouping);
      var groupJoin := Call(GroupJoin, [
        source, EntityScan(target), Lam([outerParameter], keys.0), Lam([innerParameter], keys.1),
        Lam([resultOuter, resultInner], NewTI(ParamRef(resultOuter), ParamRef(resultInner)))]);
      var x := Param(next + 2, "", groupJoinType);
      var collection := Lam([x], Call(DefaultIfEmpty, [Field(ParamRef(x), "Inner")]));
      var resultSelector := Lam([x, innerParameter], NewTI(ParamRef(x), ParamRef(innerParameter)));
      var parameter := Param(next + 3, innerParameter.name, TransparentIdentifierTy(groupJoinType, EntityTy(target)));
      (Call(SelectManyWithResultSelector, [groupJoin, collection, resultSelector]), parameter, next + 4)
    else
      var resultOuter := Param(next, outerParameter.name, outerParameter.ty);
      var resultInner := Param(next + 1, innerParameter.name, EntityTy(target));
      var join := Call(Op.Join, [
        source, EntityScan(target), Lam([outerParameter], keys.0), Lam([innerParameter], keys.1),
        Lam([resultOuter, resultInner], NewTI(ParamRef(resultOuter), ParamRef(resultInner)))]);
      var parameter := Param(next + 2, innerParameter.name, TransparentIdentifierTy(outerParameter.ty, EntityTy(target)));
      (join, parameter, next + 3)
  }

  /**
   The result selectors of the emitted join build, row by row, the joined row
   the bookkeeping assumes: `TI(previous, target)`, or for the optional form
   `TI(TI(previous, group), target)` once the group join paired the grouping.
   */
  lemma EmitJoinBuildsJoinedRow(
    source: Expr, outerParameter: Param, innerParameter: Param, keys: (Expr, Expr),
    target: string, optional: bool, next: nat, env: Env, previous: Row, targetRow: Row, group: Row)
    requires innerParameter.id < next
    ensures var r := EmitJoin(source, outerParameter, innerParameter, keys, target, optional, next);
      var join := if optional then r.0.args[0] else r.0;
      var pairing := join.args[4];
      Eval(pairing.body, env[pairing.params[0] := previous][pairing.params[1] := (if optional then group else targetRow)])
        == Some(if optional then TIRow(previous, group) else JoinedRow(previous, targetRow, group, false))
    ensures optional ==>
      var flatten := EmitJoin(source, outerParameter, innerParameter, keys, target, optional, next).0.args[2];
      Eval(flatten.body, env[flatten.params[0] := TIRow(previous, group)][flatten.params[1] := targetRow])
        == Some(JoinedRow(previous, targetRow, group, true))
  {
  }

  /** `before`'s operator spine is the tail of `after`'s, and everything in front of it is a join operator. */
  ghost predicate SpineExtends(before: Expr, after: Expr) {
    JoinPrefixed(Spine(before), Spine(after))
  }

  /** `after` is `before` with join operators put in front. */
  ghost predicate JoinPrefixed(before: seq<Op>, after: seq<Op>) {
    && |before| <= |after|
    && after[|after| - |before|..] == before
    && forall i :: 0 <= i < |after| - |before| ==> IsJoinOperator(after[i])
  }

  lemma JoinPrefixedTransitive(a: seq<Op>, b: seq<Op>, c: seq<Op>)
    requires JoinPrefixed(a, b) && JoinPrefixed(b, c)
    ensures JoinPrefixed(a, c)
  {
    var d1, d2 := |b| - |a|, |c| - |b|;
    forall j | 0 <= j < |a|
      ensures c[d2 + d1 + j] == a[j]
    {
      assert c[d2 + d1 + j] == c[d2..][d1 + j];
      assert b[d1 + j] == b[d1..][j];
    }
    assert c[d2 + d1..] == a;
    forall i | 0 <= i < d2 + d1
      ensures IsJoinOperator(c[i])
    {
      if i >= d2 {
        assert c[i] == c[d2..][i - d2];
      }
    }
  }

  lemma SpineExtendsTransitive(a: Expr, b: Expr, c: Expr)
    requires SpineExtends(a, b) && SpineExtends(b, c)
    ensures SpineExtends(a, c)
  {
    JoinPrefixedTransitive(Spine(a), Spine(b), Spine(c));
  }

  /** Mapping by mapping, only entries change, and the old entries keep their navigation paths at their positions. */
  ghost predicate EntriesExtend(before: seq<SourceMapping>, after: seq<SourceMapping>) {
    && |after| == |before|
    && (forall i {:trigger after[i]} :: 0 <= i < |before| ==> after[i] == before[i].(entries := after[i].entries))
    && (forall i {:trigger after[i]} :: 0 <= i < |before| ==> |before[i].entries| <= |after[i].entries|)
    && (forall i, j {:trigger after[i].entries[j]} :: 0 <= i < |before| && 0 <= j < |before[i].entries| ==>
          after[i].entries[j].navigations == before[i].entries[j].navigations)
  }

  /** What every successful step promises about the state it leaves behind. */
  ghost predicate Progresses(before: JoinState, after: JoinState) {
    && SpineExtends(before.source, after.source)
    && EntriesExtend(before.mappings, after.mappings)
    && before.next <= after.next
    && (after.pendingSelector.Some? <==> before.pendingSelector.Some?)
    && after.bookkeeping == before.bookkeeping
    && (|Spine(after.source)| == |Spine(before.source)| ==> after == before)
  }

  lemma RecordExtends(b: Bookkeeping, ms: seq<SourceMapping>, k: nat, navigationPath: seq<Nav>, navigation: Nav, optional: bool)
    requires k < |ms|
    ensures EntriesExtend(ms, Record(b, ms, k, navigationPath, navigation, optional))
  {
  }

  lemma ProgressesTransitive(a: JoinState, b: JoinState, c: JoinState)
    requires Progresses(a, b) && Progresses(b, c)
    ensures Progresses(a, c)
  {
    SpineExtendsTransitive(a.source, b.source, c.source);
  }

  /**
   The two ways a join cannot be built: several entries claim the parent's
   navigation path, or none does while an initial path is set.
   */
  predicate JoinBlocked(m: SourceMapping, navigationPath: seq<Nav>) {
    match LookupAccessorPath(m.entries, navigationPath)
    case Failure(_) => true
    case Success(accessorPath) => m.initialPath.Some? && accessorPath.None?
  }

  /**
   The outer key selector's parameter: a fresh parameter named and typed like
   the current row parameter. The code types it with the element type of the
   source query instead. The two agree whenever the row parameter types the
   source's rows; the model does not track a query's element type.
   */
  function OuterKeyParameter(st: JoinState): Param {
    Param(st.next, st.parameter.name, st.parameter.ty)
  }

  /**
   The accessor from a fresh outer key parameter to the end of the parent's
   navigation path, looked up among the mapping's entries.
   */
  function ParentAccessor(m: SourceMapping, navigationPath: seq<Nav>, outerParameter: Param): (r: Result<Expr>)
    ensures r.Failure? <==> JoinBlocked(m, navigationPath)
  {
    var accessorPath :- LookupAccessorPath(m.entries, navigationPath);
    BuildTransparentIdentifierAccessorExpression(ParamRef(outerParameter), m.initialPath, accessorPath)
  }

  /**
   The outer key reads the right row: when the entries are consistent with the
   row the outer key parameter stands for, and the parent's navigation path has
   an entry, the accessor reaches the row that path leads to.
   */
  lemma ParentAccessorReachesParentRow(
    ms: seq<SourceMapping>, k: nat, navigationPath: seq<Nav>, outerParameter: Param,
    place: Placement, row: Row, env: Env)
    requires k < |ms| && Consistent(ms, row, place)
    requires ms[k].initialPath.None?
    requires outerParameter in env && env[outerParameter] == row
    requires exists j :: 0 <= j < |ms[k].entries| && ms[k].entries[j].navigations == navigationPath
    requires ParentAccessor(ms[k], navigationPath, outerParameter).Success?
    ensures Eval(ParentAccessor(ms[k], navigationPath, outerParameter).value, env) == Some(place(k, navigationPath))
  {
    var accessorPath := LookupAccessorPath(ms[k].entries, navigationPath).value;
    var j :| 0 <= j < |ms[k].entries| && ms[k].entries[j].navigations == navigationPath
      && ms[k].entries[j].path == accessorPath.value;
    AccessorMeaning(outerParameter, ms[k].initialPath, accessorPath, env);
    assert [] + accessorPath.value == accessorPath.value;
  }

  /**
   The join of one navigation whose path is not materialized yet, once the
   parent's accessor is known: the join against a fresh scan of the target, the
   bookkeeping, and the pending selector moved onto the new row.
   */
  function ApplyJoin(st: JoinState, k: nat, node: NavigationTreeNode, navigationPath: seq<Nav>, accessor: Expr): (r: JoinState)
    requires k < |st.mappings|
    ensures Progresses(st, r) && |Spine(st.source)| < |Spine(r.source)|
    ensures r.mappings == Record(st.bookkeeping, st.mappings, k, navigationPath, node.navigation, node.optional)
    ensures r.parameter.ty == JoinedRowType(st.parameter.ty, node.navigation.targetEntity, node.optional)
    ensures r.pendingSelector == UpdateSelectorOption(st.pendingSelector, st.parameter, r.parameter, node.optional)
  {
    var navigation := node.navigation;
    var innerParameter := Param(st.next + 1, st.parameter.name + "." + navigation.name, EntityTy(navigation.targetEntity));
    var keys := CreateJoinKeys(accessor, innerParameter, node);
    var emitted := EmitJoin(st.source, OuterKeyParameter(st), innerParameter, keys, navigation.targetEntity, node.optional, st.next + 2);
    EmitJoinExtends(st.source, OuterKeyParameter(st), innerParameter, keys, navigation.targetEntity, node.optional, st.next + 2);
    var mappings' := Record(st.bookkeeping, st.mappings, k, navigationPath, navigation, node.optional);
    var selector' := UpdateSelectorOption(st.pendingSelector, st.parameter, emitted.1, node.optional);
    RecordExtends(st.bookkeeping, st.mappings, k, navigationPath, navigation, node.optional);
    JoinState(emitted.0, emitted.1, selector', mappings', emitted.2, st.bookkeeping)
  }

  /** The emitted join only puts join operators in front of the source, and uses parameter ids from `next` on. */
  lemma EmitJoinExtends(
    source: Expr, outerParameter: Param, innerParameter: Param, keys: (Expr, Expr), target: string, optional: bool, next: nat)
    ensures var r := EmitJoin(source, outerParameter, innerParameter, keys, target, optional, next);
      SpineExtends(source, r.0) && |Spine(source)| < |Spine(r.0)| && next < r.2
  {
    var r := EmitJoin(source, outerParameter, innerParameter, keys, target, optional, next);
    assert Spine(r.0)[|Spine(r.0)| - |Spine(source)|..] == Spine(source);
  }

  /** The join of one navigation whose path is not materialized yet. */
  function JoinNavigation(st: JoinState, k: nat, node: NavigationTreeNode, navigationPath: seq<Nav>): (r: Result<JoinState>)
    requires k < |st.mappings|
    ensures r.Failure? <==> JoinBlocked(st.mappings[k], navigationPath)
    ensures r.Success? ==> Progresses(st, r.value) && |Spine(st.source)| < |Spine(r.value.source)|
    ensures r.Success? ==> r.value.mappings == Record(st.bookkeeping, st.mappings, k, navigationPath, node.navigation, node.optional)
  {
    var accessor :- ParentAccessor(st.mappings[k], navigationPath, OuterKeyParameter(st));
    Success(ApplyJoin(st, k, node, navigationPath, accessor))
  }

  /**
   `AddNavigationJoin` for the tree `node` of mapping `k`, reached through
   `navigationPath`. A node whose generated path some entry already carries (by
   name) is skipped; otherwise its navigation is joined. Either way the children
   follow, in order, one level deeper.
   */
  function AddNavigationJoin(st: JoinState, k: nat, node: NavigationTreeNode, navigationPath: seq<Nav>): (r: Result<JoinState>)
    requires k < |st.mappings|
    ensures r.Success? ==> Progresses(st, r.value)
    decreases node
  {
    if IsMaterialized(st.mappings[k], GeneratePath(node)) then
      AddChildJoins(st, k, node.children, navigationPath + [node.navigation])
    else
      var joined :- JoinNavigation(st, k, node, navigationPath);
      var r := AddChildJoins(joined, k, node.children, navigationPath + [node.navigation]);
      if r.Success? then ProgressesTransitive(st, joined, r.value); r else r
  }

  /** The children of a tree, one after the other, each on the state the previous one left. */
  function AddChildJoins(st: JoinState, k: nat, children: seq<NavigationTreeNode>, navigationPath: seq<Nav>): (r: Result<JoinState>)
    requires k < |st.mappings|
    ensures r.Success? ==> Progresses(st, r.value)
    decreases children
  {
    if children == [] then Success(st)
    else
      var first :- AddNavigationJoin(st, k, children[0], navigationPath);
      var r := AddChildJoins(first, k, children[1..], navigationPath);
      if r.Success? then ProgressesTransitive(st, first, r.value); r else r
  }

  /** Every node of the tree passes the name test against the mapping. */
  ghost predicate SubtreeMaterialized(m: SourceMapping, node: NavigationTreeNode)
    decreases node
  {
    && IsMaterialized(m, GeneratePath(node))
    && forall i {:trigger SubtreeMaterialized(m, node.children[i])} :: 0 <= i < |node.children| ==> SubtreeMaterialized(m, node.children[i])
  }

  /** A tree the mapping already holds emits nothing: the state comes back as it was. */
  lemma {:induction false} MaterializedTreeEmitsNoJoin(st: JoinState, k: nat, node: NavigationTreeNode, navigationPath: seq<Nav>)
    requires k < |st.mappings| && SubtreeMaterialized(st.mappings[k], node)
    ensures AddNavigationJoin(st, k, node, navigationPath) == Success(st)
    decreases node
  {
    MaterializedChildrenEmitNoJoin(st, k, node.children, navigationPath + [node.navigation]);
  }

  lemma {:induction false} MaterializedChildrenEmitNoJoin(
    st: JoinState, k: nat, children: seq<NavigationTreeNode>, navigationPath: seq<Nav>)
    requires k < |st.mappings|
    requires forall i :: 0 <= i < |children| ==> SubtreeMaterialized(st.mappings[k], children[i])
    ensures AddChildJoins(st, k, children, navigationPath) == Success(st)
    decreases children
  {
    if children != [] {
      MaterializedTreeEmitsNoJoin(st, k, children[0], navigationPath);
      MaterializedChildrenEmitNoJoin(st, k, children[1..], navigationPath);
    }
  }

  /** Materialization survives later steps, which keep every old entry's navigation path in place. */
  lemma {:induction false} MaterializedPersists(before: SourceMapping, after: SourceMapping, node: NavigationTreeNode)
    requires |before.entries| <= |after.entries|
    requires forall j :: 0 <= j < |before.entries| ==> after.entries[j].navigations == before.entries[j].navigations
    requires SubtreeMaterialized(before, node)
    ensures SubtreeMaterialized(after, node)
    decreases node
  {
    var j :| 0 <= j < |before.entries| && Names(before.entries[j].navigations) == GeneratePath(node);
    assert Names(after.entries[j].navigations) == GeneratePath(node);
    forall i | 0 <= i < |node.children|
      ensures SubtreeMaterialized(after, node.children[i])
    {
      MaterializedPersists(before, after, node.children[i]);
    }
  }

  /** The joined navigation is materialized right after its join: the new entry carries the node's generated path. */
  lemma JoinNavigationMaterializes(st: JoinState, k: nat, node: NavigationTreeNode, navigationPath: seq<Nav>)
    requires k < |st.mappings| && WellFormedAt(node, navigationPath)
    requires JoinNavigation(st, k, node, navigationPath).Success?
    ensures IsMaterialized(JoinNavigation(st, k, node, navigationPath).value.mappings[k], GeneratePath(node))
  {
    var entries := JoinNavigation(st, k, node, navigationPath).value.mappings[k].entries;
    assert entries[|entries| - 1] == InnerEntry(navigationPath, node.navigation);
    GeneratePathOfWellFormed(node, navigationPath);
    assert Names(entries[|entries| - 1].navigations) == GeneratePath(node);
  }

  lemma IsMaterializedPersists(before: JoinState, after: JoinState, k: nat, path: seq<string>)
    requires Progresses(before, after) && k < |before.mappings|
    requires IsMaterialized(before.mappings[k], path)
    ensures IsMaterialized(after.mappings[k], path)
  {
    var j :| 0 <= j < |before.mappings[k].entries| && Names(before.mappings[k].entries[j].navigations) == path;
    assert Names(after.mappings[k].entries[j].navigations) == path;
  }

  /** On a well-formed tree, a successful `AddNavigationJoin` leaves every node of the tree materialized. */
  lemma {:induction false} AddNavigationJoinMaterializes(st: JoinState, k: nat, node: NavigationTreeNode, navigationPath: seq<Nav>)
    requires k < |st.mappings| && WellFormedAt(node, navigationPath)
    ensures var r := AddNavigationJoin(st, k, node, navigationPath);
      r.Success? ==> SubtreeMaterialized(r.value.mappings[k], node)
    decreases node, 1
  {
    if AddNavigationJoin(st, k, node, navigationPath).Success? {
      if IsMaterialized(st.mappings[k], GeneratePath(node)) {
        ChildrenMaterializeUnder(st, st, k, node, navigationPath);
      } else {
        var mid := JoinNavigation(st, k, node, navigationPath).value;
        JoinNavigationMaterializes(st, k, node, navigationPath);
        ChildrenMaterializeUnder(st, mid, k, node, navigationPath);
      }
    }
  }

  /** The step of `AddNavigationJoinMaterializes` once the node itself is materialized in `mid`. */
  lemma ChildrenMaterializeUnder(st: JoinState, mid: JoinState, k: nat, node: NavigationTreeNode, navigationPath: seq<Nav>)
    requires k < |st.mappings| && k < |mid.mappings| && WellFormedAt(node, navigationPath)
    requires IsMaterialized(mid.mappings[k], GeneratePath(node))
    requires AddNavigationJoin(st, k, node, navigationPath).Success?
    requires AddChildJoins(mid, k, node.children, navigationPath + [node.navigation])
               == AddNavigationJoin(st, k, node, navigationPath)
    ensures SubtreeMaterialized(AddNavigationJoin(st, k, node, navigationPath).value.mappings[k], node)
    decreases node, 0
  {
    var r := AddNavigationJoin(st, k, node, navigationPath).value;
    AddChildJoinsMaterializes(mid, k, node.children, navigationPath + [node.navigation]);
    IsMaterializedPersists(mid, r, k, GeneratePath(node));
  }

  /** The first tree and the trees after it materialized: all of them are. */
  lemma TailMaterialized(m: SourceMapping, children: seq<NavigationTreeNode>)
    requires children != [] && SubtreeMaterialized(m, children[0])
    requires forall i :: 0 <= i < |children[1..]| ==> SubtreeMaterialized(m, children[1..][i])
    ensures forall i :: 0 <= i < |children| ==> SubtreeMaterialized(m, children[i])
  {
    forall i | 1 <= i < |children|
      ensures SubtreeMaterialized(m, children[i])
    {
      assert children[i] == children[1..][i - 1];
    }
  }

  lemma {:induction false} AddChildJoinsMaterializes(
    st: JoinState, k: nat, children: seq<NavigationTreeNode>, navigationPath: seq<Nav>)
    requires k < |st.mappings|
    requires forall i :: 0 <= i < |children| ==> WellFormedAt(children[i], navigationPath)
    ensures var r := AddChildJoins(st, k, children, navigationPath);
      r.Success? ==> forall i :: 0 <= i < |children| ==> SubtreeMaterialized(r.value.mappings[k], children[i])
    decreases children
  {
    if children != [] && AddChildJoins(st, k, children, navigationPath).Success? {
      var first := AddNavigationJoin(st, k, children[0], navigationPath).value;
      var r := AddChildJoins(first, k, children[1..], navigationPath).value;
      assert AddChildJoins(st, k, children, navigationPath).value == r;
      AddNavigationJoinMaterializes(st, k, children[0], navigationPath);
      AddChildJoinsMaterializes(first, k, children[1..], navigationPath);
      MaterializedPersists(first.mappings[k], r.mappings[k], children[0]);
      TailMaterialized(r.mappings[k], children);
    }
  }

  /**
   Idempotence: on a well-formed tree, running `AddNavigationJoin` again on the
   state it produced emits no further join and changes nothing.
   */
  lemma AddNavigationJoinIdempotent(st: JoinState, k: nat, node: NavigationTreeNode, navigationPath: seq<Nav>)
    requires k < |st.mappings| && WellFormedAt(node, navigationPath)
    ensures var r := AddNavigationJoin(st, k, node, navigationPath);
      r.Success? ==> k < |r.value.mappings| && AddNavigationJoin(r.value, k, node, navigationPath) == r
  {
    if AddNavigationJoin(st, k, node, navigationPath).Success? {
      var r := AddNavigationJoin(st, k, node, navigationPath).value;
      AddNavigationJoinMaterializes(st, k, node, navigationPath);
      MaterializedTreeEmitsNoJoin(r, k, node, navigationPath);
    }
  }

  /**
   With the corrected bookkeeping, on unambiguous mappings and a well-formed
   tree `AddNavigationJoin` never throws, and the mappings stay unambiguous.
   The bookkeeping as written has no such guarantee: see
   `SelfJoinAsWrittenThrows`.
   */
  lemma {:induction false} AddNavigationJoinSucceeds(st: JoinState, k: nat, node: NavigationTreeNode, navigationPath: seq<Nav>)
    requires k < |st.mappings| && WellFormedAt(node, navigationPath)
    requires st.bookkeeping == Corrected && Unambiguous(st.mappings)
    ensures AddNavigationJoin(st, k, node, navigationPath).Success?
    ensures Unambiguous(AddNavigationJoin(st, k, node, navigationPath).value.mappings)
    decreases node
  {
    var path := navigationPath + [node.navigation];
    if IsMaterialized(st.mappings[k], GeneratePath(node)) {
      AddChildJoinsSucceed(st, k, node.children, path);
    } else {
      var m := st.mappings[k];
      DistinctLookupSucceeds(m, navigationPath);
      assert !JoinBlocked(m, navigationPath);
      var mid := JoinNavigation(st, k, node, navigationPath).value;
      assert forall j :: 0 <= j < |m.entries| ==> m.entries[j].navigations != path by {
        GeneratePathOfWellFormed(node, navigationPath);
      }
      RecordJoinKeepsUnambiguous(st.mappings, k, navigationPath, node.navigation, node.optional);
      AddChildJoinsSucceed(mid, k, node.children, path);
    }
  }

  lemma {:induction false} AddChildJoinsSucceed(
    st: JoinState, k: nat, children: seq<NavigationTreeNode>, navigationPath: seq<Nav>)
    requires k < |st.mappings|
    requires forall i :: 0 <= i < |children| ==> WellFormedAt(children[i], navigationPath)
    requires st.bookkeeping == Corrected && Unambiguous(st.mappings)
    ensures AddChildJoins(st, k, children, navigationPath).Success?
    ensures Unambiguous(AddChildJoins(st, k, children, navigationPath).value.mappings)
    decreases children
  {
    if children != [] {
      AddNavigationJoinSucceeds(st, k, children[0], navigationPath);
      var first := AddNavigationJoin(st, k, children[0], navigationPath).value;
      forall i | 0 <= i < |children[1..]|
        ensures WellFormedAt(children[1..][i], navigationPath)
      {
        assert children[1..][i] == children[i + 1];
      }
      AddChildJoinsSucceed(first, k, children[1..], navigationPath);
    }
  }

  /** The sample of `SelfJoinAsWrittenThrows`: an order's customer, and the customer's address. */
  function SampleCustomer(): Nav {
    Nav(1, "Customer", "Order", "Customer", true, [], [])
  }

  function SampleAddress(): Nav {
    Nav(2, "Address", "Customer", "Address", true, [], [])
  }

  function SampleOuterTree(): NavigationTreeNode {
    NavigationTreeNode(SampleCustomer(), false, None, [])
  }

  function SampleAddressNode(): NavigationTreeNode {
    NavigationTreeNode(SampleAddress(), false, Some(ParentLink([SampleCustomer()], false)), [])
  }

  function SampleInnerTree(): NavigationTreeNode {
    NavigationTreeNode(SampleCustomer(), false, None, [SampleAddressNode()])
  }

  /** Orders joined with orders: the outer root, and the inner root with its customer already joined. */
  function SampleMappings(): seq<SourceMapping> {
    [SourceMapping("Order", None, [TIEntry(["Outer"], [])], [SampleOuterTree()]),
     SourceMapping("Order", None, [TIEntry(["Inner", "Outer"], []), TIEntry(["Inner", "Inner"], [SampleCustomer()])], [SampleInnerTree()])]
  }

  /** A top-level leaf the mapping lacks is joined, and nothing else happens. */
  lemma LeafJoins(st: JoinState, k: nat, leaf: NavigationTreeNode)
    requires k < |st.mappings| && leaf.children == []
    requires !IsMaterialized(st.mappings[k], GeneratePath(leaf))
    ensures AddChildJoins(st, k, [leaf], []) == JoinNavigation(st, k, leaf, [])
  {
    LeafIsJoined(st, k, leaf);
    var joined := JoinNavigation(st, k, leaf, []);
    assert [leaf][1..] == [];
    if joined.Success? {
      assert AddChildJoins(joined.value, k, [], []) == joined;
    }
  }

  lemma LeafIsJoined(st: JoinState, k: nat, leaf: NavigationTreeNode)
    requires k < |st.mappings| && leaf.children == []
    requires !IsMaterialized(st.mappings[k], GeneratePath(leaf))
    ensures AddNavigationJoin(st, k, leaf, []) == JoinNavigation(st, k, leaf, [])
  {
    var joined := JoinNavigation(st, k, leaf, []);
    if joined.Success? {
      assert AddChildJoins(joined.value, k, leaf.children, [leaf.navigation]) == joined;
    }
  }

  /**
   A materialized top-level node whose one child is missing throws when the
   lookup for the child's parent finds several entries.
   */
  lemma AmbiguousParentThrows(st: JoinState, k: nat, node: NavigationTreeNode)
    requires k < |st.mappings| && WellFormedAt(node, []) && |node.children| == 1 && node.children[0].children == []
    requires IsMaterialized(st.mappings[k], GeneratePath(node))
    requires !IsMaterialized(st.mappings[k], GeneratePath(node.children[0]))
    requires LookupAccessorPath(st.mappings[k].entries, [node.navigation]).Failure?
    ensures AddChildJoins(st, k, [node], []) == Failure(AmbiguousAccessorPath)
  {
    var child := node.children[0];
    assert [] + [node.navigation] == [node.navigation];
    assert ParentAccessor(st.mappings[k], [node.navigation], OuterKeyParameter(st)) == Failure(AmbiguousAccessorPath);
    assert JoinNavigation(st, k, child, [node.navigation]) == Failure(AmbiguousAccessorPath);
    assert AddNavigationJoin(st, k, child, [node.navigation]) == Failure(AmbiguousAccessorPath);
    assert AddChildJoins(st, k, node.children, [node.navigation]) == Failure(AmbiguousAccessorPath);
    assert AddNavigationJoin(st, k, node, []) == Failure(AmbiguousAccessorPath);
  }

  /** The first step of the join loop on the sample joins the outer customer, under either bookkeeping. */
  lemma SampleFirstStep(st: JoinState)
    requires st.mappings == SampleMappings()
    ensures var r := AddChildJoins(st, 0, [SampleOuterTree()], []);
      && r.Success?
      && r.value.bookkeeping == st.bookkeeping
      && r.value.mappings == Record(st.bookkeeping, st.mappings, 0, [], SampleCustomer(), false)
  {
    var m := st.mappings[0];
    assert Names(m.entries[0].navigations) == [];
    assert LookupAccessorPath(m.entries, []).Success?;
    LeafJoins(st, 0, SampleOuterTree());
    assert !JoinBlocked(m, []);
  }

  /** After the as-written first step, mapping 1 holds the customer path twice, and the address's parent lookup throws. */
  lemma SampleSecondStepThrows(st: JoinState)
    requires st.mappings == Record(AsWritten, SampleMappings(), 0, [], SampleCustomer(), false)
    ensures AddChildJoins(st, 1, [SampleInnerTree()], []) == Failure(AmbiguousAccessorPath)
  {
    var customer := SampleCustomer();
    var m := st.mappings[1];
    assert |m.entries| == 3;
    assert m.entries[1].navigations == [customer] && m.entries[2].navigations == [customer];
    assert Names(m.entries[1].navigations) == GeneratePath(SampleInnerTree());
    assert forall j :: 0 <= j < 3 ==> |m.entries[j].navigations| < 2;
    assert !IsMaterialized(m, GeneratePath(SampleAddressNode()));
    SampleUnambiguous();
    AmbiguousParentThrows(st, 1, SampleInnerTree());
  }

  /**
   Orders joined with orders, the inner side having already joined its
   customer: mapping 0 holds the outer root, mapping 1 the inner root and its
   customer. The finder reports the customer on mapping 0 and the customer's
   address on mapping 1, and the join loop handles mapping 0 first. With the
   bookkeeping as written, that join also records its customer entry on
   mapping 1. Mapping 1 then holds two entries for the same navigation path,
   and the lookup for the address's parent throws. With the corrected
   bookkeeping both steps succeed, as they do on any unambiguous mappings.
   */
  lemma SelfJoinAsWrittenThrows(source: Expr, parameter: Param, next: nat)
    ensures
      var ms := SampleMappings();
      var asWritten := AddChildJoins(JoinState(source, parameter, None, ms, next, AsWritten), 0, [SampleOuterTree()], []);
      var corrected := AddChildJoins(JoinState(source, parameter, None, ms, next, Corrected), 0, [SampleOuterTree()], []);
      && Unambiguous(ms)
      && asWritten.Success?
      && AddChildJoins(asWritten.value, 1, [SampleInnerTree()], []) == Failure(AmbiguousAccessorPath)
      && corrected.Success?
      && AddChildJoins(corrected.value, 1, [SampleInnerTree()], []).Success?
  {
    var ms := SampleMappings();
    SampleUnambiguous();
    var st := JoinState(source, parameter, None, ms, next, AsWritten);
    SampleFirstStep(st);
    SampleSecondStepThrows(AddChildJoins(st, 0, [SampleOuterTree()], []).value);
    SampleCorrectedSucceeds(JoinState(source, parameter, None, ms, next, Corrected));
  }

  /** The sample satisfies what the corrected injector needs: its mappings are unambiguous and its trees well formed. */
  lemma SampleUnambiguous()
    ensures Unambiguous(SampleMappings())
    ensures WellFormedAt(SampleOuterTree(), []) && WellFormedAt(SampleInnerTree(), [])
  {
    var ms := SampleMappings();
    assert ms[1].entries[0].navigations != ms[1].entries[1].navigations;
    assert [] + [SampleCustomer()] == [SampleCustomer()];
  }

  lemma SampleCorrectedSucceeds(st: JoinState)
    requires st.mappings == SampleMappings() && st.bookkeeping == Corrected
    ensures var first := AddChildJoins(st, 0, [SampleOuterTree()], []);
      first.Success? && AddChildJoins(first.value, 1, [SampleInnerTree()], []).Success?
  {
    SampleUnambiguous();
    TwoStepsSucceed(st, SampleOuterTree(), SampleInnerTree());
  }

  /** With the corrected bookkeeping, two steps of the join loop over unambiguous mappings both succeed. */
  lemma TwoStepsSucceed(st: JoinState, first: NavigationTreeNode, second: NavigationTreeNode)
    requires 1 < |st.mappings| && st.bookkeeping == Corrected && Unambiguous(st.mappings)
    requires WellFormedAt(first, []) && WellFormedAt(second, [])
    ensures var r := AddChildJoins(st, 0, [first], []);
      r.Success? && AddChildJoins(r.value, 1, [second], []).Success?
  {
    AddChildJoinsSucceed(st, 0, [first], []);
    AddChildJoinsSucceed(AddChildJoins(st, 0, [first], []).value, 1, [second], []);
  }
}
