/**
 The operator rewrites of the navigation-expanding visitor. Each recognised
 queryable operator adopts the state its source carries, folds the pending
 selector into its own lambda, turns the navigations that lambda uses into
 joins, and hands the rewritten query and the new state to its consumer.
 */
module Operators {
  import opened Common
  import opened Metadata
  import opened Expressions
  import opened NavigationTree
  import opened Visitors
  import opened Mappings
  import opened Joins

  /** What a `NavigationExpansionExpression` carries besides its operand. */
  datatype ExpansionState = ExpansionState(
    currentParameter: Option<Param>,
    pendingSelector: Option<Lambda>,
    sourceMappings: seq<SourceMapping>,
    finalProjectionPath: Option<seq<string>>)

  /** A visited query: a navigation expansion expression around an operand, or any other expression. */
  datatype Visited = Plain(expr: Expr) | Expansion(operand: Expr, state: ExpansionState)

  /** A lambda with at least two parameters, as a join's result selector is. */
  type PairLambda = e: Expr | e.Lam? && |e.params| >= 2
    witness Lam([Param(0, "", ObjectTy), Param(1, "", ObjectTy)], Other(0, []))

  /**
   The visitors and helpers the rewrite calls but whose code is not part of this
   model, as functions of what they are handed.
   */
  datatype Collaborators = Collaborators(
    /** `NavigationPropertyBindingExpressionVisitor`: binds navigation accesses on the row parameter to the mappings. */
    bind: (Param, seq<SourceMapping>, Lambda) -> Lambda,
    /** `CollectionNavigationRewritingExpressionVisitor2`. */
    rewriteCollections: (Param, Lambda) -> Lambda,
    /** `NavigationFindingExpressionVisitor`: the navigation trees found for each mapping, in mapping order. */
    findNavigations: (Param, Lambda) -> seq<seq<NavigationTreeNode>>,
    /** `NavigationReplacingExpressionVisitor`: moves bound navigations from the old row parameter to the new one. */
    replaceNavigations: (Param, Param, Lambda) -> Lambda,
    /** `CombineAndRemapLambdas(first, second)`: `second` applied to the result of `first`. */
    combine: (Option<Lambda>, Lambda) -> Lambda,
    /** `CombineAndRemapLambdas(first, second, parameter)`: `first` substituted for one parameter of `second`. */
    combineAt: (Option<Lambda>, PairLambda, Param) -> PairLambda,
    /** `EntityTypeAccessorMappingGenerator`: the mappings as updated from a bound selector. */
    generateAccessorMappings: (Param, Lambda, seq<SourceMapping>) -> seq<SourceMapping>,
    /** This visitor applied to a lambda, and to a plain argument. */
    visitLambda: Lambda -> Lambda,
    visitArgument: Expr -> Expr,
    /** The base visitor, for every expression this visitor does not rewrite itself. */
    visitOther: Expr -> Expr,
    /** `ProcessSelectManyWithResultOperator`, which this model leaves out. */
    processSelectMany: Expr -> Visited,
    /** The element type of a query, and the parameter name generated for a type. */
    elementType: Expr -> Ty,
    parameterName: Ty -> string)

  /**
   The state an operator works in. An expansion source hands over its state,
   with a missing current parameter taken from the operator's lambda and a
   missing pending selector replaced by the identity on that lambda's parameter;
   any other source starts a fresh state around the lambda's parameter.
   */
  function AdoptState(source: Visited, parameter: Param): (r: (Expr, ExpansionState))
    ensures r.1.currentParameter.Some?
    ensures source.Plain? ==> r == (source.expr, ExpansionState(Some(parameter), None, [], None))
    ensures source.Expansion? ==>
      && r.0 == source.operand
      && r.1.sourceMappings == source.state.sourceMappings
      && r.1.finalProjectionPath == source.state.finalProjectionPath
      && r.1.pendingSelector.Some?
      && (source.state.currentParameter.Some? ==> r.1.currentParameter == source.state.currentParameter)
      && (source.state.pendingSelector.Some? ==> r.1.pendingSelector == source.state.pendingSelector)
      && (source.state.pendingSelector.None? ==> r.1.pendingSelector == Some(Identity(parameter)))
  {
    match source
    case Plain(e) => (e, ExpansionState(Some(parameter), None, [], None))
    case Expansion(operand, state) =>
      (operand, state.(currentParameter := Some(state.currentParameter.GetOr(parameter)),
                       pendingSelector := Some(state.pendingSelector.GetOr(Identity(parameter)))))
  }

  /**
   The adoption the code marks as still to be fixed: a source that has a
   current parameter but no pending selector keeps its parameter, while the
   identity put in place of the pending selector is built on the operator's own
   parameter. When the two differ, the pending selector neither declares nor
   reads the row parameter the state goes on with.
   */
  lemma AdoptedIdentityMissesCurrentParameter(operand: Expr, state: ExpansionState, parameter: Param)
    requires state.currentParameter.Some? && state.pendingSelector.None?
    requires state.currentParameter.value != parameter
    ensures var adopted := AdoptState(Expansion(operand, state), parameter).1;
      && adopted.currentParameter == state.currentParameter
      && adopted.pendingSelector == Some(Identity(parameter))
      && adopted.pendingSelector.value.params != [adopted.currentParameter.value]
      && !Occurs(adopted.pendingSelector.value.body, adopted.currentParameter.value)
  {
  }

  /**
   `VisitConstant`: an entity scan becomes an expansion whose one mapping holds the
   root entry. The fresh state satisfies every invariant the join injector relies
   on: it is consistent with any row placed at the root, expandable, and rooted.
   */
  function VisitConstant(e: Expr): (r: Visited)
    ensures r.Expansion? <==> e.EntityScan?
    ensures r.Plain? ==> r.expr == e
    ensures r.Expansion? ==>
      && r.operand == e
      && r.state.currentParameter.None? && r.state.pendingSelector.None?
      && r.state.sourceMappings == [InitialMapping(e.entity)]
    ensures r.Expansion? ==>
      && |r.state.sourceMappings| == 1
      && Expandable(r.state.sourceMappings)
      && (forall row: Row, place: Placement :: place(0, []) == row ==> Consistent(r.state.sourceMappings, row, place))
      && (forall catalog :: Rooted(catalog, r.state.sourceMappings[0]))
  {
    if e.EntityScan? then Expansion(e, ExpansionState(None, None, [InitialMapping(e.entity)], None))
    else Plain(e)
  }

  /** Every navigation tree stored on a mapping is well formed from the mapping's root. */
  ghost predicate WellFormedFound(ms: seq<SourceMapping>) {
    forall i, t :: 0 <= i < |ms| && 0 <= t < |ms[i].foundNavigations| ==> WellFormedAt(ms[i].foundNavigations[t], [])
  }

  /** Every navigation tree stored on a mapping passes the name test against it, node by node. */
  ghost predicate FoundMaterialized(ms: seq<SourceMapping>) {
    forall i, t :: 0 <= i < |ms| && 0 <= t < |ms[i].foundNavigations| ==> SubtreeMaterialized(ms[i], ms[i].foundNavigations[t])
  }

  /** Mappings on which the join injector cannot throw. */
  ghost predicate Expandable(ms: seq<SourceMapping>) {
    Unambiguous(ms) && WellFormedFound(ms)
  }

  /** The navigation finder reports only trees that are well formed from the root. */
  ghost predicate FinderWellFormed(c: Collaborators) {
    forall p, l, i, t :: 0 <= i < |c.findNavigations(p, l)| && 0 <= t < |c.findNavigations(p, l)[i]| ==>
      WellFormedAt(c.findNavigations(p, l)[i][t], [])
  }

  /** The lambda `FindAndApplyNavigations` looks for navigations in: bound to the mappings, collections rewritten. */
  function BoundLambda(parameter: Param, mappings: seq<SourceMapping>, lambda: Lambda, c: Collaborators): Lambda {
    c.rewriteCollections(parameter, c.bind(parameter, mappings, lambda))
  }

  /** The mappings with the trees the finder reports stored on them; a mapping it reports nothing for keeps its own. */
  function WithFound(ms: seq<SourceMapping>, found: seq<seq<NavigationTreeNode>>): (r: seq<SourceMapping>)
    ensures |r| == |ms|
    ensures forall i :: 0 <= i < |ms| ==> r[i] == ms[i].(foundNavigations := r[i].foundNavigations)
    ensures forall i :: 0 <= i < |ms| ==> r[i].foundNavigations == if i < |found| then found[i] else ms[i].foundNavigations
  {
    seq(|ms|, i requires 0 <= i < |ms| => if i < |found| then ms[i].(foundNavigations := found[i]) else ms[i])
  }

  /** The mappings as they stand once the finder has run over the bound lambda. */
  function FoundMappings(state: ExpansionState, lambda: Lambda, c: Collaborators): seq<SourceMapping>
    requires state.currentParameter.Some?
  {
    var parameter := state.currentParameter.value;
    WithFound(state.sourceMappings, c.findNavigations(parameter, BoundLambda(parameter, state.sourceMappings, lambda, c)))
  }

  lemma FoundKeepsExpandable(state: ExpansionState, lambda: Lambda, c: Collaborators)
    requires state.currentParameter.Some?
    requires Expandable(state.sourceMappings) && FinderWellFormed(c)
    ensures Expandable(FoundMappings(state, lambda, c))
  {
    var ms := FoundMappings(state, lambda, c);
    forall i | 0 <= i < |ms|
      ensures DistinctNavigations(ms[i])
    {
      assert ms[i].entries == state.sourceMappings[i].entries;
    }
  }

  /**
   `after` holds the mappings of `before`, in the same order and on the same
   roots: every entry keeps its navigation path at its position, and entries
   may follow. Unlike `EntriesExtend`, the trees stored on a mapping may differ.
   */
  ghost predicate EntriesGrow(before: seq<SourceMapping>, after: seq<SourceMapping>) {
    |after| == |before| && forall i :: 0 <= i < |before| ==> GrownMapping(before[i], after[i])
  }

  /** `EntriesGrow` for one mapping. */
  ghost predicate GrownMapping(before: SourceMapping, after: SourceMapping) {
    && after.rootEntityType == before.rootEntityType && after.initialPath == before.initialPath
    && |before.entries| <= |after.entries|
    && forall j :: 0 <= j < |before.entries| ==> after.entries[j].navigations == before.entries[j].navigations
  }

  /** Storing the found trees and then extending the entries lets the mappings grow. */
  lemma FoundExtendGrows(state: ExpansionState, lambda: Lambda, c: Collaborators, after: seq<SourceMapping>)
    requires state.currentParameter.Some?
    requires EntriesExtend(FoundMappings(state, lambda, c), after)
    ensures EntriesGrow(state.sourceMappings, after)
  {
    var found := FoundMappings(state, lambda, c);
    forall i | 0 <= i < |state.sourceMappings|
      ensures GrownMapping(state.sourceMappings[i], after[i])
    {
      assert found[i].entries == state.sourceMappings[i].entries;
      assert after[i] == found[i].(entries := after[i].entries);
    }
  }

  lemma EntriesGrowTransitive(a: seq<SourceMapping>, b: seq<SourceMapping>, c: seq<SourceMapping>)
    requires EntriesGrow(a, b) && EntriesGrow(b, c)
    ensures EntriesGrow(a, c)
  {
    forall i | 0 <= i < |a|
      ensures GrownMapping(a[i], c[i])
    {
      assert GrownMapping(a[i], b[i]) && GrownMapping(b[i], c[i]);
    }
  }

  /** Merging grown sides gives a grown merge: shifting moves paths, never navigations. */
  lemma MergeGrows(outer: seq<SourceMapping>, outer': seq<SourceMapping>, inner: seq<SourceMapping>, inner': seq<SourceMapping>)
    requires EntriesGrow(outer, outer') && EntriesGrow(inner, inner')
    ensures EntriesGrow(MergeMappings(outer, inner), MergeMappings(outer', inner'))
  {
    var before, after := MergeMappings(outer, inner), MergeMappings(outer', inner');
    forall i | 0 <= i < |before|
      ensures GrownMapping(before[i], after[i])
    {
      if i < |outer| {
        ShiftGrows(outer[i], outer'[i], ["Outer"]);
      } else {
        ShiftGrows(inner[i - |outer|], inner'[i - |outer|], ["Inner"]);
      }
    }
  }

  lemma ShiftGrows(m: SourceMapping, m': SourceMapping, prefix: seq<string>)
    requires GrownMapping(m, m')
    ensures GrownMapping(Shift(m, prefix), Shift(m', prefix))
  {
  }

  /**
   The invariant of the join loop, which runs with the corrected bookkeeping:
   the first `i` mappings have had their trees joined, every step only extended
   the state, unambiguous mappings stay so, and a loop with nothing to join has
   changed nothing.
   */
  ghost predicate Joined(start: JoinState, st: JoinState, mappings: seq<SourceMapping>, i: nat) {
    && i <= |mappings| && start.mappings == mappings && start.bookkeeping == Corrected
    && Progresses(start, st)
    && (Expandable(mappings) ==> Unambiguous(st.mappings))
    && (FoundMaterialized(mappings) ==> st == start)
    && (WellFormedFound(mappings) ==>
          forall a, u :: 0 <= a < i && 0 <= u < |mappings[a].foundNavigations| ==>
            SubtreeMaterialized(st.mappings[a], mappings[a].foundNavigations[u]))
  }

  /** Joining the trees of mapping `i` cannot fail on expandable mappings, nor on mappings whose trees are all materialized. */
  lemma JoinedStepSucceeds(start: JoinState, st: JoinState, mappings: seq<SourceMapping>, i: nat)
    requires Joined(start, st, mappings, i) && i < |mappings|
    ensures i < |st.mappings|
    ensures Expandable(mappings) || FoundMaterialized(mappings) ==>
      AddChildJoins(st, i, mappings[i].foundNavigations, []).Success?
    ensures FoundMaterialized(mappings) ==> AddChildJoins(st, i, mappings[i].foundNavigations, []) == Success(st)
    ensures var step := AddChildJoins(st, i, mappings[i].foundNavigations, []);
      step.Success? && Expandable(mappings) ==> Unambiguous(step.value.mappings)
  {
    var trees := mappings[i].foundNavigations;
    assert st.mappings[i].foundNavigations == trees;
    if Expandable(mappings) {
      assert forall t :: 0 <= t < |trees| ==> WellFormedAt(trees[t], []);
      AddChildJoinsSucceed(st, i, trees, []);
    }
    if FoundMaterialized(mappings) {
      MaterializedChildrenEmitNoJoin(st, i, trees, []);
    }
  }

  /** After joining the trees of mapping `i`, the trees of mappings `0..i` are all materialized. */
  lemma JoinedStepMaterializes(st: JoinState, mappings: seq<SourceMapping>, i: nat)
    requires i < |mappings| && i < |st.mappings| && WellFormedFound(mappings)
    requires forall a, u :: 0 <= a < i && 0 <= u < |mappings[a].foundNavigations| ==>
      SubtreeMaterialized(st.mappings[a], mappings[a].foundNavigations[u])
    ensures var step := AddChildJoins(st, i, mappings[i].foundNavigations, []);
      step.Success? ==>
        forall a, u :: 0 <= a < i + 1 && 0 <= u < |mappings[a].foundNavigations| ==>
          SubtreeMaterialized(step.value.mappings[a], mappings[a].foundNavigations[u])
  {
    var trees := mappings[i].foundNavigations;
    var step := AddChildJoins(st, i, trees, []);
    if step.Success? {
      forall t | 0 <= t < |trees|
        ensures WellFormedAt(trees[t], [])
      {
        assert 0 <= i < |mappings| && 0 <= t < |mappings[i].foundNavigations|;
      }
      AddChildJoinsMaterializes(st, i, trees, []);
      MaterializedPrefixPersists(st, step.value, mappings, i);
    }
  }

  /**
   The trees of the first `i` mappings stay materialized under a step that only
   extends the state; with those of mapping `i` materialized by the step, the
   first `i + 1` are.
   */
  lemma MaterializedPrefixPersists(st: JoinState, after: JoinState, mappings: seq<SourceMapping>, i: nat)
    requires Progresses(st, after) && i < |st.mappings| && i < |mappings|
    requires forall a, u :: 0 <= a < i && 0 <= u < |mappings[a].foundNavigations| ==>
      SubtreeMaterialized(st.mappings[a], mappings[a].foundNavigations[u])
    requires forall u :: 0 <= u < |mappings[i].foundNavigations| ==>
      SubtreeMaterialized(after.mappings[i], mappings[i].foundNavigations[u])
    ensures forall a, u :: 0 <= a < i + 1 && 0 <= u < |mappings[a].foundNavigations| ==>
      SubtreeMaterialized(after.mappings[a], mappings[a].foundNavigations[u])
  {
    forall a, u | 0 <= a < i && 0 <= u < |mappings[a].foundNavigations|
      ensures SubtreeMaterialized(after.mappings[a], mappings[a].foundNavigations[u])
    {
      MaterializedPersists(st.mappings[a], after.mappings[a], mappings[a].foundNavigations[u]);
    }
  }

  /** Joining the trees of mapping `i` keeps the loop invariant. */
  lemma JoinedStep(start: JoinState, st: JoinState, mappings: seq<SourceMapping>, i: nat)
    requires Joined(start, st, mappings, i) && i < |mappings|
    ensures i < |st.mappings|
    ensures Expandable(mappings) || FoundMaterialized(mappings) ==>
      AddChildJoins(st, i, mappings[i].foundNavigations, []).Success?
    ensures var step := AddChildJoins(st, i, mappings[i].foundNavigations, []);
      step.Success? ==> Joined(start, step.value, mappings, i + 1)
  {
    JoinedStepSucceeds(start, st, mappings, i);
    var step := AddChildJoins(st, i, mappings[i].foundNavigations, []);
    if step.Success? {
      if WellFormedFound(mappings) {
        JoinedStepMaterializes(st, mappings, i);
      }
      ProgressesTransitive(start, st, step.value);
    }
  }

  /** Once every mapping is done, the mappings are still expandable, and every well-formed found tree is materialized. */
  lemma JoinedAll(start: JoinState, st: JoinState, mappings: seq<SourceMapping>)
    requires Joined(start, st, mappings, |mappings|)
    ensures Expandable(mappings) ==> Expandable(st.mappings)
    ensures WellFormedFound(mappings) ==> FoundMaterialized(st.mappings)
  {
    assert forall a :: 0 <= a < |mappings| ==> st.mappings[a].foundNavigations == mappings[a].foundNavigations;
  }

  /** What `FindAndApplyNavigations` returns, and the next unused parameter id. */
  datatype Applied = Applied(source: Expr, lambda: Lambda, state: ExpansionState, next: nat)

  /**
   `FindAndApplyNavigations`: binds the lambda, lets the finder store the
   navigation trees it uses on the mappings, then joins every tree of every
   mapping into the source, threading the row parameter and pending selector.
   The joins are recorded with the corrected bookkeeping; with the code's, the
   no-throw promise fails (see `SelfJoinAsWrittenThrows`).
   */
  method FindAndApplyNavigations(source: Expr, lambda: Lambda, state: ExpansionState, c: Collaborators, next: nat)
    returns (r: Result<Applied>)
    requires state.currentParameter.Some?
    ensures Expandable(state.sourceMappings) && FinderWellFormed(c) ==>
      r.Success? && Expandable(r.value.state.sourceMappings)
    ensures FoundMaterialized(FoundMappings(state, lambda, c)) ==>
      && r.Success?
      && r.value.source == source
      && r.value.state == state.(sourceMappings := FoundMappings(state, lambda, c))
      && r.value.next == next
    ensures r.Success? && WellFormedFound(FoundMappings(state, lambda, c)) ==> FoundMaterialized(r.value.state.sourceMappings)
    ensures r.Success? ==>
      && EntriesExtend(FoundMappings(state, lambda, c), r.value.state.sourceMappings)
      && SpineExtends(source, r.value.source)
      && r.value.state.currentParameter.Some?
      && (r.value.state.pendingSelector.Some? <==> state.pendingSelector.Some?)
      && r.value.state.finalProjectionPath == state.finalProjectionPath
      && next <= r.value.next
      && r.value.lambda == c.replaceNavigations(state.currentParameter.value, r.value.state.currentParameter.value,
                                                BoundLambda(state.currentParameter.value, state.sourceMappings, lambda, c))
  {
    var parameter := state.currentParameter.value;
    var bound := BoundLambda(parameter, state.sourceMappings, lambda, c);
    var mappings := FoundMappings(state, lambda, c);
    if Expandable(state.sourceMappings) && FinderWellFormed(c) {
      FoundKeepsExpandable(state, lambda, c);
    }
    var start := JoinState(source, parameter, state.pendingSelector, mappings, next, Corrected);
    var st := start;
    var i := 0;
    while i < |mappings|
      invariant Joined(start, st, mappings, i)
    {
      JoinedStep(start, st, mappings, i);
      var step := AddChildJoins(st, i, mappings[i].foundNavigations, []);
      if step.Failure? {
        return Failure(step.error);
      }
      st := step.value;
      i := i + 1;
    }
    JoinedAll(start, st, mappings);
    var newLambda := c.replaceNavigations(parameter, st.parameter, bound);
    var newState := ExpansionState(Some(st.parameter), st.pendingSelector, st.mappings, state.finalProjectionPath);
    r := Success(Applied(st.source, newLambda, newState, st.next));
  }

  /** The mappings stay expandable, whenever the result is an expansion. */
  ghost predicate ExpandableOutcome(v: Visited) {
    v.Expansion? ==> Expandable(v.state.sourceMappings)
  }

  /** Merging two expandable mapping lists keeps them expandable: shifting moves paths, never navigations. */
  lemma MergeKeepsExpandable(outer: seq<SourceMapping>, inner: seq<SourceMapping>)
    requires Expandable(outer) && Expandable(inner)
    ensures Expandable(MergeMappings(outer, inner))
  {
    var r := MergeMappings(outer, inner);
    forall i | 0 <= i < |r|
      ensures DistinctNavigations(r[i]) && r[i].initialPath.None?
      ensures forall t :: 0 <= t < |r[i].foundNavigations| ==> WellFormedAt(r[i].foundNavigations[t], [])
    {
      var m := if i < |outer| then outer[i] else inner[i - |outer|];
      assert r[i].entries == Shift(m, if i < |outer| then ["Outer"] else ["Inner"]).entries;
      assert forall j :: 0 <= j < |m.entries| ==> r[i].entries[j].navigations == m.entries[j].navigations;
      assert r[i].foundNavigations == m.foundNavigations;
    }
  }

  /** The parameter standing for the transparent identifier of an outer and an inner row. */
  function TransparentIdentifierParameter(outer: Param, inner: Param, next: nat): (ti: Param)
    ensures ti.ty == TransparentIdentifierTy(outer.ty, inner.ty)
  {
    Param(next, "ti", TransparentIdentifierTy(outer.ty, inner.ty))
  }

  /** The join's result selector with the outer, then the inner pending selector folded into its parameters. */
  function CombinedResultSelector(resultSelector: PairLambda, outerState: ExpansionState, innerState: ExpansionState, c: Collaborators): PairLambda {
    var first := c.combineAt(outerState.pendingSelector, resultSelector, resultSelector.params[0]);
    c.combineAt(innerState.pendingSelector, first, first.params[1])
  }

  /**
   The body of the remapped result selector: the outer row parameter replaced
   by `ti.Outer`, then the inner one by `ti.Inner`. It fails exactly when the
   body redeclares either row parameter; on success, when `ti` is neither row
   parameter, neither is left.
   */
  function RemapBody(e: Expr, o: Param, i: Param, ti: Param): (r: Result<Expr>)
    ensures r.Failure? <==> Declares(e, o) || Declares(e, i)
    ensures r.Failure? ==> r.error == ReboundReplacedParameter
    ensures r.Success? && ti != o && ti != i ==> !Occurs(r.value, o) && !Occurs(r.value, i)
  {
    var outerReplaced :- Replace(e, o, Field(ParamRef(ti), "Outer"));
    assert Declares(outerReplaced, i) == Declares(e, i) by {
      ReplaceKeepsDeclares(e, o, Field(ParamRef(ti), "Outer"), i);
    }
    var body :- Replace(outerReplaced, i, Field(ParamRef(ti), "Inner"));
    assert ti != o && ti != i ==> !Occurs(body, o) && !Occurs(body, i) by {
      if ti != o && ti != i {
        assert !Occurs(Field(ParamRef(ti), "Outer"), o) && !Occurs(Field(ParamRef(ti), "Inner"), i);
        assert !Occurs(Field(ParamRef(ti), "Inner"), o);
      }
      if ti != o && ti != i && Occurs(body, o) {
        ReplaceOccurs(outerReplaced, i, Field(ParamRef(ti), "Inner"), o);
      }
    }
    Success(body)
  }

  /**
   `RemapTwoArgumentResultSelector`: the join now pairs its rows into a
   transparent identifier; the mappings of both sides move under `Outer` and
   `Inner`; and the result selector, with both pending selectors folded in,
   becomes the pending selector over the transparent identifier.
   */
  function RemapTwoArgumentResultSelector(
    resultSelector: PairLambda, outerState: ExpansionState, innerState: ExpansionState, c: Collaborators, next: nat)
    : (r: Result<(PairLambda, ExpansionState)>)
    requires outerState.currentParameter.Some? && innerState.currentParameter.Some?
    ensures var o, i := outerState.currentParameter.value, innerState.currentParameter.value;
      var ti := TransparentIdentifierParameter(o, i, next);
      var body := CombinedResultSelector(resultSelector, outerState, innerState, c).body;
      && (r.Failure? <==> Declares(body, o) || Declares(body, i))
      && (r.Failure? ==> r.error == ReboundReplacedParameter)
      && (r.Success? ==>
            && PairsParameters(r.value.0) && r.value.0.params == [o, i]
            && r.value.1.currentParameter == Some(ti)
            && r.value.1.sourceMappings == MergeMappings(outerState.sourceMappings, innerState.sourceMappings)
            && r.value.1.finalProjectionPath == Some([])
            && r.value.1.pendingSelector.Some? && r.value.1.pendingSelector.value.params == [ti])
      && (r.Success? && o.id < next && i.id < next ==>
            !Occurs(r.value.1.pendingSelector.value.body, o) && !Occurs(r.value.1.pendingSelector.value.body, i))
  {
    var o, i := outerState.currentParameter.value, innerState.currentParameter.value;
    var ti := TransparentIdentifierParameter(o, i, next);
    var selector := CombinedResultSelector(resultSelector, outerState, innerState, c);
    var body :- RemapBody(selector.body, o, i, ti);
    var state := ExpansionState(Some(ti), Some(Lam([ti], body)), MergeMappings(outerState.sourceMappings, innerState.sourceMappings), Some([]));
    Success((Lam([o, i], NewTI(ParamRef(o), ParamRef(i))), state))
  }

  /**
   On the accessor fragment the remap keeps the result selector's meaning: the
   pending selector, given the transparent identifier of rows `a` and `b`,
   evaluates as the combined result selector with its outer and inner row
   parameters bound to `a` and `b`; and the join's new result selector builds
   exactly that transparent identifier.
   */
  lemma RemapKeepsMeaning(
    resultSelector: PairLambda, outerState: ExpansionState, innerState: ExpansionState, c: Collaborators, next: nat,
    env: Env, a: Row, b: Row)
    requires outerState.currentParameter.Some? && innerState.currentParameter.Some?
    requires var o, i := outerState.currentParameter.value, innerState.currentParameter.value;
      o != i && o.id < next && i.id < next
    requires InFragment(CombinedResultSelector(resultSelector, outerState, innerState, c).body)
    ensures var r := RemapTwoArgumentResultSelector(resultSelector, outerState, innerState, c, next);
      var o, i := outerState.currentParameter.value, innerState.currentParameter.value;
      var ti := TransparentIdentifierParameter(o, i, next);
      && r.Success?
      && Eval(r.value.1.pendingSelector.value.body, env[ti := TIRow(a, b)])
           == Eval(CombinedResultSelector(resultSelector, outerState, innerState, c).body, env[ti := TIRow(a, b)][o := a][i := b])
      && Eval(r.value.0.body, env[o := a][i := b]) == Some(TIRow(a, b))
  {
    var o, i := outerState.currentParameter.value, innerState.currentParameter.value;
    var ti := TransparentIdentifierParameter(o, i, next);
    var body := CombinedResultSelector(resultSelector, outerState, innerState, c).body;
    var outerAccess, innerAccess := Field(ParamRef(ti), "Outer"), Field(ParamRef(ti), "Inner");
    var e := env[ti := TIRow(a, b)];
    ReplaceKeepsFragment(body, o, outerAccess);
    var outerReplaced := Replace(body, o, outerAccess).value;
    ReplaceKeepsFragment(outerReplaced, i, innerAccess);
    ReplaceMeaning(outerReplaced, i, innerAccess, e);
    assert Eval(innerAccess, e) == Some(b) by {
      assert e[ti] == TIRow(a, b);
    }
    ReplaceMeaning(body, o, outerAccess, e[i := b]);
    assert Eval(outerAccess, e[i := b]) == Some(a) by {
      assert e[i := b][ti] == TIRow(a, b);
    }
    assert e[i := b][o := a] == e[o := a][i := b];
  }

  /** The result of rewriting one operator, and the next unused parameter id. */
  datatype Outcome = Outcome(visited: Visited, next: nat)

  /** The operator was rewritten into a call of `op` on a source that only gained joins, inside an expansion. */
  ghost predicate RewroteInto(op: Op, operand: Expr, v: Visited) {
    && v.Expansion?
    && v.operand.Call? && v.operand.op == op && |v.operand.args| == 2
    && SpineExtends(operand, v.operand.args[0])
    && v.state.currentParameter.Some?
  }

  /** `FindAndApplyNavigations` as the operator rewrites use it: only the guarantees they build on. */
  method ExpandNavigations(source: Expr, lambda: Lambda, state: ExpansionState, c: Collaborators, next: nat)
    returns (r: Result<Applied>)
    requires state.currentParameter.Some?
    ensures Expandable(state.sourceMappings) && FinderWellFormed(c) ==>
      r.Success? && Expandable(r.value.state.sourceMappings)
    ensures r.Success? ==>
      && SpineExtends(source, r.value.source)
      && EntriesGrow(state.sourceMappings, r.value.state.sourceMappings)
      && r.value.state.currentParameter.Some?
      && (r.value.state.pendingSelector.Some? <==> state.pendingSelector.Some?)
      && r.value.state.finalProjectionPath == state.finalProjectionPath
      && next <= r.value.next
  {
    r := FindAndApplyNavigations(source, lambda, state, c, next);
    if r.Success? {
      FoundExtendGrows(state, lambda, c, r.value.state.sourceMappings);
    }
  }

  /** The shared tail of `ProcessWhere` and `ProcessOrderBy`: the lambda's navigations expanded, then `op` re-emitted over the expanded source. */
  method ExpandAndReemit(op: Op, operand: Expr, lambda: Lambda, state: ExpansionState, c: Collaborators, next: nat)
    returns (r: Result<Outcome>)
    requires state.currentParameter.Some?
    ensures Expandable(state.sourceMappings) && FinderWellFormed(c) ==> r.Success? && ExpandableOutcome(r.value.visited)
    ensures r.Success? ==> RewroteInto(op, operand, r.value.visited) && next <= r.value.next
    ensures r.Success? ==> EntriesGrow(state.sourceMappings, r.value.visited.state.sourceMappings)
  {
    var result :- ExpandNavigations(operand, lambda, state, c, next);
    var rewritten := Call(op, [result.source, result.lambda]);
    assert rewritten.args[0] == result.source;
    r := Success(Outcome(Expansion(rewritten, result.state), result.next));
  }

  /**
   `ProcessWhere`: the pending selector folded into the predicate, which is
   bound, rewritten, visited and expanded; the filter is re-emitted over the
   expanded source.
   */
  method ProcessWhere(op: Op, source: Visited, filter: Lambda, c: Collaborators, next: nat) returns (r: Result<Outcome>)
    ensures var (operand, state) := AdoptState(source, filter.params[0]);
      && (Expandable(state.sourceMappings) && FinderWellFormed(c) ==> r.Success? && ExpandableOutcome(r.value.visited))
      && (r.Success? ==> RewroteInto(op, operand, r.value.visited) && next <= r.value.next)
      && (r.Success? ==> EntriesGrow(state.sourceMappings, r.value.visited.state.sourceMappings))
  {
    var (operand, state) := AdoptState(source, filter.params[0]);
    var parameter := state.currentParameter.value;
    var combined := c.visitLambda(BoundLambda(parameter, state.sourceMappings, c.combine(state.pendingSelector, filter), c));
    r := ExpandAndReemit(op, operand, combined, state, c, next);
  }

  /** `ProcessOrderBy`: as `ProcessWhere`, without the binding before the visit. */
  method ProcessOrderBy(op: Op, source: Visited, keySelector: Lambda, c: Collaborators, next: nat) returns (r: Result<Outcome>)
    ensures var (operand, state) := AdoptState(source, keySelector.params[0]);
      && (Expandable(state.sourceMappings) && FinderWellFormed(c) ==> r.Success? && ExpandableOutcome(r.value.visited))
      && (r.Success? ==> RewroteInto(op, operand, r.value.visited) && next <= r.value.next)
      && (r.Success? ==> EntriesGrow(state.sourceMappings, r.value.visited.state.sourceMappings))
  {
    var (operand, state) := AdoptState(source, keySelector.params[0]);
    var combined := c.visitLambda(c.combine(state.pendingSelector, keySelector));
    r := ExpandAndReemit(op, operand, combined, state, c, next);
  }

  /**
   `ProcessSelect`: no `Select` is emitted. The selector, with the pending
   selector folded in and its navigations expanded, becomes the new pending
   selector, and the source only gains joins.
   */
  method ProcessSelect(source: Visited, selector: Lambda, c: Collaborators, next: nat) returns (r: Result<Outcome>)
    ensures var (operand, state) := AdoptState(source, selector.params[0]);
      && (Expandable(state.sourceMappings) && FinderWellFormed(c) ==> r.Success? && ExpandableOutcome(r.value.visited))
      && (r.Success? ==>
            && r.value.visited.Expansion?
            && SpineExtends(operand, r.value.visited.operand)
            && r.value.visited.state.currentParameter.Some?
            && EntriesGrow(state.sourceMappings, r.value.visited.state.sourceMappings)
            && next <= r.value.next)
    ensures var (operand, state) := AdoptState(source, selector.params[0]);
      var parameter := state.currentParameter.value;
      r.Success? ==>
        r.value.visited.state.pendingSelector
          == Some(c.replaceNavigations(parameter, r.value.visited.state.currentParameter.value,
                                       BoundLambda(parameter, state.sourceMappings, c.visitLambda(c.combine(state.pendingSelector, selector)), c)))
  {
    var (operand, state) := AdoptState(source, selector.params[0]);
    var combined := c.visitLambda(c.combine(state.pendingSelector, selector));
    var result :- FindAndApplyNavigations(operand, combined, state, c, next);
    FoundExtendGrows(state, combined, c, result.state.sourceMappings);
    r := Success(Outcome(Expansion(result.source, result.state.(pendingSelector := Some(result.lambda))), result.next));
  }

  /** The first half of `ProcessJoin`: each key selector, with its side's pending selector folded in, expanded against its own source. */
  method ExpandJoinKeys(
    outerSource: Visited, innerSource: Visited, outerKey: Lambda, innerKey: Lambda, c: Collaborators, next: nat)
    returns (r: Result<(Applied, Applied)>)
    ensures var (outer, outerState) := AdoptState(outerSource, outerKey.params[0]);
      var (inner, innerState) := AdoptState(innerSource, innerKey.params[0]);
      && (Expandable(outerState.sourceMappings) && Expandable(innerState.sourceMappings) && FinderWellFormed(c) ==>
            r.Success? && Expandable(r.value.0.state.sourceMappings) && Expandable(r.value.1.state.sourceMappings))
      && (r.Success? ==>
            && SpineExtends(outer, r.value.0.source) && SpineExtends(inner, r.value.1.source)
            && r.value.0.state.currentParameter.Some? && r.value.1.state.currentParameter.Some?
            && EntriesGrow(outerState.sourceMappings, r.value.0.state.sourceMappings)
            && EntriesGrow(innerState.sourceMappings, r.value.1.state.sourceMappings)
            && next <= r.value.0.next <= r.value.1.next)
  {
    var (outer, outerState) := AdoptState(outerSource, outerKey.params[0]);
    var (inner, innerState) := AdoptState(innerSource, innerKey.params[0]);
    var combinedOuterKey := c.visitLambda(c.combine(outerState.pendingSelector, outerKey));
    var combinedInnerKey := c.visitLambda(c.combine(innerState.pendingSelector, innerKey));
    var outerResult :- ExpandNavigations(outer, combinedOuterKey, outerState, c, next);
    var innerResult :- ExpandNavigations(inner, combinedInnerKey, innerState, c, outerResult.next);
    r := Success((outerResult, innerResult));
  }

  /**
   The second half of `ProcessJoin`: the result selector is remapped onto a
   transparent identifier of the two expanded rows, the join is rewritten, and
   the navigations of the remapped selector are expanded over it.
   */
  method JoinExpandedSides(outerResult: Applied, innerResult: Applied, resultSelector: PairLambda, c: Collaborators)
    returns (r: Result<Outcome>)
    requires outerResult.state.currentParameter.Some? && innerResult.state.currentParameter.Some?
    ensures Expandable(outerResult.state.sourceMappings) && Expandable(innerResult.state.sourceMappings)
              && FinderWellFormed(c) ==>
      && (r.Success? ==> ExpandableOutcome(r.value.visited))
      && (r.Failure? ==> r.error == ReboundReplacedParameter)
    ensures r.Success? ==>
      && r.value.visited.Expansion?
      && SpineExtends(outerResult.source, r.value.visited.operand)
      && EntriesGrow(MergeMappings(outerResult.state.sourceMappings, innerResult.state.sourceMappings),
                     r.value.visited.state.sourceMappings)
      && r.value.visited.state.currentParameter.Some?
      && r.value.visited.state.pendingSelector.Some?
      && r.value.visited.state.finalProjectionPath == Some([])
      && innerResult.next <= r.value.next
  {
    var remap :- RemapTwoArgumentResultSelector(resultSelector, outerResult.state, innerResult.state, c, innerResult.next);
    var rewritten := Call(Op.Join, [outerResult.source, innerResult.source, outerResult.lambda, innerResult.lambda, remap.0]);
    assert SpineExtends(outerResult.source, rewritten);
    if Expandable(outerResult.state.sourceMappings) && Expandable(innerResult.state.sourceMappings) {
      MergeKeepsExpandable(outerResult.state.sourceMappings, innerResult.state.sourceMappings);
    }
    var result :- ExpandNavigations(rewritten, remap.1.pendingSelector.value, remap.1, c, innerResult.next + 1);
    SpineExtendsTransitive(outerResult.source, rewritten, result.source);
    r := Success(Outcome(Expansion(result.source, result.state), result.next));
  }

  /**
   `ProcessJoin`: both key selectors are expanded against their own sources, the
   result selector is remapped onto a transparent identifier, and the
   navigations of the remapped selector are expanded over the rewritten join.
   The state handed on keeps the pending selector threaded through that last
   expansion.
   */
  method ProcessJoin(
    outerSource: Visited, innerSource: Visited, outerKey: Lambda, innerKey: Lambda, resultSelector: PairLambda,
    c: Collaborators, next: nat)
    returns (r: Result<Outcome>)
    ensures var (outer, outerState) := AdoptState(outerSource, outerKey.params[0]);
      var (inner, innerState) := AdoptState(innerSource, innerKey.params[0]);
      && (Expandable(outerState.sourceMappings) && Expandable(innerState.sourceMappings) && FinderWellFormed(c) ==>
            && (r.Success? ==> ExpandableOutcome(r.value.visited))
            && (r.Failure? ==> r.error == ReboundReplacedParameter))
      && (r.Success? ==>
            && r.value.visited.Expansion?
            && SpineExtends(outer, r.value.visited.operand)
            && EntriesGrow(MergeMappings(outerState.sourceMappings, innerState.sourceMappings),
                           r.value.visited.state.sourceMappings)
            && r.value.visited.state.currentParameter.Some?
            && r.value.visited.state.pendingSelector.Some?
            && r.value.visited.state.finalProjectionPath == Some([])
            && next <= r.value.next)
  {
    var keys :- ExpandJoinKeys(outerSource, innerSource, outerKey, innerKey, c, next);
    var (outerResult, innerResult) := keys;
    r := JoinExpandedSides(outerResult, innerResult, resultSelector, c);
    if r.Success? {
      var (outer, outerState) := AdoptState(outerSource, outerKey.params[0]);
      var innerState := AdoptState(innerSource, innerKey.params[0]).1;
      SpineExtendsTransitive(outer, outerResult.source, r.value.visited.operand);
      MergeGrows(outerState.sourceMappings, outerResult.state.sourceMappings, innerState.sourceMappings, innerResult.state.sourceMappings);
      EntriesGrowTransitive(
        MergeMappings(outerState.sourceMappings, innerState.sourceMappings),
        MergeMappings(outerResult.state.sourceMappings, innerResult.state.sourceMappings),
        r.value.visited.state.sourceMappings);
    }
  }

  /** The terminating operators that take only their source. */
  predicate SingleArgumentTerminal(op: Op) {
    op == Distinct || op == First || op == FirstOrDefault || op == Single || op == SingleOrDefault || op == Any
  }

  /** The terminating operators that take one more argument after their source. */
  predicate TwoArgumentTerminal(op: Op) {
    op == Take || op == Contains
  }

  /**
   `ProcessTerminatingOperation`. A pending selector is materialized as a
   `Select` under the operator, with its navigations bound and replaced in
   place, and the state is cleared; without one the call is kept as it was.
   A source that is not an expansion gives back the original call.
   */
  function ProcessTerminatingOperation(op: Op, args: seq<Expr>, source: Visited, parameter: Param, c: Collaborators)
    : (r: Result<Visited>)
    requires |args| >= 1 && (TwoArgumentTerminal(op) ==> |args| >= 2)
    ensures source.Plain? ==> r == Success(Plain(Call(op, args)))
    ensures source.Expansion? && source.state.pendingSelector.None? ==>
      && r.Success? && r.value.Expansion?
      && r.value.operand == Call(op, args)
      && r.value.state == source.state.(currentParameter := r.value.state.currentParameter)
      && r.value.state.currentParameter == Some(source.state.currentParameter.GetOr(parameter))
    ensures source.Expansion? && source.state.pendingSelector.Some? ==>
      && (r.Failure? <==> !SingleArgumentTerminal(op) && !TwoArgumentTerminal(op))
      && (r.Failure? ==> r.error == UnsupportedMethod(OpName(op)))
      && (r.Success? ==>
            && r.value.Expansion?
            && r.value.state.currentParameter.None? && r.value.state.pendingSelector.None?
            && r.value.state.finalProjectionPath == source.state.finalProjectionPath
            && Spine(r.value.operand) == [op, Select] + Spine(source.operand)
            && |r.value.operand.args| == (if TwoArgumentTerminal(op) then 2 else 1)
            && (TwoArgumentTerminal(op) ==> r.value.operand.args[1] == c.visitArgument(args[1])))
  {
    match source
    case Plain(_) => Success(Plain(Call(op, args)))
    case Expansion(operand, state) =>
      var state := state.(currentParameter := Some(state.currentParameter.GetOr(parameter)));
      if state.pendingSelector.None? then Success(Expansion(Call(op, args), state))
      else MaterializeSelector(op, args, operand, state, c)
  }

  /** The terminating rewrite with a pending selector: the selector becomes a `Select` under the operator. */
  function MaterializeSelector(op: Op, args: seq<Expr>, operand: Expr, state: ExpansionState, c: Collaborators)
    : (r: Result<Visited>)
    requires |args| >= 1 && (TwoArgumentTerminal(op) ==> |args| >= 2)
    requires state.pendingSelector.Some?
    ensures r.Failure? <==> !SingleArgumentTerminal(op) && !TwoArgumentTerminal(op)
    ensures r.Failure? ==> r.error == UnsupportedMethod(OpName(op))
    ensures r.Success? ==>
      && r.value.Expansion?
      && r.value.state.currentParameter.None? && r.value.state.pendingSelector.None?
      && r.value.state.finalProjectionPath == state.finalProjectionPath
      && Spine(r.value.operand) == [op, Select] + Spine(operand)
      && |r.value.operand.args| == (if TwoArgumentTerminal(op) then 2 else 1)
      && (TwoArgumentTerminal(op) ==> r.value.operand.args[1] == c.visitArgument(args[1]))
  {
    var selector := state.pendingSelector.value;
    var selectorParameter := selector.params[0];
    var bound := c.bind(selectorParameter, state.sourceMappings, selector);
    var newSelector := c.replaceNavigations(selectorParameter, selectorParameter, bound);
    var mappings := c.generateAccessorMappings(selectorParameter, bound, state.sourceMappings);
    var select := Call(Select, [operand, newSelector]);
    var cleared := state.(currentParameter := None, pendingSelector := None, sourceMappings := mappings);
    if SingleArgumentTerminal(op) then Success(Expansion(Call(op, [select]), cleared))
    else if TwoArgumentTerminal(op) then Success(Expansion(Call(op, [select, c.visitArgument(args[1])]), cleared))
    else Failure(UnsupportedMethod(OpName(op)))
  }

  /** The rewrite `VisitMethodCall` hands a call to. */
  datatype Handler = WhereHandler | SelectHandler | OrderByHandler | SelectManyHandler | JoinHandler | TerminatingHandler | BaseHandler

  /** `VisitMethodCall`'s dispatch on the called method; `GroupJoin` is left to the base visitor. */
  function Route(op: Op): (h: Handler)
    ensures h == TerminatingHandler <==> SingleArgumentTerminal(op) || TwoArgumentTerminal(op)
    ensures h == BaseHandler <==> op == GroupJoin || op == DefaultIfEmpty || op.OtherMethod?
  {
    match op
    case QueryableWhere | EnumerableWhere => WhereHandler
    case Select => SelectHandler
    case OrderBy | OrderByDescending | ThenBy | ThenByDescending => OrderByHandler
    case SelectManyWithResultSelector => SelectManyHandler
    case Join => JoinHandler
    case Distinct | Take | First | FirstOrDefault | Single | SingleOrDefault | Any | Contains => TerminatingHandler
    case _ => BaseHandler
  }

  /** Every operator the dispatch routes to `ProcessTerminatingOperation` is one it supports: it never throws. */
  lemma RoutedTerminalsAreSupported(op: Op, args: seq<Expr>, source: Visited, parameter: Param, c: Collaborators)
    requires Route(op) == TerminatingHandler
    requires |args| >= 1 && (TwoArgumentTerminal(op) ==> |args| >= 2)
    ensures ProcessTerminatingOperation(op, args, source, parameter, c).Success?
  {
  }

  /** The arguments a call carries, as the signature of the method it calls guarantees. */
  predicate CallShaped(op: Op, args: seq<Expr>) {
    match Route(op)
    case WhereHandler | SelectHandler | OrderByHandler => |args| == 2 && args[1].Lam? && |args[1].params| >= 1
    case JoinHandler =>
      && |args| == 5
      && args[2].Lam? && |args[2].params| >= 1
      && args[3].Lam? && |args[3].params| >= 1
      && args[4].Lam? && |args[4].params| >= 2
    case TerminatingHandler => |args| >= 1 && (TwoArgumentTerminal(op) ==> |args| >= 2)
    case _ => true
  }

  /** Every call the rewrite visits down the query is shaped as its method's signature says. */
  predicate QueryShaped(e: Expr)
    decreases e
  {
    e.Call? ==>
      && CallShaped(e.op, e.args)
      && (Route(e.op) != SelectManyHandler && Route(e.op) != BaseHandler ==> QueryShaped(e.args[0]))
      && (Route(e.op) == JoinHandler ==> QueryShaped(e.args[1]))
  }

  /**
   The queries built from filters, projections, orderings and joins over
   entity scans and expressions this visitor does not rewrite.
   */
  predicate Composed(e: Expr)
    decreases e
  {
    e.Call? ==>
      match Route(e.op)
      case WhereHandler | SelectHandler | OrderByHandler => |e.args| >= 1 && Composed(e.args[0])
      case JoinHandler => |e.args| >= 2 && Composed(e.args[0]) && Composed(e.args[1])
      case TerminatingHandler | SelectManyHandler => false
      case BaseHandler => true
  }

  /**
   `Visit`, for the query operators: a call goes where `VisitMethodCall` routes
   it, after its sources are visited; an entity scan goes to `VisitConstant`;
   anything else to the base visitor. Parameter ids are handed out from `next`.
   On a composed query, with a finder that reports well-formed trees, the
   rewrite never throws on an accessor lookup: the only failure left is a join
   result selector that redeclares a row parameter. A terminating operator on
   top adds no failure of its own.
   */
  method Visit(e: Expr, c: Collaborators, next: nat) returns (r: Result<Outcome>)
    requires QueryShaped(e)
    ensures r.Success? ==> next <= r.value.next
    ensures FinderWellFormed(c) && Composed(e) ==>
      && (r.Success? ==> ExpandableOutcome(r.value.visited))
      && (r.Failure? ==> r.error == ReboundReplacedParameter)
    ensures FinderWellFormed(c) && e.Call? && Route(e.op) == TerminatingHandler && Composed(e.args[0]) ==>
      r.Failure? ==> r.error == ReboundReplacedParameter
    decreases e
  {
    if e.EntityScan? {
      return Success(Outcome(VisitConstant(e), next));
    }
    if !e.Call? {
      return Success(Outcome(Plain(c.visitOther(e)), next));
    }
    var op, args := e.op, e.args;
    match Route(op) {
      case WhereHandler =>
        var source :- Visit(args[0], c, next);
        r := ProcessWhere(op, source.visited, args[1], c, source.next);
      case SelectHandler =>
        var source :- Visit(args[0], c, next);
        r := ProcessSelect(source.visited, args[1], c, source.next);
      case OrderByHandler =>
        var source :- Visit(args[0], c, next);
        r := ProcessOrderBy(op, source.visited, args[1], c, source.next);
      case JoinHandler =>
        var outer :- Visit(args[0], c, next);
        var inner :- Visit(args[1], c, outer.next);
        r := ProcessJoin(outer.visited, inner.visited, args[2], args[3], args[4], c, inner.next);
      case TerminatingHandler =>
        var source :- Visit(args[0], c, next);
        var ty := c.elementType(args[0]);
        var parameter := Param(source.next, c.parameterName(ty), ty);
        RoutedTerminalsAreSupported(op, args, source.visited, parameter, c);
        var terminated := ProcessTerminatingOperation(op, args, source.visited, parameter, c);
        r := Success(Outcome(terminated.value, source.next + 1));
      case SelectManyHandler =>
        r := Success(Outcome(c.processSelectMany(e), next));
      case BaseHandler =>
        r := Success(Outcome(Plain(c.visitOther(e)), next));
    }
  }
}
