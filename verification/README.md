# Navigation expansion, modelled in Dafny

This project models the navigation-expansion rewrite of Entity Framework Core's
`NavigationExpandingExpressionVisitor`. The rewrite takes a LINQ query built from
`Where`, `Select`, `OrderBy`/`ThenBy`, `Join` and terminating operators over entity
sets. It replaces every dereference of a relationship (a *navigation*, such as
`order.Customer`) with an explicit join against a fresh scan of the target entity
set.

While doing so it keeps track of where each materialized navigation now lives. The
joined rows are nested transparent identifiers `TransparentIdentifier{Outer, Inner}`,
and every originally scanned source keeps a *source mapping*. Each entry of a mapping
pairs a member path (`["Outer", "Outer", "Inner"]`) with the navigation path that
reaches the same row (`[Customer, Address]`).

## Modules

- `Common`: `Option`, `Result` and the errors the rewrite throws.
  - `AmbiguousAccessorPath`: the `SingleOrDefault()` in the accessor lookup (:759), which throws when several entries match. No match gives the default, an entry with no path: the `None` case of the lookup.
  - `NullAccessorPath`: the accessor builder given an initial path without an accessor path.
  - `ReboundReplacedParameter`: the replacing visitor's rebinding of a lambda parameter.
  - `UnsupportedMethod`: the terminating-operator fallback.
- `Metadata`: CLR types, with nullability; properties; and navigations as records with an identity.
  - Navigation names are compared through `Names`; navigations themselves are compared by record equality.
  - This mirrors the source, which compares names at :748 and references at :759.
- `Expressions`: the expression tree (`Expr`), lambdas with identified parameters, and the operator spine of a query.
  - It also holds the rows a query produces (`Row`, with transparent-identifier rows) and the evaluation of the accessor fragment (`Eval`, `Resolve`).
- `NavigationTree`: the navigation trees the finder reports, and the path a node generates.
- `Visitors`:
  - `ExpressionReplacingVisitor`, as `Replace`;
  - `PendingSelectorUpdatingExpressionVisitor`, as `UpdatePendingSelector`;
  - `CorrelationChecker`.
- `Keys`: `CreatePropertyExpression`, `CreateKeyAccessExpression`, the key sides of a navigation join, and the nullability widening of the two keys.
- `Mappings`:
  - source mappings and `BuildTransparentIdentifierAccessorExpression`;
  - the accessor lookup;
  - the join bookkeeping, both as written and corrected (see Findings), with `Bookkeeping` choosing between the two;
  - the two-source merge;
  - the consistency invariant: every entry's member path reaches, in the current row, the row its navigation path denotes.
- `Joins`: `AddNavigationJoin`, the join injector.
  - It emits a `Join` for a required navigation, and `GroupJoin`+`SelectMany` for an optional one.
  - It records the join in the mappings, with the bookkeeping its state carries, and rewrites the pending selector.
  - It recurses into the node's children.
- `Operators`:
  - the state-adoption step shared by the operator rewrites, and `VisitConstant`;
  - `FindAndApplyNavigations`, `RemapTwoArgumentResultSelector`;
  - `ProcessWhere`, `ProcessSelect`, `ProcessOrderBy`, `ProcessJoin`;
  - `ProcessTerminatingOperation` and the dispatch of `VisitMethodCall`, as `Visit`.

## Collaborators and identity

- **Collaborator visitors.** Several visitors are used by the rewrite but are not part of this model:
  - the binder (`NavigationPropertyBindingExpressionVisitor`);
  - the collection rewriter;
  - the finder (`NavigationFindingExpressionVisitor`);
  - the navigation replacer;
  - `CombineAndRemapLambdas`;
  - `EntityTypeAccessorMappingGenerator`;
  - the recursive visit of lambdas and arguments;
  - the `SelectMany` rewrite.

  These are fields of a `Collaborators` record, so every contract holds for any implementation of them. Where a contract needs something of the finder (that the trees it reports are well formed), it says so as a hypothesis (`FinderWellFormed`).
- **Parameter identity.** The source compares parameters by reference. The model gives each `Param` an `id`. Fresh parameters take their ids from a counter `next` that every operation threads and returns.
- **In-place mutation.** The source mutates path lists in place (`Insert(0, …)`). The model returns new sequences instead.

## Model

Source cells are paths relative to the repository root, with the lines the member models.

| member | source | states |
|---|---|---|
| Metadata.NamesDetermineChain | src/EFCore/Query/ExpressionVisitors/Internal/NavigationExpansion/NavigationExpandingExpressionVisitor.cs:747-759 | Two navigation paths from the same root entity, declared in a model where navigation names are unique per entity, are equal when their names are equal, so the name test of :748 and the reference lookup of :759 agree on rooted paths |
| Expressions.SplitFieldChainInverts | src/EFCore/Query/ExpressionVisitors/Internal/NavigationExpansion/NavigationExpandingExpressionVisitor.cs:1075-1086 | The member accesses the accessor builder folds onto a source can be read back as that source and that path: the fold loses nothing |
| Expressions.FieldChainMeaning | src/EFCore/Query/ExpressionVisitors/Internal/NavigationExpansion/NavigationExpandingExpressionVisitor.cs:1075-1086 | Evaluating the folded member accesses on a row parameter resolves the path in that row |
| Expressions.JoinedRowResolution | src/EFCore/Query/ExpressionVisitors/Internal/NavigationExpansion/NavigationExpandingExpressionVisitor.cs:920-938 | In the row a join produces, `Outer` (required) or `Outer.Outer` (optional) followed by any path resolves as that path did in the previous row, and `Inner` resolves to the joined target |
| NavigationTree.GeneratePathOfWellFormed | src/EFCore/Query/ExpressionVisitors/Internal/NavigationExpansion/NavigationExpandingExpressionVisitor.cs:747-748 | The path a well-formed tree node generates is the names of the navigation path from the root down to it |
| Visitors.Replace | src/EFCore/Query/ExpressionVisitors/Internal/NavigationExpansion/NavigationExpandingExpressionVisitor.cs:1204-1219 | Replacing a parameter fails exactly when a nested lambda declares it and the replacement is not a parameter, with the rebinding error; an expression without the parameter comes back unchanged; after success the parameter no longer occurs unless the replacement holds it |
| Visitors.ReplaceAll | src/EFCore/Query/ExpressionVisitors/Internal/NavigationExpansion/NavigationExpandingExpressionVisitor.cs:1204-1219 | The replacement over a list of children keeps its length and fails exactly when one child declares the parameter and the replacement is not a parameter |
| Visitors.ReplaceDeclared | src/EFCore/Query/ExpressionVisitors/Internal/NavigationExpansion/NavigationExpandingExpressionVisitor.cs:1213-1218 | A lambda's declared parameters are swapped only for a parameter replacement; any other replacement of a declared parameter fails, and a list without the parameter is kept |
| Visitors.ReplaceMeaning | src/EFCore/Query/ExpressionVisitors/Internal/NavigationExpansion/NavigationExpandingExpressionVisitor.cs:1204-1219 | On the accessor fragment, replacement succeeds and evaluates as the original with the parameter bound to the replacement's value |
| Visitors.ReplaceOccurs | src/EFCore/Query/ExpressionVisitors/Internal/NavigationExpansion/NavigationExpandingExpressionVisitor.cs:1204-1219 | Every parameter occurring in the result occurred in the input (and is not the replaced one) or occurs in the replacement |
| Visitors.ReplaceKeepsDeclares | src/EFCore/Query/ExpressionVisitors/Internal/NavigationExpansion/NavigationExpandingExpressionVisitor.cs:1204-1219 | A replacement that declares no lambda parameter changes nothing about which parameters nested lambdas declare |
| Visitors.ReplaceKeepsFragment | src/EFCore/Query/ExpressionVisitors/Internal/NavigationExpansion/NavigationExpandingExpressionVisitor.cs:1204-1219 | Replacing inside the accessor fragment with an accessor succeeds and stays in the fragment |
| Visitors.UpdatePendingSelector | src/EFCore/Query/ExpressionVisitors/Internal/NavigationExpansion/NavigationExpandingExpressionVisitor.cs:1092-1143 | After a join the previous row parameter no longer occurs; an expression without it is returned as it was, and with a different replacement it is changed exactly when it held the parameter; lambda parameters equal to the previous one are swapped and all others kept |
| Visitors.UpdatePendingSelectorMeaning | src/EFCore/Query/ExpressionVisitors/Internal/NavigationExpansion/NavigationExpandingExpressionVisitor.cs:1131-1142 | The updated selector evaluates as the original with the previous parameter bound to `replacement.Outer` (required) or `replacement.Outer.Outer` (optional) |
| Visitors.UpdatePendingSelectorAfterJoin | src/EFCore/Query/ExpressionVisitors/Internal/NavigationExpansion/NavigationExpandingExpressionVisitor.cs:941-945 | Given the joined row, the updated pending selector computes exactly what the old selector computed on the previous row |
| Visitors.UpdateSelectorOptionAfterJoin | src/EFCore/Query/ExpressionVisitors/Internal/NavigationExpansion/NavigationExpandingExpressionVisitor.cs:941-945 | After a join a missing pending selector stays missing; a present one keeps its parameters with the previous row parameter swapped for the joined one, and on the accessor fragment its body, read against the joined row, computes what the old body computed against the row the join started from |
| Visitors.CorrelationChecker | src/EFCore/Query/ExpressionVisitors/Internal/NavigationExpansion/NavigationExpandingExpressionVisitor.cs:220-240 | An uncorrelated collection selector is left unchanged by any replacement of the outer row parameter |
| Visitors.UncorrelatedIsIndependent | src/EFCore/Query/ExpressionVisitors/Internal/NavigationExpansion/NavigationExpandingExpressionVisitor.cs:220-240 | An uncorrelated collection selector evaluates the same whatever value the outer row parameter has |
| Keys.CreatePropertyExpression | src/EFCore/Query/ExpressionVisitors/Internal/NavigationExpansion/NavigationExpandingExpressionVisitor.cs:1040-1062 | The expression reads the given property of the given target, null-guarded exactly when asked, and its type is the property's type made nullable under the guard |
| Keys.CreateKeyAccessExpression | src/EFCore/Query/ExpressionVisitors/Internal/NavigationExpansion/NavigationExpandingExpressionVisitor.cs:1026-1037 | A single property gives a single access, any other number a composite; the key reads every property, in order, from the target with the requested guard |
| Keys.WidenKeys | src/EFCore/Query/ExpressionVisitors/Internal/NavigationExpansion/NavigationExpandingExpressionVisitor.cs:783-792 | When exactly one key is nullable the other is converted to its type, so both types become equal and nullable; otherwise both keys stay; the properties read do not change |
| Keys.CreateJoinKeys | src/EFCore/Query/ExpressionVisitors/Internal/NavigationExpansion/NavigationExpandingExpressionVisitor.cs:765-792 | A dependent-to-principal navigation joins the foreign key, read through the parent's accessor, to the principal key of the new scan; the other direction joins the principal key, read through the accessor, to the foreign key of the new scan. The accessor side is null-guarded exactly when the parent is optional, the scan side never, and both keys end with the same nullability |
| Mappings.InitialMapping | src/EFCore/Query/ExpressionVisitors/Internal/NavigationExpansion/NavigationExpandingExpressionVisitor.cs:661-677 | A fresh mapping on its own is consistent with any row that sits where the root is placed, cannot make the accessor lookup ambiguous, is rooted in any catalog, and holds no found navigations |
| Mappings.BuildTransparentIdentifierAccessorExpression | src/EFCore/Query/ExpressionVisitors/Internal/NavigationExpansion/NavigationExpandingExpressionVisitor.cs:1065-1090 | Fails exactly when an initial path is given without an accessor path; with neither, the source itself; otherwise the member accesses of the initial path then the accessor path, which read back as exactly that path |
| Mappings.AccessorMeaning | src/EFCore/Query/ExpressionVisitors/Internal/NavigationExpansion/NavigationExpandingExpressionVisitor.cs:1065-1090 | The accessor built on a row parameter evaluates to the row reached by the initial path followed by the accessor path |
| Mappings.MatchingIndices | src/EFCore/Query/ExpressionVisitors/Internal/NavigationExpansion/NavigationExpandingExpressionVisitor.cs:757-759 | The positions returned are exactly the entries whose navigation path is the searched one, ascending |
| Mappings.LookupAccessorPath | src/EFCore/Query/ExpressionVisitors/Internal/NavigationExpansion/NavigationExpandingExpressionVisitor.cs:757-759 | No match gives no path, two or more matches fail as ambiguous, and one match gives that entry's member path |
| Mappings.Shift | src/EFCore/Query/ExpressionVisitors/Internal/NavigationExpansion/NavigationExpandingExpressionVisitor.cs:920-932 | Every entry keeps its navigation path and gets the prefix in front of its member path; nothing else in the mapping changes |
| Mappings.RecordJoinAsWritten | src/EFCore/Query/ExpressionVisitors/Internal/NavigationExpansion/NavigationExpandingExpressionVisitor.cs:913-939 | The bookkeeping as written: every entry of every mapping shifted under the outer prefix, and every mapping, not only the processed one, ends with the new `Inner` entry |
| Mappings.RecordJoin | src/EFCore/Query/ExpressionVisitors/Internal/NavigationExpansion/NavigationExpandingExpressionVisitor.cs:913-939 | The corrected bookkeeping: every entry shifted under the outer prefix; the processed mapping gains the root entry when missing and then the `Inner` entry; the other mappings gain nothing |
| Mappings.Record | src/EFCore/Query/ExpressionVisitors/Internal/NavigationExpansion/NavigationExpandingExpressionVisitor.cs:913-939 | Under either bookkeeping every mapping is shifted and the processed one gains the root entry when missing and ends with the new `Inner` entry; every other mapping gains one entry as written and none corrected |
| Mappings.RecordJoinKeepsConsistent | src/EFCore/Query/ExpressionVisitors/Internal/NavigationExpansion/NavigationExpandingExpressionVisitor.cs:913-939 | A join preserves the consistency invariant: in the joined row every old entry still reaches its row and the new entry reaches the joined target |
| Mappings.MergeMappings | src/EFCore/Query/ExpressionVisitors/Internal/NavigationExpansion/NavigationExpandingExpressionVisitor.cs:986-1000 | The merged list is the outer mappings shifted under `Outer`, then the inner ones shifted under `Inner`, in order |
| Mappings.MergeKeepsConsistent | src/EFCore/Query/ExpressionVisitors/Internal/NavigationExpansion/NavigationExpandingExpressionVisitor.cs:986-1020 | After the merge, in the transparent identifier of an outer and an inner row, every entry reaches what it reached in its own side's row |
| Mappings.NameTestExact | src/EFCore/Query/ExpressionVisitors/Internal/NavigationExpansion/NavigationExpandingExpressionVisitor.cs:747-759 | On a mapping whose entries all walk from its root, the name test passes exactly when some entry holds that very navigation path |
| Mappings.RecordJoinKeepsRooted | src/EFCore/Query/ExpressionVisitors/Internal/NavigationExpansion/NavigationExpandingExpressionVisitor.cs:913-939 | The corrected bookkeeping keeps every entry walking from its own mapping's root |
| Mappings.SharedInnerEntryMisleadsNameTest | src/EFCore/Query/ExpressionVisitors/Internal/NavigationExpansion/NavigationExpandingExpressionVisitor.cs:934-939 | A two-source counterexample: as written, the second mapping passes the name test for a navigation it never joined; corrected, it does not |
| Mappings.DistinctLookupSucceeds | src/EFCore/Query/ExpressionVisitors/Internal/NavigationExpansion/NavigationExpandingExpressionVisitor.cs:757-759 | When no two entries share a navigation path, the accessor lookup cannot throw |
| Mappings.RecordJoinKeepsUnambiguous | src/EFCore/Query/ExpressionVisitors/Internal/NavigationExpansion/NavigationExpandingExpressionVisitor.cs:913-939 | Recording a navigation path new to its mapping keeps every mapping free of duplicate navigation paths |
| Joins.EmitJoin | src/EFCore/Query/ExpressionVisitors/Internal/NavigationExpansion/NavigationExpandingExpressionVisitor.cs:803-911 | A required node adds one `Join` with a pairing result selector; an optional node adds `GroupJoin` under `SelectMany` over `DefaultIfEmpty` of the group; the new row parameter is fresh and typed `TI(old, target)` or `TI(TI(old, group), target)` |
| Joins.EmitJoinBuildsJoinedRow | src/EFCore/Query/ExpressionVisitors/Internal/NavigationExpansion/NavigationExpandingExpressionVisitor.cs:803-911 | The result selectors of the emitted join build exactly the joined row the bookkeeping assumes |
| Joins.ParentAccessor | src/EFCore/Query/ExpressionVisitors/Internal/NavigationExpansion/NavigationExpandingExpressionVisitor.cs:757-763 | The accessor to the parent row fails exactly when the lookup is ambiguous or the initial path has no accessor path |
| Joins.ParentAccessorReachesParentRow | src/EFCore/Query/ExpressionVisitors/Internal/NavigationExpansion/NavigationExpandingExpressionVisitor.cs:757-763 | On a consistent mapping, the parent accessor evaluates to the row the parent navigation path denotes |
| Joins.ApplyJoin | src/EFCore/Query/ExpressionVisitors/Internal/NavigationExpansion/NavigationExpandingExpressionVisitor.cs:803-945 | One join lengthens the source by join operators only, records the join in the mappings with the state's bookkeeping (the code's, or the corrected one), types the new row parameter as the joined row, and rewrites the pending selector onto it |
| Joins.JoinNavigation | src/EFCore/Query/ExpressionVisitors/Internal/NavigationExpansion/NavigationExpandingExpressionVisitor.cs:750-945 | Joining a missing navigation fails, as ambiguous or for a missing accessor path, exactly when its parent accessor cannot be built; otherwise it extends the source and records the join with the state's bookkeeping |
| Joins.AddNavigationJoin | src/EFCore/Query/ExpressionVisitors/Internal/NavigationExpansion/NavigationExpandingExpressionVisitor.cs:738-966 | Under either bookkeeping, every successful call only puts join operators in front of the source, only extends the mappings (every old entry keeps its navigation path in place), keeps whether there is a pending selector, and changes nothing when it emits no join |
| Joins.AddChildJoins | src/EFCore/Query/ExpressionVisitors/Internal/NavigationExpansion/NavigationExpandingExpressionVisitor.cs:952-963 | The children are processed in order, each on the state the previous one left, with the same guarantee |
| Joins.MaterializedTreeEmitsNoJoin | src/EFCore/Query/ExpressionVisitors/Internal/NavigationExpansion/NavigationExpandingExpressionVisitor.cs:747-748 | A tree whose every node passes the name test emits no join: source, parameter, pending selector and mappings come back unchanged |
| Joins.MaterializedPersists | src/EFCore/Query/ExpressionVisitors/Internal/NavigationExpansion/NavigationExpandingExpressionVisitor.cs:947-963 | Once a tree is materialized in a mapping it stays so under later steps, which keep old entries' navigation paths in place |
| Joins.AddNavigationJoinMaterializes | src/EFCore/Query/ExpressionVisitors/Internal/NavigationExpansion/NavigationExpandingExpressionVisitor.cs:738-966 | After a successful call on a well-formed tree every node of the tree passes the name test |
| Joins.AddNavigationJoinIdempotent | src/EFCore/Query/ExpressionVisitors/Internal/NavigationExpansion/NavigationExpandingExpressionVisitor.cs:738-966 | Running the join injector again on its own result changes nothing |
| Joins.AddNavigationJoinSucceeds | src/EFCore/Query/ExpressionVisitors/Internal/NavigationExpansion/NavigationExpandingExpressionVisitor.cs:757-763 | With the corrected bookkeeping, on mappings without duplicate navigation paths or initial paths the injector never throws, and the mappings stay so |
| Joins.AmbiguousParentThrows | src/EFCore/Query/ExpressionVisitors/Internal/NavigationExpansion/NavigationExpandingExpressionVisitor.cs:747-763 | A top-level node that passes the name test, with a child that does not, throws `AmbiguousAccessorPath` when several entries hold the node's navigation path |
| Joins.SelfJoinAsWrittenThrows | src/EFCore/Query/ExpressionVisitors/Internal/NavigationExpansion/NavigationExpandingExpressionVisitor.cs:738-966 | A self-join of orders, the inner side having joined its customer already: with the bookkeeping as written, joining the outer customer gives the inner mapping a second entry for the customer path, so joining the inner customer's address throws although the mappings started unambiguous; with the corrected bookkeeping both steps succeed |
| Operators.AdoptState | src/EFCore/Query/ExpressionVisitors/Internal/NavigationExpansion/NavigationExpandingExpressionVisitor.cs:116-125 | An expansion hands over its operand and state, with its own current parameter kept or the operator's adopted, and its pending selector kept or the identity on the parameter; anything else starts a fresh state on the operator's parameter |
| Operators.AdoptedIdentityMissesCurrentParameter | src/EFCore/Query/ExpressionVisitors/Internal/NavigationExpansion/NavigationExpandingExpressionVisitor.cs:116-123 | On a source with a current parameter but no pending selector, the current parameter is kept while the identity that replaces the pending selector is built on the operator's parameter; when the two differ, that selector neither declares nor reads the current parameter |
| Operators.VisitConstant | src/EFCore/Query/ExpressionVisitors/Internal/NavigationExpansion/NavigationExpandingExpressionVisitor.cs:652-683 | Exactly entity scans become expansions, over the scan itself, with no parameter and no pending selector; anything else is returned as it is. The expansion's single mapping is consistent with any row placed at the root, expandable (the join injector cannot throw on it) and rooted in any catalog |
| Operators.FindAndApplyNavigations | src/EFCore/Query/ExpressionVisitors/Internal/NavigationExpansion/NavigationExpandingExpressionVisitor.cs:685-736 | Joins with the corrected bookkeeping. On unambiguous mappings it never throws and leaves them unambiguous; when every found tree is already materialized nothing is joined; on well-formed trees every found tree ends materialized; the source only gains joins, the mappings only gain entries, and the lambda is re-expressed over the final row parameter |
| Operators.MergeKeepsExpandable | src/EFCore/Query/ExpressionVisitors/Internal/NavigationExpansion/NavigationExpandingExpressionVisitor.cs:1017-1020 | Merging two lists of mappings free of duplicate navigation paths gives such a list |
| Operators.MergeGrows | src/EFCore/Query/ExpressionVisitors/Internal/NavigationExpansion/NavigationExpandingExpressionVisitor.cs:986-1000 | Merging two lists of mappings that have gained entries gives the merge of the originals with entries gained: shifting moves member paths, never navigation paths |
| Operators.RemapBody | src/EFCore/Query/ExpressionVisitors/Internal/NavigationExpansion/NavigationExpandingExpressionVisitor.cs:1002-1009 | Replacing the outer row parameter by `ti.Outer`, then the inner one by `ti.Inner`, fails exactly when the body redeclares either row parameter; when `ti` is neither, neither row parameter is left in the result |
| Operators.RemapTwoArgumentResultSelector | src/EFCore/Query/ExpressionVisitors/Internal/NavigationExpansion/NavigationExpandingExpressionVisitor.cs:968-1023 | Fails exactly when the combined result selector redeclares one of the row parameters; otherwise the join pairs the two rows, the current parameter is a transparent identifier of both row types, the mappings are merged, and the two old parameters no longer occur in the new pending selector |
| Operators.RemapKeepsMeaning | src/EFCore/Query/ExpressionVisitors/Internal/NavigationExpansion/NavigationExpandingExpressionVisitor.cs:1005-1012 | The new pending selector, given the transparent identifier of two rows, computes what the combined result selector computes on those rows, and the new result selector builds that transparent identifier |
| Operators.ProcessWhere | src/EFCore/Query/ExpressionVisitors/Internal/NavigationExpansion/NavigationExpandingExpressionVisitor.cs:107-152 | The filter is re-emitted over a source that only gained joins, and every mapping only gains entries; on unambiguous mappings, with the corrected bookkeeping, it never fails and keeps them unambiguous |
| Operators.ProcessSelect | src/EFCore/Query/ExpressionVisitors/Internal/NavigationExpansion/NavigationExpandingExpressionVisitor.cs:154-184 | No `Select` is emitted: the source only gains joins, the mappings only gain entries, and the new pending selector is the bound selector, with the old pending selector folded in, re-expressed over the final row parameter; on unambiguous mappings, with the corrected bookkeeping, it never fails |
| Operators.ProcessOrderBy | src/EFCore/Query/ExpressionVisitors/Internal/NavigationExpansion/NavigationExpandingExpressionVisitor.cs:186-218 | The ordering is re-emitted over a source that only gained joins, and every mapping only gains entries; on unambiguous mappings, with the corrected bookkeeping, it never fails |
| Operators.ExpandJoinKeys | src/EFCore/Query/ExpressionVisitors/Internal/NavigationExpansion/NavigationExpandingExpressionVisitor.cs:440-465 | Each key selector is expanded against its own source: each source only gains joins and each side's mappings only gain entries; on unambiguous sides, with the corrected bookkeeping, it never fails |
| Operators.ProcessJoin | src/EFCore/Query/ExpressionVisitors/Internal/NavigationExpansion/NavigationExpandingExpressionVisitor.cs:421-552 | The outer source only gains joins; the mappings are the merge of the outer then the inner side's mappings, each having only gained entries; the final projection path is empty; on unambiguous sides, with the corrected bookkeeping, the only failure is a redeclared row parameter |
| Operators.ProcessTerminatingOperation | src/EFCore/Query/ExpressionVisitors/Internal/NavigationExpansion/NavigationExpandingExpressionVisitor.cs:569-650 | With a pending selector, a `Select` is emitted under the operator and parameter and selector are cleared; the one-argument operators keep one argument, `Take` and `Contains` carry the visited second; any other method fails as unsupported; without a selector the call is kept; on a plain source the call is returned |
| Operators.Route | src/EFCore/Query/ExpressionVisitors/Internal/NavigationExpansion/NavigationExpandingExpressionVisitor.cs:42-105 | The terminating handler receives exactly the terminating operators; `GroupJoin`, `DefaultIfEmpty` and unknown methods go to the base visitor |
| Operators.RoutedTerminalsAreSupported | src/EFCore/Query/ExpressionVisitors/Internal/NavigationExpansion/NavigationExpandingExpressionVisitor.cs:90-102 | Every operator the dispatch routes to the terminating rewrite is one it supports, so the unsupported-method error is unreachable from the dispatch |
| Operators.Visit | src/EFCore/Query/ExpressionVisitors/Internal/NavigationExpansion/NavigationExpandingExpressionVisitor.cs:42-105 | On a query of filters, projections, orderings and joins over scans, the whole rewrite, with the corrected bookkeeping, never throws on an accessor lookup and leaves unambiguous mappings; the only failure left is a redeclared row parameter, also below a terminating operator |

## Notes on the source

- `ProcessJoin` (:546-552) assigns the final lambda to the pending selector of the
  remapped state, but returns the state that came out of `FindAndApplyNavigations`.
  The returned state keeps the pending selector as it was threaded through that last
  expansion. The model follows the code.
- `ProcessTerminatingOperation` without a pending selector returns the original call,
  with its original arguments, inside the expansion (:635-639). The model does the same.

## Left out

- `ProcessSelectManyWithResultOperator` (:242-419), except its `CorrelationChecker`: it is a collaborator field (`processSelectMany`). Its correlation-to-join conversion rests on visitors whose code is not available.
- `ProcessGroupJoin` (:564-567) is a stub that the dispatch never reaches, because the `GroupJoin` branch is commented out. The model routes `GroupJoin` to the base visitor.
- Commented-out code (:25-40, :83-88 and the commented lines inside `ProcessJoin`).
- `CreatePropertyExpression`'s inheritance branch (:1044-1057): the runtime class hierarchy is not modelled.
- Reflection and CLR type construction: `MakeGenericMethod`, `GetConstructors().Single()`, and the property-versus-field lookup at :1078. Types are structural (`Ty`), and transparent-identifier members are plain field accesses.
- Collaborators whose code is not part of this model; each is a field of `Collaborators`:
  - `NavigationPropertyBindingExpressionVisitor` (`bind`);
  - the collection-navigation rewriter (`rewriteCollections`);
  - `NavigationFindingExpressionVisitor` (`findNavigations`);
  - `NavigationReplacingExpressionVisitor` (`replaceNavigations`);
  - `ExpressionExtensions.CombineAndRemapLambdas` (`combine`, `combineAt`);
  - the recursive visit of lambdas and of the second terminal argument (`visitLambda`, `visitArgument`);
  - the base visitor (`visitOther`);
  - the element type and the generated name of the fresh terminal parameter (`elementType`, `parameterName`).
- `EntityTypeAccessorMappingGenerator` (:1145-1202) is the collaborator `generateAccessorMappings`. It works on binding expressions and member-initialized objects, which the expression model does not have.
- Operators.VisitConstant: the consistency invariant is stated for mappings without an initial path. Only the accessor-mapping generator, a collaborator, sets one. So `Operators.Visit` promises nothing about a query that continues after a terminating operator.
- `QueryModelExtensions.cs`: thin wrappers over Remotion.Linq query models and printers, whose semantics live in code that is not part of this model.
- Entity-set construction through `NullAsyncQueryProvider` and `IModel` lookups: entity scans are leaves (`EntityScan`), and navigations carry their metadata.
- Query execution, SQL translation and all I/O: nothing in the rewrite performs any.
- Joins.ApplyJoin: the outer key parameter takes the type of the current row parameter, where the code takes the element type of the source query (:751, :761). The model does not track a query's element type, so it cannot state that the two agree; they do whenever the row parameter types the source's rows.
- Joins.ApplyJoin: follows the code's bookkeeping (:936-939) only when the state carries `AsWritten`. The operator rewrites run it with `Corrected` (see Findings).
- Joins.JoinNavigation: follows the code's bookkeeping (:936-939) only when the state carries `AsWritten`. The operator rewrites run it with `Corrected` (see Findings).
- Joins.AddNavigationJoin: follows the code's bookkeeping (:936-939) only when the state carries `AsWritten`. The operator rewrites run it with `Corrected` (see Findings).
- Joins.AddNavigationJoinSucceeds: promised for the corrected bookkeeping only. As written, the injector can throw `AmbiguousAccessorPath` at :757-759 on unambiguous mappings, as `Joins.SelfJoinAsWrittenThrows` shows.
- Operators.FindAndApplyNavigations: joins with the corrected bookkeeping, not with the code's :936-939. So its no-throw promise, and every promise built on it, is about the corrected program. As written, a self-join can throw `AmbiguousAccessorPath` (see Findings).
- Operators.ProcessWhere: expands through `Operators.FindAndApplyNavigations`, so it models the corrected bookkeeping; its no-throw clause does not hold for the code as written, which can throw `AmbiguousAccessorPath` on a self-join.
- Operators.ProcessSelect: expands through `Operators.FindAndApplyNavigations`, so it models the corrected bookkeeping; its no-throw clause does not hold for the code as written, which can throw `AmbiguousAccessorPath` on a self-join.
- Operators.ProcessOrderBy: expands through `Operators.FindAndApplyNavigations`, so it models the corrected bookkeeping; its no-throw clause does not hold for the code as written, which can throw `AmbiguousAccessorPath` on a self-join.
- Operators.ExpandJoinKeys: expands through `Operators.FindAndApplyNavigations`, so it models the corrected bookkeeping; its no-throw clause does not hold for the code as written, which can throw `AmbiguousAccessorPath` on a self-join.
- Operators.ProcessJoin: expands through `Operators.FindAndApplyNavigations`, so it models the corrected bookkeeping; its no-throw clause does not hold for the code as written, which can throw `AmbiguousAccessorPath` on a self-join.
- Operators.Visit: the whole rewrite is modelled with the corrected bookkeeping; its no-throw promise does not hold for the code as written.
- Operators.Visit: the fresh state of a plain source takes an empty mapping list and no final projection path. These are the defaults of `NavigationExpansionExpressionState`, whose declaration is not part of this model.

## Findings

| source | as written | input that shows it | evidently intended | confidence | as-written member | corrected member |
|---|---|---|---|---|---|---|
| src/EFCore/Query/ExpressionVisitors/Internal/NavigationExpansion/NavigationExpandingExpressionVisitor.cs:934-939 | After a join, the new `["Inner"]` entry for the joined navigation path is added to every source mapping. The "already materialized" test at :748 compares navigation names, so every other source now appears to hold that navigation too. When two mappings hold the same navigation, as in a self-join, one of them ends with two entries for one navigation path, and the lookup at :757-759 throws. | (1) Two sources, `Order` and `Invoice`, each with a navigation named `Customer` (distinct navigations). Joining `Order.Customer` adds the entry to the `Invoice` mapping, which then passes the name test for `Invoice.Customer` although it was never joined. (2) `Order` joined with `Order`, the inner side having joined its `Customer`, and a query reading the outer order's customer and the inner customer's `Address`. Joining the outer customer gives the inner mapping a second `Customer` entry, and the address join throws `AmbiguousAccessorPath`. | Record the new entry on the mapping whose navigation was joined; shift every mapping's existing entries. | not executed | Mappings.RecordJoinAsWritten, Mappings.SharedInnerEntryMisleadsNameTest, Joins.SelfJoinAsWrittenThrows | Mappings.RecordJoin, Mappings.RecordJoinKeepsConsistent, Mappings.RecordJoinKeepsUnambiguous, Joins.AddNavigationJoinSucceeds |
