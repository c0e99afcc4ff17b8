/**
 The slice of the entity metadata catalogue the rewrite consults: CLR types
 reduced to their structure, scalar properties, and navigations with their
 foreign key. Navigations are records, so two navigations are the same object
 exactly when the records are equal; the `id` keeps distinct navigations that
 happen to agree on every other field apart.
 */
module Metadata {

  /** A CLR type, reduced to what the rewrite inspects. */
  datatype Ty =
    /** A mapped entity class (a reference type). */
    | EntityTy(entity: string)
    /** `TransparentIdentifier<TOuter, TInner>`, the synthesized two-slot row. */
    | TransparentIdentifierTy(outer: Ty, inner: Ty)
    /** `IEnumerable<T>`, the grouping a group join pairs with each outer row. */
    | SequenceTy(element: Ty)
    /** A scalar property type: a value type or not, wrapped in `Nullable<>` or not. */
    | ScalarTy(name: string, isValueType: bool, isNullableWrapper: bool)
    /** `AnonymousObject`, the struct that carries a composite key. */
    | AnonymousObjectTy
    | ObjectTy

  /** `IsNullableType`: a reference type, or a `Nullable<>` value type. */
  predicate IsNullableType(t: Ty) {
    match t
    case ScalarTy(_, valueType, wrapper) => !valueType || wrapper
    case TransparentIdentifierTy(_, _) => false
    case AnonymousObjectTy => false
    case _ => true
  }

  /** `MakeNullable`: wraps a non-nullable value type, leaves every other type alone. */
  function MakeNullable(t: Ty): (r: Ty)
    ensures IsNullableType(t) ==> r == t
    ensures t.ScalarTy? ==> IsNullableType(r)
  {
    match t
    case ScalarTy(n, valueType, wrapper) => ScalarTy(n, valueType, valueType || wrapper)
    case _ => t
  }

  /** A scalar property of an entity type. */
  datatype Property = Property(name: string, declaringEntity: string, ty: Ty)

  /**
   A navigation together with the foreign key that backs it. A navigation is
   dependent-to-principal when it is declared on the entity that holds the
   foreign key.
   */
  datatype Nav = Nav(
    id: nat,
    name: string,
    declaringEntity: string,
    targetEntity: string,
    isDependentToPrincipal: bool,
    foreignKey: seq<Property>,
    principalKey: seq<Property>)

  /** The names of a navigation path, in order. */
  function Names(navs: seq<Nav>): (r: seq<string>)
    ensures |r| == |navs|
    ensures forall i :: 0 <= i < |navs| ==> r[i] == navs[i].name
  {
    if navs == [] then [] else Names(navs[..|navs| - 1]) + [navs[|navs| - 1].name]
  }

  lemma NamesAppend(navs: seq<Nav>, n: Nav)
    ensures Names(navs + [n]) == Names(navs) + [n.name]
  {
  }

  /** A navigation path that walks from `root` through consecutive navigations. */
  ghost predicate Chain(root: string, navs: seq<Nav>) {
    forall i {:trigger Predecessor(root, navs, i)} :: 0 <= i < |navs| ==> navs[i].declaringEntity == Predecessor(root, navs, i)
  }

  /** The entity type a chain's `i`-th navigation must be declared on. */
  function Predecessor(root: string, navs: seq<Nav>, i: nat): string
    requires i < |navs|
  {
    if i == 0 then root else navs[i - 1].targetEntity
  }

  /** The catalogue never declares two navigations with one name on one entity type. */
  ghost predicate UniqueNames(catalog: set<Nav>) {
    forall a, b {:trigger SameSlot(a, b)} :: a in catalog && b in catalog && SameSlot(a, b) ==> a == b
  }

  /** Two navigations with one name on one entity type. */
  predicate SameSlot(a: Nav, b: Nav) {
    a.declaringEntity == b.declaringEntity && a.name == b.name
  }

  ghost predicate InCatalog(catalog: set<Nav>, navs: seq<Nav>) {
    forall i :: 0 <= i < |navs| ==> navs[i] in catalog
  }

  /**
   Within one root, a navigation path is determined by its names: the name-based
   "already materialized" test and the identity-based accessor lookup agree on
   paths that start at the same root.
   */
  lemma {:induction false} NamesDetermineChain(catalog: set<Nav>, root: string, a: seq<Nav>, b: seq<Nav>)
    requires UniqueNames(catalog)
    requires InCatalog(catalog, a) && InCatalog(catalog, b)
    requires Chain(root, a) && Chain(root, b)
    requires Names(a) == Names(b)
    ensures a == b
  {
    assert |a| == |b|;
    PrefixesAgree(catalog, root, a, b, |a|);
  }

  lemma {:induction false} PrefixesAgree(catalog: set<Nav>, root: string, a: seq<Nav>, b: seq<Nav>, n: nat)
    requires UniqueNames(catalog)
    requires InCatalog(catalog, a) && InCatalog(catalog, b)
    requires Chain(root, a) && Chain(root, b)
    requires Names(a) == Names(b)
    requires n <= |a| == |b|
    ensures forall i :: 0 <= i < n ==> a[i] == b[i]
  {
    if n > 0 {
      PrefixesAgree(catalog, root, a, b, n - 1);
      var i := n - 1;
      assert Predecessor(root, a, i) == Predecessor(root, b, i) by {
        if i > 0 {
          assert a[i - 1] == b[i - 1];
        }
      }
      SameStep(catalog, a[i], b[i]) by {
        assert Names(a)[i] == Names(b)[i];
        assert a[i].declaringEntity == Predecessor(root, a, i);
        assert b[i].declaringEntity == Predecessor(root, b, i);
        assert a[i] in catalog && b[i] in catalog;
      }
    }
  }

  /** Two catalogue navigations with one name on one entity type are the same navigation. */
  lemma SameStep(catalog: set<Nav>, x: Nav, y: Nav)
    requires UniqueNames(catalog) && x in catalog && y in catalog
    requires x.declaringEntity == y.declaringEntity && x.name == y.name
    ensures x == y
  {
    assert SameSlot(x, y);
  }
}
