/**
 Join keys: the key selector bodies the join injector builds on each side of a
 navigation, and the nullability widening that makes the two sides comparable.
 */
module Keys {
  import opened Common
  import opened Metadata
  import opened Expressions
  import opened NavigationTree

  /** The CLR type of a key-selector body. */
  function KeyType(e: Expr): Ty {
    match e
    case PropertyAccess(_, property) => property.ty
    case NullConditional(_, access) => MakeNullable(KeyType(access))
    case Convert(_, ty) => ty
    case NewComposite(_) => AnonymousObjectTy
    case _ => ObjectTy
  }

  /** One property read inside a key: from which expression, which property, and whether null-guarded. */
  datatype PropertyRead = PropertyRead(target: Expr, property: Property, guarded: bool)

  /** Reads a key part back: a property access, possibly null-guarded, possibly converted. */
  function ReadOf(e: Expr): Option<PropertyRead> {
    match e
    case PropertyAccess(t, property) => Some(PropertyRead(t, property, false))
    case NullConditional(c, access) =>
      if access.PropertyAccess? && access.target == c then Some(PropertyRead(c, access.property, true)) else None
    case Convert(o, _) => ReadOf(o)
    case _ => None
  }

  /** The property reads of a key, in order: the parts of a composite key, or the one read of a simple key. */
  function KeyReads(key: Expr): seq<Option<PropertyRead>> {
    match key
    case NewComposite(parts) => seq(|parts|, i requires 0 <= i < |parts| => ReadOf(parts[i]))
    case Convert(o, _) => KeyReads(o)
    case _ => [ReadOf(key)]
  }

  /** `CreatePropertyExpression` without its inheritance branch: `EF.Property`, null-guarded on request. */
  function CreatePropertyExpression(target: Expr, property: Property, addNullCheck: bool): (r: Expr)
    ensures ReadOf(r) == Some(PropertyRead(target, property, addNullCheck))
    ensures KeyType(r) == if addNullCheck then MakeNullable(property.ty) else property.ty
  {
    var access := PropertyAccess(target, property);
    if addNullCheck then NullConditional(target, access) else access
  }

  /**
   `CreateKeyAccessExpression`: one property gives a single access, any other
   number a composite of the accesses converted to `object`, in property order.
   */
  function CreateKeyAccessExpression(target: Expr, properties: seq<Property>, addNullCheck: bool): (r: Expr)
    ensures r.NewComposite? <==> |properties| != 1
    ensures |KeyReads(r)| == |properties|
    ensures forall i :: 0 <= i < |properties| ==>
      KeyReads(r)[i] == Some(PropertyRead(target, properties[i], addNullCheck))
    ensures KeyType(r) == if |properties| == 1 then KeyType(CreatePropertyExpression(target, properties[0], addNullCheck))
                          else AnonymousObjectTy
  {
    if |properties| == 1 then CreatePropertyExpression(target, properties[0], addNullCheck)
    else
      NewComposite(seq(|properties|, i requires 0 <= i < |properties| =>
        Convert(CreatePropertyExpression(target, properties[i], addNullCheck), ObjectTy)))
  }

  /**
   The nullability widening of the two key bodies: when exactly one side is
   nullable, the other side is converted to its type; otherwise both stay.
   */
  function WidenKeys(outerKey: Expr, innerKey: Expr): (r: (Expr, Expr))
    ensures IsNullableType(KeyType(outerKey)) != IsNullableType(KeyType(innerKey)) ==>
      KeyType(r.0) == KeyType(r.1) && IsNullableType(KeyType(r.0))
    ensures IsNullableType(KeyType(outerKey)) == IsNullableType(KeyType(innerKey)) ==> r == (outerKey, innerKey)
    ensures r.0 == outerKey || r.1 == innerKey
    ensures r.0 != outerKey ==> !IsNullableType(KeyType(outerKey)) && r.0 == Convert(outerKey, KeyType(innerKey))
    ensures r.1 != innerKey ==> !IsNullableType(KeyType(innerKey)) && r.1 == Convert(innerKey, KeyType(outerKey))
    ensures KeyReads(r.0) == KeyReads(outerKey) && KeyReads(r.1) == KeyReads(innerKey)
    ensures IsNullableType(KeyType(r.0)) == IsNullableType(KeyType(r.1))
  {
    if IsNullableType(KeyType(outerKey)) && !IsNullableType(KeyType(innerKey)) then
      (outerKey, Convert(innerKey, KeyType(outerKey)))
    else if IsNullableType(KeyType(innerKey)) && !IsNullableType(KeyType(outerKey)) then
      (Convert(outerKey, KeyType(innerKey)), innerKey)
    else (outerKey, innerKey)
  }

  /**
   The key properties on the (outer, inner) sides of a navigation join: the
   foreign key is on the outer side exactly when the navigation points from the
   dependent to the principal.
   */
  function JoinKeyProperties(navigation: Nav): (r: (seq<Property>, seq<Property>))
    ensures navigation.isDependentToPrincipal ==> r == (navigation.foreignKey, navigation.principalKey)
    ensures !navigation.isDependentToPrincipal ==> r == (navigation.principalKey, navigation.foreignKey)
  {
    if navigation.isDependentToPrincipal then (navigation.foreignKey, navigation.principalKey)
    else (navigation.principalKey, navigation.foreignKey)
  }

  /** `key` reads exactly `properties`, in order, from `target`, null-guarded when `guarded`. */
  predicate ReadsKey(key: Expr, target: Expr, properties: seq<Property>, guarded: bool) {
    && |KeyReads(key)| == |properties|
    && forall i :: 0 <= i < |properties| ==> KeyReads(key)[i] == Some(PropertyRead(target, properties[i], guarded))
  }

  /**
   The two key selector bodies of a navigation join: the outer key read through
   the parent's accessor, null-guarded only below an optional parent; the inner
   key read from the freshly scanned target; then widened. A navigation from the
   dependent to the principal joins its foreign key (outer) to the principal key
   (inner); the other direction joins the principal key (outer) to the foreign
   key (inner).
   */
  function CreateJoinKeys(accessor: Expr, innerParameter: Param, node: NavigationTreeNode): (r: (Expr, Expr))
    ensures node.navigation.isDependentToPrincipal ==>
      && ReadsKey(r.0, accessor, node.navigation.foreignKey, ParentIsOptional(node))
      && ReadsKey(r.1, ParamRef(innerParameter), node.navigation.principalKey, false)
    ensures !node.navigation.isDependentToPrincipal ==>
      && ReadsKey(r.0, accessor, node.navigation.principalKey, ParentIsOptional(node))
      && ReadsKey(r.1, ParamRef(innerParameter), node.navigation.foreignKey, false)
    ensures IsNullableType(KeyType(r.0)) == IsNullableType(KeyType(r.1))
  {
    var (outerProperties, innerProperties) := JoinKeyProperties(node.navigation);
    var outerKey := CreateKeyAccessExpression(accessor, outerProperties, ParentIsOptional(node));
    var innerKey := CreateKeyAccessExpression(ParamRef(innerParameter), innerProperties, false);
    WidenKeys(outerKey, innerKey)
  }
}
