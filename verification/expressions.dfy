/**
 The query-tree IR the rewrite works on, and the row values used to state what
 an accessor means. Expression nodes are immutable values; a parameter's
 identity (a C# reference) is its `id`.
 */
module Expressions {
  import opened Common
  import opened Metadata

  /** A lambda parameter. Two parameters are the same object exactly when the records are equal. */
  datatype Param = Param(id: nat, name: string, ty: Ty)

  /** The queryable and enumerable operators the rewrite recognises, plus any other method. */
  datatype Op =
    | QueryableWhere | EnumerableWhere | Select
    | OrderBy | OrderByDescending | ThenBy | ThenByDescending
    | SelectManyWithResultSelector | Join | GroupJoin | DefaultIfEmpty
    | Distinct | Take | First | FirstOrDefault | Single | SingleOrDefault | Any | Contains
    | OtherMethod(name: string)

  function OpName(op: Op): string {
    match op
    case QueryableWhere => "Where"
    case EnumerableWhere => "Where"
    case Select => "Select"
    case OrderBy => "OrderBy"
    case OrderByDescending => "OrderByDescending"
    case ThenBy => "ThenBy"
    case ThenByDescending => "ThenByDescending"
    case SelectManyWithResultSelector => "SelectMany"
    case Join => "Join"
    case GroupJoin => "GroupJoin"
    case DefaultIfEmpty => "DefaultIfEmpty"
    case Distinct => "Distinct"
    case Take => "Take"
    case First => "First"
    case FirstOrDefault => "FirstOrDefault"
    case Single => "Single"
    case SingleOrDefault => "SingleOrDefault"
    case Any => "Any"
    case Contains => "Contains"
    case OtherMethod(n) => n
  }

  datatype Expr =
    | ParamRef(param: Param)
    /** A field or property access by member name (`Expression.Field` / `Expression.Property`). */
    | Field(target: Expr, member: string)
    /** `EF.Property<T>(target, name)` for a mapped scalar property. */
    | PropertyAccess(target: Expr, property: Property)
    /** A static method call: the queryable operators and `DefaultIfEmpty`. */
    | Call(op: Op, args: seq<Expr>)
    | Lam(params: seq<Param>, body: Expr)
    /** `new TransparentIdentifier<,>(outer, inner)`. */
    | NewTI(outer: Expr, inner: Expr)
    /** `new AnonymousObject(new object[] { parts })`, a composite key. */
    | NewComposite(parts: seq<Expr>)
    | Convert(operand: Expr, ty: Ty)
    /** `caller?.access`: null-propagating access used for keys read through an optional parent. */
    | NullConditional(caller: Expr, access: Expr)
    /** The entity-queryable constant that scans one entity set. */
    | EntityScan(entity: string)
    /** Any other expression kind (binary, conditional, constant, ...), visited operand by operand. */
    | Other(kind: nat, operands: seq<Expr>)

  /** A lambda with at least one parameter, as the operators' selectors are. */
  type Lambda = e: Expr | e.Lam? && |e.params| >= 1 witness Lam([Param(0, "", ObjectTy)], Other(0, []))

  /** The identity selector `p => p` the rewrite substitutes for a missing pending selector. */
  function Identity(p: Param): (r: Lambda)
    ensures r.params == [p]
  {
    Lam([p], ParamRef(p))
  }

  /** `p` appears in `e`, as a reference or as a declared lambda parameter. */
  predicate Occurs(e: Expr, p: Param)
    decreases e
  {
    match e
    case ParamRef(q) => q == p
    case Field(t, _) => Occurs(t, p)
    case PropertyAccess(t, _) => Occurs(t, p)
    case Call(_, args) => exists i :: 0 <= i < |args| && Occurs(args[i], p)
    case Lam(ps, b) => p in ps || Occurs(b, p)
    case NewTI(a, b) => Occurs(a, p) || Occurs(b, p)
    case NewComposite(parts) => exists i :: 0 <= i < |parts| && Occurs(parts[i], p)
    case Convert(o, _) => Occurs(o, p)
    case NullConditional(c, a) => Occurs(c, p) || Occurs(a, p)
    case EntityScan(_) => false
    case Other(_, os) => exists i :: 0 <= i < |os| && Occurs(os[i], p)
  }

  /** The operator chain read down first arguments: the query's spine, outermost operator first. */
  function Spine(e: Expr): seq<Op> {
    if e.Call? && |e.args| > 0 then [e.op] + Spine(e.args[0]) else []
  }

  /** The accessor path of the join bookkeeping: `Outer`, twice when a group join hides the previous row one level deeper. */
  function OuterPrefix(optional: bool): (r: seq<string>)
    ensures |r| == (if optional then 2 else 1)
    ensures forall i :: 0 <= i < |r| ==> r[i] == "Outer"
  {
    if optional then ["Outer", "Outer"] else ["Outer"]
  }

  /** Folds a member-name path into nested member accesses on `source`, first name innermost. */
  function FieldChain(source: Expr, path: seq<string>): Expr {
    if path == [] then source else Field(FieldChain(source, path[..|path| - 1]), path[|path| - 1])
  }

  lemma FieldChainOccurs(source: Expr, path: seq<string>, p: Param)
    ensures Occurs(FieldChain(source, path), p) == Occurs(source, p)
  {
  }

  /** Peels every member access off `e`: the innermost non-member expression and the member path. */
  function SplitFieldChain(e: Expr): (Expr, seq<string>) {
    if e.Field? then
      var (root, path) := SplitFieldChain(e.target);
      (root, path + [e.member])
    else (e, [])
  }

  lemma {:induction false} SplitFieldChainInverts(source: Expr, path: seq<string>)
    requires !source.Field?
    ensures SplitFieldChain(FieldChain(source, path)) == (source, path)
  {
    if path != [] {
      SplitFieldChainInverts(source, path[..|path| - 1]);
      assert path[..|path| - 1] + [path[|path| - 1]] == path;
    }
  }

  /** The row shapes a query produces: entities, transparent identifiers, groupings, and null. */
  datatype Row =
    | EntityRow(entity: string, key: nat)
    | TIRow(outer: Row, inner: Row)
    | GroupRow(items: seq<Row>)
    | NullRow

  /** Member access on a row: only a transparent identifier has members the bookkeeping names. */
  function SelectMember(r: Row, member: string): Option<Row> {
    if r.TIRow? && member == "Outer" then Some(r.outer)
    else if r.TIRow? && member == "Inner" then Some(r.inner)
    else None
  }

  /** Follows a member-name path from a row. */
  function Resolve(r: Row, path: seq<string>): Option<Row> {
    if path == [] then Some(r)
    else
      match Resolve(r, path[..|path| - 1])
      case None => None
      case Some(v) => SelectMember(v, path[|path| - 1])
  }

  /** The row a join produces from `previous` and its `target`; the optional form keeps the grouping. */
  function JoinedRow(previous: Row, target: Row, group: Row, optional: bool): Row {
    if optional then TIRow(TIRow(previous, group), target) else TIRow(previous, target)
  }

  lemma {:induction false} ResolveThrough(r: Row, first: seq<string>, rest: seq<string>)
    requires Resolve(r, first).Some?
    ensures Resolve(r, first + rest) == Resolve(Resolve(r, first).value, rest)
  {
    if rest != [] {
      ResolveThrough(r, first, rest[..|rest| - 1]);
      assert (first + rest)[..|first + rest| - 1] == first + rest[..|rest| - 1];
    } else {
      assert first + rest == first;
    }
  }

  /**
   The shifted path of an entry reaches, in the joined row, exactly what the previous
   path reached in the previous row; `Inner` reaches the joined target.
   */
  lemma JoinedRowResolution(previous: Row, target: Row, group: Row, optional: bool, path: seq<string>)
    ensures Resolve(JoinedRow(previous, target, group, optional), OuterPrefix(optional) + path) == Resolve(previous, path)
    ensures Resolve(JoinedRow(previous, target, group, optional), ["Inner"]) == Some(target)
  {
    var joined := JoinedRow(previous, target, group, optional);
    assert Resolve(joined, OuterPrefix(optional)) == Some(previous) by {
      if optional {
        assert OuterPrefix(optional)[..1] == ["Outer"];
        assert Resolve(joined, ["Outer"]) == Some(TIRow(previous, group)) by {
          assert ["Outer"][..0] == [];
        }
      } else {
        assert OuterPrefix(optional)[..0] == [];
      }
    }
    ResolveThrough(joined, OuterPrefix(optional), path);
    assert ["Inner"][..0] == [];
  }

  /** The rows a query's parameters stand for. */
  type Env = map<Param, Row>

  /** `env` with `p` bound to `v`, or with `p` unbound when `v` is missing. */
  function Assign(env: Env, p: Param, v: Option<Row>): Env {
    match v
    case Some(row) => env[p := row]
    case None => env - {p}
  }

  /** The accessor fragment: parameters, member accesses and transparent-identifier construction. */
  predicate InFragment(e: Expr) {
    match e
    case ParamRef(_) => true
    case Field(t, _) => InFragment(t)
    case NewTI(a, b) => InFragment(a) && InFragment(b)
    case _ => false
  }

  /** The row an accessor-fragment expression denotes under `env`. */
  function Eval(e: Expr, env: Env): Option<Row> {
    match e
    case ParamRef(p) => if p in env then Some(env[p]) else None
    case Field(t, m) =>
      (match Eval(t, env)
       case None => None
       case Some(v) => SelectMember(v, m))
    case NewTI(a, b) =>
      (match (Eval(a, env), Eval(b, env))
       case (Some(x), Some(y)) => Some(TIRow(x, y))
       case _ => None)
    case _ => None
  }

  /** A member-name path folded onto a parameter means following that path from the parameter's row. */
  lemma {:induction false} FieldChainMeaning(p: Param, path: seq<string>, env: Env)
    requires p in env
    ensures Eval(FieldChain(ParamRef(p), path), env) == Resolve(env[p], path)
  {
    if path != [] {
      FieldChainMeaning(p, path[..|path| - 1], env);
    }
  }

  lemma FieldChainInFragment(source: Expr, path: seq<string>)
    requires InFragment(source)
    ensures InFragment(FieldChain(source, path))
  {
  }
}
