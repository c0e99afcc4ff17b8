/**
 The three small expression visitors of the navigation-expanding visitor:
 the replacing visitor, the pending-selector updating visitor, and the
 correlation checker.
 */
module Visitors {
  import opened Common
  import opened Metadata
  import opened Expressions

  /** Some lambda inside `e` declares `p` as one of its parameters. */
  predicate Declares(e: Expr, p: Param)
    decreases e
  {
    match e
    case ParamRef(_) => false
    case Field(t, _) => Declares(t, p)
    case PropertyAccess(t, _) => Declares(t, p)
    case Call(_, args) => exists i :: 0 <= i < |args| && Declares(args[i], p)
    case Lam(ps, b) => p in ps || Declares(b, p)
    case NewTI(a, b) => Declares(a, p) || Declares(b, p)
    case NewComposite(parts) => exists i :: 0 <= i < |parts| && Declares(parts[i], p)
    case Convert(o, _) => Declares(o, p)
    case NullConditional(c, a) => Declares(c, p) || Declares(a, p)
    case EntityScan(_) => false
    case Other(_, os) => exists i :: 0 <= i < |os| && Declares(os[i], p)
  }

  /** What `ExpressionReplacingVisitor` promises about the replacement of `p` by `x` in `e`. */
  ghost predicate ReplacedAs(e: Expr, p: Param, x: Expr, r: Result<Expr>) {
    && (!Occurs(e, p) ==> r == Success(e))
    && (r.Failure? <==> Declares(e, p) && !x.ParamRef?)
    && (r.Failure? ==> r.error == ReboundReplacedParameter)
    && (r.Success? && !Occurs(x, p) ==> !Occurs(r.value, p))
  }

  /** The expressions whose operands form a list. */
  predicate HasOperandList(e: Expr) {
    e.Call? || e.NewComposite? || e.Other?
  }

  /** The expressions with exactly two visited parts. */
  predicate HasTwoParts(e: Expr) {
    e.Lam? || e.NewTI? || e.NullConditional?
  }

  /**
   `ExpressionReplacingVisitor`: every node equal to the searched-for parameter
   becomes `replaceWith`; every other node is rebuilt from its visited operands.
   A nested lambda that declares the searched-for parameter has its parameter
   list visited too, and unless the replacement is itself a parameter the
   rebuilt list no longer holds parameters, which the base visitor refuses.
   */
  function Replace(e: Expr, searchedFor: Param, replaceWith: Expr): (r: Result<Expr>)
    ensures !Occurs(e, searchedFor) ==> r == Success(e)
    ensures r.Failure? <==> Declares(e, searchedFor) && !replaceWith.ParamRef?
    ensures r.Failure? ==> r.error == ReboundReplacedParameter
    ensures r.Success? && !Occurs(replaceWith, searchedFor) ==> !Occurs(r.value, searchedFor)
    decreases e, 1
  {
    if e == ParamRef(searchedFor) then Success(replaceWith)
    else if HasOperandList(e) then ReplaceInOperands(e, searchedFor, replaceWith)
    else if HasTwoParts(e) then ReplaceInParts(e, searchedFor, replaceWith)
    else
      match e
      case Field(t, m) =>
        var t' :- Replace(t, searchedFor, replaceWith);
        Success(Field(t', m))
      case PropertyAccess(t, property) =>
        var t' :- Replace(t, searchedFor, replaceWith);
        Success(PropertyAccess(t', property))
      case Convert(o, ty) =>
        var o' :- Replace(o, searchedFor, replaceWith);
        Success(Convert(o', ty))
      case _ => Success(e)
  }

  /** The operands of a call, composite or other expression. */
  function Operands(e: Expr): (es: seq<Expr>)
    requires HasOperandList(e)
    ensures (e.Call? && es == e.args) || (e.NewComposite? && es == e.parts) || (e.Other? && es == e.operands)
  {
    if e.Call? then e.args else if e.NewComposite? then e.parts else e.operands
  }

  /** The same node over other operands. */
  function WithOperands(e: Expr, es: seq<Expr>): (r: Expr)
    requires HasOperandList(e)
    ensures HasOperandList(r) && Operands(r) == es
    ensures es == Operands(e) ==> r == e
  {
    match e
    case Call(op, _) => Call(op, es)
    case NewComposite(_) => NewComposite(es)
    case Other(kind, _) => Other(kind, es)
  }

  /** A parameter occurs in, or is declared in, an operand-list node exactly when it does in one of its operands. */
  lemma OperandsOccurs(e: Expr, p: Param)
    requires HasOperandList(e)
    ensures Occurs(e, p) <==> exists i :: 0 <= i < |Operands(e)| && Occurs(Operands(e)[i], p)
    ensures Declares(e, p) <==> exists i :: 0 <= i < |Operands(e)| && Declares(Operands(e)[i], p)
  {
    match e
    case Call(_, args) => assert Operands(e) == args;
    case NewComposite(parts) => assert Operands(e) == parts;
    case Other(_, os) => assert Operands(e) == os;
  }

  /** The calls, composites and other expressions: their operands, one after the other. */
  function ReplaceInOperands(e: Expr, searchedFor: Param, replaceWith: Expr): (r: Result<Expr>)
    requires HasOperandList(e)
    ensures ReplacedAs(e, searchedFor, replaceWith, r)
    decreases e, 0
  {
    OperandsOccurs(e, searchedFor);
    var es :- ReplaceAll(Operands(e), searchedFor, replaceWith);
    OperandsOccurs(WithOperands(e, es), searchedFor);
    Success(WithOperands(e, es))
  }

  /** The lambdas (body, then declared parameters), transparent identifiers and null-conditional accesses. */
  function ReplaceInParts(e: Expr, searchedFor: Param, replaceWith: Expr): (r: Result<Expr>)
    requires HasTwoParts(e)
    ensures ReplacedAs(e, searchedFor, replaceWith, r)
    decreases e, 0
  {
    match e
    case Lam(ps, b) =>
      var b' :- Replace(b, searchedFor, replaceWith);
      var ps' :- ReplaceDeclared(ps, searchedFor, replaceWith);
      Success(Lam(ps', b'))
    case NewTI(a, b) =>
      var a' :- Replace(a, searchedFor, replaceWith);
      var b' :- Replace(b, searchedFor, replaceWith);
      Success(NewTI(a', b'))
    case NullConditional(c, a) =>
      var c' :- Replace(c, searchedFor, replaceWith);
      var a' :- Replace(a, searchedFor, replaceWith);
      Success(NullConditional(c', a'))
  }

  function ReplaceAll(es: seq<Expr>, searchedFor: Param, replaceWith: Expr): (r: Result<seq<Expr>>)
    ensures (forall i :: 0 <= i < |es| ==> !Occurs(es[i], searchedFor)) ==> r == Success(es)
    ensures r.Success? ==> |r.value| == |es|
    ensures r.Failure? <==> (exists i :: 0 <= i < |es| && Declares(es[i], searchedFor)) && !replaceWith.ParamRef?
    ensures r.Failure? ==> r.error == ReboundReplacedParameter
    ensures r.Success? && !Occurs(replaceWith, searchedFor) ==>
      forall i :: 0 <= i < |es| ==> !Occurs(r.value[i], searchedFor)
    decreases es, 0
  {
    if es == [] then Success([])
    else
      var head :- Replace(es[0], searchedFor, replaceWith);
      var tail :- ReplaceAll(es[1..], searchedFor, replaceWith);
      assert forall i :: 1 <= i < |es| ==> es[i] == es[1..][i - 1];
      assert es == [es[0]] + es[1..];
      Success([head] + tail)
  }

  /** A parameter list with every `previous` swapped for `replacement`. */
  function SwapParameter(ps: seq<Param>, previous: Param, replacement: Param): (r: seq<Param>)
    ensures |r| == |ps|
    ensures forall i :: 0 <= i < |ps| ==> r[i] == if ps[i] == previous then replacement else ps[i]
  {
    seq(|ps|, i requires 0 <= i < |ps| => if ps[i] == previous then replacement else ps[i])
  }

  /** The parameter list of a nested lambda, as the base visitor's `VisitAndConvert` rebuilds it. */
  function ReplaceDeclared(ps: seq<Param>, searchedFor: Param, replaceWith: Expr): (r: Result<seq<Param>>)
    ensures searchedFor !in ps ==> r == Success(ps)
    ensures r.Failure? <==> searchedFor in ps && !replaceWith.ParamRef?
    ensures r.Failure? ==> r.error == ReboundReplacedParameter
    ensures r.Success? && replaceWith != ParamRef(searchedFor) ==> searchedFor !in r.value
  {
    if searchedFor !in ps then Success(ps)
    else if replaceWith.ParamRef? then
      Success(SwapParameter(ps, searchedFor, replaceWith.param))
    else Failure(ReboundReplacedParameter)
  }

  /**
   On the accessor fragment, replacing a parameter by an expression means
   evaluating with the parameter bound to that expression's value.
   */
  lemma {:induction false} ReplaceMeaning(e: Expr, p: Param, x: Expr, env: Env)
    requires InFragment(e)
    ensures Replace(e, p, x).Success?
    ensures Eval(Replace(e, p, x).value, env) == Eval(e, Assign(env, p, Eval(x, env)))
    decreases e, 1
  {
    match e
    case ParamRef(q) =>
    case Field(t, m) =>
      ReplaceMeaning(t, p, x, env);
    case NewTI(_, _) =>
      ReplaceInPairMeaning(e, p, x, env);
  }

  lemma {:induction false} ReplaceInPairMeaning(e: Expr, p: Param, x: Expr, env: Env)
    requires e.NewTI? && InFragment(e)
    ensures ReplaceInParts(e, p, x).Success?
    ensures Eval(ReplaceInParts(e, p, x).value, env) == Eval(e, Assign(env, p, Eval(x, env)))
    decreases e, 0
  {
    ReplaceMeaning(e.outer, p, x, env);
    ReplaceMeaning(e.inner, p, x, env);
  }

  /** Replacing never introduces a parameter: what occurs afterwards occurred before (and was not replaced) or comes from the replacement. */
  lemma {:induction false} ReplaceOccurs(e: Expr, p: Param, x: Expr, q: Param)
    requires Replace(e, p, x).Success? && Occurs(Replace(e, p, x).value, q)
    ensures (Occurs(e, q) && q != p) || Occurs(x, q)
    decreases e, 1
  {
    if e == ParamRef(p) {
    } else if HasOperandList(e) {
      ReplaceInOperandsOccurs(e, p, x, q);
    } else if HasTwoParts(e) {
      ReplaceInPartsOccurs(e, p, x, q);
    } else {
      match e
      case Field(t, _) => ReplaceOccurs(t, p, x, q);
      case PropertyAccess(t, _) => ReplaceOccurs(t, p, x, q);
      case Convert(o, _) => ReplaceOccurs(o, p, x, q);
      case _ =>
    }
  }

  lemma {:induction false} ReplaceInOperandsOccurs(e: Expr, p: Param, x: Expr, q: Param)
    requires HasOperandList(e)
    requires ReplaceInOperands(e, p, x).Success? && Occurs(ReplaceInOperands(e, p, x).value, q)
    ensures (Occurs(e, q) && q != p) || Occurs(x, q)
    decreases e, 0
  {
    var es := ReplaceAll(Operands(e), p, x).value;
    OperandsOccurs(e, q);
    OperandsOccurs(WithOperands(e, es), q);
    ReplaceAllOccurs(Operands(e), p, x, q);
  }

  lemma {:induction false} ReplaceInPartsOccurs(e: Expr, p: Param, x: Expr, q: Param)
    requires HasTwoParts(e)
    requires ReplaceInParts(e, p, x).Success? && Occurs(ReplaceInParts(e, p, x).value, q)
    ensures (Occurs(e, q) && q != p) || Occurs(x, q)
    decreases e, 0
  {
    match e
    case Lam(ps, b) =>
      if Occurs(Replace(b, p, x).value, q) {
        ReplaceOccurs(b, p, x, q);
      }
    case NewTI(a, b) =>
      if Occurs(Replace(a, p, x).value, q) {
        ReplaceOccurs(a, p, x, q);
      } else {
        ReplaceOccurs(b, p, x, q);
      }
    case NullConditional(c, a) =>
      if Occurs(Replace(c, p, x).value, q) {
        ReplaceOccurs(c, p, x, q);
      } else {
        ReplaceOccurs(a, p, x, q);
      }
  }

  lemma {:induction false} ReplaceAllOccurs(es: seq<Expr>, p: Param, x: Expr, q: Param)
    requires ReplaceAll(es, p, x).Success?
    requires exists i :: 0 <= i < |es| && Occurs(ReplaceAll(es, p, x).value[i], q)
    ensures ((exists i :: 0 <= i < |es| && Occurs(es[i], q)) && q != p) || Occurs(x, q)
    decreases es, 0
  {
    var i :| 0 <= i < |es| && Occurs(ReplaceAll(es, p, x).value[i], q);
    ReplaceAllAt(es, p, x, i);
    ReplaceOccurs(es[i], p, x, q);
  }

  /** A successful `ReplaceAll` replaces element by element. */
  lemma {:induction false} ReplaceAllAt(es: seq<Expr>, p: Param, x: Expr, i: nat)
    requires ReplaceAll(es, p, x).Success? && i < |es|
    ensures Replace(es[i], p, x).Success? && ReplaceAll(es, p, x).value[i] == Replace(es[i], p, x).value
    decreases i
  {
    var head, tail := Replace(es[0], p, x), ReplaceAll(es[1..], p, x);
    assert head.Success? && tail.Success? && ReplaceAll(es, p, x).value == [head.value] + tail.value;
    if i > 0 {
      ReplaceAllAt(es[1..], p, x, i - 1);
      assert es[1..][i - 1] == es[i];
    }
  }

  /** Replacing by an expression that is not a parameter and declares nothing leaves the declared parameters as they were. */
  lemma {:induction false} ReplaceKeepsDeclares(e: Expr, p: Param, x: Expr, q: Param)
    requires !x.ParamRef? && !Declares(x, q)
    requires Replace(e, p, x).Success?
    ensures Declares(Replace(e, p, x).value, q) == Declares(e, q)
    decreases e, 1
  {
    if e == ParamRef(p) {
    } else if HasOperandList(e) {
      ReplaceInOperandsKeepsDeclares(e, p, x, q);
    } else if HasTwoParts(e) {
      ReplaceInPartsKeepsDeclares(e, p, x, q);
    } else {
      match e
      case Field(t, _) => ReplaceKeepsDeclares(t, p, x, q);
      case PropertyAccess(t, _) => ReplaceKeepsDeclares(t, p, x, q);
      case Convert(o, _) => ReplaceKeepsDeclares(o, p, x, q);
      case _ =>
    }
  }

  lemma {:induction false} ReplaceInOperandsKeepsDeclares(e: Expr, p: Param, x: Expr, q: Param)
    requires HasOperandList(e)
    requires !x.ParamRef? && !Declares(x, q)
    requires ReplaceInOperands(e, p, x).Success?
    ensures Declares(ReplaceInOperands(e, p, x).value, q) == Declares(e, q)
    decreases e, 0
  {
    var es := ReplaceAll(Operands(e), p, x).value;
    OperandsOccurs(e, q);
    OperandsOccurs(WithOperands(e, es), q);
    ReplaceAllKeepsDeclares(Operands(e), p, x, q);
  }

  lemma {:induction false} ReplaceInPartsKeepsDeclares(e: Expr, p: Param, x: Expr, q: Param)
    requires HasTwoParts(e)
    requires !x.ParamRef? && !Declares(x, q)
    requires ReplaceInParts(e, p, x).Success?
    ensures Declares(ReplaceInParts(e, p, x).value, q) == Declares(e, q)
    decreases e, 0
  {
    match e
    case Lam(_, b) => ReplaceKeepsDeclares(b, p, x, q);
    case NewTI(a, b) => ReplaceKeepsDeclares(a, p, x, q); ReplaceKeepsDeclares(b, p, x, q);
    case NullConditional(c, a) => ReplaceKeepsDeclares(c, p, x, q); ReplaceKeepsDeclares(a, p, x, q);
  }

  lemma {:induction false} ReplaceAllKeepsDeclares(es: seq<Expr>, p: Param, x: Expr, q: Param)
    requires !x.ParamRef? && !Declares(x, q)
    requires ReplaceAll(es, p, x).Success?
    ensures forall i :: 0 <= i < |es| ==> Declares(ReplaceAll(es, p, x).value[i], q) == Declares(es[i], q)
    decreases es, 0
  {
    forall i | 0 <= i < |es|
      ensures Declares(ReplaceAll(es, p, x).value[i], q) == Declares(es[i], q)
    {
      ReplaceAllAt(es, p, x, i);
      ReplaceKeepsDeclares(es[i], p, x, q);
    }
  }

  lemma {:induction false} ReplaceKeepsFragment(e: Expr, p: Param, x: Expr)
    requires InFragment(e) && InFragment(x)
    ensures Replace(e, p, x).Success? && InFragment(Replace(e, p, x).value)
  {
    match e
    case ParamRef(_) =>
    case Field(t, _) => ReplaceKeepsFragment(t, p, x);
    case NewTI(a, b) =>
      ReplaceKeepsFragment(a, p, x);
      ReplaceKeepsFragment(b, p, x);
  }

  /** `Outer`, or `Outer.Outer` for an optional navigation, read from the new row parameter. */
  function OuterAccess(replacement: Param, optional: bool): Expr {
    FieldChain(ParamRef(replacement), OuterPrefix(optional))
  }

  /**
   `PendingSelectorUpdatingExpressionVisitor`: every reference to the previous row
   parameter becomes the member access that reaches the previous row inside the
   new one, and lambdas that declare the previous parameter declare the new one
   instead. A lambda nothing touches comes back as it was.
   */
  function UpdatePendingSelector(e: Expr, previous: Param, replacement: Param, optional: bool): (r: Expr)
    ensures !Occurs(e, previous) ==> r == e
    ensures previous != replacement ==> !Occurs(r, previous)
    ensures previous != replacement ==> (r == e <==> !Occurs(e, previous))
    ensures e.Lam? ==> r.Lam? && |r.params| == |e.params|
    ensures e.Lam? ==> forall i :: 0 <= i < |e.params| ==>
      r.params[i] == (if e.params[i] == previous then replacement else e.params[i])
    decreases e, 1
  {
    if HasOperandList(e) then
      OperandsOccurs(e, previous);
      var r := WithOperands(e, UpdateAll(Operands(e), previous, replacement, optional));
      OperandsOccurs(r, previous);
      r
    else if HasTwoParts(e) then UpdateParts(e, previous, replacement, optional)
    else
    match e
    case ParamRef(q) =>
      if q == previous then
        FieldChainOccurs(ParamRef(replacement), OuterPrefix(optional), previous);
        OuterAccess(replacement, optional)
      else e
    case Field(t, m) => Field(UpdatePendingSelector(t, previous, replacement, optional), m)
    case PropertyAccess(t, property) => PropertyAccess(UpdatePendingSelector(t, previous, replacement, optional), property)
    case Convert(o, ty) => Convert(UpdatePendingSelector(o, previous, replacement, optional), ty)
    case _ => e
  }

  /** `UpdatePendingSelector` on a lambda, a transparent identifier or a null-conditional access. */
  function UpdateParts(e: Expr, previous: Param, replacement: Param, optional: bool): (r: Expr)
    requires HasTwoParts(e)
    ensures !Occurs(e, previous) ==> r == e
    ensures previous != replacement ==> !Occurs(r, previous)
    ensures previous != replacement ==> (r == e <==> !Occurs(e, previous))
    ensures e.Lam? ==> r.Lam? && |r.params| == |e.params|
    ensures e.Lam? ==> forall i :: 0 <= i < |e.params| ==>
      r.params[i] == (if e.params[i] == previous then replacement else e.params[i])
    decreases e, 0
  {
    match e
    case Lam(ps, b) =>
      Lam(SwapParameter(ps, previous, replacement), UpdatePendingSelector(b, previous, replacement, optional))
    case NewTI(a, b) =>
      NewTI(UpdatePendingSelector(a, previous, replacement, optional), UpdatePendingSelector(b, previous, replacement, optional))
    case NullConditional(c, a) =>
      NullConditional(UpdatePendingSelector(c, previous, replacement, optional), UpdatePendingSelector(a, previous, replacement, optional))
  }

  function UpdateAll(es: seq<Expr>, previous: Param, replacement: Param, optional: bool): (r: seq<Expr>)
    ensures |r| == |es|
    ensures (forall i :: 0 <= i < |es| ==> !Occurs(es[i], previous)) ==> r == es
    ensures previous != replacement ==> forall i :: 0 <= i < |es| ==> !Occurs(r[i], previous)
    decreases es
  {
    if es == [] then []
    else
      var tail := UpdateAll(es[1..], previous, replacement, optional);
      assert forall i :: 1 <= i < |es| ==> es[i] == es[1..][i - 1];
      [UpdatePendingSelector(es[0], previous, replacement, optional)] + tail
  }

  /** The visitor applied to an optional pending selector; a lambda stays a lambda with as many parameters. */
  function UpdateSelectorOption(selector: Option<Lambda>, previous: Param, replacement: Param, optional: bool): (r: Option<Lambda>)
    ensures r.Some? <==> selector.Some?
  {
    match selector
    case None => None
    case Some(s) => Some(UpdatePendingSelector(s, previous, replacement, optional))
  }

  /**
   The pending selector after a navigation join: an absent one stays absent; a
   present one keeps its parameters with `previous` swapped for the joined row's
   parameter, and on the accessor fragment its body, read against the joined
   row, means what the old body meant against the row the join started from.
   */
  lemma UpdateSelectorOptionAfterJoin(
    selector: Option<Lambda>, previous: Param, replacement: Param, optional: bool,
    env: Env, previousRow: Row, target: Row, group: Row)
    ensures var r := UpdateSelectorOption(selector, previous, replacement, optional);
      && (r.Some? <==> selector.Some?)
      && (selector.Some? ==> r.value.params == SwapParameter(selector.value.params, previous, replacement))
    ensures var r := UpdateSelectorOption(selector, previous, replacement, optional);
      selector.Some? && InFragment(selector.value.body)
      && replacement in env && env[replacement] == JoinedRow(previousRow, target, group, optional) ==>
        Eval(r.value.body, env) == Eval(selector.value.body, env[previous := previousRow])
  {
    if selector.Some? && InFragment(selector.value.body)
      && replacement in env && env[replacement] == JoinedRow(previousRow, target, group, optional)
    {
      var lam := selector.value;
      assert !HasOperandList(lam) && HasTwoParts(lam);
      assert UpdatePendingSelector(lam, previous, replacement, optional).body
        == UpdatePendingSelector(lam.body, previous, replacement, optional);
      UpdatePendingSelectorAfterJoin(lam.body, previous, replacement, optional, env, previousRow, target, group);
    }
  }

  /**
   On the accessor fragment the rewritten selector, read against the new row,
   means what the old selector meant against the row found at `Outer`
   (or `Outer.Outer`) of the new one.
   */
  lemma {:induction false} UpdatePendingSelectorMeaning(e: Expr, previous: Param, replacement: Param, optional: bool, env: Env)
    requires InFragment(e)
    ensures Eval(UpdatePendingSelector(e, previous, replacement, optional), env)
         == Eval(e, Assign(env, previous, Eval(OuterAccess(replacement, optional), env)))
  {
    match e
    case ParamRef(q) =>
    case Field(t, m) =>
      UpdatePendingSelectorMeaning(t, previous, replacement, optional, env);
    case NewTI(a, b) =>
      UpdatePendingSelectorMeaning(a, previous, replacement, optional, env);
      UpdatePendingSelectorMeaning(b, previous, replacement, optional, env);
  }

  /**
   Against the row a join produces, the rewritten selector means exactly what
   the old selector meant against the row the join started from.
   */
  lemma UpdatePendingSelectorAfterJoin(
    e: Expr, previous: Param, replacement: Param, optional: bool,
    env: Env, previousRow: Row, target: Row, group: Row)
    requires InFragment(e)
    requires replacement in env && env[replacement] == JoinedRow(previousRow, target, group, optional)
    ensures Eval(UpdatePendingSelector(e, previous, replacement, optional), env) == Eval(e, env[previous := previousRow])
  {
    UpdatePendingSelectorMeaning(e, previous, replacement, optional, env);
    FieldChainMeaning(replacement, OuterPrefix(optional), env);
    JoinedRowResolution(previousRow, target, group, optional, []);
    assert OuterPrefix(optional) + [] == OuterPrefix(optional);
  }

  /**
   `CorrelationChecker`: whether the collection selector mentions the outer row
   parameter anywhere, as a reference or as a declared lambda parameter.
   */
  function CorrelationChecker(collection: Expr, root: Param): (correlated: bool)
    ensures !correlated ==> forall x :: Replace(collection, root, x) == Success(collection)
  {
    Occurs(collection, root)
  }

  /** An uncorrelated accessor denotes the same row whatever the outer row parameter is bound to. */
  lemma {:induction false} UncorrelatedIsIndependent(collection: Expr, root: Param, env: Env, v: Option<Row>)
    requires InFragment(collection)
    requires !CorrelationChecker(collection, root)
    ensures Eval(collection, env) == Eval(collection, Assign(env, root, v))
  {
    match collection
    case ParamRef(q) =>
    case Field(t, m) =>
      UncorrelatedIsIndependent(t, root, env, v);
    case NewTI(a, b) =>
      UncorrelatedIsIndependent(a, root, env, v);
      UncorrelatedIsIndependent(b, root, env, v);
  }
}
