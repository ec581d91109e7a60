/**
 Which operators and conditionals the checker accepts, and the types it gives them,
 in terms of the values each type holds.
 */
module RenderingTypes {
  import opened Wrappers
  import opened BranchAst
  import opened Rendering
  import opened RenderingSound

  /** The operators of the language and the encrypted types each is defined on. */
  predicate DefinedOn(op: BinOp, t: EType) {
    match op
    case Equal => true
    case Differ => true
    case BitAnd => !t.Eaddress?
    case BitOr => !t.Eaddress?
    case BitXor => !t.Eaddress?
    case AndAnd => !t.Eaddress?
    case OrOr => !t.Eaddress?
    case Power => false
    case Sar => false
    case _ => t.Euint?
  }

  /** Both operands convert to the type, and no value of either is lost. */
  ghost predicate Holds(x: Ty, y: Ty, t: EType) {
    SameKind(x, t) && Contained(x, t) && SameKind(y, t) && Contained(y, t)
  }

  /** The type is an encrypted operand's own, for a shift the shifted one's. */
  predicate Dictates(op: BinOp, x: Ty, y: Ty, t: EType) {
    if (op.ShiftLeft? || op.ShiftRight?) && x.Encrypted? then x == Encrypted(t) else x == Encrypted(t) || y == Encrypted(t)
  }

  predicate Compares(op: BinOp) {
    op in {Equal, Differ, Less, LessEq, Greater, GreaterEq}
  }

  function TargetOf(op: BinOp, x: Ty, y: Ty): Result<EType, Refusal>
    requires x.Encrypted? || y.Encrypted?
  {
    if op.ShiftLeft? || op.ShiftRight? then ShiftTarget(x, y) else CommonTarget(x, y)
  }

  lemma Planned(x: Ty, y: Ty, t: EType)
    requires Recordable(x) && Recordable(y)
    ensures Holds(x, y, t) <==> PlanOperand(x, t).Success? && PlanOperand(y, t).Success?
  {
    PlanExact(x, t);
    PlanExact(y, t);
  }

  lemma TargetDictates(op: BinOp, x: Ty, y: Ty)
    requires x.Encrypted? || y.Encrypted?
    ensures TargetOf(op, x, y).Success? ==> Dictates(op, x, y, TargetOf(op, x, y).value)
  {
  }

  lemma DictatedIsTarget(op: BinOp, x: Ty, y: Ty, t: EType)
    requires (x.Encrypted? || y.Encrypted?) && Dictates(op, x, y, t) && PlanOperand(x, t).Success? && PlanOperand(y, t).Success?
    requires op.ShiftLeft? || op.ShiftRight? ==> t.Euint?
    ensures TargetOf(op, x, y) == Success(t)
  {
  }

  lemma DefinedCalls(op: BinOp, t: EType)
    ensures DefinedOn(op, t) <==> FheOf(op).Some? && OperatorAllowed(FheOf(op).value, t)
    ensures DefinedOn(op, t) ==> ProfileResult(FheOf(op).value, [t, t]) == Some(if Compares(op) then Ebool else t)
  {
  }

  lemma SiteFrom(op: BinOp, x: Ty, y: Ty, t: EType)
    requires (x.Encrypted? || y.Encrypted?) && PlanOperand(x, t).Success? && PlanOperand(y, t).Success?
    requires TargetOf(op, x, y) == Success(t)
    ensures BinarySite(op, x, y).Success? <==> DefinedOn(op, t)
    ensures BinarySite(op, x, y).Success? ==> BinarySite(op, x, y).value.result == if Compares(op) then Ebool else t
  {
    DefinedCalls(op, t);
  }

  /**
   An operator with an encrypted side is accepted exactly when the type of an
   encrypted operand holds every value of both and the operator is defined on it.
   Comparisons give `ebool`, every other operator that type.
   */
  lemma BinaryAccepted(op: BinOp, x: Ty, y: Ty)
    requires (x.Encrypted? || y.Encrypted?) && Recordable(x) && Recordable(y)
    ensures BinarySite(op, x, y).Success? <==> exists t :: Dictates(op, x, y, t) && Holds(x, y, t) && DefinedOn(op, t)
    ensures forall t :: Dictates(op, x, y, t) && Holds(x, y, t) && DefinedOn(op, t) ==>
              BinarySite(op, x, y).Success? && BinarySite(op, x, y).value.result == if Compares(op) then Ebool else t
  {
    forall t | Dictates(op, x, y, t) && Holds(x, y, t) && DefinedOn(op, t)
      ensures BinarySite(op, x, y).Success? && BinarySite(op, x, y).value.result == if Compares(op) then Ebool else t
    {
      Planned(x, y, t);
      DictatedIsTarget(op, x, y, t);
      SiteFrom(op, x, y, t);
    }
    if BinarySite(op, x, y).Success? {
      var t := TargetOf(op, x, y).value;
      TargetDictates(op, x, y);
      Planned(x, y, t);
      SiteFrom(op, x, y, t);
      assert Dictates(op, x, y, t) && Holds(x, y, t) && DefinedOn(op, t);
    }
  }

  /** The plaintext type whose values are those of the encrypted one. */
  predicate PlainOf(x: Ty, t: EType) {
    match x
    case Plain(PBool) => t.Ebool?
    case Plain(PAddress) => t.Eaddress?
    case Plain(PUint(bits)) => t == Euint(bits) && bits in {8, 16, 32, 64, 128}
    case _ => false
  }

  predicate IsLiteral(x: Ty) {
    x.Plain? && x.p.NumLit?
  }

  /** An arm, or for two plaintext arms the one that is no literal, decides the type. */
  predicate Decides(x: Ty, y: Ty, t: EType) {
    if x.Encrypted? || y.Encrypted? then x == Encrypted(t) || y == Encrypted(t)
    else (PlainOf(x, t) || PlainOf(y, t)) && (PlainOf(x, t) || IsLiteral(x)) && (PlainOf(y, t) || IsLiteral(y))
  }

  lemma ArmsDecide(x: Ty, y: Ty, t: EType)
    requires PlanOperand(x, t).Success? && PlanOperand(y, t).Success?
    ensures ArmsTarget(x, y) == Success(t) <==> Decides(x, y, t)
  {
  }

  /** A conditional on an `ebool` is accepted exactly when a type its arms decide on
      holds every value of both, and has that type. */
  lemma TernaryAccepted(x: Ty, y: Ty)
    requires Recordable(x) && Recordable(y)
    ensures TernarySite(x, y).Success? <==> exists t :: Decides(x, y, t) && Holds(x, y, t)
    ensures forall t :: Decides(x, y, t) && Holds(x, y, t) ==> TernarySite(x, y).Success? && TernarySite(x, y).value.result == t
  {
    forall t | Decides(x, y, t) && Holds(x, y, t)
      ensures TernarySite(x, y).Success? && TernarySite(x, y).value.result == t
    {
      Planned(x, y, t);
      ArmsDecide(x, y, t);
    }
    if TernarySite(x, y).Success? {
      var t := ArmsTarget(x, y).value;
      Planned(x, y, t);
      ArmsDecide(x, y, t);
      assert Decides(x, y, t) && Holds(x, y, t);
    }
  }

  // ---- whole expressions ---------------------------------------------------------------

  /** Accepted trees: what each node asks of the types of its operands. */
  ghost predicate Accepted(e: Source)
    decreases e
  {
    match e
    case Leaf(_, _) => true
    case Node(_, args, _) => forall a | a in args :: Accepted(a)
    case Binary(op, l, r) =>
      && Accepted(l) && Accepted(r) && TypeOf(l).Success? && TypeOf(r).Success?
      && (TyOf(l).Encrypted? || TyOf(r).Encrypted? ==>
            exists t :: Dictates(op, TyOf(l), TyOf(r), t) && Holds(TyOf(l), TyOf(r), t) && DefinedOn(op, t))
    case LogicalNot(x) => Accepted(x) && TypeOf(x).Success? && (TyOf(x).Encrypted? ==> TyOf(x).t.Ebool?)
    case BitwiseNot(x) => Accepted(x) && TypeOf(x).Success? && (TyOf(x).Encrypted? ==> TyOf(x).t.Euint?)
    case Ternary(c, a, b) =>
      && Accepted(c) && Accepted(a) && Accepted(b) && TypeOf(c).Success? && TypeOf(a).Success? && TypeOf(b).Success?
      && (TyOf(c).Encrypted? ==> TyOf(c).t.Ebool? && exists t :: Decides(TyOf(a), TyOf(b), t) && Holds(TyOf(a), TyOf(b), t))
  }

  /** Literals are recorded below 2^128 wherever one is given. */
  predicate AllRecordable(e: Source)
    decreases e
  {
    match e
    case Leaf(_, ty) => Recordable(ty)
    case Node(_, args, ty) => Recordable(ty) && forall a | a in args :: AllRecordable(a)
    case Binary(_, l, r) => AllRecordable(l) && AllRecordable(r)
    case LogicalNot(x) => AllRecordable(x)
    case BitwiseNot(x) => AllRecordable(x)
    case Ternary(c, a, b) => AllRecordable(c) && AllRecordable(a) && AllRecordable(b)
  }

  lemma {:induction false} FoldRecordable(op: BinOp, a: nat, b: nat)
    requires a < Pow2(128) && b < Pow2(128) && Fold(op, a, b).Some?
    ensures Fold(op, a, b).value < Pow2(128)
  {
    if op.Over? { QuotientSmall(a, b); }
  }

  lemma QuotientSmall(a: nat, b: nat)
    requires b > 0
    ensures 0 <= a / b <= a
  {
    var q := a / b;
    assert a == b * q + a % b;
    if q > a {
      ProductBig(b, q);
    }
  }

  lemma {:induction false} ProductBig(b: nat, q: int)
    requires b > 0 && q > 0
    ensures b * q >= q
  {
    if b > 1 {
      ProductBig(b - 1, q);
      assert b * q == (b - 1) * q + q;
    }
  }

  lemma LiteralBinary(op: BinOp, a: nat, b: nat)
    requires op in {Plus, Minus, Times, Over, Modulo, Power}
    ensures PlainBinary(Plain(NumLit(Some(a))), op, Plain(NumLit(Some(b)))) == Plain(NumLit(Fold(op, a, b)))
  {
    var x, y := Plain(NumLit(Some(a))), Plain(NumLit(Some(b)));
    assert x.p.value.value == a && y.p.value.value == b;
    assert !IsComparison(op) && !IsLogical(op) && !IsBitwise(op);
    assert !x.Unknown? && !y.Unknown? && x.p.NumLit? && x.p.value.Some? && y.p.NumLit? && y.p.value.Some?;
  }

  lemma LiteralRecordable(op: BinOp, a: Option<nat>, b: Option<nat>)
    requires (a.Some? ==> a.value < Pow2(128)) && (b.Some? ==> b.value < Pow2(128))
    ensures Recordable(PlainBinary(Plain(NumLit(a)), op, Plain(NumLit(b))))
  {
    if a.Some? && b.Some? && op in {Plus, Minus, Times, Over, Modulo, Power} {
      LiteralBinary(op, a.value, b.value);
      var folded := Fold(op, a.value, b.value);
      if folded.Some? { FoldRecordable(op, a.value, b.value); }
    } else {
      LiteralKept(op, a, b);
    }
  }

  lemma LiteralKept(op: BinOp, a: Option<nat>, b: Option<nat>)
    requires a.None? || b.None? || op !in {Plus, Minus, Times, Over, Modulo, Power}
    ensures PlainBinary(Plain(NumLit(a)), op, Plain(NumLit(b))) in {Plain(PBool), Plain(NumLit(None)), Plain(NumLit(a)), Plain(NumLit(b))}
  {
  }

  lemma PlainRecordable(x: Ty, op: BinOp, y: Ty)
    requires !x.Encrypted? && !y.Encrypted? && Recordable(x) && Recordable(y)
    ensures Recordable(PlainBinary(x, op, y))
  {
    if IsLiteral(x) && IsLiteral(y) { LiteralRecordable(op, x.p.value, y.p.value); }
  }

  lemma {:induction false} TypesRecordable(e: Source)
    requires AllRecordable(e) && TypeOf(e).Success?
    ensures Recordable(TyOf(e))
    decreases e
  {
    match e
    case Binary(op, l, r) =>
      TypesRecordable(l);
      TypesRecordable(r);
      if !TyOf(l).Encrypted? && !TyOf(r).Encrypted? { PlainRecordable(TyOf(l), op, TyOf(r)); }
    case BitwiseNot(x) => TypesRecordable(x);
    case Ternary(c, a, b) => TypesRecordable(a);
    case _ =>
  }

  /** The checker accepts exactly the accepted trees. */
  lemma {:induction false} AcceptedExactly(e: Source)
    requires AllRecordable(e)
    ensures TypeOf(e).Success? <==> Accepted(e)
    decreases e
  {
    match e
    case Leaf(_, _) =>
    case Node(_, args, _) => AllAccepted(args);
    case Binary(op, l, r) =>
      AcceptedExactly(l);
      AcceptedExactly(r);
      if TypeOf(l).Success? && TypeOf(r).Success? && (TyOf(l).Encrypted? || TyOf(r).Encrypted?) {
        TypesRecordable(l);
        TypesRecordable(r);
        BinaryAccepted(op, TyOf(l), TyOf(r));
      }
    case LogicalNot(x) => AcceptedExactly(x);
    case BitwiseNot(x) => AcceptedExactly(x);
    case Ternary(c, a, b) =>
      AcceptedExactly(c);
      AcceptedExactly(a);
      AcceptedExactly(b);
      if TypeOf(a).Success? && TypeOf(b).Success? {
        TypesRecordable(a);
        TypesRecordable(b);
        TernaryAccepted(TyOf(a), TyOf(b));
      }
  }

  lemma {:induction false} AllAccepted(es: seq<Source>)
    requires forall a | a in es :: AllRecordable(a)
    ensures TypeAll(es).Success? <==> forall a | a in es :: Accepted(a)
    decreases es
  {
    if es != [] {
      assert es == [es[0]] + es[1..];
      AcceptedExactly(es[0]);
      AllAccepted(es[1..]);
    }
  }

  // ---- plaintext literals --------------------------------------------------------------

  /** What the arithmetic of two literals gives, if anything. */
  function Exact(op: BinOp, a: nat, b: nat): Option<int> {
    match op
    case Plus => Some(a + b)
    case Minus => Some(a - b)
    case Times => Some(a * b)
    case Over => if b == 0 then None else Some(a / b)
    case Modulo => if b == 0 then None else Some(a % b)
    case _ => None
  }

  /** A literal is tracked while it is a natural number below 2^128. */
  function Tracked(v: Option<int>): Option<nat> {
    if v.Some? && 0 <= v.value < Pow2(128) then Some(v.value) else None
  }

  lemma FoldExact(op: BinOp, a: nat, b: nat)
    requires op in {Plus, Minus, Times, Over, Modulo} && a < Pow2(128) && b < Pow2(128)
    ensures Fold(op, a, b) == Tracked(Exact(op, a, b))
  {
    match op
    case Over => if b != 0 { QuotientSmall(a, b); }
    case Modulo => if b != 0 { assert 0 <= a % b < b; }
    case _ =>
  }

  /** Literal arithmetic is tracked exactly as far as the result is a natural number
      below 2^128. */
  lemma LiteralFolds(op: BinOp, a: nat, b: nat)
    requires op in {Plus, Minus, Times, Over, Modulo} && a < Pow2(128) && b < Pow2(128)
    ensures PlainBinary(Plain(NumLit(Some(a))), op, Plain(NumLit(Some(b)))) == Plain(NumLit(Tracked(Exact(op, a, b))))
  {
    LiteralBinary(op, a, b);
    FoldExact(op, a, b);
  }

  /** Plaintext comparisons are `bool`; arithmetic over unsigned integers has the
      narrower type that holds both operands. */
  lemma PlainTypes(op: BinOp, a: nat, b: nat)
    ensures Compares(op) || op in {AndAnd, OrOr} ==> PlainBinary(Plain(PUint(a)), op, Plain(PUint(b))) == Plain(PBool)
    ensures op in {Plus, Minus, Times, Over, Modulo} ==>
              exists w :: w in {a, b} && PlainBinary(Plain(PUint(a)), op, Plain(PUint(b))) == Plain(PUint(w))
                          && forall n: int :: Fits(Plain(PUint(a)), n) || Fits(Plain(PUint(b)), n) ==> Fits(Plain(PUint(w)), n)
  {
    if op in {Plus, Minus, Times, Over, Modulo} {
      var w := if a >= b then a else b;
      Pow2Grows(if a >= b then b else a, w);
      assert w in {a, b} && PlainBinary(Plain(PUint(a)), op, Plain(PUint(b))) == Plain(PUint(w));
    }
  }

  /** A conditional over a plaintext condition has the type of its arms, when they agree. */
  lemma TernaryTypes(c: Source, a: Source, b: Source)
    requires TypeOf(Ternary(c, a, b)).Success?
    ensures TyOf(c) == Encrypted(Ebool) ==>
              exists t :: TyOf(Ternary(c, a, b)) == Encrypted(t) && PlanOperand(TyOf(a), t).Success? && PlanOperand(TyOf(b), t).Success?
    ensures TyOf(c) != Encrypted(Ebool) && TyOf(a) == TyOf(b) ==> TyOf(Ternary(c, a, b)) == TyOf(a)
    ensures TyOf(c) != Encrypted(Ebool) && TyOf(a) != TyOf(b) ==> TyOf(Ternary(c, a, b)) == Unknown
  {
    if TyOf(c) == Encrypted(Ebool) {
      var t := TernarySite(TyOf(a), TyOf(b)).value.result;
      assert TyOf(Ternary(c, a, b)) == Encrypted(t);
    }
  }

  // ---- refusals ------------------------------------------------------------------------

  /** What is wrong with an operand that cannot be brought to a type. */
  ghost predicate PlanBlames(x: Ty, t: EType, err: Refusal) {
    match err
    case MeetsUnknown => x.Unknown?
    case IncompatibleEncrypted => x.Encrypted? && !SameKind(x, t)
    case NarrowingRequired => x.Encrypted? && SameKind(x, t) && !Contained(x, t)
    case LiteralOutOfRange => IsLiteral(x) && !(SameKind(x, t) && Contained(x, t))
    case NotConvertible => x.Plain? && !IsLiteral(x) && !(SameKind(x, t) && Contained(x, t))
    case _ => false
  }

  lemma PlanRefused(x: Ty, t: EType)
    requires Recordable(x) && PlanOperand(x, t).Failure?
    ensures PlanBlames(x, t, PlanOperand(x, t).error)
  {
    PlanExact(x, t);
  }

  /** What is wrong with an operation. */
  ghost predicate BinaryBlames(op: BinOp, x: Ty, y: Ty, err: Refusal) {
    match err
    case UnsupportedOperator => forall t :: Dictates(op, x, y, t) ==> !DefinedOn(op, t)
    case MeetsUnknown => x.Unknown? || y.Unknown?
    case IncompatibleEncrypted => x.Encrypted? && y.Encrypted? && forall t :: Dictates(op, x, y, t) ==> !(SameKind(x, t) && SameKind(y, t))
    case NarrowingRequired => x.Encrypted? && y.Encrypted? && (op.ShiftLeft? || op.ShiftRight?) && !Contained(y, x.t)
    case LiteralOutOfRange => (IsLiteral(x) || IsLiteral(y)) && forall t :: Dictates(op, x, y, t) ==> !Holds(x, y, t)
    case NotConvertible => (x.Plain? || y.Plain?) && forall t :: Dictates(op, x, y, t) ==> !Holds(x, y, t)
    case _ => false
  }

  lemma TargetRefused(op: BinOp, x: Ty, y: Ty)
    requires (x.Encrypted? || y.Encrypted?) && TargetOf(op, x, y).Failure?
    ensures BinaryBlames(op, x, y, TargetOf(op, x, y).error)
  {
    if x.Encrypted? && y.Encrypted? && x.t.Euint? && y.t.Euint? { WidthsContained(y.t.bits, x.t.bits); }
  }

  /** Beside a plaintext operand the encrypted one alone dictates. */
  lemma OneDictates(op: BinOp, x: Ty, y: Ty, t: EType)
    requires (x.Encrypted? || y.Encrypted?) && (x.Plain? || y.Plain?) && TargetOf(op, x, y) == Success(t)
    ensures forall u :: Dictates(op, x, y, u) ==> u == t
  {
  }

  lemma OperandRefused(op: BinOp, x: Ty, y: Ty, t: EType, z: Ty)
    requires (x.Encrypted? || y.Encrypted?) && Recordable(x) && Recordable(y) && TargetOf(op, x, y) == Success(t)
    requires z in {x, y} && PlanOperand(z, t).Failure?
    ensures BinaryBlames(op, x, y, PlanOperand(z, t).error)
  {
    PlanRefused(z, t);
    if z.Plain? { OneDictates(op, x, y, t); }
  }

  /** The refusal of an operation says what is wrong with it; the profile never refuses what
      the checker lets through. */
  lemma BinaryRefused(op: BinOp, x: Ty, y: Ty)
    requires (x.Encrypted? || y.Encrypted?) && Recordable(x) && Recordable(y) && BinarySite(op, x, y).Failure?
    ensures BinaryBlames(op, x, y, BinarySite(op, x, y).error)
  {
    var target := TargetOf(op, x, y);
    if FheOf(op).None? {
      assert forall t :: !DefinedOn(op, t);
    } else if target.Failure? {
      TargetRefused(op, x, y);
    } else {
      var t := target.value;
      DefinedCalls(op, t);
      if !OperatorAllowed(FheOf(op).value, t) {
        NotAllowed(op, x, y, t);
      } else if PlanOperand(x, t).Failure? {
        OperandRefused(op, x, y, t, x);
      } else {
        OperandRefused(op, x, y, t, y);
      }
    }
  }

  lemma NotAllowed(op: BinOp, x: Ty, y: Ty, t: EType)
    requires (x.Encrypted? || y.Encrypted?) && TargetOf(op, x, y) == Success(t) && !DefinedOn(op, t)
    ensures forall u :: Dictates(op, x, y, u) ==> !DefinedOn(op, u)
  {
  }
}
