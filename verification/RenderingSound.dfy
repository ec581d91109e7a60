/**
 Rendering keeps types and values: the calls it emits always resolve to an overload
 of the library, and evaluate to what the source expression means.
 */
module RenderingSound {
  import opened Wrappers
  import opened BranchAst
  import opened Rendering

  /** What variables, calls and plaintext operators give, and the encrypted operators
      whose result the backend defines: division, remainder and shifts. */
  datatype World = World(
    leaf: nat -> int,
    node: (string, seq<int>) -> int,
    plain: (BinOp, Ty, Ty, int, int) -> int,
    plainNot: (bool, Ty, int) -> int,
    backend: (BinOp, nat, int, int) -> int)

  function BitsOf(t: EType): nat {
    match t
    case Ebool => 1
    case Euint(bits) => bits
    case Eaddress => 160
  }

  predicate InRange(t: EType, n: int) {
    0 <= n < Pow2(BitsOf(t))
  }

  /** The values of a type. */
  predicate Fits(ty: Ty, n: int) {
    match ty
    case Encrypted(t) => InRange(t, n)
    case Plain(PBool) => 0 <= n < 2
    case Plain(PUint(bits)) => 0 <= n < Pow2(bits)
    case Plain(PAddress) => 0 <= n < Pow2(160)
    case Plain(NumLit(value)) => value.Some? ==> n == value.value
    case _ => true
  }

  function AsBit(b: bool): int {
    if b then 1 else 0
  }

  /** When a bit of the result is set: where both operands have it, either, or one only. */
  datatype BitRule = BothBits | EitherBit | OneBit

  function Bitwise(rule: BitRule, bits: nat, a: int, b: int): int {
    if bits == 0 then 0
    else
      var x, y := a % 2 == 1, b % 2 == 1;
      AsBit(match rule case BothBits => x && y case EitherBit => x || y case OneBit => x != y) + 2 * Bitwise(rule, bits - 1, a / 2, b / 2)
  }

  /** What the library computes at a width; sums and products wrap around. */
  function Compute(w: World, op: FheOp, bits: nat, a: int, b: int): int {
    match op
    case Add => (a + b) % Pow2(bits)
    case Sub => (a - b) % Pow2(bits)
    case Mul => (a * b) % Pow2(bits)
    case Div => w.backend(Over, bits, a, b) % Pow2(bits)
    case Rem => w.backend(Modulo, bits, a, b) % Pow2(bits)
    case And => Bitwise(BothBits, bits, a, b)
    case Or => Bitwise(EitherBit, bits, a, b)
    case Xor => Bitwise(OneBit, bits, a, b)
    case Shl => w.backend(ShiftLeft, bits, a, b) % Pow2(bits)
    case Shr => w.backend(ShiftRight, bits, a, b) % Pow2(bits)
    case Eq => AsBit(a == b)
    case Ne => AsBit(a != b)
    case Lt => AsBit(a < b)
    case Lte => AsBit(a <= b)
    case Gt => AsBit(a > b)
    case Gte => AsBit(a >= b)
    case _ => 0
  }

  // ---- the source ----------------------------------------------------------------------

  function WidthOf(ty: Ty): nat {
    match ty
    case Encrypted(t) => BitsOf(t)
    case Plain(PBool) => 1
    case Plain(PUint(bits)) => bits
    case Plain(PAddress) => 160
    case _ => 0
  }

  /** The wider operand decides; a shifted encrypted value keeps its own width. */
  function CommonWidth(op: BinOp, x: Ty, y: Ty): nat {
    if (op.ShiftLeft? || op.ShiftRight?) && x.Encrypted? then WidthOf(x)
    else if WidthOf(x) >= WidthOf(y) then WidthOf(x) else WidthOf(y)
  }

  /** Literals are exact; other plaintext arithmetic is solc's. */
  function PlainValue(w: World, op: BinOp, x: Ty, y: Ty, a: int, b: int): int {
    if !(x.Plain? && x.p.NumLit? && y.Plain? && y.p.NumLit?) then w.plain(op, x, y, a, b)
    else
      match op
      case Plus => a + b
      case Minus => a - b
      case Times => a * b
      case Over => if a >= 0 && b > 0 then a / b else w.plain(op, x, y, a, b)
      case Modulo => if a >= 0 && b > 0 then a % b else w.plain(op, x, y, a, b)
      case Power => if a >= 0 && b >= 0 then PowOf(a, b) else w.plain(op, x, y, a, b)
      case _ => w.plain(op, x, y, a, b)
  }

  function TyOf(e: Source): Ty
    requires TypeOf(e).Success?
  {
    TypeOf(e).value.ty
  }

  /** What the language says about an operator with an encrypted side, over numbers,
      at the common width. */
  function OperatorMeans(w: World, op: BinOp, x: Ty, y: Ty, a: int, b: int): int {
    var bits := CommonWidth(op, x, y);
    match op
    case Plus => (a + b) % Pow2(bits)
    case Minus => (a - b) % Pow2(bits)
    case Times => (a * b) % Pow2(bits)
    case BitAnd => Bitwise(BothBits, bits, a, b)
    case BitOr => Bitwise(EitherBit, bits, a, b)
    case BitXor => Bitwise(OneBit, bits, a, b)
    case AndAnd => AsBit(a != 0 && b != 0)
    case OrOr => AsBit(a != 0 || b != 0)
    case Equal => AsBit(a == b)
    case Differ => AsBit(a != b)
    case Less => AsBit(a < b)
    case LessEq => AsBit(a <= b)
    case Greater => AsBit(a > b)
    case GreaterEq => AsBit(a >= b)
    case _ => w.backend(op, bits, a, b) % Pow2(bits)
  }

  /** What an accepted source expression means. */
  function Means(w: World, e: Source): int
    requires TypeOf(e).Success?
    decreases e
  {
    match e
    case Leaf(id, _) => w.leaf(id)
    case Node(f, args, _) => w.node(f, MeansAll(w, args))
    case Binary(op, l, r) =>
      var x, y, a, b := TyOf(l), TyOf(r), Means(w, l), Means(w, r);
      if !x.Encrypted? && !y.Encrypted? then PlainValue(w, op, x, y, a, b) else OperatorMeans(w, op, x, y, a, b)
    case LogicalNot(x) => if TyOf(x).Encrypted? then AsBit(Means(w, x) == 0) else w.plainNot(false, TyOf(x), Means(w, x))
    case BitwiseNot(x) =>
      if TyOf(x).Encrypted? then Pow2(WidthOf(TyOf(x))) - 1 - Means(w, x) else w.plainNot(true, TyOf(x), Means(w, x))
    case Ternary(c, a, b) => if Means(w, c) != 0 then Means(w, a) else Means(w, b)
  }

  function MeansAll(w: World, es: seq<Source>): seq<int>
    requires TypeAll(es).Success?
    decreases es
  {
    if es == [] then [] else [Means(w, es[0])] + MeansAll(w, es[1..])
  }

  // ---- the rendered text ---------------------------------------------------------------

  /** A number, and the encrypted type it is tagged with. */
  datatype Val = Val(enc: Option<EType>, n: int)

  function EncOf(ty: Ty): Option<EType> {
    if ty.Encrypted? then Some(ty.t) else None
  }

  function CallValue(w: World, op: FheOp, vs: seq<Val>): Option<Val> {
    if |vs| == 1 && vs[0].enc.Some? && op.Not? then
      var r :- ProfileResult(op, [vs[0].enc.value]);
      Some(Val(Some(r), Pow2(BitsOf(r)) - 1 - vs[0].n))
    else if |vs| == 2 && vs[0].enc.Some? && vs[1].enc.Some? then
      var r :- ProfileResult(op, [vs[0].enc.value, vs[1].enc.value]);
      Some(Val(Some(r), Compute(w, op, BitsOf(vs[0].enc.value), vs[0].n, vs[1].n)))
    else if |vs| == 3 && vs[0].enc.Some? && vs[1].enc.Some? && vs[2].enc.Some? then
      var r :- ProfileResult(op, [vs[0].enc.value, vs[1].enc.value, vs[2].enc.value]);
      Some(Val(Some(r), if vs[0].n != 0 then vs[1].n else vs[2].n))
    else None
  }

  /** A conversion call keeps the low bits. */
  function ConvertTo(to: EType, v: Val): Option<Val> {
    if v.enc.Some? && !CanCast(v.enc.value, to) then None else Some(Val(Some(to), v.n % Pow2(BitsOf(to))))
  }

  /** Nothing when some call has no overload for the types of its arguments. */
  function Evaluate(w: World, t: Text): Option<Val>
    decreases t
  {
    match t
    case Var(id, ty) => Some(Val(EncOf(ty), w.leaf(id)))
    case Apply(f, args, ty) =>
      var vs :- EvaluateAll(w, args);
      Some(Val(EncOf(ty), w.node(f, Numbers(vs))))
    case PlainOp(op, x, y, l, r) =>
      var a :- Evaluate(w, l);
      var b :- Evaluate(w, r);
      Some(Val(None, PlainValue(w, op, x, y, a.n, b.n)))
    case PlainNot(bitwise, x, arg) =>
      var a :- Evaluate(w, arg);
      Some(Val(None, w.plainNot(bitwise, x, a.n)))
    case PlainTernary(c, a, b) =>
      var vc :- Evaluate(w, c);
      var va :- Evaluate(w, a);
      var vb :- Evaluate(w, b);
      Some(if vc.n != 0 then va else vb)
    case Call(op, args) =>
      var vs :- EvaluateAll(w, args);
      CallValue(w, op, vs)
    case As(to, arg) =>
      var v :- Evaluate(w, arg);
      ConvertTo(to, v)
  }

  function EvaluateAll(w: World, ts: seq<Text>): Option<seq<Val>>
    decreases ts
  {
    if ts == [] then Some([])
    else
      var v :- Evaluate(w, ts[0]);
      var rest :- EvaluateAll(w, ts[1..]);
      Some([v] + rest)
  }

  function Numbers(vs: seq<Val>): seq<int> {
    if vs == [] then [] else [vs[0].n] + Numbers(vs[1..])
  }

  /** No conversion in the text changes the number it converts. */
  predicate NothingLost(w: World, t: Text)
    decreases t
  {
    match t
    case Var(_, _) => true
    case Apply(_, args, _) => forall a | a in args :: NothingLost(w, a)
    case PlainOp(_, _, _, l, r) => NothingLost(w, l) && NothingLost(w, r)
    case PlainNot(_, _, arg) => NothingLost(w, arg)
    case PlainTernary(c, a, b) => NothingLost(w, c) && NothingLost(w, a) && NothingLost(w, b)
    case Call(_, args) => forall a | a in args :: NothingLost(w, a)
    case As(_, arg) => NothingLost(w, arg) && Evaluate(w, t).Some? && Evaluate(w, t).value.n == Evaluate(w, arg).value.n
  }

  // ---- the hypotheses ------------------------------------------------------------------

  /** Literals as the checker records them. */
  predicate Recordable(ty: Ty) {
    ty.Plain? && ty.p.NumLit? && ty.p.value.Some? ==> ty.p.value.value < Pow2(128)
  }

  /** At every plaintext leaf, call and operator the value fits the type the checker gives. */
  predicate Faithful(w: World, e: Source)
    requires TypeOf(e).Success?
    decreases e
  {
    && (e.Leaf? || e.Node? || (!TyOf(e).Encrypted? && !e.Ternary?) ==> Fits(TyOf(e), Means(w, e)) && Recordable(TyOf(e)))
    && match e
       case Leaf(_, _) => true
       case Node(_, args, _) => AllFaithful(w, args)
       case Binary(_, l, r) => Faithful(w, l) && Faithful(w, r)
       case LogicalNot(x) => Faithful(w, x)
       case BitwiseNot(x) => Faithful(w, x)
       case Ternary(c, a, b) => Faithful(w, c) && Faithful(w, a) && Faithful(w, b)
  }

  predicate AllFaithful(w: World, es: seq<Source>)
    requires TypeAll(es).Success?
    decreases es
  {
    es == [] || (Faithful(w, es[0]) && AllFaithful(w, es[1..]))
  }

  /** `&&` and `||` with an encrypted side join `ebool`s only. */
  predicate LogicalOnBools(e: Source)
    requires TypeOf(e).Success?
    decreases e
  {
    match e
    case Leaf(_, _) => true
    case Node(_, args, _) => AllLogicalOnBools(args)
    case Binary(op, l, r) => LogicalOnBools(l) && LogicalOnBools(r) && ((op.AndAnd? || op.OrOr?) && TyOf(e).Encrypted? ==> TyOf(e).t.Ebool?)
    case LogicalNot(x) => LogicalOnBools(x)
    case BitwiseNot(x) => LogicalOnBools(x)
    case Ternary(c, a, b) => LogicalOnBools(c) && LogicalOnBools(a) && LogicalOnBools(b)
  }

  predicate AllLogicalOnBools(es: seq<Source>)
    requires TypeAll(es).Success?
    decreases es
  {
    es == [] || (LogicalOnBools(es[0]) && AllLogicalOnBools(es[1..]))
  }

  // ---- arithmetic ----------------------------------------------------------------------

  lemma {:induction false} Pow2Grows(a: nat, b: nat)
    requires a <= b
    ensures Pow2(a) <= Pow2(b)
    decreases b
  {
    if a < b { Pow2Grows(a, b - 1); }
  }

  lemma {:induction false} Pow2Strict(a: nat, b: nat)
    requires a < b
    ensures 2 * Pow2(a) <= Pow2(b)
  {
    Pow2Grows(a, b - 1);
  }

  lemma Small(n: int, m: int)
    requires 0 <= n < m
    ensures n % m == n
  {
  }

  lemma {:induction false} BitwiseRange(rule: BitRule, bits: nat, a: int, b: int)
    ensures 0 <= Bitwise(rule, bits, a, b) < Pow2(bits)
    decreases bits
  {
    if bits > 0 { BitwiseRange(rule, bits - 1, a / 2, b / 2); }
  }

  lemma ComputeRange(w: World, op: FheOp, t: EType, a: int, b: int)
    requires ProfileResult(op, [t, t]).Some?
    ensures InRange(ProfileResult(op, [t, t]).value, Compute(w, op, BitsOf(t), a, b))
  {
    assert Pow2(1) == 2 * Pow2(0) == 2;
    BitwiseRange(BothBits, BitsOf(t), a, b);
    BitwiseRange(EitherBit, BitsOf(t), a, b);
    BitwiseRange(OneBit, BitsOf(t), a, b);
  }

  // ---- plans ---------------------------------------------------------------------------

  predicate SameKind(ty: Ty, target: EType) {
    match ty
    case Encrypted(t) => t == target || (t.Euint? && target.Euint?)
    case Plain(PBool) => target.Ebool?
    case Plain(PUint(_)) => target.Euint?
    case Plain(PAddress) => target.Eaddress?
    case Plain(NumLit(_)) => target.Euint?
    case _ => false
  }

  /** Every value of the type is a value of the target. */
  ghost predicate Contained(ty: Ty, target: EType) {
    forall n: int :: Fits(ty, n) ==> InRange(target, n)
  }

  /** An operand is planned exactly when its kind fits and no value of it would be lost. */
  lemma PlanExact(ty: Ty, target: EType)
    requires Recordable(ty)
    ensures PlanOperand(ty, target).Success? <==> SameKind(ty, target) && Contained(ty, target)
  {
    match ty
    case Encrypted(t) => if t.Euint? && target.Euint? { WidthsContained(t.bits, target.bits); }
    case Plain(PUint(bits)) =>
      if target.Euint? {
        WidthsContained(bits, target.bits);
        assert forall n: int :: Fits(ty, n) <==> InRange(Euint(bits), n);
      }
    case Plain(NumLit(value)) =>
      if target.Euint? {
        if value.None? {
          assert Fits(ty, -1);
        } else {
          assert Fits(ty, value.value);
          if target.bits >= 128 { Pow2Grows(128, target.bits); }
        }
      }
    case _ => assert Pow2(1) == 2 * Pow2(0) == 2;
  }

  lemma WidthsContained(a: nat, b: nat)
    ensures (forall n: int :: InRange(Euint(a), n) ==> InRange(Euint(b), n)) <==> a <= b
  {
    if a <= b {
      Pow2Grows(a, b);
    } else {
      Pow2Strict(b, a);
      assert InRange(Euint(a), Pow2(b)) && !InRange(Euint(b), Pow2(b));
    }
  }

  /** The target of a symmetric operator is the least type both operands convert to. */
  lemma CommonTargetLeast(x: Ty, y: Ty, other: EType)
    requires x.Encrypted? || y.Encrypted?
    requires PlanOperand(x, other).Success? && PlanOperand(y, other).Success?
    ensures CommonTarget(x, y).Success?
    ensures var t := CommonTarget(x, y).value;
            && BitsOf(t) <= BitsOf(other)
            && (x.Encrypted? ==> PlanOperand(x, t).Success?) && (y.Encrypted? ==> PlanOperand(y, t).Success?)
  {
  }

  /** A planned conversion of a plaintext or narrower number truncates nothing. */
  lemma PlanKeeps(ty: Ty, target: EType, n: int)
    requires PlanOperand(ty, target).Success? && Fits(ty, n) && Recordable(ty)
    ensures InRange(target, n) && n % Pow2(BitsOf(target)) == n
  {
    PlanExact(ty, target);
    Small(n, Pow2(BitsOf(target)));
  }

  lemma ConversionKeeps(w: World, from: Option<EType>, target: EType, text: Text, n: int)
    requires Evaluate(w, text) == Some(Val(from, n)) && (from.Some? ==> CanCast(from.value, target))
    requires n % Pow2(BitsOf(target)) == n
    ensures Evaluate(w, As(target, text)) == Some(Val(Some(target), n))
    ensures NothingLost(w, text) ==> NothingLost(w, As(target, text))
  {
  }

  /** An operand's planned conversion keeps its number and reaches the target type. */
  lemma WrapKeeps(w: World, ty: Ty, target: EType, text: Text, n: int)
    requires PlanOperand(ty, target).Success? && Fits(ty, n) && Recordable(ty)
    requires Evaluate(w, text) == Some(Val(EncOf(ty), n))
    ensures var r := Wrap(PlanOperand(ty, target).value, text);
            r.ty == target && Evaluate(w, r.text) == Some(Val(Some(target), n)) && InRange(target, n)
  {
    PlanKeeps(ty, target, n);
    PlanTarget(ty, target, text);
    if ty != Encrypted(target) { ConversionKeeps(w, EncOf(ty), target, text, n); }
  }

  lemma WrapLosesNothing(w: World, ty: Ty, target: EType, text: Text, n: int)
    requires PlanOperand(ty, target).Success? && Fits(ty, n) && Recordable(ty)
    requires Evaluate(w, text) == Some(Val(EncOf(ty), n)) && NothingLost(w, text)
    ensures NothingLost(w, Wrap(PlanOperand(ty, target).value, text).text)
  {
    PlanKeeps(ty, target, n);
    PlanTarget(ty, target, text);
    if ty != Encrypted(target) { ConversionKeeps(w, EncOf(ty), target, text, n); }
  }

  /** The conversion a plan asks for exists. */
  lemma PlanTarget(ty: Ty, target: EType, text: Text)
    requires PlanOperand(ty, target).Success?
    ensures var r := Wrap(PlanOperand(ty, target).value, text);
            r.ty == target && (r.text == (if ty == Encrypted(target) then text else As(target, text)))
            && (ty.Encrypted? && ty.t != target ==> CanCast(ty.t, target))
  {
  }

  // ---- preservation --------------------------------------------------------------------

  /** The rendered text evaluates to what the expression means, at the recorded type. */
  ghost predicate Held(w: World, e: Source)
    requires TypeOf(e).Success?
  {
    && Render(e).Success?
    && (var v := Evaluate(w, Render(e).value);
        && v.Some? && v.value.n == Means(w, e)
        && (!TyOf(e).Unknown? ==> v.value.enc == EncOf(TyOf(e))))
    && NothingLost(w, Render(e).value)
    && Fits(TyOf(e), Means(w, e)) && Recordable(TyOf(e))
  }

  /** A site of an operator: both operands are planned to one type, whose width is
      the wider operand's, or for a shift the shifted one's. */
  ghost predicate SiteFor(op: BinOp, x: Ty, y: Ty, target: EType, site: Site) {
    && FheOf(op).Some? && PlanOperand(x, target).Success? && PlanOperand(y, target).Success?
    && BitsOf(target) == CommonWidth(op, x, y) && ProfileResult(FheOf(op).value, [target, target]).Some?
    && site == Site(FheOf(op).value, [PlanOperand(x, target).value, PlanOperand(y, target).value],
                    ProfileResult(FheOf(op).value, [target, target]).value)
  }

  lemma BinarySiteIs(op: BinOp, x: Ty, y: Ty, site: Site) returns (target: EType)
    requires (x.Encrypted? || y.Encrypted?) && BinarySite(op, x, y) == Success(site)
    ensures SiteFor(op, x, y, target, site)
  {
    target := (if IsShift(op) then ShiftTarget(x, y) else CommonTarget(x, y)).value;
  }

  lemma LogicalBits(a: int, b: int)
    requires 0 <= a < 2 && 0 <= b < 2
    ensures Bitwise(BothBits, 1, a, b) == AsBit(a != 0 && b != 0)
    ensures Bitwise(EitherBit, 1, a, b) == AsBit(a != 0 || b != 0)
  {
    assert Bitwise(BothBits, 0, a / 2, b / 2) == 0 && Bitwise(EitherBit, 0, a / 2, b / 2) == 0;
  }

  lemma OperatorComputes(w: World, op: BinOp, x: Ty, y: Ty, target: EType, a: int, b: int)
    requires FheOf(op).Some? && BitsOf(target) == CommonWidth(op, x, y)
    requires IsLogical(op) ==> target.Ebool? && InRange(target, a) && InRange(target, b)
    ensures OperatorMeans(w, op, x, y, a, b) == Compute(w, FheOf(op).value, BitsOf(target), a, b)
  {
    if IsLogical(op) {
      assert Pow2(1) == 2 * Pow2(0) == 2;
      LogicalBits(a, b);
    }
  }

  lemma CallTwo(w: World, op: FheOp, l: Text, r: Text, t: EType, a: int, b: int)
    requires Evaluate(w, l) == Some(Val(Some(t), a)) && Evaluate(w, r) == Some(Val(Some(t), b)) && ProfileResult(op, [t, t]).Some?
    ensures Evaluate(w, Call(op, [l, r])) == Some(Val(ProfileResult(op, [t, t]), Compute(w, op, BitsOf(t), a, b)))
  {
    EvalTwo(w, l, r);
  }

  lemma EvalCons(w: World, t: Text, ts: seq<Text>)
    requires Evaluate(w, t).Some? && EvaluateAll(w, ts).Some?
    ensures EvaluateAll(w, [t] + ts) == Some([Evaluate(w, t).value] + EvaluateAll(w, ts).value)
  {
    assert ([t] + ts)[1..] == ts;
  }

  lemma EvalOne(w: World, t: Text)
    requires Evaluate(w, t).Some?
    ensures EvaluateAll(w, [t]) == Some([Evaluate(w, t).value])
  {
    EvalCons(w, t, []);
    assert [t] + [] == [t] && [Evaluate(w, t).value] + [] == [Evaluate(w, t).value];
  }

  lemma EvalTwo(w: World, l: Text, r: Text)
    requires Evaluate(w, l).Some? && Evaluate(w, r).Some?
    ensures EvaluateAll(w, [l, r]) == Some([Evaluate(w, l).value, Evaluate(w, r).value])
  {
    EvalOne(w, r);
    EvalCons(w, l, [r]);
    assert [l] + [r] == [l, r] && [Evaluate(w, l).value] + [Evaluate(w, r).value] == [Evaluate(w, l).value, Evaluate(w, r).value];
  }

  /** Both operands converted to the target type, then one call at its width. */
  lemma SiteComputes(w: World, op: BinOp, x: Ty, y: Ty, target: EType, site: Site, l: Text, r: Text, a: int, b: int)
    requires SiteFor(op, x, y, target, site)
    requires Fits(x, a) && Fits(y, b) && Recordable(x) && Recordable(y)
    requires Evaluate(w, l) == Some(Val(EncOf(x), a)) && Evaluate(w, r) == Some(Val(EncOf(y), b))
    ensures RenderSite(site, l, r).Success? && InRange(target, a) && InRange(target, b)
    ensures Evaluate(w, RenderSite(site, l, r).value) == Some(Val(Some(site.result), Compute(w, site.op, BitsOf(target), a, b)))
  {
    WrapKeeps(w, x, target, l, a);
    WrapKeeps(w, y, target, r, b);
    CallTwo(w, site.op, Wrap(site.plans[0], l).text, Wrap(site.plans[1], r).text, target, a, b);
  }

  lemma SiteMeans(w: World, op: BinOp, x: Ty, y: Ty, target: EType, a: int, b: int)
    requires FheOf(op).Some? && BitsOf(target) == CommonWidth(op, x, y) && InRange(target, a) && InRange(target, b)
    requires ProfileResult(FheOf(op).value, [target, target]).Some?
    requires IsLogical(op) ==> ProfileResult(FheOf(op).value, [target, target]).value.Ebool?
    ensures OperatorMeans(w, op, x, y, a, b) == Compute(w, FheOf(op).value, BitsOf(target), a, b)
    ensures InRange(ProfileResult(FheOf(op).value, [target, target]).value, OperatorMeans(w, op, x, y, a, b))
  {
    OperatorComputes(w, op, x, y, target, a, b);
    ComputeRange(w, FheOf(op).value, target, a, b);
  }

  lemma SiteKeeps(w: World, op: BinOp, x: Ty, y: Ty, target: EType, site: Site, l: Text, r: Text, a: int, b: int)
    requires SiteFor(op, x, y, target, site)
    requires Fits(x, a) && Fits(y, b) && Recordable(x) && Recordable(y)
    requires Evaluate(w, l) == Some(Val(EncOf(x), a)) && Evaluate(w, r) == Some(Val(EncOf(y), b))
    requires NothingLost(w, l) && NothingLost(w, r) && RenderSite(site, l, r).Success?
    ensures NothingLost(w, RenderSite(site, l, r).value)
  {
    WrapLosesNothing(w, x, target, l, a);
    WrapLosesNothing(w, y, target, r, b);
  }

  lemma EvalThree(w: World, c: Text, l: Text, r: Text)
    requires Evaluate(w, c).Some? && Evaluate(w, l).Some? && Evaluate(w, r).Some?
    ensures EvaluateAll(w, [c, l, r]) == Some([Evaluate(w, c).value, Evaluate(w, l).value, Evaluate(w, r).value])
  {
    EvalTwo(w, l, r);
    EvalCons(w, c, [l, r]);
    var a, b, d := Evaluate(w, c).value, Evaluate(w, l).value, Evaluate(w, r).value;
    assert [c] + [l, r] == [c, l, r] && [a] + [b, d] == [a, b, d];
  }

  lemma SelectValue(w: World, c: Text, l: Text, r: Text, t: EType, n: int, a: int, b: int)
    requires Evaluate(w, c) == Some(Val(Some(Ebool), n)) && Evaluate(w, l) == Some(Val(Some(t), a)) && Evaluate(w, r) == Some(Val(Some(t), b))
    ensures RenderCall(FheOp.Select, [Ebool, t, t], [c, l, r]) == Success(Call(FheOp.Select, [c, l, r]))
    ensures Evaluate(w, Call(FheOp.Select, [c, l, r])) == Some(Val(Some(t), if n != 0 then a else b))
  {
    EvalThree(w, c, l, r);
  }

  /** What a conditional site renders to. */
  function TernaryText(site: Site, c: Text, l: Text, r: Text): Result<Text, Refusal>
    requires |site.plans| == 2
  {
    var p, q := Wrap(site.plans[0], l), Wrap(site.plans[1], r);
    RenderCall(FheOp.Select, [Ebool, p.ty, q.ty], [c, p.text, q.text])
  }

  /** A site of a conditional: both arms are planned to its result type. */
  ghost predicate ArmsFor(x: Ty, y: Ty, site: Site) {
    && PlanOperand(x, site.result).Success? && PlanOperand(y, site.result).Success?
    && site.plans == [PlanOperand(x, site.result).value, PlanOperand(y, site.result).value]
  }

  lemma TernarySiteIs(x: Ty, y: Ty, site: Site)
    requires TernarySite(x, y) == Success(site)
    ensures ArmsFor(x, y, site)
  {
  }

  /** A conditional site: `select` over the converted arms. */
  lemma TernaryHolds(w: World, x: Ty, y: Ty, site: Site, c: Text, l: Text, r: Text, n: int, a: int, b: int)
    requires ArmsFor(x, y, site) && Fits(x, a) && Fits(y, b) && Recordable(x) && Recordable(y)
    requires Evaluate(w, c) == Some(Val(Some(Ebool), n))
    requires Evaluate(w, l) == Some(Val(EncOf(x), a)) && Evaluate(w, r) == Some(Val(EncOf(y), b))
    ensures TernaryText(site, c, l, r).Success?
    ensures Evaluate(w, TernaryText(site, c, l, r).value) == Some(Val(Some(site.result), if n != 0 then a else b))
    ensures InRange(site.result, if n != 0 then a else b)
  {
    WrapKeeps(w, x, site.result, l, a);
    WrapKeeps(w, y, site.result, r, b);
    SelectValue(w, c, Wrap(site.plans[0], l).text, Wrap(site.plans[1], r).text, site.result, n, a, b);
  }

  lemma SelectLosesNothing(w: World, c: Text, l: Text, r: Text)
    requires NothingLost(w, c) && NothingLost(w, l) && NothingLost(w, r)
    ensures NothingLost(w, Call(FheOp.Select, [c, l, r]))
  {
  }

  lemma TernaryKeeps(w: World, x: Ty, y: Ty, site: Site, c: Text, l: Text, r: Text, a: int, b: int)
    requires ArmsFor(x, y, site) && Fits(x, a) && Fits(y, b) && Recordable(x) && Recordable(y)
    requires Evaluate(w, l) == Some(Val(EncOf(x), a)) && Evaluate(w, r) == Some(Val(EncOf(y), b))
    requires NothingLost(w, c) && NothingLost(w, l) && NothingLost(w, r) && TernaryText(site, c, l, r).Success?
    ensures NothingLost(w, TernaryText(site, c, l, r).value)
  {
    WrapLosesNothing(w, x, site.result, l, a);
    WrapLosesNothing(w, y, site.result, r, b);
    SelectLosesNothing(w, c, Wrap(site.plans[0], l).text, Wrap(site.plans[1], r).text);
  }

  lemma NotHolds(w: World, t: EType, text: Text, n: int)
    requires !t.Eaddress? && InRange(t, n) && Evaluate(w, text) == Some(Val(Some(t), n))
    ensures RenderCall(Not, [t], [text]).Success?
    ensures Evaluate(w, RenderCall(Not, [t], [text]).value) == Some(Val(Some(t), Pow2(BitsOf(t)) - 1 - n))
    ensures InRange(t, Pow2(BitsOf(t)) - 1 - n)
    ensures NothingLost(w, text) ==> NothingLost(w, RenderCall(Not, [t], [text]).value)
  {
    EvalOne(w, text);
  }

  /** The text of an operator with a site evaluates to what the operator means. */
  ghost predicate SiteCorrect(w: World, op: BinOp, x: Ty, y: Ty, site: Site, l: Text, r: Text, a: int, b: int) {
    && FheOf(op).Some? && |site.plans| == 2 && RenderSite(site, l, r).Success?
    && Evaluate(w, RenderSite(site, l, r).value) == Some(Val(Some(site.result), OperatorMeans(w, op, x, y, a, b)))
    && InRange(site.result, OperatorMeans(w, op, x, y, a, b))
    && NothingLost(w, RenderSite(site, l, r).value)
  }

  lemma SiteIsCorrect(w: World, op: BinOp, x: Ty, y: Ty, target: EType, site: Site, l: Text, r: Text, a: int, b: int)
    requires SiteFor(op, x, y, target, site) && (IsLogical(op) ==> site.result.Ebool?)
    requires Fits(x, a) && Fits(y, b) && Recordable(x) && Recordable(y)
    requires Evaluate(w, l) == Some(Val(EncOf(x), a)) && Evaluate(w, r) == Some(Val(EncOf(y), b))
    requires NothingLost(w, l) && NothingLost(w, r)
    ensures SiteCorrect(w, op, x, y, site, l, r, a, b)
  {
    SiteComputes(w, op, x, y, target, site, l, r, a, b);
    SiteMeans(w, op, x, y, target, a, b);
    SiteKeeps(w, op, x, y, target, site, l, r, a, b);
  }

  lemma {:induction false} StepHolds(w: World, e: Source)
    requires TypeOf(e).Success? && Faithful(w, e) && LogicalOnBools(e) && e.Binary? && Held(w, e.l) && Held(w, e.r)
    ensures Held(w, e)
  {
    var x, y := TyOf(e.l), TyOf(e.r);
    if x.Encrypted? || y.Encrypted? {
      var site := TypeOf(e).value.site.value;
      var target := BinarySiteIs(e.op, x, y, site);
      SiteIsCorrect(w, e.op, x, y, target, site, Render(e.l).value, Render(e.r).value, Means(w, e.l), Means(w, e.r));
    }
  }

  lemma {:induction false} TernaryStepHolds(w: World, e: Source)
    requires TypeOf(e).Success? && Faithful(w, e) && e.Ternary? && Held(w, e.c) && Held(w, e.a) && Held(w, e.b)
    ensures Held(w, e)
  {
    var x, y := TyOf(e.a), TyOf(e.b);
    if TyOf(e.c) == Encrypted(Ebool) {
      var site := TypeOf(e).value.site.value;
      TernarySiteIs(x, y, site);
      TernaryHolds(w, x, y, site, Render(e.c).value, Render(e.a).value, Render(e.b).value, Means(w, e.c), Means(w, e.a), Means(w, e.b));
      TernaryKeeps(w, x, y, site, Render(e.c).value, Render(e.a).value, Render(e.b).value, Means(w, e.a), Means(w, e.b));
    }
  }

  lemma {:induction false} NotStepHolds(w: World, e: Source)
    requires TypeOf(e).Success? && Faithful(w, e) && (e.LogicalNot? || e.BitwiseNot?) && Held(w, e.x)
    ensures Held(w, e)
  {
    assert Pow2(1) == 2 * Pow2(0) == 2;
    if TyOf(e.x).Encrypted? {
      NotHolds(w, TyOf(e.x).t, Render(e.x).value, Means(w, e.x));
    }
  }

  /**
   Rendering preserves type and value.  For every accepted tree of operators and
   conditionals the rendered text is built, each call in it has an overload for its
   arguments, no conversion loses anything, and its value is what the source means
   at the common widths.
   */
  lemma {:induction false} RenderPreserves(w: World, e: Source)
    requires TypeOf(e).Success? && Faithful(w, e) && LogicalOnBools(e)
    ensures Held(w, e)
    decreases e
  {
    match e
    case Leaf(_, _) =>
    case Node(_, args, _) => ArgsPreserve(w, args);
    case Binary(_, l, r) =>
      RenderPreserves(w, l);
      RenderPreserves(w, r);
      StepHolds(w, e);
    case LogicalNot(x) =>
      RenderPreserves(w, x);
      NotStepHolds(w, e);
    case BitwiseNot(x) =>
      RenderPreserves(w, x);
      NotStepHolds(w, e);
    case Ternary(c, a, b) =>
      RenderPreserves(w, c);
      RenderPreserves(w, a);
      RenderPreserves(w, b);
      TernaryStepHolds(w, e);
  }

  lemma {:induction false} ArgsPreserve(w: World, es: seq<Source>)
    requires TypeAll(es).Success? && AllFaithful(w, es) && AllLogicalOnBools(es)
    ensures RenderAll(es).Success?
    ensures var vs := EvaluateAll(w, RenderAll(es).value); vs.Some? && Numbers(vs.value) == MeansAll(w, es)
    ensures forall t | t in RenderAll(es).value :: NothingLost(w, t)
    decreases es
  {
    if es != [] {
      RenderPreserves(w, es[0]);
      ArgsPreserve(w, es[1..]);
      var ts := RenderAll(es).value;
      assert ts[1..] == RenderAll(es[1..]).value;
      var vs := EvaluateAll(w, ts).value;
      assert vs[1..] == EvaluateAll(w, ts[1..]).value;
    }
  }
}
