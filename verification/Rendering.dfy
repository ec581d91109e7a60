/**
 Operators and conditionals over encrypted values: how the checker picks a common
 type and plans each operand, and how the renderer turns the plans into calls.
 */
module Rendering {
  import opened Wrappers
  import opened BranchAst

  /** Plaintext types as far as the coercion rules look at them.  A literal above
      2^128 - 1, or a negative one, has no value. */
  datatype PlainTy = PBool | PUint(bits: nat) | PAddress | NumLit(value: Option<nat>) | POpaque

  datatype Ty = Encrypted(t: EType) | Plain(p: PlainTy) | Unknown

  datatype BinOp = Plus | Minus | Times | Over | Modulo | BitAnd | BitOr | BitXor | AndAnd | OrOr
                 | ShiftLeft | ShiftRight | Equal | Differ | Less | LessEq | Greater | GreaterEq | Power | Sar

  datatype FheOp = Add | Sub | Mul | Div | Rem | And | Or | Xor | Shl | Shr | Not | Eq | Ne | Lt | Lte | Gt | Gte | Select

  /** Source expressions.  `Node` is any expression without a rewrite of its own, with
      the type the checker gives it. */
  datatype Source =
    | Leaf(id: nat, ty: Ty)
    | Node(f: string, args: seq<Source>, ty: Ty)
    | Binary(op: BinOp, l: Source, r: Source)
    | LogicalNot(x: Source)
    | BitwiseNot(x: Source)
    | Ternary(c: Source, a: Source, b: Source)

  /** Rendered text. `As` is the library conversion `asT`, which truncates. */
  datatype Text =
    | Var(id: nat, ty: Ty)
    | Apply(f: string, args: seq<Text>, ty: Ty)
    | PlainOp(op: BinOp, x: Ty, y: Ty, l: Text, r: Text)
    | PlainNot(bitwise: bool, x: Ty, arg: Text)
    | PlainTernary(c: Text, a: Text, b: Text)
    | Call(fhe: FheOp, args: seq<Text>)
    | As(to: EType, arg: Text)

  datatype Refusal =
    | UnsupportedOperator
    | IncompatibleEncrypted
    | MeetsUnknown
    | NarrowingRequired
    | LiteralOutOfRange
    | NotConvertible
    | ConditionNotEbool
    | ProfileRefused

  datatype OperandKind =
    | AlreadyEncrypted(ty: EType)
    | WidenEncrypted(from: nat, to: nat)
    | LiteralEncrypt(target: EType)
    | TrivialEncrypt(target: EType)

  function Pow2(n: nat): (r: nat)
    ensures r > 0
  {
    if n == 0 then 1 else 2 * Pow2(n - 1)
  }

  predicate Converts(p: PlainTy, target: EType) {
    match (p, target)
    case (PBool, Ebool) => true
    case (PUint(bits), Euint(w)) => bits <= w
    case (PAddress, Eaddress) => true
    case _ => false
  }

  /** The common type of a symmetric operator. */
  function CommonTarget(x: Ty, y: Ty): Result<EType, Refusal>
    requires x.Encrypted? || y.Encrypted?
  {
    match (x, y)
    case (Encrypted(a), Encrypted(b)) =>
      if a.Euint? && b.Euint? then Success(Euint(if a.bits >= b.bits then a.bits else b.bits))
      else if a == b then Success(a)
      else Failure(IncompatibleEncrypted)
    case (Encrypted(a), other) => if other.Unknown? then Failure(MeetsUnknown) else Success(a)
    case (other, Encrypted(a)) => if other.Unknown? then Failure(MeetsUnknown) else Success(a)
  }

  /** A shift is computed at the width of the shifted operand. */
  function ShiftTarget(x: Ty, y: Ty): Result<EType, Refusal>
    requires x.Encrypted? || y.Encrypted?
  {
    match x
    case Encrypted(a) =>
      if !a.Euint? then Failure(UnsupportedOperator)
      else if y.Encrypted? && y.t.Euint? && y.t.bits > a.bits then Failure(NarrowingRequired)
      else Success(a)
    case Unknown => Failure(MeetsUnknown)
    case Plain(_) => if y.t.Euint? then Success(y.t) else Failure(UnsupportedOperator)
  }

  function PlanOperand(x: Ty, target: EType): Result<OperandKind, Refusal> {
    match x
    case Encrypted(t) =>
      if t == target then Success(AlreadyEncrypted(t))
      else if !t.Euint? || !target.Euint? then Failure(IncompatibleEncrypted)
      else if t.bits < target.bits then Success(WidenEncrypted(t.bits, target.bits))
      else Failure(NarrowingRequired)
    case Plain(NumLit(value)) =>
      if target.Euint? && value.Some? && (target.bits >= 128 || value.value < Pow2(target.bits))
      then Success(LiteralEncrypt(target)) else Failure(LiteralOutOfRange)
    case Plain(p) => if Converts(p, target) then Success(TrivialEncrypt(target)) else Failure(NotConvertible)
    case Unknown => Failure(MeetsUnknown)
  }

  function FheOf(op: BinOp): Option<FheOp> {
    match op
    case Plus => Some(Add)
    case Minus => Some(Sub)
    case Times => Some(Mul)
    case Over => Some(Div)
    case Modulo => Some(Rem)
    case BitAnd => Some(And)
    case AndAnd => Some(And)
    case BitOr => Some(Or)
    case OrOr => Some(Or)
    case BitXor => Some(Xor)
    case ShiftLeft => Some(Shl)
    case ShiftRight => Some(Shr)
    case Equal => Some(Eq)
    case Differ => Some(Ne)
    case Less => Some(Lt)
    case LessEq => Some(Lte)
    case Greater => Some(Gt)
    case GreaterEq => Some(Gte)
    case Power => None
    case Sar => None
  }

  predicate IsShift(op: BinOp) {
    op.ShiftLeft? || op.ShiftRight?
  }

  predicate IsComparison(op: BinOp) {
    op.Equal? || op.Differ? || op.Less? || op.LessEq? || op.Greater? || op.GreaterEq?
  }

  predicate IsLogical(op: BinOp) {
    op.AndAnd? || op.OrOr?
  }

  predicate IsBitwise(op: BinOp) {
    op.BitAnd? || op.BitOr? || op.BitXor? || IsShift(op) || op.Sar?
  }

  predicate OperatorAllowed(op: FheOp, target: EType) {
    match op
    case Eq => true
    case Ne => true
    case And => target.Euint? || target.Ebool?
    case Or => target.Euint? || target.Ebool?
    case Xor => target.Euint? || target.Ebool?
    case _ => target.Euint?
  }

  // ---- the profile's table (crates/fhec-targets/src/cofhe.rs) --------------------------

  predicate Accepts(op: FheOp, t: EType) {
    match op
    case And => t.Euint? || t.Ebool?
    case Or => t.Euint? || t.Ebool?
    case Xor => t.Euint? || t.Ebool?
    case Not => t.Euint? || t.Ebool?
    case Eq => true
    case Ne => true
    case Select => true
    case _ => t.Euint?
  }

  function ResultKind(op: FheOp, t: EType): EType {
    if op.Eq? || op.Ne? || op.Lt? || op.Lte? || op.Gt? || op.Gte? then Ebool else t
  }

  /** The type of a library call, or nothing when no overload takes the operands. */
  function ProfileResult(op: FheOp, ts: seq<EType>): Option<EType> {
    match op
    case Select =>
      if |ts| == 3 && ts[0].Ebool? && ts[1] == ts[2] then Some(ts[1]) else None
    case Not => if |ts| == 1 && Accepts(op, ts[0]) then Some(ResultKind(op, ts[0])) else None
    case _ => if |ts| == 2 && ts[0] == ts[1] && Accepts(op, ts[0]) then Some(ResultKind(op, ts[0])) else None
  }

  /** A cast between encrypted types: never to itself, never to `eaddress`. */
  predicate CanCast(from: EType, to: EType) {
    from != to && !to.Eaddress?
  }

  // ---- typing --------------------------------------------------------------------------

  function Fold(op: BinOp, a: nat, b: nat): Option<nat> {
    match op
    case Plus => Checked(a + b)
    case Minus => if a >= b then Some(a - b) else None
    case Times => Checked(a * b)
    case Over => if b == 0 then None else Some(a / b)
    case Modulo => if b == 0 then None else Some(a % b)
    case Power => Checked(PowOf(a, b))
    case _ => None
  }

  function Checked(n: nat): Option<nat> {
    if n < Pow2(128) then Some(n) else None
  }

  function PowOf(a: nat, n: nat): nat {
    if n == 0 then 1 else a * PowOf(a, n - 1)
  }

  /** Best-effort plaintext typing.  A literal takes the type of the other side. */
  function PlainBinary(x: Ty, op: BinOp, y: Ty): Ty
    requires !x.Encrypted? && !y.Encrypted?
  {
    if x.Unknown? || y.Unknown? then Unknown
    else if IsComparison(op) || IsLogical(op) then Plain(PBool)
    else if IsBitwise(op) then
      if x.p.PUint? then x
      else if x.p.NumLit? && y.p.NumLit? then Plain(NumLit(None))
      else Plain(POpaque)
    else if x.p.NumLit? && x.p.value.Some? && y.p.NumLit? && y.p.value.Some? then
      Plain(NumLit(Fold(op, x.p.value.value, y.p.value.value)))
    else if x.p.NumLit? then y
    else if y.p.NumLit? then x
    else if x.p.PUint? && y.p.PUint? then Plain(PUint(if x.p.bits >= y.p.bits then x.p.bits else y.p.bits))
    else Plain(POpaque)
  }

  /** A rewrite site: the call, how each operand gets there, and the result. */
  datatype Site = Site(op: FheOp, plans: seq<OperandKind>, result: EType)

  function BinarySite(op: BinOp, x: Ty, y: Ty): Result<Site, Refusal>
    requires x.Encrypted? || y.Encrypted?
  {
    if FheOf(op).None? then Failure(UnsupportedOperator)
    else
      var fhe := FheOf(op).value;
      var target :- if IsShift(op) then ShiftTarget(x, y) else CommonTarget(x, y);
      if !OperatorAllowed(fhe, target) then Failure(UnsupportedOperator)
      else
        var px :- PlanOperand(x, target);
        var py :- PlanOperand(y, target);
        match ProfileResult(fhe, [target, target])
        case Some(result) => Success(Site(fhe, [px, py], result))
        case None => Failure(ProfileRefused)
  }

  /** The encrypted analogue of a plaintext arm; literals alone carry no width. */
  function Analogue(p: PlainTy): Option<EType> {
    match p
    case PBool => Some(Ebool)
    case PAddress => Some(Eaddress)
    case PUint(bits) => if bits in {8, 16, 32, 64, 128} then Some(Euint(bits)) else None
    case _ => None
  }

  function ArmsTarget(x: Ty, y: Ty): Result<EType, Refusal> {
    if x.Encrypted? || y.Encrypted? then CommonTarget(x, y)
    else if x.Unknown? || y.Unknown? then Failure(MeetsUnknown)
    else
      var a, b := Analogue(x.p), Analogue(y.p);
      if a.Some? && b.Some? && a == b then Success(a.value)
      else if a.Some? && b.None? && y.p.NumLit? then Success(a.value)
      else if a.None? && b.Some? && x.p.NumLit? then Success(b.value)
      else Failure(NotConvertible)
  }

  function TernarySite(x: Ty, y: Ty): Result<Site, Refusal> {
    var target :- ArmsTarget(x, y);
    var px :- PlanOperand(x, target);
    var py :- PlanOperand(y, target);
    Success(Site(FheOp.Select, [px, py], target))
  }

  datatype Typed = Typed(ty: Ty, site: Option<Site>)

  /** The checker's type and rewrite site for an expression, or its refusal. */
  function TypeOf(e: Source): Result<Typed, Refusal>
    decreases e
  {
    match e
    case Leaf(_, ty) => Success(Typed(ty, None))
    case Node(_, args, ty) =>
      var _ :- TypeAll(args);
      Success(Typed(ty, None))
    case Binary(op, l, r) =>
      var x :- TypeOf(l);
      var y :- TypeOf(r);
      if !x.ty.Encrypted? && !y.ty.Encrypted? then Success(Typed(PlainBinary(x.ty, op, y.ty), None))
      else
        var site :- BinarySite(op, x.ty, y.ty);
        Success(Typed(Encrypted(site.result), Some(site)))
    case LogicalNot(x) =>
      var t :- TypeOf(x);
      if t.ty == Encrypted(Ebool) then Success(Typed(t.ty, Some(Site(Not, [AlreadyEncrypted(Ebool)], Ebool))))
      else if t.ty.Encrypted? then Failure(UnsupportedOperator)
      else Success(Typed(if t.ty.Plain? then Plain(PBool) else Unknown, None))
    case BitwiseNot(x) =>
      var t :- TypeOf(x);
      if t.ty.Encrypted? && t.ty.t.Euint? then Success(Typed(t.ty, Some(Site(Not, [AlreadyEncrypted(t.ty.t)], t.ty.t))))
      else if t.ty.Encrypted? then Failure(UnsupportedOperator)
      else Success(Typed(t.ty, None))
    case Ternary(c, a, b) =>
      var tc :- TypeOf(c);
      var ta :- TypeOf(a);
      var tb :- TypeOf(b);
      if tc.ty == Encrypted(Ebool) then
        var site :- TernarySite(ta.ty, tb.ty);
        Success(Typed(Encrypted(site.result), Some(site)))
      else if tc.ty.Encrypted? then Failure(ConditionNotEbool)
      else Success(Typed(if ta.ty == tb.ty then ta.ty else Unknown, None))
  }

  function TypeAll(es: seq<Source>): Result<seq<Ty>, Refusal>
    decreases es
  {
    if es == [] then Success([])
    else
      var t :- TypeOf(es[0]);
      var rest :- TypeAll(es[1..]);
      Success([t.ty] + rest)
  }

  // ---- rendering -----------------------------------------------------------------------

  datatype Wrapped = Wrapped(ty: EType, text: Text)

  /** An operand's text after its planned conversion. */
  function Wrap(plan: OperandKind, text: Text): Wrapped {
    match plan
    case AlreadyEncrypted(ty) => Wrapped(ty, text)
    case WidenEncrypted(_, to) => Wrapped(Euint(to), As(Euint(to), text))
    case LiteralEncrypt(to) => Wrapped(to, As(to, text))
    case TrivialEncrypt(to) => Wrapped(to, As(to, text))
  }

  function RenderCall(op: FheOp, ts: seq<EType>, args: seq<Text>): Result<Text, Refusal> {
    if ProfileResult(op, ts).Some? then Success(Call(op, args)) else Failure(ProfileRefused)
  }

  function RenderSite(site: Site, x: Text, y: Text): Result<Text, Refusal>
    requires |site.plans| == 2
  {
    var a, b := Wrap(site.plans[0], x), Wrap(site.plans[1], y);
    RenderCall(site.op, [a.ty, b.ty], [a.text, b.text])
  }

  /** The rendered text: sites become calls, everything else keeps its own form. */
  function Render(e: Source): Result<Text, Refusal>
    decreases e
  {
    var t :- TypeOf(e);
    match e
    case Leaf(id, ty) => Success(Text.Var(id, ty))
    case Node(f, args, ty) =>
      var texts :- RenderAll(args);
      Success(Apply(f, texts, ty))
    case Binary(op, l, r) =>
      var x :- Render(l);
      var y :- Render(r);
      if t.site.Some? then (if |t.site.value.plans| == 2 then RenderSite(t.site.value, x, y) else Failure(ProfileRefused))
      else Success(PlainOp(op, TypeOf(l).value.ty, TypeOf(r).value.ty, x, y))
    case LogicalNot(x) =>
      var text :- Render(x);
      if t.site.Some? then RenderCall(Not, [t.site.value.result], [text]) else Success(PlainNot(false, TypeOf(x).value.ty, text))
    case BitwiseNot(x) =>
      var text :- Render(x);
      if t.site.Some? then RenderCall(Not, [t.site.value.result], [text]) else Success(PlainNot(true, TypeOf(x).value.ty, text))
    case Ternary(c, a, b) =>
      var cond :- Render(c);
      var x :- Render(a);
      var y :- Render(b);
      if t.site.None? then Success(PlainTernary(cond, x, y))
      else if |t.site.value.plans| != 2 then Failure(ProfileRefused)
      else
        var p, q := Wrap(t.site.value.plans[0], x), Wrap(t.site.value.plans[1], y);
        RenderCall(FheOp.Select, [Ebool, p.ty, q.ty], [cond, p.text, q.text])
  }

  function RenderAll(es: seq<Source>): Result<seq<Text>, Refusal>
    decreases es
  {
    if es == [] then Success([])
    else
      var t :- Render(es[0]);
      var rest :- RenderAll(es[1..]);
      Success([t] + rest)
  }

  // ---- the renderer as it runs ---------------------------------------------------------

  /** What the rest of the children adds to those already rendered. */
  ghost function Behind(done: seq<Text>, rest: Result<seq<Text>, Refusal>): Result<seq<Text>, Refusal> {
    if rest.Failure? then rest else Success(done + rest.value)
  }

  lemma BehindStep(done: seq<Text>, t: Text, rest: Result<seq<Text>, Refusal>)
    ensures Behind(done, Behind([t], rest)) == Behind(done + [t], rest) && Behind([], rest) == rest
  {
    if rest.Success? { assert done + ([t] + rest.value) == done + [t] + rest.value && [] + rest.value == rest.value; }
  }

  method RenderChildren(es: seq<Source>) returns (r: Result<seq<Text>, Refusal>)
    ensures r == RenderAll(es)
    decreases es, 0
  {
    var texts: seq<Text> := [];
    assert es[0..] == es;
    BehindStep([], Text.Var(0, Unknown), RenderAll(es));
    for i := 0 to |es|
      invariant RenderAll(es) == Behind(texts, RenderAll(es[i..]))
    {
      assert es[i..][0] == es[i] && es[i..][1..] == es[i + 1..];
      var t := RenderText(es[i]);
      if t.Failure? { return Failure(t.error); }
      BehindStep(texts, t.value, RenderAll(es[i + 1..]));
      texts := texts + [t.value];
    }
    assert es[|es|..] == [] && texts + [] == texts;
    r := Success(texts);
  }

  /** Each operand under its plan: the types and texts the call is made with. */
  method WrapOperands(plans: seq<OperandKind>, raws: seq<Text>) returns (types: seq<EType>, texts: seq<Text>)
    requires |plans| == |raws|
    ensures |types| == |texts| == |raws|
    ensures forall k | 0 <= k < |raws| :: types[k] == Wrap(plans[k], raws[k]).ty && texts[k] == Wrap(plans[k], raws[k]).text
  {
    types, texts := [], [];
    for i := 0 to |raws|
      invariant |types| == |texts| == i
      invariant forall k | 0 <= k < i :: types[k] == Wrap(plans[k], raws[k]).ty && texts[k] == Wrap(plans[k], raws[k]).text
    {
      var w := Wrap(plans[i], raws[i]);
      types := types + [w.ty];
      texts := texts + [w.text];
    }
  }

  /** The call of a site over two rendered operands. */
  method RenderOperands(site: Site, x: Text, y: Text) returns (r: Result<Text, Refusal>)
    ensures r == if |site.plans| == 2 then RenderSite(site, x, y) else Failure(ProfileRefused)
  {
    if |site.plans| != 2 { return Failure(ProfileRefused); }
    var types, texts := WrapOperands(site.plans, [x, y]);
    assert types == [types[0], types[1]] && texts == [texts[0], texts[1]];
    r := RenderCall(site.op, types, texts);
  }

  method RenderSelect(site: Site, cond: Text, x: Text, y: Text) returns (r: Result<Text, Refusal>)
    ensures r == if |site.plans| != 2 then Failure(ProfileRefused)
                 else var p, q := Wrap(site.plans[0], x), Wrap(site.plans[1], y);
                      RenderCall(FheOp.Select, [Ebool, p.ty, q.ty], [cond, p.text, q.text])
  {
    if |site.plans| != 2 { return Failure(ProfileRefused); }
    var types, texts := WrapOperands(site.plans, [x, y]);
    assert [Ebool] + types == [Ebool, types[0], types[1]] && [cond] + texts == [cond, texts[0], texts[1]];
    r := RenderCall(FheOp.Select, [Ebool] + types, [cond] + texts);
  }

  method RenderText(e: Source) returns (r: Result<Text, Refusal>)
    ensures r == Render(e)
    decreases e, 1
  {
    var t := TypeOf(e);
    if t.Failure? { return Failure(t.error); }
    match e {
      case Leaf(id, ty) => r := Success(Text.Var(id, ty));
      case Node(f, args, ty) =>
        var texts := RenderChildren(args);
        r := if texts.Failure? then Failure(texts.error) else Success(Apply(f, texts.value, ty));
      case Binary(op, l, m) =>
        var x := RenderText(l);
        if x.Failure? { return x; }
        var y := RenderText(m);
        if y.Failure? { return y; }
        if t.value.site.Some? {
          r := RenderOperands(t.value.site.value, x.value, y.value);
        } else {
          r := Success(PlainOp(op, TypeOf(l).value.ty, TypeOf(m).value.ty, x.value, y.value));
        }
      case LogicalNot(x) =>
        var text := RenderText(x);
        if text.Failure? { return text; }
        r := if t.value.site.Some? then RenderCall(Not, [t.value.site.value.result], [text.value])
             else Success(PlainNot(false, TypeOf(x).value.ty, text.value));
      case BitwiseNot(x) =>
        var text := RenderText(x);
        if text.Failure? { return text; }
        r := if t.value.site.Some? then RenderCall(Not, [t.value.site.value.result], [text.value])
             else Success(PlainNot(true, TypeOf(x).value.ty, text.value));
      case Ternary(c, a, b) =>
        var cond := RenderText(c);
        if cond.Failure? { return cond; }
        var x := RenderText(a);
        if x.Failure? { return x; }
        var y := RenderText(b);
        if y.Failure? { return y; }
        if t.value.site.None? { return Success(PlainTernary(cond.value, x.value, y.value)); }
        r := RenderSelect(t.value.site.value, cond.value, x.value, y.value);
    }
  }
}
