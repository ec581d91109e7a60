/**
 Where rendering changes what an expression means, each with the exact condition:
 two cases the plaintext typing misjudges, and `&&` over encrypted integers.
 */
module RenderingGaps {
  import opened Wrappers
  import opened BranchAst
  import opened Rendering
  import opened RenderingSound

  /** `x == (big + v)` with `x: euintN`, a literal that has no recorded value, and one that has. */
  function AgainstLiterals(bits: nat, v: nat): Source {
    Binary(Equal, Leaf(0, Encrypted(Euint(bits))), LiteralSum(v))
  }

  function LiteralSum(v: nat): Source {
    Binary(Plus, Leaf(1, Plain(NumLit(None))), Leaf(2, Plain(NumLit(Some(v)))))
  }

  function Literals(w: World, x: int, big: int, v: nat): World {
    w.(leaf := id => if id == 0 then x else if id == 1 then big else v)
  }

  /** The sum of the two takes the second literal's type, value and all. */
  lemma LiteralSumType(bits: nat, v: nat)
    requires v < Pow2(bits)
    ensures TypeOf(LiteralSum(v)) == Success(Typed(Plain(NumLit(Some(v))), None))
    ensures BinarySite(Equal, Encrypted(Euint(bits)), Plain(NumLit(Some(v))))
            == Success(Site(Eq, [AlreadyEncrypted(Euint(bits)), LiteralEncrypt(Euint(bits))], Ebool))
  {
  }

  lemma AgainstLiteralsType(bits: nat, v: nat)
    requires v < Pow2(bits)
    ensures TypeOf(AgainstLiterals(bits, v))
            == Success(Typed(Encrypted(Ebool), Some(Site(Eq, [AlreadyEncrypted(Euint(bits)), LiteralEncrypt(Euint(bits))], Ebool))))
  {
    LiteralSumType(bits, v);
  }

  function LiteralText(v: nat): Text {
    PlainOp(Plus, Plain(NumLit(None)), Plain(NumLit(Some(v))), Text.Var(1, Plain(NumLit(None))), Text.Var(2, Plain(NumLit(Some(v)))))
  }

  lemma LeafText(id: nat, ty: Ty)
    ensures Render(Leaf(id, ty)) == Success(Text.Var(id, ty)) && TypeOf(Leaf(id, ty)) == Success(Typed(ty, None))
  {
  }

  lemma LiteralSumText(v: nat)
    ensures Render(LiteralSum(v)) == Success(LiteralText(v))
  {
    LeafText(1, Plain(NumLit(None)));
    LeafText(2, Plain(NumLit(Some(v))));
  }

  /** An operator with a site renders to the site's call over its operands' texts. */
  lemma BinaryText(op: BinOp, l: Source, r: Source, ty: Ty, site: Site, x: Text, y: Text)
    requires TypeOf(Binary(op, l, r)) == Success(Typed(ty, Some(site))) && |site.plans| == 2
    requires Render(l) == Success(x) && Render(r) == Success(y)
    ensures Render(Binary(op, l, r)) == RenderSite(site, x, y)
  {
  }

  lemma AgainstLiteralsText(bits: nat, v: nat)
    requires v < Pow2(bits)
    ensures Render(AgainstLiterals(bits, v))
            == Success(Call(Eq, [Text.Var(0, Encrypted(Euint(bits))), As(Euint(bits), LiteralText(v))]))
  {
    var site := Site(Eq, [AlreadyEncrypted(Euint(bits)), LiteralEncrypt(Euint(bits))], Ebool);
    AgainstLiteralsType(bits, v);
    LeafText(0, Encrypted(Euint(bits)));
    LiteralSumText(v);
    BinaryText(Equal, Leaf(0, Encrypted(Euint(bits))), LiteralSum(v), Encrypted(Ebool), site,
               Text.Var(0, Encrypted(Euint(bits))), LiteralText(v));
  }

  lemma LiteralSumMeans(u: World, v: nat)
    requires TypeOf(LiteralSum(v)).Success?
    ensures Means(u, LiteralSum(v)) == u.leaf(1) + u.leaf(2)
  {
    LeafText(1, Plain(NumLit(None)));
    LeafText(2, Plain(NumLit(Some(v))));
  }

  lemma AgainstLiteralsMeans(w: World, bits: nat, v: nat, x: int, big: int)
    requires v < Pow2(bits)
    ensures TypeOf(AgainstLiterals(bits, v)).Success?
    ensures Means(Literals(w, x, big, v), AgainstLiterals(bits, v)) == AsBit(x == big + v)
  {
    LiteralSumType(bits, v);
    AgainstLiteralsType(bits, v);
    LiteralSumMeans(Literals(w, x, big, v), v);
    LeafText(0, Encrypted(Euint(bits)));
    assert Means(Literals(w, x, big, v), Leaf(0, Encrypted(Euint(bits)))) == x;
  }

  lemma AgainstLiteralsValue(w: World, bits: nat, v: nat, x: int, big: int)
    requires v < Pow2(bits)
    ensures Evaluate(Literals(w, x, big, v), Call(Eq, [Text.Var(0, Encrypted(Euint(bits))), As(Euint(bits), LiteralText(v))]))
            == Some(Val(Some(Ebool), AsBit(x == (big + v) % Pow2(bits))))
  {
    var u := Literals(w, x, big, v);
    assert Evaluate(u, Text.Var(1, Plain(NumLit(None)))) == Some(Val(None, big));
    assert Evaluate(u, Text.Var(2, Plain(NumLit(Some(v))))) == Some(Val(None, v));
    assert Evaluate(u, LiteralText(v)) == Some(Val(None, big + v));
    CallTwo(u, Eq, Text.Var(0, Encrypted(Euint(bits))), As(Euint(bits), LiteralText(v)), Euint(bits), x, (big + v) % Pow2(bits));
  }

  lemma AgainstLiteralsAgreed(w: World, bits: nat, v: nat, x: int, big: int)
    requires v < Pow2(bits)
    ensures Agreed(Literals(w, x, big, v), AgainstLiterals(bits, v)) <==> (x == big + v <==> x == (big + v) % Pow2(bits))
  {
    AgainstLiteralsMeans(w, bits, v, x, big);
    AgainstLiteralsText(bits, v);
    AgainstLiteralsValue(w, bits, v, x, big);
  }

  /** A number that fits keeps its value in the conversion. */
  lemma FittingNumber(bits: nat, n: int)
    requires InRange(Euint(bits), n)
    ensures n % Pow2(bits) == n
  {
    Small(n, Pow2(bits));
  }

  lemma EscapedSumDiffers(w: World, bits: nat, v: nat, big: int) returns (x: int)
    requires v < Pow2(bits) && !InRange(Euint(bits), big + v)
    ensures InRange(Euint(bits), x) && !Agreed(Literals(w, x, big, v), AgainstLiterals(bits, v))
  {
    x := (big + v) % Pow2(bits);
    AgainstLiteralsAgreed(w, bits, v, x, big);
  }

  /**
   The range check of a literal looks at the second addend alone, so a sum that does
   not fit the width is accepted and truncated.  The comparison means what the source
   says for every `x` exactly when the sum fits.
   */
  lemma LiteralSumEscapes(w: World, bits: nat, v: nat, big: int)
    requires v < Pow2(bits)
    ensures (forall x: int :: InRange(Euint(bits), x) ==> Agreed(Literals(w, x, big, v), AgainstLiterals(bits, v)))
            <==> InRange(Euint(bits), big + v)
  {
    if InRange(Euint(bits), big + v) {
      FittingNumber(bits, big + v);
      forall x: int
        ensures Agreed(Literals(w, x, big, v), AgainstLiterals(bits, v))
      {
        AgainstLiteralsAgreed(w, bits, v, x, big);
      }
    } else {
      var x := EscapedSumDiffers(w, bits, v, big);
    }
  }

  /** An accepted expression whose rendered text has the value the source means. */
  ghost predicate Agreed(w: World, e: Source) {
    && TypeOf(e).Success? && Render(e).Success?
    && var r := Evaluate(w, Render(e).value); r.Some? && r.value.n == Means(w, e)
  }

  /**
   A plaintext sum with a literal keeps the other side's width.  Solidity computes it
   at a width both fit, so the type is right for every value exactly when the literal
   fits the other side's.
   */
  lemma LiteralWidthIgnored(bits: nat, v: nat, common: nat)
    requires common >= bits && v < Pow2(common)
    ensures PlainBinary(Plain(PUint(bits)), Plus, Plain(NumLit(Some(v)))) == Plain(PUint(bits))
    ensures (forall n: int :: Fits(Plain(PUint(bits)), n) && Fits(Plain(PUint(if v < Pow2(bits) then bits else common)), n + v) ==>
               Fits(Plain(PUint(bits)), n + v))
            <==> v < Pow2(bits)
  {
    if v >= Pow2(bits) {
      assert Fits(Plain(PUint(bits)), 0) && Fits(Plain(PUint(common)), 0 + v);
      assert !Fits(Plain(PUint(bits)), 0 + v);
    }
  }

  /**
   `a && b` on encrypted integers is accepted although the language defines it for
   booleans only, and becomes the bitwise `and`.  The two agree for all values
   exactly at widths up to one.
   */
  lemma LogicalOnIntegers(w: World, bits: nat)
    ensures var t := Encrypted(Euint(bits));
            && BinarySite(AndAnd, t, t).Success? && BinarySite(AndAnd, t, t).value.op == And
            && ((forall a: int, b: int :: InRange(Euint(bits), a) && InRange(Euint(bits), b) ==>
                   Compute(w, And, bits, a, b) == OperatorMeans(w, AndAnd, t, t, a, b)) <==> bits <= 1)
  {
    var t := Encrypted(Euint(bits));
    assert Pow2(1) == 2 * Pow2(0) == 2;
    if bits <= 1 {
      forall a: int, b: int | InRange(Euint(bits), a) && InRange(Euint(bits), b)
        ensures Compute(w, And, bits, a, b) == OperatorMeans(w, AndAnd, t, t, a, b)
      {
        if bits == 1 { LogicalBits(a, b); }
      }
    } else {
      Pow2Strict(1, bits);
      OneAndTwo(bits);
      assert InRange(Euint(bits), 1) && InRange(Euint(bits), 2);
      assert Compute(w, And, bits, 1, 2) != OperatorMeans(w, AndAnd, t, t, 1, 2);
    }
  }

  lemma {:induction false} OneAndTwo(bits: nat)
    requires bits >= 2
    ensures Bitwise(BothBits, bits, 1, 2) == 0
  {
    assert Bitwise(BothBits, bits - 1, 0, 1) == 2 * Bitwise(BothBits, bits - 2, 0, 0);
    NoBits(bits - 2);
  }

  lemma {:induction false} NoBits(bits: nat)
    ensures Bitwise(BothBits, bits, 0, 0) == 0
    decreases bits
  {
    if bits > 0 { NoBits(bits - 1); }
  }
}
