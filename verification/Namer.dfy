/** Names for generated temporaries: crates/fhec-emit/src/namer.rs. */
module Namer {
  datatype Hint = Cond | Pre | Then | Else | Key | Val | Ret | Callee | Inputs | Hashes

  function Spelling(h: Hint): string {
    match h
    case Cond => "cond"
    case Pre => "pre"
    case Then => "then"
    case Else => "else"
    case Key => "key"
    case Val => "val"
    case Ret => "ret"
    case Callee => "callee"
    case Inputs => "inputs"
    case Hashes => "hashes"
  }

  const DIGITS := "0123456789"

  function Decimal(n: nat): string {
    (if n < 10 then "" else Decimal(n / 10)) + [DIGITS[n % 10]]
  }

  function Candidate(h: Hint, n: nat): string {
    "__fhe_" + Spelling(h) + "_" + Decimal(n)
  }

  lemma {:induction false} DecimalInjective(a: nat, b: nat)
    requires Decimal(a) == Decimal(b)
    ensures a == b
    decreases a
  {
    var x, y := if a < 10 then "" else Decimal(a / 10), if b < 10 then "" else Decimal(b / 10);
    assert Decimal(a) == x + [DIGITS[a % 10]] && Decimal(b) == y + [DIGITS[b % 10]];
    LastAndFront(x, DIGITS[a % 10], y, DIGITS[b % 10]);
    DigitsDistinct(a % 10, b % 10);
    if a >= 10 && b >= 10 { DecimalInjective(a / 10, b / 10); }
  }

  lemma LastAndFront(x: string, c: char, y: string, d: char)
    requires x + [c] == y + [d]
    ensures x == y && c == d
  {
    assert (x + [c])[..|x|] == x && (y + [d])[..|y|] == y;
    assert (x + [c])[|x|] == c && (y + [d])[|y|] == d;
  }

  lemma DigitsDistinct(i: nat, j: nat)
    requires i < 10 && j < 10 && DIGITS[i] == DIGITS[j]
    ensures i == j
  {
  }

  lemma CandidateInjective(h: Hint, a: nat, b: nat)
    requires Candidate(h, a) == Candidate(h, b)
    ensures a == b
  {
    var prefix := "__fhe_" + Spelling(h) + "_";
    assert Candidate(h, a)[|prefix|..] == Decimal(a) && Candidate(h, b)[|prefix|..] == Decimal(b);
    DecimalInjective(a, b);
  }

  /** No two hints share a name, whatever their counters. */
  lemma CandidatesApart(g: Hint, h: Hint, a: nat, b: nat)
    requires Candidate(g, a) == Candidate(h, b)
    ensures g == h && a == b
  {
    var x, y := Candidate(g, a), Candidate(h, b);
    assert x[6] == Spelling(g)[0] && x[7] == Spelling(g)[1] && y[6] == Spelling(h)[0] && y[7] == Spelling(h)[1];
    assert x[8] == (Spelling(g) + "_")[2] && y[8] == (Spelling(h) + "_")[2];
    CandidateInjective(h, a, b);
  }

  /** The taken names the counter can still run into. */
  ghost function Ahead(taken: set<string>, h: Hint, next: nat): set<string> {
    set x | x in taken && exists n: nat :: n >= next && x == Candidate(h, n)
  }

  lemma OneFewer(taken: set<string>, h: Hint, next: nat)
    requires Candidate(h, next) in taken
    ensures Ahead(taken, h, next + 1) < Ahead(taken, h, next)
  {
    assert Candidate(h, next) in Ahead(taken, h, next);
    if Candidate(h, next) in Ahead(taken, h, next + 1) {
      var n: nat :| n >= next + 1 && Candidate(h, next) == Candidate(h, n);
      CandidateInjective(h, next, n);
    }
  }

  class TempNamer {
    var taken: set<string>
    var next: nat

    constructor (identifiers: set<string>)
      ensures taken == identifiers && next == 0
    {
      taken, next := identifiers, 0;
    }

    /**
     The first free name for the hint from the counter on.  The search ends because
     finitely many names are taken and no two counter values give the same one.
     */
    method Fresh(h: Hint) returns (name: string)
      modifies this
      ensures name !in old(taken) && taken == old(taken) + {name}
      ensures next > old(next) && name == Candidate(h, next - 1) && "__fhe_" <= name
      ensures forall n | old(next) <= n < next - 1 :: Candidate(h, n) in old(taken)
    {
      while true
        invariant taken == old(taken) && next >= old(next)
        invariant forall n | old(next) <= n < next :: Candidate(h, n) in old(taken)
        decreases Ahead(taken, h, next)
      {
        var candidate := Candidate(h, next);
        next := next + 1;
        if candidate !in taken {
          taken := taken + {candidate};
          return candidate;
        }
        OneFewer(taken, h, next - 1);
      }
    }

    /** A function's names are new and differ from each other, whatever their hints. */
    method FreshNames(hints: seq<Hint>) returns (names: seq<string>)
      modifies this
      ensures |names| == |hints| && next >= old(next) + |hints|
      ensures forall i | 0 <= i < |names| :: names[i] !in old(taken)
      ensures forall i, j | 0 <= i < j < |names| :: names[i] != names[j]
      ensures taken == old(taken) + set x | x in names
    {
      names := [];
      for i := 0 to |hints|
        invariant |names| == i && next >= old(next) + i
        invariant forall k | 0 <= k < |names| :: names[k] !in old(taken)
        invariant forall k, j | 0 <= k < j < |names| :: names[k] != names[j]
        invariant taken == old(taken) + set x | x in names
      {
        var name := Fresh(hints[i]);
        names := names + [name];
      }
    }
  }
}
