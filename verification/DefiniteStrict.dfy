/**
 Copies inside encrypted branches.  The walk reports more than wrong runs there: a
 branch that copies a default handle may be reported although the copy is never used.
 Counting such a copy as wrong, every report again has a wrong run.
 */
module DefiniteStrict {
  import opened Wrappers
  import opened DefiniteAssignment
  import opened DefiniteFrames
  import opened DefiniteRuns
  import opened DefiniteExact
  import opened DefiniteArms
  import opened DefiniteComplete

  /** An expression whose copies are checked on the spot. */
  function CheckedExpr(e: Expr): Expr {
    Expr({}, e.uses + e.flows)
  }

  function CheckedParts(es: seq<Expr>): (r: seq<Expr>)
    ensures |r| == |es| && forall n | 0 <= n < |es| :: r[n] == CheckedExpr(es[n])
  {
    if es == [] then [] else [CheckedExpr(es[0])] + CheckedParts(es[1..])
  }

  /** An arm of an encrypted `if` in which every copy is checked. */
  function StrictArm(s: Stmt): Stmt
    decreases s
  {
    match s
    case Decl(x, init) => if init.Some? then Decl(x, Some(CheckedExpr(init.value))) else s
    case DeclTuple(xs, parts) => DeclTuple(xs, CheckedParts(parts))
    case Assign(x, e) => Assign(x, CheckedExpr(e))
    case TupleAssign(targets, parts) => TupleAssign(targets, CheckedParts(parts))
    case ExprStmt(e) => ExprStmt(CheckedExpr(e))
    case Block(b) => Block(StrictArms(b))
    case EncryptedIf(c, t, e) => EncryptedIf(c, StrictArm(t), if e.Some? then Some(StrictArm(e.value)) else None)
    case _ => s
  }

  function StrictArms(ss: seq<Stmt>): seq<Stmt>
    decreases ss
  {
    if ss == [] then [] else [StrictArm(ss[0])] + StrictArms(ss[1..])
  }

  /** The same text with the copies in encrypted branches checked. */
  function Strict(s: Stmt): Stmt
    decreases s
  {
    match s
    case Block(b) => Block(StrictAll(b))
    case If(c, t, e) => If(c, Strict(t), if e.Some? then Some(Strict(e.value)) else None)
    case EncryptedIf(_, _, _) => StrictArm(s)
    case While(c, b) => While(c, Strict(b))
    case DoWhile(b, c) => DoWhile(Strict(b), c)
    case For(i, c, n, b) => For(if i.Some? then Some(Strict(i.value)) else None, c, n, Strict(b))
    case Try(e, cs) => Try(e, StrictClauses(cs))
    case _ => s
  }

  function StrictAll(ss: seq<Stmt>): seq<Stmt>
    decreases ss
  {
    if ss == [] then [] else [Strict(ss[0])] + StrictAll(ss[1..])
  }

  function StrictClauses(cs: seq<Clause>): seq<Clause>
    decreases cs
  {
    if cs == [] then [] else [Clause(cs[0].params, StrictAll(cs[0].body))] + StrictClauses(cs[1..])
  }

  // ---- expressions ---------------------------------------------------------------------

  /** Where the checked form passes, both leave the state as it was but for the reads. */
  lemma SameExpr(f: Fn, e: Expr, ck: Ck)
    requires TypeExpr(f, CheckedExpr(e), ck).diags == {}
    ensures TypeExpr(f, e, ck) == TypeExpr(f, CheckedExpr(e), ck) && e.flows <= ck.sure
  {
    TypeFrame(f, CheckedExpr(e), ck);
    TypeFrame(f, e, ck);
    assert {} + (e.uses + e.flows) == e.flows + e.uses;
    var c := NoteReads(f, e.flows + e.uses, ck);
    FlagKeeps(e.uses + e.flows, c);
    FlagKeeps(e.uses, c);
  }

  lemma {:induction false} SameParts(f: Fn, es: seq<Expr>, ck: Ck)
    requires TypeAll(f, CheckedParts(es), ck).diags == {}
    ensures TypeAll(f, es, ck) == TypeAll(f, CheckedParts(es), ck) && UnionFlows(es) <= ck.sure
    decreases es
  {
    if es != [] {
      var cs := CheckedParts(es);
      assert cs[1..] == CheckedParts(es[1..]);
      var c := TypeExpr(f, cs[0], ck);
      TypeFrame(f, cs[0], ck);
      TypeAllFrame(f, cs[1..], c);
      SameExpr(f, es[0], ck);
      SameParts(f, es[1..], c);
    }
  }

  lemma {:induction false} UnionHas(es: seq<Expr>, n: nat)
    requires n < |es|
    ensures es[n].flows <= UnionFlows(es)
    decreases es
  {
    if n > 0 { UnionHas(es[1..], n - 1); }
  }

  lemma {:induction false} CheckedUnion(es: seq<Expr>)
    ensures UnionFlows(CheckedParts(es)) == {}
    decreases es
  {
    if es != [] {
      assert CheckedParts(es)[1..] == CheckedParts(es[1..]);
      CheckedUnion(es[1..]);
    }
  }

  /** No component reads a slot that is not assigned, checked or not. */
  lemma SameFlows(parts: seq<Expr>, before: Slots, n: nat, k: nat)
    requires k < n && UnionFlows(parts) <= before
    ensures PartFlows(parts, n, k) <= before && PartFlows(CheckedParts(parts), n, k) == {}
  {
    CheckedUnion(parts);
    if |parts| == n { UnionHas(parts, k); }
  }

  lemma {:induction false} SamePuts(f: Fn, targets: seq<Target>, parts: seq<Expr>, before: Slots, k: nat, ck: Ck)
    requires k <= |targets| && UnionFlows(parts) <= before
    ensures PutAll(f, targets, parts, before, k, ck) == PutAll(f, targets, CheckedParts(parts), before, k, ck)
    decreases |targets| - k
  {
    if k < |targets| {
      var rs := PartFlows(parts, |targets|, k);
      SameFlows(parts, before, |targets|, k);
      assert rs - before == {} - before;
      match targets[k]
      case Local(x) => SamePuts(f, targets, parts, before, k + 1, Put(f, x, false, ck));
      case Elsewhere => SamePuts(f, targets, parts, before, k + 1, ck.(diags := ck.diags + set x | x in rs - before :: Uninit(x)));
      case Hole => SamePuts(f, targets, parts, before, k + 1, ck);
    }
  }

  lemma {:induction false} SameDeclares(xs: seq<Option<Slot>>, parts: seq<Expr>, before: Slots, k: nat, ck: Ck)
    requires k <= |xs| && UnionFlows(parts) <= before
    ensures DeclareAll(xs, parts, before, k, ck) == DeclareAll(xs, CheckedParts(parts), before, k, ck)
    decreases |xs| - k
  {
    if k < |xs| {
      if |parts| == |xs| { UnionHas(parts, k); }
      SameDeclares(xs, parts, before, k + 1, if xs[k].Some? then Declare(xs[k].value, true, ck) else ck);
    }
  }

  // ---- arms ----------------------------------------------------------------------------

  lemma SameTuple(f: Fn, s: Stmt, ck: Ck)
    requires s.DeclTuple? || s.TupleAssign?
    requires Walk(f, StrictArm(s), ck).diags == {}
    ensures Walk(f, s, ck) == Walk(f, StrictArm(s), ck)
  {
    var cs := CheckedParts(s.parts);
    var c := TypeAll(f, cs, ck);
    if s.DeclTuple? {
      DeclareAllFrame(s.xs, cs, ck.sure, 0, c);
    } else {
      PutAllFrame(f, s.targets, cs, ck.sure, 0, c);
    }
    SameParts(f, s.parts, ck);
    if s.DeclTuple? {
      SameDeclares(s.xs, s.parts, ck.sure, 0, c);
    } else {
      SamePuts(f, s.targets, s.parts, ck.sure, 0, c);
    }
  }

  lemma SameWrite(f: Fn, s: Stmt, ck: Ck)
    requires s.Decl? || s.Assign? || s.ExprStmt?
    requires Walk(f, StrictArm(s), ck).diags == {}
    ensures Walk(f, s, ck) == Walk(f, StrictArm(s), ck)
  {
    match s
    case Decl(x, init) => if init.Some? { SameExpr(f, init.value, ck); }
    case Assign(x, e) => SameExpr(f, e, ck);
    case ExprStmt(e) => SameExpr(f, e, ck);
  }

  lemma {:induction false} SameArm(f: Fn, s: Stmt, ck: Ck)
    requires Walk(f, StrictArm(s), ck).diags == {}
    ensures Walk(f, s, ck) == Walk(f, StrictArm(s), ck)
    decreases s, 2
  {
    if s.Decl? || s.Assign? || s.ExprStmt? {
      SameWrite(f, s, ck);
    } else if s.DeclTuple? || s.TupleAssign? {
      SameTuple(f, s, ck);
    } else if s.Block? {
      SameArms(f, s.body, ck);
    } else if s.EncryptedIf? {
      SameEncrypted(f, s, TypeChecked(f, s.c, ck));
    }
  }

  lemma {:induction false} SameArms(f: Fn, ss: seq<Stmt>, ck: Ck)
    requires WalkBlock(f, StrictArms(ss), ck).diags == {}
    ensures WalkBlock(f, ss, ck) == WalkBlock(f, StrictArms(ss), ck)
    decreases ss, 0
  {
    if ss != [] && !ck.terminated {
      var ts := StrictArms(ss);
      assert ts[0] == StrictArm(ss[0]) && ts[1..] == StrictArms(ss[1..]);
      var w := Walk(f, ts[0], ck);
      BlockFrame(f, ts[1..], w);
      SameArm(f, ss[0], ck);
      SameArms(f, ss[1..], w);
    }
  }

  lemma CloseKeeps(f: Fn, s: Stmt, ck: Ck)
    requires s.EncryptedIf?
    ensures WalkEncryptedIf(f, s, ck) == CloseBranch(f, ck.sure, ck.terminated, s.els.None?, ThenArm(f, s, ck), ElseArm(f, s, ck))
    ensures ElseArm(f, s, ck).diags <= WalkEncryptedIf(f, s, ck).diags
  {
  }

  lemma {:induction false} SameEncrypted(f: Fn, s: Stmt, ck: Ck)
    requires s.EncryptedIf? && WalkEncryptedIf(f, StrictArm(s), ck).diags == {}
    ensures WalkEncryptedIf(f, s, ck) == WalkEncryptedIf(f, StrictArm(s), ck)
    decreases s, 1
  {
    CloseKeeps(f, StrictArm(s), ck);
    CloseKeeps(f, s, ck);
    SameBoth(f, s, ck);
  }

  lemma ElseMore(f: Fn, s: Stmt, ck: Ck)
    requires s.EncryptedIf?
    ensures ThenArm(f, s, ck).diags <= ElseArm(f, s, ck).diags
  {
    if s.els.Some? { WalkFrame(f, s.els.value, NextArm(ck.sure, ThenArm(f, s, ck))); }
  }

  lemma {:induction false} SameBoth(f: Fn, s: Stmt, ck: Ck)
    requires s.EncryptedIf? && ElseArm(f, StrictArm(s), ck).diags == {}
    ensures ThenArm(f, s, ck) == ThenArm(f, StrictArm(s), ck) && ElseArm(f, s, ck) == ElseArm(f, StrictArm(s), ck)
    decreases s, 0
  {
    ElseMore(f, StrictArm(s), ck);
    SameArm(f, s.thn, OpenBranch(ck));
    if s.els.Some? { SameElse(f, s, ck); }
  }

  lemma {:induction false} SameElse(f: Fn, s: Stmt, ck: Ck)
    requires s.EncryptedIf? && s.els.Some? && ElseArm(f, StrictArm(s), ck).diags == {}
    requires ThenArm(f, s, ck) == ThenArm(f, StrictArm(s), ck)
    ensures ElseArm(f, s, ck) == ElseArm(f, StrictArm(s), ck)
    decreases s, 0, 0
  {
    SameArm(f, s.els.value, NextArm(ck.sure, ThenArm(f, s, ck)));
  }

  // ---- everything else -----------------------------------------------------------------

  lemma {:induction false} SameWalk(f: Fn, s: Stmt, ck: Ck)
    requires Walk(f, Strict(s), ck).diags == {}
    ensures Walk(f, s, ck) == Walk(f, Strict(s), ck)
    decreases s, 2
  {
    match s
    case Block(b) => SameBlock(f, b, ck);
    case If(c, _, _) => SameIf(f, s, TypeExpr(f, c, ck));
    case EncryptedIf(_, _, _) => SameArm(f, s, ck);
    case While(c, _) => SameWhile(f, s, TypeExpr(f, c, Reject(ck)));
    case DoWhile(_, _) => SameDo(f, s, Reject(ck));
    case For(_, _, _, _) => SameFor(f, s, ck);
    case Try(e, cs) =>
      var c := TypeExpr(f, e, Reject(ck));
      SameClauses(f, cs, c.sure, c.terminated, c);
    case _ =>
  }

  lemma {:induction false} SameBlock(f: Fn, ss: seq<Stmt>, ck: Ck)
    requires WalkBlock(f, StrictAll(ss), ck).diags == {}
    ensures WalkBlock(f, ss, ck) == WalkBlock(f, StrictAll(ss), ck)
    decreases ss, 0
  {
    if ss != [] && !ck.terminated {
      var ts := StrictAll(ss);
      assert ts[0] == Strict(ss[0]) && ts[1..] == StrictAll(ss[1..]);
      var w := Walk(f, ts[0], ck);
      BlockFrame(f, ts[1..], w);
      SameWalk(f, ss[0], ck);
      SameBlock(f, ss[1..], w);
    }
  }

  lemma {:induction false} SameIf(f: Fn, s: Stmt, c: Ck)
    requires s.If? && WalkIf(f, Strict(s), c).diags == {}
    ensures WalkIf(f, s, c) == WalkIf(f, Strict(s), c)
    decreases s, 0
  {
    var z, ck := Strict(s), Reject(c);
    var t := Walk(f, z.thn, ck);
    var c2 := t.(sure := ck.sure, terminated := ck.terminated);
    var e := if z.els.Some? then Walk(f, z.els.value, c2) else c2;
    assert e.diags == WalkIf(f, z, c).diags;
    if s.els.Some? { WalkFrame(f, z.els.value, c2); }
    SameWalk(f, s.thn, ck);
    if s.els.Some? { SameWalk(f, s.els.value, c2); }
  }

  lemma {:induction false} SameWhile(f: Fn, s: Stmt, ck: Ck)
    requires s.While? && WalkWhile(f, Strict(s), ck).diags == {}
    ensures WalkWhile(f, s, ck) == WalkWhile(f, Strict(s), ck)
    decreases s, 0
  {
    assert WalkWhile(f, Strict(s), ck).diags == Walk(f, Strict(s.loop), OpenLoop(ck)).diags;
    SameWalk(f, s.loop, OpenLoop(ck));
  }

  lemma {:induction false} SameDo(f: Fn, s: Stmt, ck: Ck)
    requires s.DoWhile? && WalkDo(f, Strict(s), ck).diags == {}
    ensures WalkDo(f, s, ck) == WalkDo(f, Strict(s), ck)
    decreases s, 0
  {
    var b := Walk(f, Strict(s.loop), OpenLoop(ck));
    TypeFrame(f, s.c, CloseLoop(b));
    assert b.diags <= WalkDo(f, Strict(s), ck).diags;
    SameWalk(f, s.loop, OpenLoop(ck));
  }

  lemma {:induction false} SameFor(f: Fn, s: Stmt, ck: Ck)
    requires s.For? && Walk(f, Strict(s), ck).diags == {}
    ensures Walk(f, s, ck) == Walk(f, Strict(s), ck)
    decreases s, 1
  {
    var z, c0 := Strict(s), Reject(ck);
    var c := ForEntry(f, z, ck);
    assert Walk(f, z, ck) == WalkFor(f, z, c);
    var b := Walk(f, z.loop, OpenLoop(c));
    NextFrame(f, z.next, b);
    assert b.diags <= WalkFor(f, z, c).diags;
    WalkFrame(f, z.loop, OpenLoop(c));
    if s.first.Some? {
      var c1 := Walk(f, z.first.value, c0);
      if s.cond.Some? { TypeFrame(f, s.cond.value, c1); }
      SameWalk(f, s.first.value, c0);
    }
    SameWalk(f, s.loop, OpenLoop(c));
  }

  lemma {:induction false} SameClauses(f: Fn, cs: seq<Clause>, snap: Slots, terminated: bool, ck: Ck)
    requires WalkClauses(f, StrictClauses(cs), snap, terminated, ck).ck.diags == {}
    ensures WalkClauses(f, cs, snap, terminated, ck) == WalkClauses(f, StrictClauses(cs), snap, terminated, ck)
    decreases cs, 0
  {
    if cs != [] {
      var zs := StrictClauses(cs);
      assert zs[0] == Clause(cs[0].params, StrictAll(cs[0].body)) && zs[1..] == StrictClauses(cs[1..]);
      var st := ck.(sure := snap + cs[0].params, terminated := terminated);
      var w := WalkBlock(f, zs[0].body, st);
      ClausesFrame(f, zs[1..], snap, terminated, w);
      SameBlock(f, cs[0].body, st);
      SameClauses(f, cs[1..], snap, terminated, w);
    }
  }

  // ---- the check -----------------------------------------------------------------------

  lemma {:induction false} ArmAssembly(s: Stmt)
    ensures HasAssembly(StrictArm(s)) <==> HasAssembly(s)
    decreases s
  {
    match s
    case Block(b) => ArmsAssembly(b);
    case EncryptedIf(_, t, e) =>
      ArmAssembly(t);
      if e.Some? { ArmAssembly(e.value); }
    case _ =>
  }

  lemma {:induction false} ArmsAssembly(ss: seq<Stmt>)
    ensures HasAssemblyIn(StrictArms(ss)) <==> HasAssemblyIn(ss)
    decreases ss
  {
    if ss != [] {
      assert StrictArms(ss)[1..] == StrictArms(ss[1..]);
      ArmAssembly(ss[0]);
      ArmsAssembly(ss[1..]);
    }
  }

  lemma {:induction false} StrictAssembly(s: Stmt)
    ensures HasAssembly(Strict(s)) <==> HasAssembly(s)
    decreases s
  {
    match s
    case Block(b) => StrictAssemblyIn(b);
    case If(_, t, e) =>
      StrictAssembly(t);
      if e.Some? { StrictAssembly(e.value); }
    case EncryptedIf(_, _, _) => ArmAssembly(s);
    case While(_, b) => StrictAssembly(b);
    case DoWhile(b, _) => StrictAssembly(b);
    case For(i, _, _, b) =>
      if i.Some? { StrictAssembly(i.value); }
      StrictAssembly(b);
    case Try(_, cs) => StrictAssemblyClauses(cs);
    case _ =>
  }

  lemma {:induction false} StrictAssemblyIn(ss: seq<Stmt>)
    ensures HasAssemblyIn(StrictAll(ss)) <==> HasAssemblyIn(ss)
    decreases ss
  {
    if ss != [] {
      assert StrictAll(ss)[1..] == StrictAll(ss[1..]);
      StrictAssembly(ss[0]);
      StrictAssemblyIn(ss[1..]);
    }
  }

  lemma {:induction false} StrictAssemblyClauses(cs: seq<Clause>)
    ensures HasAssemblyClauses(StrictClauses(cs)) <==> HasAssemblyClauses(cs)
    decreases cs
  {
    if cs != [] {
      assert StrictClauses(cs)[1..] == StrictClauses(cs[1..]);
      StrictAssemblyIn(cs[0].body);
      StrictAssemblyClauses(cs[1..]);
    }
  }

  /** Where the strict text passes the check, so does the text. */
  lemma StrictPasses(f: Fn, params: Slots, body: seq<Stmt>, riskyModifier: bool)
    requires Unflagged(f, body, riskyModifier) && CheckFunction(f, params, StrictAll(body), riskyModifier) == {}
    ensures CheckFunction(f, params, body, riskyModifier) == {}
  {
    var ck := Start(params - f.named);
    var w := WalkBlock(f, StrictAll(body), ck);
    StrictAssemblyIn(body);
    FlagFrame(f.named, w);
    SameBlock(f, body, ck);
  }

  /** Whatever the check reports, some run lets a default handle out or copies one inside
      an encrypted branch. */
  lemma ReportedInStrict(f: Fn, params: Slots, body: seq<Stmt>, riskyModifier: bool) returns (o: Outcome)
    requires Unflagged(f, body, riskyModifier) && Traceable(Block(StrictAll(body))) && PlacedAll(StrictAll(body), params)
    requires CheckFunction(f, params, body, riskyModifier) != {}
    ensures FunctionRuns(f, params, StrictAll(body), o, 1) && !Clean(f, o)
  {
    StrictAssemblyIn(body);
    if CheckFunction(f, params, StrictAll(body), riskyModifier) == {} {
      StrictPasses(f, params, body, riskyModifier);
    }
    o := ReportedIsReal(f, params, StrictAll(body), riskyModifier);
  }
}
