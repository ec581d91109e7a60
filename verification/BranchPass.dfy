/**
 The encrypted-`if` pass as it runs: the frame's write set and key table, the arms'
 environments and the temporary counter are updated in place.  Every method leaves
 the state that `BranchLowering` specifies, so `BranchTheorem` is about its output.
 */
module BranchPass {
  import opened Wrappers
  import opened BranchAst
  import opened BranchLowering

  /** What has been read so far does not change how an expression is rendered. */
  lemma {:induction false} RenderUse(cfg: Cfg, e: Expr, env: Env, keys: set<LocKey>)
    ensures Render(cfg, e, env.Use(keys)) == Render(cfg, e, env)
    decreases e
  {
    match e
    case Read(p) => RenderPathUse(cfg, p, env, keys);
    case App(_, args) => RenderArgsUse(cfg, args, env, keys);
    case Select(b, y, n) =>
      RenderUse(cfg, b, env, keys);
      RenderUse(cfg, y, env, keys);
      RenderUse(cfg, n, env, keys);
    case _ =>
  }

  lemma {:induction false} RenderArgsUse(cfg: Cfg, es: seq<Expr>, env: Env, keys: set<LocKey>)
    ensures RenderArgs(cfg, es, env.Use(keys)) == RenderArgs(cfg, es, env)
    decreases es
  {
    if es != [] {
      RenderUse(cfg, es[0], env, keys);
      RenderArgsUse(cfg, es[1..], env, keys);
    }
  }

  lemma {:induction false} RenderPathUse(cfg: Cfg, p: Path, env: Env, keys: set<LocKey>)
    ensures RenderPath(cfg, p, env.Use(keys)) == RenderPath(cfg, p, env)
    decreases p
  {
    match p
    case Var(_) =>
    case Field(b, _) => RenderPathUse(cfg, b, env, keys);
    case Index(b, k) =>
      RenderPathUse(cfg, b, env, keys);
      RenderUse(cfg, k, env, keys);
  }

  lemma UseTwice(env: Env, a: set<LocKey>, b: set<LocKey>)
    ensures env.Use(a).Use(b) == env.Use(a + b) && env.Use({}) == env
  {
    assert env.used + a + b == env.used + (a + b) && env.used + {} == env.used;
  }

  lemma RenderInUse(cfg: Cfg, e: Expr, outer: Option<Env>, keys: set<LocKey>)
    ensures RenderIn(cfg, e, UseIn(outer, keys)) == RenderIn(cfg, e, outer)
  {
    if outer.Some? { RenderUse(cfg, e, outer.value, keys); }
  }

  lemma UseInTwice(outer: Option<Env>, a: set<LocKey>, b: set<LocKey>)
    ensures UseIn(UseIn(outer, a), b) == UseIn(outer, a + b)
  {
    if outer.Some? { UseTwice(outer.value, a, b); }
  }

  /** The written locations of a frame, in first-write order, and its hoisted keys. */
  class FrameTables {
    var writes: seq<Loc>
    var rows: seq<Row>

    constructor ()
      ensures writes == [] && rows == []
    {
      writes, rows := [], [];
    }

    method Find(k: Expr) returns (r: Option<nat>)
      ensures r == Lookup(rows, k)
    {
      for i := 0 to |rows|
        invariant Lookup(rows, k) == Lookup(rows[i..], k)
      {
        assert rows[i..][1..] == rows[i + 1..];
        if rows[i].src == k { return Some(rows[i].tmp); }
      }
      r := None;
    }

    method Has(key: LocKey) returns (r: bool)
      ensures r == HasKey(writes, key)
    {
      for i := 0 to |writes|
        invariant HasKey(writes, key) == HasKey(writes[i..], key)
      {
        assert writes[i..][1..] == writes[i + 1..];
        if writes[i].key == key { return true; }
      }
      r := false;
    }

    method Aliased(key: LocKey) returns (r: bool)
      ensures r == MayAliasAny(writes, key)
    {
      for i := 0 to |writes|
        invariant MayAliasAny(writes, key) == MayAliasAny(writes[i..], key)
      {
        assert writes[i..][1..] == writes[i + 1..];
        if MayAlias(writes[i].key, key) { return true; }
      }
      r := false;
    }
  }

  /** The environment of one arm. */
  class ArmEnv {
    const writes: seq<Loc>
    const rows: seq<Row>
    const pre: map<LocKey, nat>
    var versions: map<LocKey, nat>
    var decls: seq<nat>
    var used: set<LocKey>

    function View(): Env
      reads this
    {
      Env(writes, rows, pre, versions, decls, used)
    }

    constructor (writes: seq<Loc>, rows: seq<Row>, pre: map<LocKey, nat>, used: set<LocKey>)
      ensures View() == Env(writes, rows, pre, pre, [], used)
    {
      this.writes, this.rows, this.pre := writes, rows, pre;
      versions, decls, this.used := pre, [], used;
    }

    /** The current value of a location; reading a pre-value is recorded. */
    method ReadAt(key: LocKey, display: Path) returns (e: Expr)
      modifies this
      ensures e == old(View()).Current(key, display) && View() == old(View()).Use(old(View()).Uses(key))
    {
      e := if key in versions then Tmp(versions[key]) else Read(display);
      if key in versions && key in pre && versions[key] == pre[key] { used := used + {key}; }
    }

    /** A fresh version of a location. */
    method BindTo(key: LocKey, t: nat)
      modifies this
      ensures View() == old(View()).Bind(key, t)
    {
      decls := decls + [t];
      versions := versions[key := t];
    }
  }

  /** The result of a rendering step agrees with its specification. */
  ghost predicate Rendering(r: Result<Expr, Error>, spec: Result<Rendered, Error>, before: Env, now: Env) {
    match spec
    case Success(v) => r == Success(v.e) && now == before.Use(v.used)
    case Failure(f) => r == Failure(f)
  }

  ghost predicate Emitting(r: Result<seq<TStmt>, Error>, spec: Result<Out, Error>, now: Env, n: nat) {
    match spec
    case Success(o) => r == Success(o.code) && now == o.env && n == o.n
    case Failure(f) => r == Failure(f)
  }

  ghost predicate Framing(r: Result<seq<TStmt>, Error>, spec: Result<FrameOut, Error>, outer: Option<Env>, n: nat) {
    match spec
    case Success(f) => r == Success(f.code) && outer == f.outer && n == f.n
    case Failure(f) => r == Failure(f)
  }

  /** What the rest of a list adds to what is done. */
  ghost function Prepended(done: seq<Expr>, used: set<LocKey>, rest: Result<RenderedArgs, Error>): Result<RenderedArgs, Error> {
    if rest.Failure? then rest else Success(RenderedArgs(done + rest.value.es, used + rest.value.used))
  }

  lemma PrependedStep(done: seq<Expr>, used: set<LocKey>, e: Expr, more: set<LocKey>, rest: Result<RenderedArgs, Error>)
    ensures Prepended(done, used, Prepended([e], more, rest)) == Prepended(done + [e], used + more, rest)
    ensures Prepended([], {}, rest) == rest
  {
    if rest.Success? {
      assert done + ([e] + rest.value.es) == done + [e] + rest.value.es && [] + rest.value.es == rest.value.es;
      assert used + (more + rest.value.used) == used + more + rest.value.used && {} + rest.value.used == rest.value.used;
    }
  }

  ghost function Emitted(lines: seq<TStmt>, rest: Result<Out, Error>): Result<Out, Error> {
    if rest.Failure? then rest else Success(rest.value.(code := lines + rest.value.code))
  }

  lemma EmittedNone(rest: Result<Out, Error>)
    ensures Emitted([], rest) == rest
  {
    if rest.Success? { assert [] + rest.value.code == rest.value.code; }
  }

  lemma EmittedStep(lines: seq<TStmt>, more: seq<TStmt>, rest: Result<Out, Error>)
    ensures Emitted(lines, Emitted(more, rest)) == Emitted(lines + more, rest)
  {
    if rest.Success? { assert lines + (more + rest.value.code) == lines + more + rest.value.code; }
  }

  ghost function Allocated(pres: seq<PreVal>, rest: PreOut): PreOut {
    rest.(pres := pres + rest.pres)
  }

  lemma AllocatedStep(pres: seq<PreVal>, p: PreVal, rest: PreOut)
    ensures Allocated(pres, Allocated([p], rest)) == Allocated(pres + [p], rest) && Allocated([], rest) == rest
    ensures PreMap(pres + [p]) == PreMap(pres)[p.key := p.tmp]
  {
    assert pres + ([p] + rest.pres) == pres + [p] + rest.pres && [] + rest.pres == rest.pres;
    assert (pres + [p])[..|pres|] == pres;
  }

  ghost function InitIn(l: Loc, outer: Option<Env>): Expr {
    if outer.Some? then outer.value.Current(l.key, l.display) else Read(l.display)
  }

  ghost function ReadIn(l: Loc, outer: Option<Env>): Option<Env> {
    if outer.Some? then Some(outer.value.Use(outer.value.Uses(l.key))) else None
  }

  /** The first pre-value, and what remains. */
  lemma AllocFirst(writes: seq<Loc>, outer: Option<Env>, n: nat)
    requires writes != []
    ensures AllocPre(writes, outer, n)
            == Allocated([PreVal(writes[0].key, n, InitIn(writes[0], outer))], AllocPre(writes[1..], ReadIn(writes[0], outer), n + 1))
  {
  }

  ghost function AllocatedFrom(pres: seq<PreVal>, writes: seq<Loc>, i: nat, outer: Option<Env>, n: nat): PreOut
    requires i <= |writes|
  {
    Allocated(pres, AllocPre(writes[i..], outer, n))
  }

  /** One pre-value further. */
  lemma AllocNext(writes: seq<Loc>, i: nat, outer: Option<Env>, n: nat, pres: seq<PreVal>)
    requires i < |writes|
    ensures var p := PreVal(writes[i].key, n, InitIn(writes[i], outer));
            && Allocated(pres, AllocPre(writes[i..], outer, n)) == Allocated(pres + [p], AllocPre(writes[i + 1..], ReadIn(writes[i], outer), n + 1))
            && PreMap(pres + [p]) == PreMap(pres)[p.key := n]
  {
    assert writes[i..][0] == writes[i] && writes[i..][1..] == writes[i + 1..];
    AllocFirst(writes[i..], outer, n);
    AllocatedStep(pres, PreVal(writes[i].key, n, InitIn(writes[i], outer)), AllocPre(writes[i + 1..], ReadIn(writes[i], outer), n + 1));
  }

  lemma AllocDone(writes: seq<Loc>, outer: Option<Env>, n: nat, pres: seq<PreVal>)
    ensures Allocated(pres, AllocPre(writes[|writes|..], outer, n)) == PreOut(pres, outer, n)
    ensures Allocated([], AllocPre(writes[0..], outer, n)) == AllocPre(writes, outer, n)
  {
    assert writes[|writes|..] == [] && pres + [] == pres && writes[0..] == writes;
    assert [] + AllocPre(writes, outer, n).pres == AllocPre(writes, outer, n).pres;
  }

  ghost function MergedOn(lines: seq<TStmt>, rest: MergeOut): MergeOut {
    rest.(code := lines + rest.code)
  }

  lemma MergedStep(lines: seq<TStmt>, x: TStmt, rest: MergeOut)
    ensures MergedOn(lines, MergedOn([x], rest)) == MergedOn(lines + [x], rest) && MergedOn([], rest) == rest
  {
    assert lines + ([x] + rest.code) == lines + [x] + rest.code && [] + rest.code == rest.code;
  }

  datatype ArmsOut = ArmsOut(thn: Out, els: Option<Out>) {
    function Last(): Out {
      if els.Some? then els.value else thn
    }
    function ElseVersions(): map<LocKey, nat> {
      if els.Some? then els.value.env.versions else map[]
    }
  }

  ghost function RenderArms(cfg: Cfg, s: Stmt, env: Env, n: nat): Result<ArmsOut, Error>
    requires s.If?
  {
    var thn :- RenderArm(cfg, s.thn, env, n);
    if s.els.None? then Success(ArmsOut(thn, None))
    else
      var els :- RenderArm(cfg, s.els.value, env.Use(thn.env.used), thn.n);
      Success(ArmsOut(thn, Some(els)))
  }

  /** The general form, by its steps. */
  ghost function GeneralSteps(cfg: Cfg, s: Stmt, outer: Option<Env>, n: nat): Result<FrameOut, Error>
    requires s.If?
  {
    var cond :- RenderIn(cfg, s.cond, outer);
    var sc :- ScanFrame(cfg, s, n + 1);
    var pre := AllocPre(sc.writes, UseIn(outer, cond.used), sc.keys.n);
    var preMap := PreMap(pre.pres);
    var a :- RenderArms(cfg, s, Env(sc.writes, sc.keys.rows, preMap, preMap, [], {}), pre.n);
    var mg := MergeAll(sc.writes, n, preMap, a.thn.env.versions, a.ElseVersions(), pre.outer, a.Last().n, a.Last().env.used);
    Success(FrameOut([Scope(Assemble(n, cond.e, sc.keys.rows, pre.pres, mg.used, a.thn, a.els, mg.code))], mg.outer, mg.n))
  }

  lemma GeneralByArms(cfg: Cfg, s: Stmt, outer: Option<Env>, n: nat)
    requires s.If?
    ensures RenderGeneral(cfg, s, outer, n) == GeneralSteps(cfg, s, outer, n)
  {
  }

  /** The environment of the enclosing frame, if there is one. */
  ghost function OuterView(outer: ArmEnv?): Option<Env>
    reads outer
  {
    if outer == null then None else Some(outer.View())
  }

  class Lowerer {
    const cfg: Cfg
    var n: nat

    constructor (c: Cfg, start: nat)
      ensures cfg == c && n == start
    {
      cfg, n := c, start;
    }

    method Fresh() returns (t: nat)
      modifies this
      ensures t == old(n) && n == old(n) + 1
    {
      t := n;
      n := n + 1;
    }

    // ---- the write set -------------------------------------------------------------------

    /** Hoists the computed keys of a path. */
    method Hoist(p: Path, f: FrameTables) returns (e: Option<Error>)
      modifies this, f
      ensures f.writes == old(f.writes)
      ensures match HoistKeys(p, Keys(old(f.rows), old(n)))
              case Success(ks) => e == None && Keys(f.rows, n) == ks
              case Failure(x) => e == Some(x)
      decreases p
    {
      match p {
        case Var(_) => e := None;
        case Field(b, _) => e := Hoist(b, f);
        case Index(b, k) =>
          e := Hoist(b, f);
          if e.Some? { return; }
          var found := f.Find(k);
          if !k.Lit? && found.None? {
            if !KeyTypeKnown(b) { return Some(UnknownKeyType); }
            var t := Fresh();
            f.rows := f.rows + [Row(k, t)];
          }
      }
    }

    method Record(p: Path, ty: Option<EType>, f: FrameTables) returns (e: Option<Error>)
      modifies this, f
      ensures match RecordWrite(cfg, p, ty, Scan(old(f.writes), Keys(old(f.rows), old(n))))
              case Success(sc) => e == None && Scan(f.writes, Keys(f.rows, n)) == sc
              case Failure(x) => e == Some(x)
    {
      if ty.None? { return Some(UnknownWriteType); }
      if RootOf(p) in cfg.locals { return None; }
      e := Hoist(p, f);
      if e.Some? { return; }
      var key := KeyOf(p, f.rows);
      var known := f.Has(key);
      if known { return None; }
      var clash := f.Aliased(key);
      if clash { return Some(UndecidableAlias); }
      f.writes := f.writes + [Loc(key, Display(p, f.rows), ty.value)];
    }

    method ScanStmt(s: Stmt, f: FrameTables) returns (e: Option<Error>)
      modifies this, f
      ensures match ScanBranch(cfg, s, Scan(old(f.writes), Keys(old(f.rows), old(n))))
              case Success(sc) => e == None && Scan(f.writes, Keys(f.rows, n)) == sc
              case Failure(x) => e == Some(x)
      decreases s, 1
    {
      match s {
        case Assign(p, ty, _) => e := Record(p, ty, f);
        case Compound(p, ty, _, _) => e := Record(p, ty, f);
        case IncDec(p, ty, _) => e := Record(p, ty, f);
        case Decl(_, _) => e := None;
        case ExprStmt(_) => e := None;
        case Block(b) => e := ScanStmts(b, f);
        case Unchecked(b) => e := ScanStmts(b, f);
        case If(_, t, els) =>
          e := ScanStmt(t, f);
          if e.None? && els.Some? { e := ScanStmt(els.value, f); }
        case Other => e := Some(UnsupportedStatement);
      }
    }

    method ScanStmts(ss: seq<Stmt>, f: FrameTables) returns (e: Option<Error>)
      modifies this, f
      ensures match ScanAll(cfg, ss, Scan(old(f.writes), Keys(old(f.rows), old(n))))
              case Success(sc) => e == None && Scan(f.writes, Keys(f.rows, n)) == sc
              case Failure(x) => e == Some(x)
      decreases ss, 0
    {
      for i := 0 to |ss|
        invariant ScanAll(cfg, ss, Scan(old(f.writes), Keys(old(f.rows), old(n))))
               == ScanAll(cfg, ss[i..], Scan(f.writes, Keys(f.rows, n)))
      {
        assert ss[i..][1..] == ss[i + 1..];
        e := ScanStmt(ss[i], f);
        if e.Some? { return; }
      }
      e := None;
    }

    // ---- expressions ---------------------------------------------------------------------

    method RenderExpr(e: Expr, env: ArmEnv) returns (r: Result<Expr, Error>)
      modifies env
      ensures Rendering(r, Render(cfg, e, old(env.View())), old(env.View()), env.View())
      decreases e, 1
    {
      ghost var env0 := env.View();
      UseTwice(env0, {}, {});
      match e {
        case Lit(_) => r := Success(e);
        case Tmp(_) => r := Success(e);
        case Read(p) => r := RenderLocation(p, env);
        case App(op, args) =>
          var es := RenderList(args, env);
          r := if es.Failure? then Failure(es.error) else Success(App(op, es.value));
        case Select(b, y, z) =>
          var rb := RenderExpr(b, env);
          if rb.Failure? { return rb; }
          ghost var ub := Render(cfg, b, env0).value.used;
          RenderUse(cfg, y, env0, ub);
          var ry := RenderExpr(y, env);
          if ry.Failure? { return ry; }
          ghost var uy := Render(cfg, y, env0).value.used;
          UseTwice(env0, ub, uy);
          RenderUse(cfg, z, env0, ub + uy);
          var rz := RenderExpr(z, env);
          if rz.Failure? { return rz; }
          UseTwice(env0, ub + uy, Render(cfg, z, env0).value.used);
          r := Success(Select(rb.value, ry.value, rz.value));
      }
    }

    method RenderList(es: seq<Expr>, env: ArmEnv) returns (r: Result<seq<Expr>, Error>)
      modifies env
      ensures match RenderArgs(cfg, es, old(env.View()))
              case Success(v) => r == Success(v.es) && env.View() == old(env.View()).Use(v.used)
              case Failure(f) => r == Failure(f)
      decreases es, 0
    {
      ghost var env0 := env.View();
      ghost var used: set<LocKey> := {};
      var done: seq<Expr> := [];
      UseTwice(env0, {}, {});
      assert es[0..] == es;
      PrependedStep([], {}, Lit(""), {}, RenderArgs(cfg, es, env0));
      for i := 0 to |es|
        invariant env.View() == env0.Use(used)
        invariant RenderArgs(cfg, es, env0) == Prepended(done, used, RenderArgs(cfg, es[i..], env0))
      {
        assert es[i..][0] == es[i] && es[i..][1..] == es[i + 1..];
        RenderUse(cfg, es[i], env0, used);
        var x := RenderExpr(es[i], env);
        if x.Failure? { return Failure(x.error); }
        ghost var ux := Render(cfg, es[i], env0).value.used;
        UseTwice(env0, used, ux);
        PrependedStep(done, used, x.value, ux, RenderArgs(cfg, es[i + 1..], env0));
        done := done + [x.value];
        used := used + ux;
      }
      assert es[|es|..] == [] && done + [] == done && used + {} == used;
      r := Success(done);
    }

    /** A location an expression reads: its version, or its parts rendered. */
    method RenderLocation(p: Path, env: ArmEnv) returns (r: Result<Expr, Error>)
      modifies env
      ensures Rendering(r, RenderPath(cfg, p, old(env.View())), old(env.View()), env.View())
      decreases p, 0
    {
      ghost var env0 := env.View();
      UseTwice(env0, {}, {});
      if RootOf(p) !in cfg.locals {
        var key := KeyOf(p, env.rows);
        if HasKey(env.writes, key) {
          var e := env.ReadAt(key, Display(p, env.rows));
          return Success(e);
        }
        if MayAliasAny(env.writes, key) { return Failure(UndecidableAlias); }
      }
      match p {
        case Var(_) => r := Success(Read(p));
        case Field(b, f) =>
          var rb := RenderLocation(b, env);
          r := if rb.Failure? then rb else Success(MemberOf(rb.value, f));
        case Index(b, k) =>
          var rb := RenderLocation(b, env);
          if rb.Failure? { return rb; }
          ghost var ub := RenderPath(cfg, b, env0).value.used;
          RenderUse(cfg, k, env0, ub);
          var rk := RenderExpr(k, env);
          if rk.Failure? { return rk; }
          UseTwice(env0, ub, Render(cfg, k, env0).value.used);
          r := Success(ElementOf(rb.value, rk.value));
      }
    }

    // ---- statements ----------------------------------------------------------------------

    method Write(p: Path, value: Expr, env: ArmEnv) returns (r: Result<seq<TStmt>, Error>)
      modifies this, env
      ensures Emitting(r, WriteVersioned(cfg, p, value, old(env.View()), old(n)), env.View(), n)
    {
      if RootOf(p) in cfg.locals { return Success([SetLoc(p, value)]); }
      var key := KeyOf(p, env.rows);
      if !HasKey(env.writes, key) { return Failure(MissedWrite); }
      var t := Fresh();
      env.BindTo(key, t);
      r := Success([SetTmp(t, value)]);
    }

    /** The current value of an lvalue. */
    method ReadTarget(p: Path, env: ArmEnv) returns (e: Expr)
      modifies env
      ensures var l := ReadLvalue(cfg, p, old(env.View())); e == l.e && env.View() == old(env.View()).Use(l.used)
    {
      if RootOf(p) in cfg.locals {
        UseTwice(env.View(), {}, {});
        e := Read(p);
      } else {
        e := env.ReadAt(KeyOf(p, env.rows), Display(p, env.rows));
      }
    }

    method WriteStmt(s: Stmt, env: ArmEnv) returns (r: Result<seq<TStmt>, Error>)
      requires s.Assign? || s.Compound? || s.IncDec?
      modifies this, env
      ensures Emitting(r, BranchLowering.RenderStmt(cfg, s, old(env.View()), old(n)), env.View(), n)
    {
      ghost var env0 := env.View();
      match s {
        case Assign(p, _, e) =>
          var x := RenderExpr(e, env);
          if x.Failure? { return Failure(x.error); }
          r := Write(p, x.value, env);
        case Compound(p, _, op, e) =>
          var l := ReadTarget(p, env);
          ghost var ul := ReadLvalue(cfg, p, env0).used;
          RenderUse(cfg, e, env0, ul);
          var x := RenderExpr(e, env);
          if x.Failure? { return Failure(x.error); }
          UseTwice(env0, ul, Render(cfg, e, env0).value.used);
          r := Write(p, App(op, [l, x.value]), env);
        case IncDec(p, _, inc) =>
          var l := ReadTarget(p, env);
          r := Write(p, Stepped(l, inc), env);
      }
    }

    method EmitStmt(s: Stmt, env: ArmEnv) returns (r: Result<seq<TStmt>, Error>)
      modifies this, env
      ensures Emitting(r, BranchLowering.RenderStmt(cfg, s, old(env.View()), old(n)), env.View(), n)
      decreases s, 0
    {
      match s {
        case Decl(v, init) =>
          if init.None? { return Success([NewLocal(v, None)]); }
          var x := RenderExpr(init.value, env);
          r := if x.Failure? then Failure(x.error) else Success([NewLocal(v, Some(x.value))]);
        case ExprStmt(e) =>
          var x := RenderExpr(e, env);
          r := if x.Failure? then Failure(x.error) else Success([TStmt.Eval(x.value)]);
        case Block(b) =>
          var lines := EmitStmts(b, env);
          r := if lines.Failure? then lines else Success([Scope(lines.value)]);
        case Unchecked(b) =>
          var lines := EmitStmts(b, env);
          r := if lines.Failure? then lines else Success([Scope(lines.value)]);
        case If(_, _, _) => r := EmitFrame(s, env);
        case Other => r := Failure(UnsupportedStatement);
        case _ => r := WriteStmt(s, env);
      }
    }

    method EmitStmts(ss: seq<Stmt>, env: ArmEnv) returns (r: Result<seq<TStmt>, Error>)
      modifies this, env
      ensures Emitting(r, RenderAll(cfg, ss, old(env.View()), old(n)), env.View(), n)
      decreases ss
    {
      var lines: seq<TStmt> := [];
      ghost var env0, n0 := env.View(), n;
      assert ss[0..] == ss;
      EmittedNone(RenderAll(cfg, ss, env0, n0));
      for i := 0 to |ss|
        invariant RenderAll(cfg, ss, env0, n0) == Emitted(lines, RenderAll(cfg, ss[i..], env.View(), n))
      {
        ghost var now, k := env.View(), n;
        assert ss[i..][0] == ss[i] && ss[i..][1..] == ss[i + 1..];
        var more := EmitStmt(ss[i], env);
        if more.Failure? { return more; }
        EmittedStep(lines, more.value, RenderAll(cfg, ss[i + 1..], env.View(), n));
        lines := lines + more.value;
      }
      assert ss[|ss|..] == [] && lines + [] == lines;
      r := Success(lines);
    }

    method EmitArm(s: Stmt, env: ArmEnv) returns (r: Result<seq<TStmt>, Error>)
      modifies this, env
      ensures Emitting(r, RenderArm(cfg, s, old(env.View()), old(n)), env.View(), n)
      decreases s, 1
    {
      if s.Block? {
        r := EmitStmts(s.body, env);
      } else {
        r := EmitStmt(s, env);
      }
    }

    // ---- frames --------------------------------------------------------------------------

    /** Renders in the enclosing environment; outside every frame the text stands. */
    method RenderOuter(e: Expr, outer: ArmEnv?) returns (r: Result<Expr, Error>)
      modifies outer
      ensures match RenderIn(cfg, e, old(OuterView(outer)))
              case Success(v) => r == Success(v.e) && OuterView(outer) == UseIn(old(OuterView(outer)), v.used)
              case Failure(f) => r == Failure(f)
    {
      if outer == null { return Success(e); }
      r := RenderExpr(e, outer);
    }

    method AllocPreValue(l: Loc, outer: ArmEnv?) returns (p: PreVal)
      modifies this, outer
      ensures p == PreVal(l.key, old(n), InitIn(l, old(OuterView(outer)))) && n == old(n) + 1
      ensures OuterView(outer) == ReadIn(l, old(OuterView(outer)))
    {
      var init := Read(l.display);
      if outer != null { init := outer.ReadAt(l.key, l.display); }
      var t := Fresh();
      p := PreVal(l.key, t, init);
    }

    /** The pre-value of one written location, behind those before it. */
    method AllocAt(writes: seq<Loc>, i: nat, outer: ArmEnv?, pres: seq<PreVal>, preOf: map<LocKey, nat>)
      returns (pres2: seq<PreVal>, preOf2: map<LocKey, nat>)
      requires i < |writes| && preOf == PreMap(pres)
      modifies this, outer
      ensures AllocatedFrom(pres2, writes, i + 1, OuterView(outer), n)
              == AllocatedFrom(pres, writes, i, old(OuterView(outer)), old(n))
      ensures preOf2 == PreMap(pres2)
    {
      AllocNext(writes, i, OuterView(outer), n, pres);
      var p := AllocPreValue(writes[i], outer);
      pres2 := pres + [p];
      preOf2 := preOf[p.key := p.tmp];
    }

    /** One candidate pre-value for every written location. */
    method AllocPreValues(writes: seq<Loc>, outer: ArmEnv?) returns (pres: seq<PreVal>, preOf: map<LocKey, nat>)
      modifies this, outer
      ensures PreOut(pres, OuterView(outer), n) == AllocPre(writes, old(OuterView(outer)), old(n))
      ensures preOf == PreMap(pres)
    {
      pres, preOf := [], map[];
      ghost var outer0, n0 := OuterView(outer), n;
      for i := 0 to |writes|
        invariant AllocatedFrom(pres, writes, i, OuterView(outer), n) == AllocatedFrom([], writes, 0, outer0, n0)
        invariant preOf == PreMap(pres)
      {
        pres, preOf := AllocAt(writes, i, outer, pres, preOf);
      }
      AllocDone(writes, outer0, n0, []);
      AllocDone(writes, OuterView(outer), n, pres);
    }

    /** The merges, in first-write order. */
    method EmitMerges(writes: seq<Loc>, cond: nat, preOf: map<LocKey, nat>, thn: map<LocKey, nat>, els: map<LocKey, nat>,
                      outer: ArmEnv?, before: set<LocKey>)
      returns (lines: seq<TStmt>, used: set<LocKey>)
      requires forall l | l in writes :: l.key in preOf
      modifies this, outer
      ensures MergeOut(lines, OuterView(outer), n, used)
              == MergeAll(writes, cond, preOf, thn, els, old(OuterView(outer)), old(n), before)
    {
      lines, used := [], before;
      ghost var outer0, n0 := OuterView(outer), n;
      assert writes[0..] == writes;
      MergedStep([], Declare(0), MergeAll(writes, cond, preOf, thn, els, outer0, n0, before));
      for i := 0 to |writes|
        invariant MergeAll(writes, cond, preOf, thn, els, outer0, n0, before)
               == MergedOn(lines, MergeAll(writes[i..], cond, preOf, thn, els, OuterView(outer), n, used))
      {
        var l := writes[i];
        assert l in writes && writes[i..][0] == l && writes[i..][1..] == writes[i + 1..];
        var tv, ev := VersionOr(thn, l.key, preOf[l.key]), VersionOr(els, l.key, preOf[l.key]);
        if tv == preOf[l.key] || ev == preOf[l.key] { used := used + {l.key}; }
        var select := Select(Tmp(cond), Tmp(tv), Tmp(ev));
        var line := SetLoc(l.display, select);
        if outer != null && HasKey(outer.writes, l.key) {
          var t := Fresh();
          outer.BindTo(l.key, t);
          line := SetTmp(t, select);
        }
        MergedStep(lines, line, MergeAll(writes[i + 1..], cond, preOf, thn, els, OuterView(outer), n, used));
        lines := lines + [line];
      }
      assert writes[|writes|..] == [] && lines + [] == lines;
    }

    /** The write set and key table of a frame. */
    method ScanArms(s: Stmt) returns (f: FrameTables, e: Option<Error>)
      requires s.If?
      modifies this
      ensures fresh(f)
      ensures match ScanFrame(cfg, s, old(n))
              case Success(sc) => e == None && Scan(f.writes, Keys(f.rows, n)) == sc
              case Failure(x) => e == Some(x)
    {
      f := new FrameTables();
      e := ScanStmt(s.thn, f);
      if e.None? && s.els.Some? { e := ScanStmt(s.els.value, f); }
    }

    /** One line when both arms plainly assign the same variable. */
    method EmitDirect(s: Stmt, outer: ArmEnv?) returns (r: Result<Option<seq<TStmt>>, Error>)
      requires s.If?
      modifies this, outer
      ensures match TryDirect(cfg, s, old(OuterView(outer)), old(n))
              case Success(d) =>
                if d.None? then r == Success(None) && n == old(n) && OuterView(outer) == old(OuterView(outer))
                else r == Success(Some(d.value.code)) && n == d.value.n && OuterView(outer) == d.value.outer
              case Failure(f) => r == Failure(f)
    {
      var shape := DirectShape(cfg, s);
      if shape.Failure? { return Failure(shape.error); }
      if shape.value.None? { return Success(None); }
      var d := shape.value.value;
      ghost var env0 := OuterView(outer);
      var c := RenderOuter(s.cond, outer);
      if c.Failure? { return Failure(c.error); }
      ghost var uc := RenderIn(cfg, s.cond, env0).value.used;
      RenderInUse(cfg, d.yes, env0, uc);
      var y := RenderOuter(d.yes, outer);
      if y.Failure? { return Failure(y.error); }
      ghost var uy := RenderIn(cfg, d.yes, env0).value.used;
      UseInTwice(env0, uc, uy);
      RenderInUse(cfg, d.no, env0, uc + uy);
      var z := RenderOuter(d.no, outer);
      if z.Failure? { return Failure(z.error); }
      UseInTwice(env0, uc + uy, RenderIn(cfg, d.no, env0).value.used);
      var key, select := LocKey(d.v, []), Select(c.value, y.value, z.value);
      if outer != null && HasKey(outer.writes, key) {
        var t := Fresh();
        outer.BindTo(key, t);
        r := Success(Some([SetTmp(t, select)]));
      } else {
        r := Success(Some([SetLoc(Var(d.v), select)]));
      }
    }

    method EmitFrame(s: Stmt, outer: ArmEnv?) returns (r: Result<seq<TStmt>, Error>)
      requires s.If?
      modifies this, outer
      ensures Framing(r, BranchLowering.RenderFrame(cfg, s, old(OuterView(outer)), old(n)), OuterView(outer), n)
      decreases s, 0, 1
    {
      var direct := EmitDirect(s, outer);
      if direct.Failure? { return Failure(direct.error); }
      if direct.value.Some? { return Success(direct.value.value); }
      r := EmitGeneral(s, outer);
    }

    /** Both arms, each in an environment of its own that starts from the pre-values. */
    method EmitArms(s: Stmt, writes: seq<Loc>, rows: seq<Row>, preOf: map<LocKey, nat>) returns (r: Result<ArmsOut, Error>)
      requires s.If?
      modifies this
      ensures r == RenderArms(cfg, s, Env(writes, rows, preOf, preOf, [], {}), old(n))
      ensures r.Success? ==> n == r.value.Last().n
      decreases s, 0, 0, 0
    {
      var thenEnv := new ArmEnv(writes, rows, preOf, {});
      var thenLines := EmitArm(s.thn, thenEnv);
      if thenLines.Failure? { return Failure(thenLines.error); }
      var thn := Out(thenLines.value, thenEnv.View(), n);
      if s.els.None? { return Success(ArmsOut(thn, None)); }
      var elseEnv := new ArmEnv(writes, rows, preOf, thenEnv.used);
      assert {} + thenEnv.used == thenEnv.used;
      var elseLines := EmitArm(s.els.value, elseEnv);
      if elseLines.Failure? { return Failure(elseLines.error); }
      r := Success(ArmsOut(thn, Some(Out(elseLines.value, elseEnv.View(), n))));
    }

    /** Hoists, scans, renders both arms, and merges. */
    method EmitGeneral(s: Stmt, outer: ArmEnv?) returns (r: Result<seq<TStmt>, Error>)
      requires s.If?
      modifies this, outer
      ensures Framing(r, RenderGeneral(cfg, s, old(OuterView(outer)), old(n)), OuterView(outer), n)
      decreases s, 0, 0, 1
    {
      ghost var outer0, n0 := OuterView(outer), n;
      GeneralByArms(cfg, s, outer0, n0);
      var cond := RenderOuter(s.cond, outer);
      if cond.Failure? { return Failure(cond.error); }
      var condTemp := Fresh();
      var f, e := ScanArms(s);
      if e.Some? { return Failure(e.value); }
      var writes, rows := f.writes, f.rows;
      var pres, preOf := AllocPreValues(writes, outer);
      var arms := EmitArms(s, writes, rows, preOf);
      if arms.Failure? { return Failure(arms.error); }
      var a := arms.value;
      var merges, used := EmitMerges(writes, condTemp, preOf, a.thn.env.versions, a.ElseVersions(), outer, a.Last().env.used);
      r := Success([Scope(Assemble(condTemp, cond.value, rows, pres, used, a.thn, a.els, merges))]);
    }

    /** Lowers one top-level encrypted `if`. */
    method LowerTop(s: Stmt) returns (r: Result<seq<TStmt>, Error>)
      requires s.If? && cfg.locals == Decls(s)
      modifies this
      ensures match LowerTopIf(cfg.safeCall, s, old(n))
              case Success(f) => r == Success(f.code) && n == f.n
              case Failure(x) => r == Failure(x)
    {
      assert cfg == Cfg(Decls(s), cfg.safeCall);
      r := EmitFrame(s, null);
    }
  }
}
