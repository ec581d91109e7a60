/** Why an encrypted `if` is refused: the error names a cause in the source text. */
module BranchRefuse {
  import opened Wrappers
  import opened BranchAst
  import opened BranchLowering
  import opened BranchAdmission
  import opened BranchScan
  import opened BranchShape
  import opened BranchAccept

  /** The scan's error names a cause among the assignments. */
  ghost predicate BlamesWrites(cfg: Cfg, ws: seq<WriteAt>, err: Error) {
    match err
    case UnknownWriteType => exists w | w in ws :: w.ty.None?
    case UnknownKeyType => !Typed(UsesIn(cfg, ws))
    case UndecidableAlias => !NoClash(PathsIn(cfg, ws))
    case _ => false
  }

  /** The error names a cause in a statement of an arm whose frame writes `ws`. */
  ghost predicate Blames(cfg: Cfg, s: Stmt, ws: set<Path>, err: Error)
    decreases s, 1
  {
    match s
    case Assign(_, _, e) => err.UndecidableAlias? && !Readable(cfg, e, ws)
    case Compound(_, _, _, e) => err.UndecidableAlias? && !Readable(cfg, e, ws)
    case IncDec(_, _, _) => false
    case Decl(_, init) => err.UndecidableAlias? && init.Some? && !Readable(cfg, init.value, ws)
    case ExprStmt(e) => err.UndecidableAlias? && !Readable(cfg, e, ws)
    case Block(b) => exists x | x in b :: Blames(cfg, x, ws, err)
    case Unchecked(b) => exists x | x in b :: Blames(cfg, x, ws, err)
    case If(_, _, _) => BlamesFrame(cfg, s, Some(ws), err)
    case Other => err.UnsupportedStatement?
  }

  ghost predicate BlamesFrame(cfg: Cfg, s: Stmt, outer: Option<set<Path>>, err: Error)
    requires s.If?
    decreases s, 0
  {
    || (err.UnsupportedStatement? && !Supported(s))
    || BlamesWrites(cfg, WritesIn(s), err)
    || (err.UndecidableAlias? && !ReadableIn(cfg, s.cond, outer))
    || (err.UndecidableAlias? && OneLine(cfg, s)
        && !(ReadableIn(cfg, Only(s.thn).value.rhs, outer) && ReadableIn(cfg, Only(s.els.value).value.rhs, outer)))
    || Blames(cfg, s.thn, WritePaths(cfg, s), err)
    || (s.els.Some? && Blames(cfg, s.els.value, WritePaths(cfg, s), err))
  }

  /** No write is ever missed. */
  lemma {:induction false} NothingMissed(cfg: Cfg, s: Stmt, ws: set<Path>)
    ensures !Blames(cfg, s, ws, MissedWrite)
    decreases s
  {
    match s
    case Block(b) =>
      forall x | x in b
        ensures !Blames(cfg, x, ws, MissedWrite)
      {
        NothingMissed(cfg, x, ws);
      }
    case Unchecked(b) =>
      forall x | x in b
        ensures !Blames(cfg, x, ws, MissedWrite)
      {
        NothingMissed(cfg, x, ws);
      }
    case If(_, t, e) =>
      NothingMissed(cfg, t, WritePaths(cfg, s));
      if e.Some? { NothingMissed(cfg, e.value, WritePaths(cfg, s)); }
    case _ =>
  }

  // ---- the scan ------------------------------------------------------------------------

  lemma {:induction false} HoistBlamed(p: Path, ks: Keys)
    ensures HoistKeys(p, ks).Failure? ==> HoistKeys(p, ks).error == UnknownKeyType
    decreases p
  {
    if !p.Var? { HoistBlamed(p.base, ks); }
  }

  lemma {:induction false} RecordsBlamed(cfg: Cfg, ws: seq<WriteAt>, sc: Scan, us: seq<KeyUse>, ps: set<Path>, n0: nat)
    requires ScanOk(ps, sc, n0) && Tabled(us, sc.keys.rows) && Typed(us) && NoClash(ps)
    ensures RecordAll(cfg, ws, sc).Failure? ==>
              match RecordAll(cfg, ws, sc).error
              case UnknownWriteType => exists w | w in ws :: w.ty.None?
              case UnknownKeyType => !Typed(us + UsesIn(cfg, ws))
              case UndecidableAlias => !NoClash(ps + PathsIn(cfg, ws))
              case _ => false
    decreases ws
  {
    if ws != [] {
      var w := ws[0];
      var vs := us + (if RootOf(w.p) in cfg.locals then [] else KeyUses(w.p));
      var r := RecordWrite(cfg, w.p, w.ty, sc);
      RecordExact(cfg, w, sc, us, ps, n0);
      assert us + UsesIn(cfg, ws) == vs + UsesIn(cfg, ws[1..]);
      assert ps + PathsIn(cfg, ws) == (ps + Target(cfg, w.p)) + PathsIn(cfg, ws[1..]);
      if r.Success? {
        RecordsBlamed(cfg, ws[1..], r.value, vs, ps + Target(cfg, w.p), n0);
      } else {
        HoistBlamed(w.p, sc.keys);
        HoistExact(w.p, sc.keys, us);
        if Typed(us + UsesIn(cfg, ws)) { TypedPrefix(vs, UsesIn(cfg, ws[1..])); }
        if NoClash(ps + PathsIn(cfg, ws)) { NoClashLess(ps + Target(cfg, w.p), ps + PathsIn(cfg, ws)); }
      }
    }
  }

  /** The scan stops at the first unsupported statement or refused assignment. */
  lemma {:induction false} ScanStops(cfg: Cfg, s: Stmt, sc: Scan)
    requires ScanBranch(cfg, s, sc).Failure?
    ensures var err := ScanBranch(cfg, s, sc).error;
            (err.UnsupportedStatement? && !Supported(s)) || RecordAll(cfg, WritesIn(s), sc) == Failure(err)
    decreases s
  {
    match s
    case Assign(p, ty, _) => OneRecord(cfg, p, ty, sc);
    case Compound(p, ty, _, _) => OneRecord(cfg, p, ty, sc);
    case IncDec(p, ty, _) => OneRecord(cfg, p, ty, sc);
    case Block(b) => AllStops(cfg, b, sc);
    case Unchecked(b) => AllStops(cfg, b, sc);
    case If(_, t, e) =>
      var r := ScanBranch(cfg, t, sc);
      RecordAppend(cfg, WritesIn(t), if e.Some? then WritesIn(e.value) else [], sc);
      if r.Failure? {
        ScanStops(cfg, t, sc);
      } else {
        ScanRecords(cfg, t, sc);
        ScanStops(cfg, e.value, r.value);
      }
    case Other =>
  }

  lemma {:induction false} AllStops(cfg: Cfg, ss: seq<Stmt>, sc: Scan)
    requires ScanAll(cfg, ss, sc).Failure?
    ensures var err := ScanAll(cfg, ss, sc).error;
            (err.UnsupportedStatement? && exists x | x in ss :: !Supported(x)) || RecordAll(cfg, WritesInAll(ss), sc) == Failure(err)
    decreases ss
  {
    var r := ScanBranch(cfg, ss[0], sc);
    RecordAppend(cfg, WritesIn(ss[0]), WritesInAll(ss[1..]), sc);
    if r.Failure? {
      ScanStops(cfg, ss[0], sc);
    } else {
      ScanRecords(cfg, ss[0], sc);
      AllStops(cfg, ss[1..], r.value);
    }
  }

  lemma ScanBlamed(cfg: Cfg, s: Stmt, n: nat)
    requires s.If? && ScanFrame(cfg, s, n).Failure?
    ensures var err := ScanFrame(cfg, s, n).error; (err.UnsupportedStatement? && !Supported(s)) || BlamesWrites(cfg, WritesIn(s), err)
  {
    var sc := Scan([], Keys([], n));
    assert ScanFrame(cfg, s, n) == ScanBranch(cfg, s, sc);
    ScanStops(cfg, s, sc);
    RecordsBlamed(cfg, WritesIn(s), sc, [], {}, n);
    assert [] + UsesIn(cfg, WritesIn(s)) == UsesIn(cfg, WritesIn(s));
    assert {} + PathsIn(cfg, WritesIn(s)) == PathsIn(cfg, WritesIn(s));
  }

  // ---- rendering -----------------------------------------------------------------------

  /** Rendering an expression fails for aliasing only. */
  lemma {:induction false} RenderBlamed(cfg: Cfg, e: Expr, env: Env)
    ensures Render(cfg, e, env).Failure? ==> Render(cfg, e, env).error == UndecidableAlias
    decreases e
  {
    match e
    case Lit(_) =>
    case Tmp(_) =>
    case Read(p) => PathBlamed(cfg, p, env);
    case App(_, args) => ArgsBlamed(cfg, args, env);
    case Select(b, y, n) =>
      RenderBlamed(cfg, b, env);
      RenderBlamed(cfg, y, env);
      RenderBlamed(cfg, n, env);
  }

  lemma {:induction false} ArgsBlamed(cfg: Cfg, es: seq<Expr>, env: Env)
    ensures RenderArgs(cfg, es, env).Failure? ==> RenderArgs(cfg, es, env).error == UndecidableAlias
    decreases es
  {
    if es != [] {
      RenderBlamed(cfg, es[0], env);
      ArgsBlamed(cfg, es[1..], env);
    }
  }

  lemma {:induction false} PathBlamed(cfg: Cfg, p: Path, env: Env)
    ensures RenderPath(cfg, p, env).Failure? ==> RenderPath(cfg, p, env).error == UndecidableAlias
    decreases p
  {
    match p
    case Var(_) =>
    case Field(b, _) => PathBlamed(cfg, b, env);
    case Index(b, k) =>
      PathBlamed(cfg, b, env);
      RenderBlamed(cfg, k, env);
  }

  lemma InBlamed(cfg: Cfg, e: Expr, outer: Option<Env>, ws: Option<set<Path>>)
    requires (outer.Some? <==> ws.Some?) && (outer.Some? ==> Frames(outer.value, ws.value))
    ensures RenderIn(cfg, e, outer).Failure? ==> RenderIn(cfg, e, outer).error == UndecidableAlias && !ReadableIn(cfg, e, ws)
  {
    RenderInExact(cfg, e, outer, ws);
    if outer.Some? { RenderBlamed(cfg, e, outer.value); }
  }

  lemma {:induction false} StmtBlamed(cfg: Cfg, s: Stmt, env: Env, n: nat, ws: set<Path>)
    requires Frames(env, ws) && WritePaths(cfg, s) <= ws && RenderStmt(cfg, s, env, n).Failure?
    ensures Blames(cfg, s, ws, RenderStmt(cfg, s, env, n).error)
    decreases s, 1
  {
    match s
    case Assign(p, _, e) =>
      RenderExact(cfg, e, env, ws);
      RenderBlamed(cfg, e, env);
      if Render(cfg, e, env).Success? {
        var r := Render(cfg, e, env).value;
        WriteExact(cfg, p, r.e, env.Use(r.used), n, ws);
      }
    case Compound(p, _, op, e) =>
      RenderExact(cfg, e, env, ws);
      RenderBlamed(cfg, e, env);
      if Render(cfg, e, env).Success? {
        var l, r := ReadLvalue(cfg, p, env), Render(cfg, e, env).value;
        WriteExact(cfg, p, App(op, [l.e, r.e]), env.Use(l.used + r.used), n, ws);
      }
    case IncDec(p, _, inc) =>
      var l := ReadLvalue(cfg, p, env);
      WriteExact(cfg, p, Stepped(l.e, inc), env.Use(l.used), n, ws);
    case Decl(_, init) =>
      RenderExact(cfg, init.value, env, ws);
      RenderBlamed(cfg, init.value, env);
    case ExprStmt(e) =>
      RenderExact(cfg, e, env, ws);
      RenderBlamed(cfg, e, env);
    case Block(b) => AllBlamed(cfg, b, env, n, ws);
    case Unchecked(b) => AllBlamed(cfg, b, env, n, ws);
    case If(_, _, _) => FrameBlamed(cfg, s, Some(env), n, Some(ws));
    case Other =>
  }

  lemma {:induction false} AllBlamed(cfg: Cfg, ss: seq<Stmt>, env: Env, n: nat, ws: set<Path>)
    requires Frames(env, ws) && WritePathsAll(cfg, ss) <= ws && RenderAll(cfg, ss, env, n).Failure?
    ensures exists x | x in ss :: Blames(cfg, x, ws, RenderAll(cfg, ss, env, n).error)
    decreases ss, 0
  {
    if RenderStmt(cfg, ss[0], env, n).Success? {
      var o := RenderStmt(cfg, ss[0], env, n).value;
      StmtShape(cfg, ss[0], env, n);
      AllBlamed(cfg, ss[1..], o.env, o.n, ws);
    } else {
      StmtBlamed(cfg, ss[0], env, n, ws);
    }
  }

  lemma {:induction false} ArmBlamed(cfg: Cfg, s: Stmt, env: Env, n: nat, ws: set<Path>)
    requires Frames(env, ws) && WritePaths(cfg, s) <= ws && RenderArm(cfg, s, env, n).Failure?
    ensures Blames(cfg, s, ws, RenderArm(cfg, s, env, n).error)
    decreases s, 2
  {
    if s.Block? { AllBlamed(cfg, s.body, env, n, ws); } else { StmtBlamed(cfg, s, env, n, ws); }
  }

  lemma {:induction false} FrameBlamed(cfg: Cfg, s: Stmt, outer: Option<Env>, n: nat, ws: Option<set<Path>>)
    requires s.If? && (outer.Some? <==> ws.Some?) && (outer.Some? ==> Frames(outer.value, ws.value))
    requires RenderFrame(cfg, s, outer, n).Failure?
    ensures BlamesFrame(cfg, s, ws, RenderFrame(cfg, s, outer, n).error)
    decreases s, 0
  {
    OneLineExact(cfg, s);
    InBlamed(cfg, s.cond, outer, ws);
    if OneLine(cfg, s) {
      var d := DirectShape(cfg, s).value.value;
      InBlamed(cfg, d.yes, outer, ws);
      InBlamed(cfg, d.no, outer, ws);
    } else if DirectShape(cfg, s).Success? {
      GeneralBlamed(cfg, s, outer, n, ws);
    }
  }

  lemma {:induction false} GeneralBlamed(cfg: Cfg, s: Stmt, outer: Option<Env>, n: nat, ws: Option<set<Path>>)
    requires s.If? && (outer.Some? <==> ws.Some?) && (outer.Some? ==> Frames(outer.value, ws.value))
    requires RenderGeneral(cfg, s, outer, n).Failure?
    ensures BlamesFrame(cfg, s, ws, RenderGeneral(cfg, s, outer, n).error)
    decreases s, 0, 0
  {
    InBlamed(cfg, s.cond, outer, ws);
    if RenderIn(cfg, s.cond, outer).Success? {
      if ScanFrame(cfg, s, n + 1).Failure? {
        ScanBlamed(cfg, s, n + 1);
      } else {
        var cond, sc, own := RenderIn(cfg, s.cond, outer).value, ScanFrame(cfg, s, n + 1).value, WritePaths(cfg, s);
        ScanFrameFacts(cfg, s, n + 1);
        var pre := AllocPre(sc.writes, UseIn(outer, cond.used), sc.keys.n);
        var preMap := PreMap(pre.pres);
        var env := Env(sc.writes, sc.keys.rows, preMap, preMap, [], {});
        if RenderArm(cfg, s.thn, env, pre.n).Failure? {
          ArmBlamed(cfg, s.thn, env, pre.n, own);
        } else {
          var thn := RenderArm(cfg, s.thn, env, pre.n).value;
          ArmBlamed(cfg, s.els.value, env.Use(thn.env.used), thn.n, own);
        }
      }
    }
  }

  /** A refusal names a cause in the text, and is never that a write was missed. */
  lemma RefusalIsReal(safeCall: string -> bool, s: Stmt, n: nat)
    requires s.If? && LowerTopIf(safeCall, s, n).Failure?
    ensures BlamesFrame(Cfg(Decls(s), safeCall), s, None, LowerTopIf(safeCall, s, n).error)
    ensures LowerTopIf(safeCall, s, n).error != MissedWrite
  {
    var cfg := Cfg(Decls(s), safeCall);
    FrameBlamed(cfg, s, None, n, None);
    NothingMissed(cfg, s.thn, WritePaths(cfg, s));
    if s.els.Some? { NothingMissed(cfg, s.els.value, WritePaths(cfg, s)); }
  }

  // ---- reads beside a write ------------------------------------------------------------

  lemma {:induction false} BaseSteps(p: Path, i: nat)
    requires !p.Var? && i < |Steps(p.base)|
    ensures Steps(p)[i] == Steps(p.base)[i]
  {
  }

  /** A path and the path it extends: nothing tells them apart. */
  lemma BaseClashes(p: Path)
    requires !p.Var?
    ensures Clash(p.base, p)
  {
    forall i | 0 <= i < |Steps(p.base)|
      ensures !PartAt(p.base, p, i)
    {
      BaseSteps(p, i);
    }
    assert |Steps(p.base)| < |Steps(p)|;
  }

  /**
   What an arm may read of a variable its frame writes into.  A path of fields and
   literal keys is read exactly when it is written itself, or nothing under its variable
   is; a sibling under another literal key is refused although the aliasing test tells
   the two apart.
   */
  lemma {:induction false} LiteralReadExact(cfg: Cfg, p: Path, ws: set<Path>)
    requires LiteralKeys(p) && RootOf(p) !in cfg.locals
    ensures ReadablePath(cfg, p, ws) <==> p in ws || forall q | q in ws :: RootOf(q) != RootOf(p)
    decreases p
  {
    match p
    case Var(v) =>
      forall q | q in ws && RootOf(q) == v && q != p
        ensures Clash(q, p)
      {
      }
    case Field(b, _) =>
      LiteralReadExact(cfg, b, ws);
      BaseClashes(p);
    case Index(b, k) =>
      LiteralReadExact(cfg, b, ws);
      BaseClashes(p);
  }

  lemma SiblingsApart(b: Path, x: string, y: string)
    requires x != y
    ensures !Clash(Index(b, Lit(x)), Index(b, Lit(y)))
  {
    var p, q := Index(b, Lit(x)), Index(b, Lit(y));
    assert Steps(p)[..|Steps(b)|] == Steps(b) == Steps(q)[..|Steps(b)|];
    assert PartAt(p, q, |Steps(b)|);
  }
}
