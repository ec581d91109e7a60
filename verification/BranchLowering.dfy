/**
 The encrypted-`if` lowering of crates/fhec-lower/src/pass_if.rs as a function
 that threads the state the pass keeps: the temporary counter, the hoisted-key
 table, the write set and one version environment per arm.
 */
module BranchLowering {
  import opened Wrappers
  import opened BranchAst

  datatype Error =
    | UndecidableAlias
    | UnknownKeyType
    | UnknownWriteType
    | UnsupportedStatement
    | MissedWrite

  /** The identity of an index key inside a location path. */
  datatype KeyId = KLit(text: string) | KTmp(t: nat) | KRaw(src: Expr)
  datatype Seg = SField(f: string) | SKey(k: KeyId)
  datatype LocKey = LocKey(root: VarId, segs: seq<Seg>)

  datatype Rel = Same | Distinct | Unknown

  function SegRel(a: Seg, b: Seg): Rel {
    match (a, b)
    case (SField(x), SField(y)) => if x == y then Same else Distinct
    case (SKey(KLit(x)), SKey(KLit(y))) => if x == y then Same else Distinct
    case (SKey(KTmp(x)), SKey(KTmp(y))) => if x == y then Same else Unknown
    case _ => Unknown
  }

  /** Compares two paths on one root from position `i` on. */
  predicate AliasFrom(a: LocKey, b: LocKey, i: nat)
    decreases |a.segs| - i
  {
    if i >= |a.segs| || i >= |b.segs| then |a.segs| != |b.segs| || a == b
    else
      match SegRel(a.segs[i], b.segs[i])
      case Distinct => false
      case Same => AliasFrom(a, b, i + 1)
      case Unknown => true
  }

  predicate MayAlias(a: LocKey, b: LocKey) {
    a.root == b.root && AliasFrom(a, b, 0)
  }

  datatype Loc = Loc(key: LocKey, display: Path, ty: EType)
  datatype Row = Row(src: Expr, tmp: nat)

  /** What the pass knows besides the syntax: the top-level statement's own
      declarations, and the calls that are free of side effects. */
  datatype Cfg = Cfg(locals: set<VarId>, safeCall: string -> bool)

  function Lookup(rows: seq<Row>, k: Expr): Option<nat> {
    if rows == [] then None
    else if rows[0].src == k then Some(rows[0].tmp)
    else Lookup(rows[1..], k)
  }

  function KeyIdOf(k: Expr, rows: seq<Row>): KeyId {
    if k.Lit? then KLit(k.text)
    else match Lookup(rows, k) case Some(t) => KTmp(t) case None => KRaw(k)
  }

  function KeyText(k: Expr, rows: seq<Row>): Expr {
    if k.Lit? then k
    else match Lookup(rows, k) case Some(t) => Tmp(t) case None => k
  }

  function SegsOf(p: Path, rows: seq<Row>): seq<Seg> {
    match p
    case Var(_) => []
    case Field(b, f) => SegsOf(b, rows) + [SField(f)]
    case Index(b, k) => SegsOf(b, rows) + [SKey(KeyIdOf(k, rows))]
  }

  function KeyOf(p: Path, rows: seq<Row>): LocKey {
    LocKey(RootOf(p), SegsOf(p, rows))
  }

  function Display(p: Path, rows: seq<Row>): Path {
    match p
    case Var(v) => p
    case Field(b, f) => Field(Display(b, rows), f)
    case Index(b, k) => Index(Display(b, rows), KeyText(k, rows))
  }

  /** The declared key type of an indexed base is found through mappings and
      arrays, never through a struct field. */
  predicate KeyTypeKnown(base: Path) {
    match base
    case Var(_) => true
    case Field(_, _) => false
    case Index(b, _) => KeyTypeKnown(b)
  }

  datatype Keys = Keys(rows: seq<Row>, n: nat)

  function HoistKeys(p: Path, ks: Keys): Result<Keys, Error> {
    match p
    case Var(_) => Success(ks)
    case Field(b, _) => HoistKeys(b, ks)
    case Index(b, k) =>
      var ks1 :- HoistKeys(b, ks);
      if k.Lit? || Lookup(ks1.rows, k).Some? then Success(ks1)
      else if KeyTypeKnown(b) then Success(Keys(ks1.rows + [Row(k, ks1.n)], ks1.n + 1))
      else Failure(UnknownKeyType)
  }

  datatype Scan = Scan(writes: seq<Loc>, keys: Keys)

  predicate HasKey(writes: seq<Loc>, key: LocKey) {
    writes != [] && (writes[0].key == key || HasKey(writes[1..], key))
  }

  predicate MayAliasAny(writes: seq<Loc>, key: LocKey) {
    writes != [] && (MayAlias(writes[0].key, key) || MayAliasAny(writes[1..], key))
  }

  function RecordWrite(cfg: Cfg, p: Path, ty: Option<EType>, sc: Scan): Result<Scan, Error> {
    if ty.None? then Failure(UnknownWriteType)
    else if RootOf(p) in cfg.locals then Success(sc)
    else
      var ks :- HoistKeys(p, sc.keys);
      var key := KeyOf(p, ks.rows);
      if HasKey(sc.writes, key) then Success(Scan(sc.writes, ks))
      else if MayAliasAny(sc.writes, key) then Failure(UndecidableAlias)
      else Success(Scan(sc.writes + [Loc(key, Display(p, ks.rows), ty.value)], ks))
  }

  function ScanBranch(cfg: Cfg, s: Stmt, sc: Scan): Result<Scan, Error>
    decreases s
  {
    match s
    case Assign(p, ty, _) => RecordWrite(cfg, p, ty, sc)
    case Compound(p, ty, _, _) => RecordWrite(cfg, p, ty, sc)
    case IncDec(p, ty, _) => RecordWrite(cfg, p, ty, sc)
    case Decl(_, _) => Success(sc)
    case ExprStmt(_) => Success(sc)
    case Block(b) => ScanAll(cfg, b, sc)
    case Unchecked(b) => ScanAll(cfg, b, sc)
    case If(_, t, e) =>
      var sc1 :- ScanBranch(cfg, t, sc);
      if e.Some? then ScanBranch(cfg, e.value, sc1) else Success(sc1)
    case Other => Failure(UnsupportedStatement)
  }

  function ScanAll(cfg: Cfg, ss: seq<Stmt>, sc: Scan): Result<Scan, Error>
    decreases ss
  {
    if ss == [] then Success(sc)
    else
      var sc1 :- ScanBranch(cfg, ss[0], sc);
      ScanAll(cfg, ss[1..], sc1)
  }

  /** One arm's environment. `used` records the pre-values that were read. */
  datatype Env = Env(
    writes: seq<Loc>, rows: seq<Row>, pre: map<LocKey, nat>,
    versions: map<LocKey, nat>, decls: seq<nat>, used: set<LocKey>)
  {
    predicate IsPre(key: LocKey) {
      key in versions && key in pre && versions[key] == pre[key]
    }
    function Current(key: LocKey, display: Path): Expr {
      if key in versions then Tmp(versions[key]) else Read(display)
    }
    function Uses(key: LocKey): set<LocKey> {
      if IsPre(key) then {key} else {}
    }
    function Use(keys: set<LocKey>): Env {
      this.(used := used + keys)
    }
    function Bind(key: LocKey, t: nat): Env {
      this.(versions := versions[key := t], decls := decls + [t])
    }
  }

  datatype Rendered = Rendered(e: Expr, used: set<LocKey>)
  datatype RenderedArgs = RenderedArgs(es: seq<Expr>, used: set<LocKey>)

  function MemberOf(base: Expr, f: string): Expr {
    if base.Read? then Read(Field(base.p, f)) else App("." + f, [base])
  }

  function ElementOf(base: Expr, key: Expr): Expr {
    if base.Read? then Read(Index(base.p, key)) else App("[]", [base, key])
  }

  /** Renders an expression with reads of versioned locations substituted. */
  function Render(cfg: Cfg, e: Expr, env: Env): Result<Rendered, Error>
    decreases e
  {
    match e
    case Lit(_) => Success(Rendered(e, {}))
    case Tmp(_) => Success(Rendered(e, {}))
    case Read(p) => RenderPath(cfg, p, env)
    case App(op, args) =>
      var r :- RenderArgs(cfg, args, env);
      Success(Rendered(App(op, r.es), r.used))
    case Select(b, y, n) =>
      var rb :- Render(cfg, b, env);
      var ry :- Render(cfg, y, env);
      var rn :- Render(cfg, n, env);
      Success(Rendered(Select(rb.e, ry.e, rn.e), rb.used + ry.used + rn.used))
  }

  function RenderArgs(cfg: Cfg, es: seq<Expr>, env: Env): Result<RenderedArgs, Error>
    decreases es
  {
    if es == [] then Success(RenderedArgs([], {}))
    else
      var r :- Render(cfg, es[0], env);
      var rs :- RenderArgs(cfg, es[1..], env);
      Success(RenderedArgs([r.e] + rs.es, r.used + rs.used))
  }

  function RenderPath(cfg: Cfg, p: Path, env: Env): Result<Rendered, Error>
    decreases p
  {
    if RootOf(p) !in cfg.locals && HasKey(env.writes, KeyOf(p, env.rows)) then
      var key := KeyOf(p, env.rows);
      Success(Rendered(env.Current(key, Display(p, env.rows)), env.Uses(key)))
    else if RootOf(p) !in cfg.locals && MayAliasAny(env.writes, KeyOf(p, env.rows)) then
      Failure(UndecidableAlias)
    else
      match p
      case Var(_) => Success(Rendered(Read(p), {}))
      case Field(b, f) =>
        var rb :- RenderPath(cfg, b, env);
        Success(Rendered(MemberOf(rb.e, f), rb.used))
      case Index(b, k) =>
        var rb :- RenderPath(cfg, b, env);
        var rk :- Render(cfg, k, env);
        Success(Rendered(ElementOf(rb.e, rk.e), rb.used + rk.used))
  }

  /** Outside every frame nothing is versioned and the source text stands. */
  function RenderIn(cfg: Cfg, e: Expr, outer: Option<Env>): Result<Rendered, Error> {
    if outer.Some? then Render(cfg, e, outer.value) else Success(Rendered(e, {}))
  }

  function UseIn(outer: Option<Env>, keys: set<LocKey>): Option<Env> {
    if outer.Some? then Some(outer.value.Use(keys)) else None
  }

  datatype Out = Out(code: seq<TStmt>, env: Env, n: nat)

  /** A write inside an arm: a fresh version of a location, or a branch-local. */
  function WriteVersioned(cfg: Cfg, p: Path, value: Expr, env: Env, n: nat): Result<Out, Error> {
    if RootOf(p) in cfg.locals then Success(Out([SetLoc(p, value)], env, n))
    else
      var key := KeyOf(p, env.rows);
      if !HasKey(env.writes, key) then Failure(MissedWrite)
      else Success(Out([SetTmp(n, value)], env.Bind(key, n), n + 1))
  }

  /** The current value of an lvalue that a compound write reads first. */
  function ReadLvalue(cfg: Cfg, p: Path, env: Env): Rendered {
    if RootOf(p) in cfg.locals then Rendered(Read(p), {})
    else
      var key := KeyOf(p, env.rows);
      Rendered(env.Current(key, Display(p, env.rows)), env.Uses(key))
  }

  /** The text of what `++` and `--` assign. */
  function Stepped(current: Expr, increment: bool): Expr {
    App(if increment then "add" else "sub", [current, App("encrypt", [Lit("1")])])
  }

  function RenderStmt(cfg: Cfg, s: Stmt, env: Env, n: nat): Result<Out, Error>
    decreases s, 0
  {
    match s
    case Assign(p, _, e) =>
      var r :- Render(cfg, e, env);
      WriteVersioned(cfg, p, r.e, env.Use(r.used), n)
    case Compound(p, _, op, e) =>
      var l := ReadLvalue(cfg, p, env);
      var r :- Render(cfg, e, env);
      WriteVersioned(cfg, p, App(op, [l.e, r.e]), env.Use(l.used + r.used), n)
    case IncDec(p, _, inc) =>
      var l := ReadLvalue(cfg, p, env);
      WriteVersioned(cfg, p, Stepped(l.e, inc), env.Use(l.used), n)
    case Decl(v, init) =>
      if init.Some? then
        var r :- Render(cfg, init.value, env);
        Success(Out([NewLocal(v, Some(r.e))], env.Use(r.used), n))
      else Success(Out([NewLocal(v, None)], env, n))
    case ExprStmt(e) =>
      var r :- Render(cfg, e, env);
      Success(Out([Eval(r.e)], env.Use(r.used), n))
    case Block(b) =>
      var o :- RenderAll(cfg, b, env, n);
      Success(o.(code := [Scope(o.code)]))
    case Unchecked(b) =>
      var o :- RenderAll(cfg, b, env, n);
      Success(o.(code := [Scope(o.code)]))
    case If(_, _, _) =>
      var f :- RenderFrame(cfg, s, Some(env), n);
      Success(Out(f.code, f.outer.value, f.n))
    case Other => Failure(UnsupportedStatement)
  }

  function RenderAll(cfg: Cfg, ss: seq<Stmt>, env: Env, n: nat): Result<Out, Error>
    decreases ss
  {
    if ss == [] then Success(Out([], env, n))
    else
      var o :- RenderStmt(cfg, ss[0], env, n);
      var rest :- RenderAll(cfg, ss[1..], o.env, o.n);
      Success(Out(o.code + rest.code, rest.env, rest.n))
  }

  /** An arm: a block's statements stand at the arm's own level. */
  function RenderArm(cfg: Cfg, s: Stmt, env: Env, n: nat): Result<Out, Error>
    decreases s, 1
  {
    if s.Block? then RenderAll(cfg, s.body, env, n) else RenderStmt(cfg, s, env, n)
  }

  datatype FrameOut = FrameOut(code: seq<TStmt>, outer: Option<Env>, n: nat)

  datatype PreVal = PreVal(key: LocKey, tmp: nat, init: Expr)
  datatype PreOut = PreOut(pres: seq<PreVal>, outer: Option<Env>, n: nat)

  /** One candidate pre-value for every written location. */
  function AllocPre(writes: seq<Loc>, outer: Option<Env>, n: nat): (r: PreOut)
    ensures |r.pres| == |writes| && (r.outer.Some? <==> outer.Some?) && r.n == n + |writes|
    ensures forall i | 0 <= i < |writes| :: r.pres[i].key == writes[i].key && r.pres[i].tmp == n + i
  {
    if writes == [] then PreOut([], outer, n)
    else
      var l := writes[0];
      var init := if outer.Some? then outer.value.Current(l.key, l.display) else Read(l.display);
      var outer1 := if outer.Some? then Some(outer.value.Use(outer.value.Uses(l.key))) else None;
      var rest := AllocPre(writes[1..], outer1, n + 1);
      PreOut([PreVal(l.key, n, init)] + rest.pres, rest.outer, rest.n)
  }

  function PreMap(pres: seq<PreVal>): (r: map<LocKey, nat>)
    ensures forall i | 0 <= i < |pres| :: pres[i].key in r
  {
    if pres == [] then map[] else PreMap(pres[..|pres| - 1])[pres[|pres| - 1].key := pres[|pres| - 1].tmp]
  }

  function VersionOr(versions: map<LocKey, nat>, key: LocKey, pre: nat): nat {
    if key in versions then versions[key] else pre
  }

  datatype MergeOut = MergeOut(code: seq<TStmt>, outer: Option<Env>, n: nat, used: set<LocKey>)

  /** The merges, in first-write order.  With no `else` the other side is the pre-value. */
  function MergeAll(writes: seq<Loc>, cond: nat, pre: map<LocKey, nat>, thn: map<LocKey, nat>, els: map<LocKey, nat>,
                    outer: Option<Env>, n: nat, used: set<LocKey>): (r: MergeOut)
    requires forall l | l in writes :: l.key in pre
    ensures r.outer.Some? <==> outer.Some?
  {
    if writes == [] then MergeOut([], outer, n, used)
    else
      var l := writes[0];
      var tv := VersionOr(thn, l.key, pre[l.key]);
      var ev := VersionOr(els, l.key, pre[l.key]);
      var used1 := if tv == pre[l.key] || ev == pre[l.key] then used + {l.key} else used;
      var select := Select(Tmp(cond), Tmp(tv), Tmp(ev));
      if outer.Some? && HasKey(outer.value.writes, l.key) then
        var rest := MergeAll(writes[1..], cond, pre, thn, els, Some(outer.value.Bind(l.key, n)), n + 1, used1);
        rest.(code := [SetTmp(n, select)] + rest.code)
      else
        var rest := MergeAll(writes[1..], cond, pre, thn, els, outer, n, used1);
        rest.(code := [SetLoc(l.display, select)] + rest.code)
  }

  function KeyLets(rows: seq<Row>): seq<TStmt> {
    if rows == [] then [] else [Let(rows[0].tmp, rows[0].src)] + KeyLets(rows[1..])
  }

  /** Only the pre-values that something reads are emitted. */
  function PreLets(pres: seq<PreVal>, used: set<LocKey>): seq<TStmt> {
    if pres == [] then []
    else (if pres[0].key in used then [Let(pres[0].tmp, pres[0].init)] else []) + PreLets(pres[1..], used)
  }

  function Declares(ts: seq<nat>): seq<TStmt> {
    if ts == [] then [] else [Declare(ts[0])] + Declares(ts[1..])
  }

  function ScanFrame(cfg: Cfg, s: Stmt, n: nat): Result<Scan, Error>
    requires s.If?
  {
    var sc :- ScanBranch(cfg, s.thn, Scan([], Keys([], n)));
    if s.els.Some? then ScanBranch(cfg, s.els.value, sc) else Success(sc)
  }

  /** The frame after its arms are rendered. */
  function Assemble(condTemp: nat, cond: Expr, rows: seq<Row>, pres: seq<PreVal>, used: set<LocKey>,
                    thn: Out, els: Option<Out>, merges: seq<TStmt>): seq<TStmt> {
    [Let(condTemp, cond)] + KeyLets(rows) + PreLets(pres, used)
    + Declares(thn.env.decls) + [Scope(thn.code)]
    + (if els.Some? then Declares(els.value.env.decls) + [Scope(els.value.code)] else [])
    + merges
  }

  function RenderFrame(cfg: Cfg, s: Stmt, outer: Option<Env>, n: nat): (r: Result<FrameOut, Error>)
    requires s.If?
    ensures r.Success? ==> (r.value.outer.Some? <==> outer.Some?)
    decreases s, 0, 1
  {
    var direct :- TryDirect(cfg, s, outer, n);
    if direct.Some? then Success(direct.value) else RenderGeneral(cfg, s, outer, n)
  }

  function RenderGeneral(cfg: Cfg, s: Stmt, outer: Option<Env>, n: nat): (r: Result<FrameOut, Error>)
    requires s.If?
    ensures r.Success? ==> (r.value.outer.Some? <==> outer.Some?)
    decreases s, 0, 0
  {
    var cond :- RenderIn(cfg, s.cond, outer);
    var sc :- ScanFrame(cfg, s, n + 1);
    var pre := AllocPre(sc.writes, UseIn(outer, cond.used), sc.keys.n);
    var preMap := PreMap(pre.pres);
    var env := Env(sc.writes, sc.keys.rows, preMap, preMap, [], {});
    var thn :- RenderArm(cfg, s.thn, env, pre.n);
    var els :- if s.els.Some?
               then (var o :- RenderArm(cfg, s.els.value, env.Use(thn.env.used), thn.n); Success(Some(o)))
               else Success(None);
    var last := if els.Some? then els.value else thn;
    var elsVersions := if els.Some? then els.value.env.versions else map[];
    var mg := MergeAll(sc.writes, n, preMap, thn.env.versions, elsVersions, pre.outer, last.n, last.env.used);
    Success(FrameOut([Scope(Assemble(n, cond.e, sc.keys.rows, pre.pres, mg.used, thn, els, mg.code))],
                     mg.outer, mg.n))
  }

  datatype Plain = Plain(lhs: Path, ty: Option<EType>, rhs: Expr)

  function SinglePlainAssign(s: Stmt): Option<Plain>
    decreases s
  {
    match s
    case Block(b) => if |b| == 1 then SinglePlainAssign(b[0]) else None
    case Assign(p, ty, e) => Some(Plain(p, ty, e))
    case _ => None
  }

  predicate SelectSafe(cfg: Cfg, e: Expr)
    decreases e
  {
    match e
    case Lit(_) => true
    case Tmp(_) => true
    case Read(p) => SelectSafePath(cfg, p)
    case App(op, args) => cfg.safeCall(op) && forall a | a in args :: SelectSafe(cfg, a)
    case Select(b, y, n) => SelectSafe(cfg, b) && SelectSafe(cfg, y) && SelectSafe(cfg, n)
  }

  predicate SelectSafePath(cfg: Cfg, p: Path)
    decreases p
  {
    match p
    case Var(_) => true
    case Field(b, _) => SelectSafePath(cfg, b)
    case Index(b, k) => SelectSafePath(cfg, b) && SelectSafe(cfg, k)
  }

  datatype DirectIf = DirectIf(v: VarId, ty: EType, yes: Expr, no: Expr)

  /** The shape the direct `L = select(c, a, b)` form is for. */
  function DirectShape(cfg: Cfg, s: Stmt): Result<Option<DirectIf>, Error>
    requires s.If?
  {
    if s.els.None? then Success(None)
    else
      var a, b := SinglePlainAssign(s.thn), SinglePlainAssign(s.els.value);
      if a.None? || b.None? then Success(None)
      else if !SelectSafe(cfg, s.cond) || !SelectSafe(cfg, a.value.rhs) || !SelectSafe(cfg, b.value.rhs) then Success(None)
      else if !(a.value.lhs.Var? && b.value.lhs == a.value.lhs && a.value.lhs.v !in cfg.locals) then Success(None)
      else if a.value.ty.None? || b.value.ty.None? then Failure(UnknownWriteType)
      else if a.value.ty != b.value.ty then Success(None)
      else Success(Some(DirectIf(a.value.lhs.v, a.value.ty.value, a.value.rhs, b.value.rhs)))
  }

  function TryDirect(cfg: Cfg, s: Stmt, outer: Option<Env>, n: nat): Result<Option<FrameOut>, Error>
    requires s.If?
  {
    var shape :- DirectShape(cfg, s);
    if shape.None? then Success(None)
    else
      var d := shape.value;
      var c :- RenderIn(cfg, s.cond, outer);
      var y :- RenderIn(cfg, d.yes, outer);
      var z :- RenderIn(cfg, d.no, outer);
      var outer1 := UseIn(outer, c.used + y.used + z.used);
      var key := LocKey(d.v, []);
      var select := Select(c.e, y.e, z.e);
      if outer1.Some? && HasKey(outer1.value.writes, key)
      then Success(Some(FrameOut([SetTmp(n, select)], Some(outer1.value.Bind(key, n)), n + 1)))
      else Success(Some(FrameOut([SetLoc(Var(d.v), select)], outer1, n)))
  }

  /** The variables a statement declares. */
  function Decls(s: Stmt): set<VarId>
    decreases s
  {
    match s
    case Decl(v, _) => {v}
    case Block(b) => DeclsAll(b)
    case Unchecked(b) => DeclsAll(b)
    case If(_, t, e) => Decls(t) + (if e.Some? then Decls(e.value) else {})
    case _ => {}
  }

  function DeclsAll(ss: seq<Stmt>): set<VarId>
    decreases ss
  {
    if ss == [] then {} else Decls(ss[0]) + DeclsAll(ss[1..])
  }

  /** Lowers one top-level encrypted `if`: the emitted statements. */
  function LowerTopIf(safeCall: string -> bool, s: Stmt, n: nat): Result<FrameOut, Error>
    requires s.If?
  {
    RenderFrame(Cfg(Decls(s), safeCall), s, None, n)
  }
}
