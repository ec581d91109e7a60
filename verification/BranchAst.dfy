/**
 The two languages of the encrypted-`if` lowering.

 Source statements are the forms an arm of an encrypted `if` may contain; their
 meaning is the big-step one, in which the condition picks one arm.  Emitted
 statements are straight-line code: both arms run, and a `select` merges them.
 */
module BranchAst {
  import opened Wrappers

  type VarId = nat

  /** A storage, memory or stack cell: where the root lives, then the path below it. */
  datatype Step = RootStep(v: VarId) | FieldStep(f: string) | KeyStep(k: int)
  type Cell = seq<Step>
  type Cells = map<Cell, int>

  /** Encrypted value types (crates/fhec-ir/src/etype.rs). */
  datatype EType = Ebool | Euint(bits: nat) | Eaddress

  /** Expressions. `Tmp` occurs in emitted code only. */
  datatype Expr =
    | Lit(text: string)
    | Tmp(t: nat)
    | Read(p: Path)
    | App(op: string, args: seq<Expr>)
    | Select(cond: Expr, yes: Expr, no: Expr)

  /** Access paths: a resolved variable, then fields and index keys. */
  datatype Path =
    | Var(v: VarId)
    | Field(base: Path, f: string)
    | Index(base: Path, key: Expr)

  datatype Stmt =
    | Assign(lhs: Path, ty: Option<EType>, rhs: Expr)
    | Compound(lhs: Path, ty: Option<EType>, op: string, rhs: Expr)
    | IncDec(lhs: Path, ty: Option<EType>, increment: bool)
    | Decl(v: VarId, init: Option<Expr>)
    | ExprStmt(e: Expr)
    | Block(body: seq<Stmt>)
    | Unchecked(body: seq<Stmt>)
    | If(cond: Expr, thn: Stmt, els: Option<Stmt>)
    | Other

  /** Emitted statements. `Let` declares and assigns a temporary. */
  datatype TStmt =
    | Let(t: nat, e: Expr)
    | Declare(t: nat)
    | SetTmp(t: nat, e: Expr)
    | SetLoc(p: Path, e: Expr)
    | NewLocal(v: VarId, init: Option<Expr>)
    | Eval(e: Expr)
    | Scope(body: seq<TStmt>)

  /**
   What the operators, the literals and the variables stand for.  Everything
   proved about the lowering holds for every choice.  `place` says where each
   variable lives, so two storage pointers may or may not overlap.
   */
  datatype Meaning = Meaning(lit: string -> int, op: (string, seq<int>) -> int, place: VarId -> Cell)

  function Load(c: Cells, cell: Cell): int {
    if cell in c then c[cell] else 0
  }

  function TempOf(t: map<nat, int>, i: nat): int {
    if i in t then t[i] else 0
  }

  function ValueOf(m: Meaning, e: Expr, c: Cells, t: map<nat, int>): int
    decreases e
  {
    match e
    case Lit(text) => m.lit(text)
    case Tmp(i) => TempOf(t, i)
    case Read(p) => Load(c, CellOf(m, p, c, t))
    case App(op, args) => m.op(op, ValuesOf(m, args, c, t))
    case Select(b, y, n) =>
      if ValueOf(m, b, c, t) != 0 then ValueOf(m, y, c, t) else ValueOf(m, n, c, t)
  }

  function ValuesOf(m: Meaning, es: seq<Expr>, c: Cells, t: map<nat, int>): seq<int>
    decreases es
  {
    if es == [] then [] else [ValueOf(m, es[0], c, t)] + ValuesOf(m, es[1..], c, t)
  }

  function CellOf(m: Meaning, p: Path, c: Cells, t: map<nat, int>): Cell
    decreases p
  {
    match p
    case Var(v) => m.place(v)
    case Field(b, f) => CellOf(m, b, c, t) + [FieldStep(f)]
    case Index(b, k) => CellOf(m, b, c, t) + [KeyStep(ValueOf(m, k, c, t))]
  }

  function RootOf(p: Path): VarId {
    match p
    case Var(v) => v
    case Field(b, _) => RootOf(b)
    case Index(b, _) => RootOf(b)
  }

  /** What `++` and `--` make of a value: an encrypted one is added or subtracted. */
  function Moved(m: Meaning, value: int, increment: bool): int {
    m.op(if increment then "add" else "sub", [value, m.op("encrypt", [m.lit("1")])])
  }

  /** A declaration gives the whole variable its default, then its initial value. */
  function Declared(m: Meaning, v: VarId, value: int, c: Cells): Cells {
    (map cell | cell in c && !(m.place(v) <= cell) :: c[cell])[m.place(v) := value]
  }

  function InitValue(m: Meaning, init: Option<Expr>, c: Cells, t: map<nat, int>): int {
    if init.Some? then ValueOf(m, init.value, c, t) else 0
  }

  /** Source meaning: the condition picks one arm. */
  function Exec(m: Meaning, s: Stmt, c: Cells): Cells
    decreases s
  {
    match s
    case Assign(p, _, e) => c[CellOf(m, p, c, map[]) := ValueOf(m, e, c, map[])]
    case Compound(p, _, op, e) => c[CellOf(m, p, c, map[]) := ValueOf(m, App(op, [Read(p), e]), c, map[])]
    case IncDec(p, _, inc) => c[CellOf(m, p, c, map[]) := Moved(m, Load(c, CellOf(m, p, c, map[])), inc)]
    case Decl(v, init) => Declared(m, v, InitValue(m, init, c, map[]), c)
    case ExprStmt(_) => c
    case Block(b) => ExecAll(m, b, c)
    case Unchecked(b) => ExecAll(m, b, c)
    case If(b, t, e) =>
      if ValueOf(m, b, c, map[]) != 0 then Exec(m, t, c)
      else if e.Some? then Exec(m, e.value, c) else c
    case Other => c
  }

  function ExecAll(m: Meaning, ss: seq<Stmt>, c: Cells): Cells
    decreases ss
  {
    if ss == [] then c else ExecAll(m, ss[1..], Exec(m, ss[0], c))
  }

  /** The state of emitted code: cells, assigned temporaries, declared temporaries. */
  datatype State = State(cells: Cells, temps: map<nat, int>, declared: set<nat>)

  /** Every temporary an expression reads has been assigned. */
  predicate Defined(e: Expr, t: map<nat, int>)
    decreases e
  {
    match e
    case Lit(_) => true
    case Tmp(i) => i in t
    case Read(p) => DefinedPath(p, t)
    case App(_, args) => forall a | a in args :: Defined(a, t)
    case Select(b, y, n) => Defined(b, t) && Defined(y, t) && Defined(n, t)
  }

  predicate DefinedPath(p: Path, t: map<nat, int>)
    decreases p
  {
    match p
    case Var(_) => true
    case Field(b, _) => DefinedPath(b, t)
    case Index(b, k) => DefinedPath(b, t) && Defined(k, t)
  }

  function Visible(temps: map<nat, int>, declared: set<nat>): map<nat, int> {
    map t | t in temps && t in declared :: temps[t]
  }

  /**
   One emitted statement.  There is no next state when the statement declares a
   declared temporary, assigns an undeclared or an already assigned one, or reads
   an unassigned one: a run that succeeds is in single-assignment form.  Leaving a
   scope drops what was declared inside it.
   */
  function Step1(m: Meaning, x: TStmt, s: State): Option<State>
    decreases x
  {
    match x
    case Let(t, e) =>
      if Defined(e, s.temps) && t !in s.declared && t !in s.temps
      then Some(s.(temps := s.temps[t := ValueOf(m, e, s.cells, s.temps)], declared := s.declared + {t}))
      else None
    case Declare(t) =>
      if t !in s.declared then Some(s.(declared := s.declared + {t})) else None
    case SetTmp(t, e) =>
      if Defined(e, s.temps) && t in s.declared && t !in s.temps
      then Some(s.(temps := s.temps[t := ValueOf(m, e, s.cells, s.temps)]))
      else None
    case SetLoc(p, e) =>
      if DefinedPath(p, s.temps) && Defined(e, s.temps)
      then Some(s.(cells := s.cells[CellOf(m, p, s.cells, s.temps) := ValueOf(m, e, s.cells, s.temps)]))
      else None
    case NewLocal(v, init) =>
      if init.Some? ==> Defined(init.value, s.temps)
      then Some(s.(cells := Declared(m, v, InitValue(m, init, s.cells, s.temps), s.cells)))
      else None
    case Eval(e) => if Defined(e, s.temps) then Some(s) else None
    case Scope(b) =>
      var r :- Run(m, b, s);
      Some(State(r.cells, Visible(r.temps, s.declared), s.declared))
  }

  function Run(m: Meaning, code: seq<TStmt>, s: State): Option<State>
    decreases code
  {
    if code == [] then Some(s)
    else
      var r :- Step1(m, code[0], s);
      Run(m, code[1..], r)
  }

  lemma {:induction false} RunAppend(m: Meaning, a: seq<TStmt>, b: seq<TStmt>, s: State)
    ensures Run(m, a + b, s) == (var r := Run(m, a, s); if r.None? then None else Run(m, b, r.value))
    decreases a
  {
    if a == [] {
      assert a + b == b;
    } else {
      assert (a + b)[0] == a[0] && (a + b)[1..] == a[1..] + b;
      var r := Step1(m, a[0], s);
      if r.Some? {
        RunAppend(m, a[1..], b, r.value);
      }
    }
  }
}
