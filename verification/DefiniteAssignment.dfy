/**
 The definite-assignment walk of crates/fhec-check/src/walk.rs, with the
 assignment rules of crates/fhec-check/src/ops.rs, as a function of the checker's
 state.  Names are resolved to slots; every slot is an encrypted local.
 */
module DefiniteAssignment {
  import opened Wrappers

  type Slot = nat
  type Slots = set<Slot>

  /**
   What an expression does with slots.  `uses` are operands of lowered operations,
   which are checked on the spot.  Any other read may hand the slot's value on.
   */
  datatype Expr = Expr(flows: Slots, uses: Slots)

  /** A component of a tuple assignment: a local, storage, or nothing. */
  datatype Target = Local(x: Slot) | Elsewhere | Hole

  datatype Clause = Clause(params: Slots, body: seq<Stmt>)

  datatype Stmt =
    | Decl(x: Slot, init: Option<Expr>)
    | DeclTuple(xs: seq<Option<Slot>>, parts: seq<Expr>)
    | Assign(x: Slot, e: Expr)
    | TupleAssign(targets: seq<Target>, parts: seq<Expr>)
    | Compound(x: Slot, e: Expr)
    | Store(e: Expr)
    | ExprStmt(e: Expr)
    | Block(body: seq<Stmt>)
    | If(c: Expr, thn: Stmt, els: Option<Stmt>)
    | EncryptedIf(c: Expr, thn: Stmt, els: Option<Stmt>)
    | While(c: Expr, loop: Stmt)
    | DoWhile(loop: Stmt, c: Expr)
    | For(first: Option<Stmt>, cond: Option<Expr>, next: Option<Expr>, loop: Stmt)
    | Break
    | Continue
    | Return(value: Option<Expr>)
    | Revert(e: Expr)
    | Halt(e: Expr)
    | Emit(e: Expr)
    | Try(e: Expr, clauses: seq<Clause>)
    | Assembly

  /** `Uninit` is FHE2007; `Rejected` is any construct an encrypted branch may not hold. */
  datatype Diag = Uninit(x: Slot) | Rejected

  /** The function being checked: how deep in encrypted branches each slot was
      declared, and the encrypted named returns. */
  datatype Fn = Fn(depth: map<Slot, nat>, named: Slots)

  function DepthOf(f: Fn, x: Slot): nat {
    if x in f.depth then f.depth[x] else 0
  }

  /** The checker's state. `sure` are the slots assigned on every path. */
  datatype Ck = Ck(
    sure: Slots, branchDepth: nat,
    branchWrites: seq<Slots>, branchReads: seq<Slots>,
    terminated: bool, breaks: seq<seq<Slots>>, continues: seq<seq<Slots>>,
    diags: set<Diag>)

  function OnTop<T>(stack: seq<T>, top: T): seq<T>
    requires stack != []
  {
    stack[..|stack| - 1] + [top]
  }

  function Top<T>(stack: seq<T>): T
    requires stack != []
  {
    stack[|stack| - 1]
  }

  function Pop<T>(stack: seq<T>): seq<T> {
    if stack == [] then [] else stack[..|stack| - 1]
  }

  function TopSlots(stack: seq<Slots>): Slots {
    if stack == [] then {} else Top(stack)
  }

  function TopStates(stack: seq<seq<Slots>>): seq<Slots> {
    if stack == [] then [] else Top(stack)
  }

  function AddSlots(stack: seq<Slots>, xs: Slots): seq<Slots> {
    if stack == [] then [] else OnTop(stack, Top(stack) + xs)
  }

  function AddState(stack: seq<seq<Slots>>, state: Slots): seq<seq<Slots>> {
    if stack == [] then [] else OnTop(stack, Top(stack) + [state])
  }

  predicate InBranch(ck: Ck) {
    ck.branchDepth > 0
  }

  function Reject(ck: Ck): Ck {
    if InBranch(ck) then ck.(diags := ck.diags + {Rejected}) else ck
  }

  /** The slots that outlive the innermost encrypted branch. */
  function Outer(f: Fn, ck: Ck, xs: Slots): Slots {
    set x | x in xs && DepthOf(f, x) < ck.branchDepth
  }

  function NoteReads(f: Fn, xs: Slots, ck: Ck): Ck {
    if InBranch(ck) then ck.(branchReads := AddSlots(ck.branchReads, Outer(f, ck, xs - ck.sure))) else ck
  }

  function Flag(xs: Slots, ck: Ck): Ck {
    ck.(diags := ck.diags + set x | x in xs - ck.sure :: Uninit(x))
  }

  /** Typing an expression: unassigned reads are noted, checked uses flagged. */
  function TypeExpr(f: Fn, e: Expr, ck: Ck): Ck {
    Flag(e.uses, NoteReads(f, e.flows + e.uses, ck))
  }

  function TypeAll(f: Fn, es: seq<Expr>, ck: Ck): Ck {
    if es == [] then ck else TypeAll(f, es[1..], TypeExpr(f, es[0], ck))
  }

  /** Typing an expression all of whose reads are checked. */
  function TypeChecked(f: Fn, e: Expr, ck: Ck): Ck {
    Flag(e.flows, TypeExpr(f, e, ck))
  }

  function TypeOption(f: Fn, e: Option<Expr>, ck: Ck): Ck {
    if e.Some? then TypeExpr(f, e.value, ck) else ck
  }

  /** An assignment to a slot: assigned, and logged in the innermost branch. */
  function NoteAssign(f: Fn, x: Slot, ck: Ck): Ck {
    ck.(sure := ck.sure + {x},
        branchWrites := if InBranch(ck) then AddSlots(ck.branchWrites, Outer(f, ck, {x})) else ck.branchWrites)
  }

  /** A copy of an unassigned value leaves the target unassigned. */
  function Put(f: Fn, x: Slot, tainted: bool, ck: Ck): Ck {
    var c := NoteAssign(f, x, ck);
    if tainted then c.(sure := c.sure - {x}) else c
  }

  function Declare(x: Slot, isSet: bool, ck: Ck): Ck {
    ck.(sure := if isSet then ck.sure + {x} else ck.sure - {x})
  }

  function UnionFlows(es: seq<Expr>): Slots {
    if es == [] then {} else es[0].flows + UnionFlows(es[1..])
  }

  /** The reads that may reach a component: its own part's, or everything when the
      right side cannot be paired. */
  function PartFlows(parts: seq<Expr>, n: nat, k: nat): Slots
    requires k < n
  {
    if |parts| == n then parts[k].flows else UnionFlows(parts)
  }

  /** The components from `k` on; `before` are the slots assigned when the right side was typed. */
  function PutAll(f: Fn, targets: seq<Target>, parts: seq<Expr>, before: Slots, k: nat, ck: Ck): Ck
    requires k <= |targets|
    decreases |targets| - k
  {
    if k == |targets| then ck
    else
      var rs := PartFlows(parts, |targets|, k);
      var next :=
        match targets[k]
        case Local(x) => Put(f, x, !(rs <= before), ck)
        case Elsewhere => ck.(diags := ck.diags + set x | x in rs - before :: Uninit(x))
        case Hole => ck;
      PutAll(f, targets, parts, before, k + 1, next)
  }

  /** Declared components are only paired; an unpaired right side counts as assigned. */
  function DeclareAll(xs: seq<Option<Slot>>, parts: seq<Expr>, before: Slots, k: nat, ck: Ck): Ck
    requires k <= |xs|
    decreases |xs| - k
  {
    if k == |xs| then ck
    else
      var next := if xs[k].Some? then Declare(xs[k].value, |parts| != |xs| || parts[k].flows <= before, ck) else ck;
      DeclareAll(xs, parts, before, k + 1, next)
  }

  function Meet(states: seq<Slots>): Slots
    requires states != []
  {
    if |states| == 1 then states[0] else states[0] * Meet(states[1..])
  }

  /** The state every candidate can reach; nothing reaches it when there is none. */
  function JoinAll(candidates: seq<Slots>, ck: Ck): Ck {
    if candidates == [] then ck else ck.(sure := Meet(candidates))
  }

  function CheckNamed(f: Fn, ck: Ck): Ck {
    Flag(f.named, ck)
  }

  function OpenLoop(ck: Ck): Ck {
    ck.(breaks := ck.breaks + [[]], continues := ck.continues + [[]])
  }

  function CloseLoop(ck: Ck): Ck {
    ck.(breaks := Pop(ck.breaks), continues := Pop(ck.continues))
  }

  function FellState(ck: Ck): seq<Slots> {
    if ck.terminated then [] else [ck.sure]
  }

  function OpenBranch(ck: Ck): Ck {
    ck.(branchDepth := ck.branchDepth + 1, branchWrites := ck.branchWrites + [{}], branchReads := ck.branchReads + [{}])
  }

  /** The end of one arm, and the beginning of the other. */
  function NextArm(snap: Slots, ck: Ck): Ck {
    ck.(sure := snap, branchWrites := Pop(ck.branchWrites) + [{}], branchReads := Pop(ck.branchReads) + [{}])
  }

  /** The slots whose merge needs the value from before the branch. */
  function NeedsPre(oneArm: bool, thn: Ck, els: Ck): Slots {
    set x | x in TopSlots(thn.branchWrites) + TopSlots(els.branchWrites)
            && (oneArm || x !in thn.sure || x !in els.sure || x in TopSlots(thn.branchReads) + TopSlots(els.branchReads))
  }

  /** What is assigned after both arms: a written slot joins the arms alone. */
  function Merged(snap: Slots, thn: Ck, els: Ck): Slots {
    var tw, ew := TopSlots(thn.branchWrites), TopSlots(els.branchWrites);
    (set x | x in snap * thn.sure * els.sure && x !in tw + ew)
    + (set x | x in tw + ew && (if (x in tw && x in ew) || x in snap then x in thn.sure && x in els.sure else true))
  }

  function CloseBranch(f: Fn, snap: Slots, terminated: bool, oneArm: bool, thn: Ck, els: Ck): Ck {
    var down := els.(branchDepth := if els.branchDepth > 0 then els.branchDepth - 1 else 0,
                     branchWrites := Pop(els.branchWrites), branchReads := Pop(els.branchReads), terminated := terminated);
    var ws := TopSlots(thn.branchWrites) + TopSlots(els.branchWrites);
    down.(sure := Merged(snap, thn, els),
          diags := down.diags + (set x | x in NeedsPre(oneArm, thn, els) - snap :: Uninit(x)),
          branchWrites := if InBranch(down) then AddSlots(down.branchWrites, Outer(f, down, ws)) else down.branchWrites)
  }

  function Walk(f: Fn, s: Stmt, ck: Ck): Ck
    decreases s, 1
  {
    match s
    case Decl(x, init) =>
      var c := TypeOption(f, init, ck);
      Declare(x, init.Some? && init.value.flows <= ck.sure, c)
    case DeclTuple(xs, parts) => DeclareAll(xs, parts, ck.sure, 0, TypeAll(f, parts, ck))
    case Assign(x, e) => Put(f, x, !(e.flows <= ck.sure), TypeExpr(f, e, ck))
    case TupleAssign(targets, parts) => PutAll(f, targets, parts, ck.sure, 0, TypeAll(f, parts, ck))
    case Compound(x, e) => NoteAssign(f, x, Flag({x}, TypeChecked(f, e, ck)))
    case Store(e) => TypeChecked(f, e, ck)
    case ExprStmt(e) => TypeExpr(f, e, ck)
    case Block(b) => WalkBlock(f, b, ck)
    case If(c, t, e) => WalkIf(f, s, TypeExpr(f, c, ck))
    case EncryptedIf(c, t, e) => WalkEncryptedIf(f, s, TypeChecked(f, c, ck))
    case While(c, b) => WalkWhile(f, s, TypeExpr(f, c, Reject(ck)))
    case DoWhile(b, c) => WalkDo(f, s, Reject(ck))
    case For(init, cond, next, b) =>
      var c0 := Reject(ck);
      var c1 := if init.Some? then Walk(f, init.value, c0) else c0;
      WalkFor(f, s, TypeOption(f, cond, c1))
    case Break =>
      if InBranch(ck) then Reject(ck).(terminated := true)
      else ck.(breaks := AddState(ck.breaks, ck.sure), terminated := true)
    case Continue =>
      if InBranch(ck) then Reject(ck).(terminated := true)
      else ck.(continues := AddState(ck.continues, ck.sure), terminated := true)
    case Return(v) =>
      var c := Reject(ck);
      (if v.Some? then TypeChecked(f, v.value, c) else if InBranch(c) then c else CheckNamed(f, c)).(terminated := true)
    case Revert(e) => TypeExpr(f, e, Reject(ck)).(terminated := true)
    case Halt(e) => TypeExpr(f, e, Reject(ck)).(terminated := true)
    case Emit(e) => TypeExpr(f, e, Reject(ck))
    case Try(e, clauses) =>
      var c := TypeExpr(f, e, Reject(ck));
      var r := WalkClauses(f, clauses, c.sure, c.terminated, c);
      JoinAll(r.outs, r.ck).(terminated := c.terminated || r.outs == [])
    case Assembly => Reject(ck)
  }

  /** Nothing after a terminating statement is walked. */
  function WalkBlock(f: Fn, ss: seq<Stmt>, ck: Ck): Ck
    decreases ss, 0
  {
    if ss == [] || ck.terminated then ck else WalkBlock(f, ss[1..], Walk(f, ss[0], ck))
  }

  function WalkIf(f: Fn, s: Stmt, c: Ck): Ck
    requires s.If?
    decreases s, 0
  {
    var ck := Reject(c);
    var t := Walk(f, s.thn, ck);
    var c2 := t.(sure := ck.sure, terminated := ck.terminated);
    var e := if s.els.Some? then Walk(f, s.els.value, c2) else c2;
    var elsTerminated := s.els.Some? && e.terminated;
    JoinAll(FellState(t) + (if elsTerminated then [] else [e.sure]), e)
      .(terminated := ck.terminated || (t.terminated && elsTerminated))
  }

  function WalkEncryptedIf(f: Fn, s: Stmt, ck: Ck): Ck
    requires s.EncryptedIf?
    decreases s, 0
  {
    var t := Walk(f, s.thn, OpenBranch(ck));
    var c2 := NextArm(ck.sure, t);
    var e := if s.els.Some? then Walk(f, s.els.value, c2) else c2;
    CloseBranch(f, ck.sure, ck.terminated, s.els.None?, t, e)
  }

  function WalkWhile(f: Fn, s: Stmt, ck: Ck): Ck
    requires s.While?
    decreases s, 0
  {
    var b := Walk(f, s.loop, OpenLoop(ck));
    JoinAll([ck.sure] + FellState(b) + TopStates(b.breaks) + TopStates(b.continues), CloseLoop(b)).(terminated := ck.terminated)
  }

  function WalkDo(f: Fn, s: Stmt, ck: Ck): Ck
    requires s.DoWhile?
    decreases s, 0
  {
    var b := Walk(f, s.loop, OpenLoop(ck));
    var candidates := FellState(b) + TopStates(b.breaks) + TopStates(b.continues);
    JoinAll(candidates, TypeExpr(f, s.c, CloseLoop(b))).(terminated := ck.terminated || candidates == [])
  }

  /** The trailing expression is typed once: after the body, or at the join of the
      `continue` points when the body never falls through. */
  function TypeNext(f: Fn, next: Option<Expr>, b: Ck): Ck {
    if next.None? then b
    else if !b.terminated then TypeExpr(f, next.value, b)
    else if TopStates(b.continues) == [] then b
    else TypeExpr(f, next.value, JoinAll(TopStates(b.continues), b)).(sure := b.sure)
  }

  function WalkFor(f: Fn, s: Stmt, ck: Ck): Ck
    requires s.For?
    decreases s, 0
  {
    var b := TypeNext(f, s.next, Walk(f, s.loop, OpenLoop(ck)));
    JoinAll([ck.sure] + FellState(b) + TopStates(b.breaks) + TopStates(b.continues), CloseLoop(b)).(terminated := ck.terminated)
  }

  datatype Clauses = Clauses(outs: seq<Slots>, ck: Ck)

  /** Each clause starts from the state before the call; those that fall through are joined. */
  function WalkClauses(f: Fn, clauses: seq<Clause>, snap: Slots, terminated: bool, ck: Ck): Clauses
    decreases clauses, 0
  {
    if clauses == [] then Clauses([], ck)
    else
      var c := clauses[0];
      var r := WalkBlock(f, c.body, ck.(sure := snap + c.params, terminated := terminated));
      var rest := WalkClauses(f, clauses[1..], snap, terminated, r);
      Clauses(FellState(r) + rest.outs, rest.ck)
  }

  predicate HasAssembly(s: Stmt)
    decreases s
  {
    match s
    case Assembly => true
    case Block(b) => HasAssemblyIn(b)
    case If(_, t, e) => HasAssembly(t) || (e.Some? && HasAssembly(e.value))
    case EncryptedIf(_, t, e) => HasAssembly(t) || (e.Some? && HasAssembly(e.value))
    case While(_, b) => HasAssembly(b)
    case DoWhile(b, _) => HasAssembly(b)
    case For(i, _, _, b) => (i.Some? && HasAssembly(i.value)) || HasAssembly(b)
    case Try(_, cs) => HasAssemblyClauses(cs)
    case _ => false
  }

  predicate HasAssemblyIn(ss: seq<Stmt>)
    decreases ss
  {
    ss != [] && (HasAssembly(ss[0]) || HasAssemblyIn(ss[1..]))
  }

  predicate HasAssemblyClauses(cs: seq<Clause>)
    decreases cs
  {
    cs != [] && (HasAssemblyIn(cs[0].body) || HasAssemblyClauses(cs[1..]))
  }

  function Start(params: Slots): Ck {
    Ck(params, 0, [], [], false, [], [], {})
  }

  /** The whole check of one function. */
  function CheckFunction(f: Fn, params: Slots, body: seq<Stmt>, riskyModifier: bool): set<Diag> {
    var ck0 := Start(params - f.named);
    var ck1 := if f.named != {} && (riskyModifier || HasAssemblyIn(body)) then CheckNamed(f, ck0) else ck0;
    var ck2 := WalkBlock(f, body, ck1);
    (if ck2.terminated then ck2 else CheckNamed(f, ck2)).diags
  }
}
