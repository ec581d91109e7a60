/**
 Runs of a function over encrypted handles.  A handle is either initialised or the
 default one, and copies hand it on.  `init` is the set of slots that hold an
 initialised handle; what a plaintext condition decides is left open.
 */
module DefiniteRuns {
  import opened Wrappers
  import opened DefiniteAssignment
  import opened DefiniteFrames

  /** How a statement ends.  `Bad`: a default handle reached a checked use, a return
      value, storage, or an encrypted named return at an exit. */
  datatype Outcome = Fell(init: Slots) | Broke(init: Slots) | Continued(init: Slots) | Returned | Reverted | Bad

  /** The slots a statement assigns, declarations apart. */
  function Targets(s: Stmt): Slots
    decreases s
  {
    match s
    case Assign(x, _) => {x}
    case TupleAssign(targets, _) => LocalsFrom(targets, 0)
    case Compound(x, _) => {x}
    case Block(b) => TargetsAll(b)
    case If(_, t, e) => Targets(t) + (if e.Some? then Targets(e.value) else {})
    case EncryptedIf(_, t, e) => Targets(t) + (if e.Some? then Targets(e.value) else {})
    case While(_, b) => Targets(b)
    case DoWhile(b, _) => Targets(b)
    case For(i, _, _, b) => (if i.Some? then Targets(i.value) else {}) + Targets(b)
    case Try(_, cs) => TargetsClauses(cs)
    case _ => {}
  }

  function TargetsAll(ss: seq<Stmt>): Slots
    decreases ss
  {
    if ss == [] then {} else Targets(ss[0]) + TargetsAll(ss[1..])
  }

  function TargetsClauses(cs: seq<Clause>): Slots
    decreases cs
  {
    if cs == [] then {} else TargetsAll(cs[0].body) + TargetsClauses(cs[1..])
  }

  /** What a branch at depth `d` merges: the targets that outlive it. */
  function MergedTargets(f: Fn, s: Stmt, d: nat): Slots {
    set x | x in Targets(s) && DepthOf(f, x) < d
  }

  /** A write of a value that may be the default when a read slot holds it. */
  predicate Writes(x: Slot, flows: Slots, i: Slots, j: Slots) {
    j == i + {x} || (!(flows <= i) && j == i - {x})
  }

  /** Some component may give the slot the default handle. */
  predicate MayDefault(targets: seq<Target>, parts: seq<Expr>, i: Slots, x: Slot) {
    exists k | 0 <= k < |targets| :: targets[k] == Local(x) && !(PartFlows(parts, |targets|, k) <= i)
  }

  /** A tuple assignment; which of two writes to one slot is the last is left open. */
  predicate TupleWrites(targets: seq<Target>, parts: seq<Expr>, i: Slots, j: Slots) {
    && j <= i + LocalsFrom(targets, 0) && i <= j + LocalsFrom(targets, 0)
    && forall x | x in LocalsFrom(targets, 0) && x !in j :: MayDefault(targets, parts, i, x)
  }

  function AsTargets(xs: seq<Option<Slot>>): (r: seq<Target>)
    ensures |r| == |xs|
  {
    if xs == [] then [] else [if xs[0].Some? then Local(xs[0].value) else Hole] + AsTargets(xs[1..])
  }

  /** A component written to storage or a field may be the default handle. */
  predicate StoresDefault(targets: seq<Target>, parts: seq<Expr>, i: Slots) {
    exists k | 0 <= k < |targets| :: targets[k] == Elsewhere && !(PartFlows(parts, |targets|, k) <= i)
  }

  /** `k` bounds the loop iterations; a run has some bound. */
  ghost predicate Runs(f: Fn, s: Stmt, d: nat, i: Slots, o: Outcome, k: nat)
    decreases k, s, 1
  {
    match s
    case Decl(x, init) =>
      if init.None? then o == Fell(i - {x})
      else if !(init.value.uses <= i) then o == Bad
      else o.Fell? && Writes(x, init.value.flows, i, o.init)
    case DeclTuple(xs, parts) =>
      if !(UnionUses(parts) <= i) then o == Bad
      else o.Fell? && TupleWrites(AsTargets(xs), parts, i, o.init)
    case Assign(x, e) =>
      if !(e.uses <= i) then o == Bad else o.Fell? && Writes(x, e.flows, i, o.init)
    case TupleAssign(targets, parts) =>
      if !(UnionUses(parts) <= i) then o == Bad
      else (o == Bad && StoresDefault(targets, parts, i)) || (o.Fell? && TupleWrites(targets, parts, i, o.init))
    case Compound(x, e) =>
      if !(e.uses <= i && x in i) then o == Bad
      else (o == Bad && !(e.flows <= i)) || o == Fell(i)
    case Store(e) => if !(e.uses <= i) then o == Bad else (o == Bad && !(e.flows <= i)) || o == Fell(i)
    case ExprStmt(e) => o == if e.uses <= i then Fell(i) else Bad
    case Block(b) => RunsBlock(f, b, d, i, o, k)
    case If(c, t, e) =>
      if !(c.uses <= i) then o == Bad
      else Runs(f, t, d, i, o, k) || (if e.Some? then Runs(f, e.value, d, i, o, k) else o == Fell(i))
    case EncryptedIf(c, t, e) =>
      || (o == Bad && !(c.uses + c.flows <= i))
      || (c.uses <= i && RunsBoth(f, s, d, i, o, k))
    case While(_, _) => RunsWhile(f, s, d, i, o, k)
    case DoWhile(_, _) => RunsDo(f, s, d, i, o, k)
    case For(first, _, _, _) =>
      if first.None? then RunsFor(f, s, d, i, o, k)
      else exists o1 :: Runs(f, first.value, d, i, o1, k) && if o1.Fell? then RunsFor(f, s, d, o1.init, o, k) else o == o1
    case Break => o == Broke(i)
    case Continue => o == Continued(i)
    case Return(v) =>
      if v.None? then o == if f.named <= i then Returned else Bad
      else if !(v.value.uses <= i) then o == Bad
      else (o == Bad && !(v.value.flows <= i)) || o == Returned
    case Revert(e) => o == if e.uses <= i then Reverted else Bad
    case Halt(e) => o == if e.uses <= i then Reverted else Bad
    case Emit(e) => o == if e.uses <= i then Fell(i) else Bad
    case Try(e, clauses) =>
      if !(e.uses <= i) then o == Bad
      else o == Reverted || exists n | 0 <= n < |clauses| :: RunsBlock(f, clauses[n].body, d, i + clauses[n].params, o, k)
    case Assembly => o == Fell(i) || o == Reverted || o == if f.named <= i then Returned else Bad
  }

  ghost predicate RunsBlock(f: Fn, ss: seq<Stmt>, d: nat, i: Slots, o: Outcome, k: nat)
    decreases k, ss, 0
  {
    if ss == [] then o == Fell(i)
    else exists o1 :: Runs(f, ss[0], d, i, o1, k) && if o1.Fell? then RunsBlock(f, ss[1..], d, o1.init, o, k) else o == o1
  }

  /**
   Both arms run.  A merged slot holds an initialised handle when both arms give it
   one; a slot only one arm assigns takes its value from before as the other side,
   and that value must not be the default handle.
   */
  ghost predicate RunsBoth(f: Fn, s: Stmt, d: nat, i: Slots, o: Outcome, k: nat)
    requires s.EncryptedIf?
    decreases k, s, 0
  {
    exists o1, o2 :: Runs(f, s.thn, d + 1, i, o1, k) && (if s.els.Some? then Runs(f, s.els.value, d + 1, i, o2, k) else o2 == Fell(i))
      && o == Select(f, s, d, i, o1, o2)
  }

  function Select(f: Fn, s: Stmt, d: nat, i: Slots, o1: Outcome, o2: Outcome): Outcome
    requires s.EncryptedIf?
  {
    var tw := MergedTargets(f, s.thn, d + 1);
    var ew := if s.els.Some? then MergedTargets(f, s.els.value, d + 1) else {};
    if !o1.Fell? then o1
    else if !o2.Fell? then o2
    else if !((tw + ew) - (tw * ew) <= i) then Bad
    else Fell((i - (tw + ew)) + (o1.init * o2.init * (tw + ew)))
  }

  ghost predicate RunsWhile(f: Fn, s: Stmt, d: nat, i: Slots, o: Outcome, k: nat)
    requires s.While?
    decreases k, s, 0
  {
    if !(s.c.uses <= i) then o == Bad
    else if o == Fell(i) then true
    else
      exists o1 :: Runs(f, s.loop, d, i, o1, k) &&
        match o1
        case Fell(j) => k > 0 && RunsWhile(f, s, d, j, o, k - 1)
        case Continued(j) => k > 0 && RunsWhile(f, s, d, j, o, k - 1)
        case Broke(j) => o == Fell(j)
        case _ => o == o1
  }

  /** The condition of a `do` loop is reached after the body and from `continue`. */
  ghost predicate RunsDo(f: Fn, s: Stmt, d: nat, i: Slots, o: Outcome, k: nat)
    requires s.DoWhile?
    decreases k, s, 0
  {
    exists o1 :: Runs(f, s.loop, d, i, o1, k) &&
      match o1
      case Fell(j) => if !(s.c.uses <= j) then o == Bad else o == Fell(j) || (k > 0 && RunsDo(f, s, d, j, o, k - 1))
      case Continued(j) => if !(s.c.uses <= j) then o == Bad else o == Fell(j) || (k > 0 && RunsDo(f, s, d, j, o, k - 1))
      case Broke(j) => o == Fell(j)
      case _ => o == o1
  }

  function UsesOf(e: Option<Expr>): Slots {
    if e.Some? then e.value.uses else {}
  }

  /** The trailing expression of a `for` runs after the body and after `continue`. */
  ghost predicate RunsFor(f: Fn, s: Stmt, d: nat, i: Slots, o: Outcome, k: nat)
    requires s.For?
    decreases k, s, 0
  {
    if !(UsesOf(s.cond) <= i) then o == Bad
    else if o == Fell(i) then true
    else
      exists o1 :: Runs(f, s.loop, d, i, o1, k) &&
        match o1
        case Fell(j) => if !(UsesOf(s.next) <= j) then o == Bad else k > 0 && RunsFor(f, s, d, j, o, k - 1)
        case Continued(j) => if !(UsesOf(s.next) <= j) then o == Bad else k > 0 && RunsFor(f, s, d, j, o, k - 1)
        case Broke(j) => o == Fell(j)
        case _ => o == o1
  }

  /** A run of a whole function body from its parameters. */
  ghost predicate FunctionRuns(f: Fn, params: Slots, body: seq<Stmt>, o: Outcome, k: nat) {
    RunsBlock(f, body, 0, params - f.named, o, k)
  }

  /** No default handle gets out: not on the way, and not in a named return at the end. */
  predicate Clean(f: Fn, o: Outcome) {
    o != Bad && (o.Fell? ==> f.named <= o.init)
  }
}
