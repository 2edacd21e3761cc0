/** Function bodies as operator sequences, and a reference interpreter that
    counts what it executes. Only the control operators are spelled out; every
    other operator is `Simple`, and `nop` and `drop` are `Free`. */
module Wasm {

  datatype Op =
    | Free
    | Simple(imm: int)
    | Block
    | Loop
    | If
    | Else
    | End
    | Br(depth: nat)
    | BrIf(depth: nat)
    | BrTable(depths: seq<nat>, default: nat)
    | Call(callee: nat)
    | CallIndirect(sig: nat)
    | Return
    | Unreachable
  {
    predicate Opens() { Block? || Loop? || If? }
    predicate Calls() { Call? || CallIndirect? }

    /** The labels a taken branch may name. */
    predicate BranchesTo(d: nat) {
      || (Br? && d == depth)
      || (BrIf? && d == depth)
      || (BrTable? && (d == default || d in depths))
    }
  }

  /** The documented price list: what executing one operator adds to the count. */
  function OpCost(op: Op): nat {
    match op
    case Free | Block | Loop | Else | End | Return | Unreachable => 0
    case Simple(_) | If | Br(_) | BrIf(_) | Call(_) => 1
    case CallIndirect(_) | BrTable(_, _) => 2
  }

  // ---- Structured control: where a label leads ----

  /** The `End` closing the scope that has `nest` open subscopes at `q`; `|ops|` if there is none. */
  function EndFrom(ops: seq<Op>, q: nat, nest: nat): (e: nat)
    requires q <= |ops|
    ensures q <= e <= |ops|
    decreases |ops| - q
  {
    if q == |ops| then q
    else if ops[q].End? then if nest == 0 then q else EndFrom(ops, q + 1, nest - 1)
    else EndFrom(ops, q + 1, if ops[q].Opens() then nest + 1 else nest)
  }

  /** The `Else` of that scope; `|ops|` if it has none at or after `q`. */
  function ElseFrom(ops: seq<Op>, q: nat, nest: nat): (e: nat)
    requires q <= |ops|
    ensures q <= e <= |ops|
    decreases |ops| - q
  {
    if q == |ops| then q
    else if ops[q].End? then if nest == 0 then |ops| else ElseFrom(ops, q + 1, nest - 1)
    else if ops[q].Else? && nest == 0 then q
    else ElseFrom(ops, q + 1, if ops[q].Opens() then nest + 1 else nest)
  }

  /** A label is the position of the operator that opened its scope; -1 is the function's own label. */
  type Labels = seq<int>

  /** A position in a body together with the labels in scope there. */
  datatype Place = Place(pc: nat, labels: Labels)

  predicate PlaceIn(ops: seq<Op>, labels: Labels) {
    forall i | 0 <= i < |labels| :: -1 <= labels[i] < |ops|
  }

  /** Branching to a loop re-enters its body; branching to any other label leaves the scope. */
  function Branch(ops: seq<Op>, labels: Labels, depth: nat): Place
    requires PlaceIn(ops, labels) && depth < |labels|
  {
    var i := |labels| - 1 - depth;
    var open := labels[i];
    if open >= 0 && ops[open].Loop? then Place(open + 1, labels[..i + 1])
    else Place(EndFrom(ops, open + 1, 0) + 1, labels[..i])
  }

  function BrTableDepth(op: Op, choice: nat): (d: nat)
    requires op.BrTable?
    ensures op.BranchesTo(d)
  {
    if choice < |op.depths| then op.depths[choice] else op.default
  }

  /** Whether the operator moves within its own activation when it does not trap. */
  predicate IsLocal(op: Op) {
    !op.Calls() && !op.Return? && !op.Unreachable?
  }

  predicate DepthsOk(op: Op, n: nat) {
    match op
    case Br(d) => d < n
    case BrIf(d) => d < n
    case BrTable(ds, def) => def < n && forall d | d in ds :: d < n
    case Else | End => 0 < n
    case _ => true
  }

  /** Where control goes after an operator that stays in its activation. */
  function Transfer(ops: seq<Op>, at: Place, choice: nat): Place
    requires at.pc < |ops| && PlaceIn(ops, at.labels)
    requires IsLocal(ops[at.pc]) && DepthsOk(ops[at.pc], |at.labels|)
  {
    var pc, labels := at.pc, at.labels;
    var n := |labels|;
    match ops[pc]
    case Block | Loop => Place(pc + 1, labels + [pc])
    case If =>
      var e := ElseFrom(ops, pc + 1, 0);
      if choice != 0 then Place(pc + 1, labels + [pc])
      else if e < |ops| then Place(e + 1, labels + [pc])
      else Place(EndFrom(ops, pc + 1, 0) + 1, labels)
    case Else => Place(EndFrom(ops, labels[n - 1] + 1, 0) + 1, labels[..n - 1])
    case End => Place(pc + 1, labels[..n - 1])
    case Br(d) => Branch(ops, labels, d)
    case BrIf(d) => if choice != 0 then Branch(ops, labels, d) else Place(pc + 1, labels)
    case BrTable(_, _) => Branch(ops, labels, BrTableDepth(ops[pc], choice))
    case _ => Place(pc + 1, labels)
  }

  // ---- Programs and the reference interpreter ----

  datatype Function = Import | Body(ops: seq<Op>)

  /** What evaluating an operator does to guest data: trap, or go on. `choice` is the
      condition of `if` and `br_if`, the index of `br_table`, the function found by `call_indirect`. */
  datatype Outcome<D> = Trap | Goes(choice: nat, data: D)

  /** A deterministic guest: its functions, the meaning of its operators, and the imported functions
      it calls. `maxDepth` is how many activations fit on its stack. */
  datatype Guest<!D> = Guest(
    funcs: seq<Function>,
    eval: (Op, D) -> Outcome<D>,
    host: (nat, D) -> D,
    maxDepth: nat)

  datatype Status = Running | InHost(callee: nat) | Done | Trapped

  datatype Activation = Activation(func: nat, at: Place)

  datatype Run<D> = Run(acts: seq<Activation>, data: D, count: nat, status: Status)

  const ENTRY: Place := Place(0, [-1])

  /** Entering function `f` on an instance that has counted `count` so far. */
  function Start<D>(f: nat, data: D, count: nat): Run<D> {
    Run([Activation(f, ENTRY)], data, count, Running)
  }

  /** The function a call enters, if it exists. */
  function Callee<D>(g: Guest<D>, op: Op, choice: nat): (f: nat)
    requires op.Calls()
    ensures f <= |g.funcs|
  {
    var f := if op.Call? then op.callee else choice;
    if f < |g.funcs| then f else |g.funcs|
  }

  /** The place makes sense in its body, so the interpreter can take a step from it. */
  predicate Steppable<D>(g: Guest<D>, a: Activation) {
    && a.func < |g.funcs| && g.funcs[a.func].Body?
    && var ops := g.funcs[a.func].ops;
    && a.at.pc <= |ops| && PlaceIn(ops, a.at.labels)
    && (a.at.pc < |ops| ==> DepthsOk(ops[a.at.pc], |a.at.labels|))
  }

  /** Leaving the top activation. A returned call counts one. */
  function Leave<D>(s: Run<D>): Run<D>
    requires |s.acts| > 0
  {
    var rest := s.acts[..|s.acts| - 1];
    if rest == [] then s.(acts := rest, status := Done)
    else s.(acts := rest, count := s.count + 1)
  }

  function Enter<D>(g: Guest<D>, s: Run<D>, f: nat): Run<D> {
    if f >= |g.funcs| || |s.acts| >= g.maxDepth then s.(status := Trapped)
    else if g.funcs[f].Import? then s.(status := InHost(f))
    else s.(acts := s.acts + [Activation(f, ENTRY)])
  }

  /** What the operator at the top activation does when it does not trap. */
  function Apply<D>(g: Guest<D>, s: Run<D>, op: Op, choice: nat): Run<D>
    requires |s.acts| > 0
    requires var a := s.acts[|s.acts| - 1];
             Steppable(g, a) && var ops := g.funcs[a.func].ops; a.at.pc < |ops| && ops[a.at.pc] == op
  {
    var n := |s.acts| - 1;
    var a := s.acts[n];
    var t := s.(count := s.count + OpCost(op));
    if op.Unreachable? then s.(status := Trapped)
    else if op.Return? then Leave(t)
    else if op.Calls() then
      Enter(g, t.(acts := s.acts[n := a.(at := a.at.(pc := a.at.pc + 1))]), Callee(g, op, choice))
    else t.(acts := s.acts[n := a.(at := Transfer(g.funcs[a.func].ops, a.at, choice))])
  }

  /** One step of the reference interpreter; a state that cannot step stays as it is. */
  function Step<D>(g: Guest<D>, s: Run<D>): Run<D> {
    match s.status
    case Done | Trapped => s
    case InHost(f) => s.(status := Running, data := g.host(f, s.data), count := s.count + 1)
    case Running =>
      var n := |s.acts|;
      if n == 0 || !Steppable(g, s.acts[n - 1]) then s
      else
        var a := s.acts[n - 1];
        var ops := g.funcs[a.func].ops;
        if a.at.pc == |ops| then Leave(s)
        else match g.eval(ops[a.at.pc], s.data)
             case Trap => s.(status := Trapped)
             case Goes(choice, data) => Apply(g, s.(data := data), ops[a.at.pc], choice)
  }

  function Steps<D>(g: Guest<D>, s: Run<D>, n: nat): Run<D> {
    if n == 0 then s else Step(g, Steps(g, s, n - 1))
  }
}
