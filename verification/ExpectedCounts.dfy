/** What the programs under `lucet-runtime/tests/instruction_counting` are expected to count, and that they do
    under any bounds: a price or a rule changed on both sides of the model would show here. */
module ExpectedCounts {
  import opened Int64
  import opened Wasm
  import opened Instrumentation
  import opened Target
  import opened Counting
  import SliceTheorems

  /** Plain operators add their immediate to a number that stands for the guest's data; `choice` is what
      conditions, table indices and indirect callees make of it. */
  function Program(funcs: seq<Function>, choice: int -> nat): Guest<int> {
    Guest(funcs, (op: Op, d: int) => if op.Simple? then Goes(0, d + op.imm) else Goes(choice(d), d), (f, d) => d, 100)
  }

  function In(rest: seq<Activation>, f: nat, pc: nat, labels: Labels, d: int, count: nat): Run<int> {
    Run(rest + [Activation(f, Place(pc, labels))], d, count, Running)
  }

  // ---- Runs, piece by piece ----

  ghost predicate Leads(g: Guest<int>, s: Run<int>, t: Run<int>) {
    exists n: nat :: Steps(g, s, n) == t
  }

  lemma LeadsOn(g: Guest<int>, s: Run<int>, t: Run<int>, u: Run<int>)
    requires Leads(g, s, t) && Leads(g, t, u)
    ensures Leads(g, s, u)
  {
    var j: nat, k: nat :| Steps(g, s, j) == t && Steps(g, t, k) == u;
    SliceTheorems.StepsAdd(g, s, j, k);
  }

  lemma ThenStep(g: Guest<int>, s: Run<int>, t: Run<int>, u: Run<int>)
    requires Leads(g, s, t) && Step(g, t) == u
    ensures Leads(g, s, u)
  {
    var n: nat :| Steps(g, s, n) == t;
    assert Steps(g, s, n + 1) == u;
  }

  lemma LeadsToItself(g: Guest<int>, s: Run<int>)
    ensures Leads(g, s, s)
  {
    assert Steps(g, s, 0) == s;
  }

  predicate Plain(ops: seq<Op>, pc: nat, n: nat) {
    pc + n <= |ops| && forall k | pc <= k < pc + n :: ops[k].Free? || ops[k].Simple?
  }

  function Added(op: Op): int {
    if op.Simple? then op.imm else 0
  }

  /** What `n` plain operators add to the data. */
  function AddedBy(ops: seq<Op>, pc: nat, n: nat): int
    requires pc + n <= |ops|
    decreases n
  {
    if n == 0 then 0 else Added(ops[pc]) + AddedBy(ops, pc + 1, n - 1)
  }

  function CostOf(ops: seq<Op>, pc: nat, n: nat): nat
    requires pc + n <= |ops|
    decreases n
  {
    if n == 0 then 0 else OpCost(ops[pc]) + CostOf(ops, pc + 1, n - 1)
  }

  lemma {:induction false} Straight(
      funcs: seq<Function>, choice: int -> nat, rest: seq<Activation>, f: nat, pc: nat, n: nat, labels: Labels,
      d: int, count: nat)
    requires f < |funcs| && funcs[f].Body? && Plain(funcs[f].ops, pc, n) && PlaceIn(funcs[f].ops, labels)
    ensures Leads(Program(funcs, choice), In(rest, f, pc, labels, d, count),
              In(rest, f, pc + n, labels, d + AddedBy(funcs[f].ops, pc, n), count + CostOf(funcs[f].ops, pc, n)))
    decreases n
  {
    hide Step, Leads, Program, OpCost, In, Added;
    var g, s := Program(funcs, choice), In(rest, f, pc, labels, d, count);
    LeadsToItself(g, s);
    if n > 0 {
      var d', count' := d + Added(funcs[f].ops[pc]), count + OpCost(funcs[f].ops[pc]);
      var t := In(rest, f, pc + 1, labels, d', count');
      PlainStep(funcs, choice, rest, f, pc, labels, d, count);
      ThenStep(g, s, s, t);
      Straight(funcs, choice, rest, f, pc + 1, n - 1, labels, d', count');
      LeadsOn(g, s, t, In(rest, f, pc + n, labels, d' + AddedBy(funcs[f].ops, pc + 1, n - 1),
                          count' + CostOf(funcs[f].ops, pc + 1, n - 1)));
    }
  }

  lemma PlainStep(
      funcs: seq<Function>, choice: int -> nat, rest: seq<Activation>, f: nat, pc: nat, labels: Labels, d: int,
      count: nat)
    requires f < |funcs| && funcs[f].Body? && pc < |funcs[f].ops| && PlaceIn(funcs[f].ops, labels)
    requires funcs[f].ops[pc].Free? || funcs[f].ops[pc].Simple?
    ensures var op := funcs[f].ops[pc];
            Step(Program(funcs, choice), In(rest, f, pc, labels, d, count)) ==
            In(rest, f, pc + 1, labels, d + Added(op), count + OpCost(op))
  {
    var a := Activation(f, Place(pc, labels));
    assert (rest + [a])[|rest|] == a;
    var b := Activation(f, Place(pc + 1, labels));
    assert (rest + [a])[|rest| := b] == rest + [b];
  }

  lemma ThenPlain(
      funcs: seq<Function>, choice: int -> nat, s: Run<int>, rest: seq<Activation>, f: nat, pc: nat, n: nat,
      labels: Labels, d: int, count: nat)
    requires f < |funcs| && funcs[f].Body? && Plain(funcs[f].ops, pc, n) && PlaceIn(funcs[f].ops, labels)
    requires Leads(Program(funcs, choice), s, In(rest, f, pc, labels, d, count))
    ensures Leads(Program(funcs, choice), s,
              In(rest, f, pc + n, labels, d + AddedBy(funcs[f].ops, pc, n), count + CostOf(funcs[f].ops, pc, n)))
  {
    hide Leads, Program, In, AddedBy, CostOf;
    Straight(funcs, choice, rest, f, pc, n, labels, d, count);
    LeadsOn(Program(funcs, choice), s, In(rest, f, pc, labels, d, count),
      In(rest, f, pc + n, labels, d + AddedBy(funcs[f].ops, pc, n), count + CostOf(funcs[f].ops, pc, n)));
  }

  lemma ThenMove(
      funcs: seq<Function>, choice: int -> nat, s: Run<int>, rest: seq<Activation>, f: nat, pc: nat,
      labels: Labels, d: int, count: nat, pc': nat, labels': Labels)
    requires f < |funcs| && funcs[f].Body? && pc < |funcs[f].ops| && PlaceIn(funcs[f].ops, labels)
    requires var op := funcs[f].ops[pc]; !op.Simple? && IsLocal(op) && DepthsOk(op, |labels|)
    requires Transfer(funcs[f].ops, Place(pc, labels), choice(d)).pc == pc'
    requires Transfer(funcs[f].ops, Place(pc, labels), choice(d)).labels == labels'
    requires Leads(Program(funcs, choice), s, In(rest, f, pc, labels, d, count))
    ensures Leads(Program(funcs, choice), s, In(rest, f, pc', labels', d, count + OpCost(funcs[f].ops[pc])))
  {
    MoveStep(funcs, choice, rest, f, pc, labels, d, count, Place(pc', labels'));
    hide *;
    ThenStep(Program(funcs, choice), s, In(rest, f, pc, labels, d, count),
      In(rest, f, pc', labels', d, count + OpCost(funcs[f].ops[pc])));
  }

  lemma MoveStep(
      funcs: seq<Function>, choice: int -> nat, rest: seq<Activation>, f: nat, pc: nat, labels: Labels, d: int,
      count: nat, to: Place)
    requires f < |funcs| && funcs[f].Body? && pc < |funcs[f].ops| && PlaceIn(funcs[f].ops, labels)
    requires var op := funcs[f].ops[pc]; !op.Simple? && IsLocal(op) && DepthsOk(op, |labels|)
    requires Transfer(funcs[f].ops, Place(pc, labels), choice(d)) == to
    ensures Step(Program(funcs, choice), In(rest, f, pc, labels, d, count)) ==
            In(rest, f, to.pc, to.labels, d, count + OpCost(funcs[f].ops[pc]))
  {
    hide Transfer, Enter, Leave, OpCost;
    var a := Activation(f, Place(pc, labels));
    assert (rest + [a])[|rest|] == a;
    assert (rest + [a])[|rest| := Activation(f, to)] == rest + [Activation(f, to)];
  }

  lemma ThenCall(
      funcs: seq<Function>, choice: int -> nat, s: Run<int>, rest: seq<Activation>, f: nat, pc: nat,
      labels: Labels, d: int, count: nat, callee: nat)
    requires f < |funcs| && funcs[f].Body? && pc < |funcs[f].ops| && PlaceIn(funcs[f].ops, labels)
    requires funcs[f].ops[pc] == Call(callee) || (funcs[f].ops[pc].CallIndirect? && choice(d) == callee)
    requires callee < |funcs| && funcs[callee].Body? && |rest| + 1 < 100
    requires Leads(Program(funcs, choice), s, In(rest, f, pc, labels, d, count))
    ensures Leads(Program(funcs, choice), s,
              In(rest + [Activation(f, Place(pc + 1, labels))], callee, 0, [-1], d, count + OpCost(funcs[f].ops[pc])))
  {
    CallStep(funcs, choice, rest, f, pc, labels, d, count, callee);
    hide *;
    ThenStep(Program(funcs, choice), s, In(rest, f, pc, labels, d, count),
      In(rest + [Activation(f, Place(pc + 1, labels))], callee, 0, [-1], d, count + OpCost(funcs[f].ops[pc])));
  }

  lemma CallStep(
      funcs: seq<Function>, choice: int -> nat, rest: seq<Activation>, f: nat, pc: nat, labels: Labels, d: int,
      count: nat, callee: nat)
    requires f < |funcs| && funcs[f].Body? && pc < |funcs[f].ops| && PlaceIn(funcs[f].ops, labels)
    requires funcs[f].ops[pc] == Call(callee) || (funcs[f].ops[pc].CallIndirect? && choice(d) == callee)
    requires callee < |funcs| && funcs[callee].Body? && |rest| + 1 < 100
    ensures Step(Program(funcs, choice), In(rest, f, pc, labels, d, count)) ==
            In(rest + [Activation(f, Place(pc + 1, labels))], callee, 0, [-1], d, count + OpCost(funcs[f].ops[pc]))
  {
    hide Transfer, Leave, OpCost;
    var a, back := Activation(f, Place(pc, labels)), Activation(f, Place(pc + 1, labels));
    assert (rest + [a])[|rest|] == a && (rest + [a])[|rest| := back] == rest + [back];
  }

  /** Leaving a function, at its end or by `return`. */
  lemma ThenLeave(
      funcs: seq<Function>, choice: int -> nat, s: Run<int>, rest: seq<Activation>, f: nat, pc: nat,
      labels: Labels, d: int, count: nat)
    requires f < |funcs| && funcs[f].Body? && pc <= |funcs[f].ops| && PlaceIn(funcs[f].ops, labels)
    requires pc < |funcs[f].ops| ==> funcs[f].ops[pc].Return?
    requires Leads(Program(funcs, choice), s, In(rest, f, pc, labels, d, count))
    ensures Leads(Program(funcs, choice), s, Left(rest, d, count + LeaveCost(funcs[f].ops, pc)))
  {
    var g, t := Program(funcs, choice), In(rest, f, pc, labels, d, count);
    var u := Left(rest, d, count + LeaveCost(funcs[f].ops, pc));
    if pc < |funcs[f].ops| {
      ReturnStep(funcs, choice, rest, f, pc, labels, d, count);
    } else {
      EndStep(funcs, choice, rest, f, labels, d, count);
    }
    hide *;
    ThenStep(g, s, t, u);
  }

  function Left(rest: seq<Activation>, d: int, count: nat): Run<int> {
    if rest == [] then Run([], d, count, Done) else Run(rest, d, count + 1, Running)
  }

  lemma Leaves(rest: seq<Activation>, a: Activation, d: int, count: nat)
    ensures Leave(Run(rest + [a], d, count, Running)) == Left(rest, d, count)
  {
    assert (rest + [a])[..|rest|] == rest;
  }

  lemma EndStep(
      funcs: seq<Function>, choice: int -> nat, rest: seq<Activation>, f: nat, labels: Labels, d: int, count: nat)
    requires f < |funcs| && funcs[f].Body? && PlaceIn(funcs[f].ops, labels)
    ensures Step(Program(funcs, choice), In(rest, f, |funcs[f].ops|, labels, d, count)) == Left(rest, d, count)
  {
    var a := Activation(f, Place(|funcs[f].ops|, labels));
    Leaves(rest, a, d, count);
    assert (rest + [a])[|rest|] == a;
    hide Leave, Apply, Left;
  }

  lemma ReturnStep(
      funcs: seq<Function>, choice: int -> nat, rest: seq<Activation>, f: nat, pc: nat, labels: Labels, d: int,
      count: nat)
    requires f < |funcs| && funcs[f].Body? && pc < |funcs[f].ops| && PlaceIn(funcs[f].ops, labels)
    requires funcs[f].ops[pc].Return?
    ensures Step(Program(funcs, choice), In(rest, f, pc, labels, d, count)) ==
            Left(rest, d, count + OpCost(funcs[f].ops[pc]))
  {
    var a := Activation(f, Place(pc, labels));
    Leaves(rest, a, d, count + OpCost(funcs[f].ops[pc]));
    assert (rest + [a])[|rest|] == a;
    hide Leave, Left, Transfer, Enter, OpCost;
  }

  function LeaveCost(ops: seq<Op>, pc: nat): nat {
    if pc < |ops| then OpCost(ops[pc]) else 0
  }

  /** The function `f` of this program, run on its own, finishes with this count. */
  ghost predicate Counts(funcs: seq<Function>, choice: int -> nat, f: nat, total: nat) {
    exists d: int :: Leads(Program(funcs, choice), Start(f, 0, 0), Run([], d, total, Done))
  }

  lemma Begins(funcs: seq<Function>, choice: int -> nat, f: nat)
    ensures Leads(Program(funcs, choice), Start(f, 0, 0), In([], f, 0, [-1], 0, 0))
  {
    assert [] + [Activation(f, Place(0, [-1]))] == [Activation(f, ENTRY)];
    LeadsToItself(Program(funcs, choice), Start(f, 0, 0));
  }

  /** Scanning on past operators that open and close nothing. */
  lemma {:induction false} Skip(ops: seq<Op>, q: nat, n: nat, nest: nat)
    requires q + n <= |ops| && forall k | q <= k < q + n :: !ops[k].Opens() && !ops[k].End? && !ops[k].Else?
    ensures EndFrom(ops, q, nest) == EndFrom(ops, q + n, nest)
    ensures ElseFrom(ops, q, nest) == ElseFrom(ops, q + n, nest)
    decreases n
  {
    if n > 0 {
      Skip(ops, q + 1, n - 1, nest);
    }
  }

  // ---- Straight lines and branches ----

  const X: Op := Simple(0)

  const ARITHMETIC: seq<Op> := [X, X, X, Free, End]

  lemma ArithmeticCounts(choice: int -> nat)
    ensures Counts([Body(ARITHMETIC)], choice, 0, 3)
  {
    hide Leads, Program, In;
    var funcs, s := [Body(ARITHMETIC)], Start(0, 0, 0);
    Begins(funcs, choice, 0);
    ThenPlain(funcs, choice, s, [], 0, 0, 4, [-1], 0, 0);
    ThenMove(funcs, choice, s, [], 0, 4, [-1], 0, 3, 5, []);
    ThenLeave(funcs, choice, s, [], 0, 5, [], 0, 3);
  }

  const IF: seq<Op> := [X, X, X, If, X, X, X, Free, End, End]

  lemma IfCounts()
    ensures Counts([Body(IF)], _ => 1, 0, 7)
  {
    hide Leads, Program, In;
    var funcs, s, choice := [Body(IF)], Start(0, 0, 0), (_: int) => 1;
    Begins(funcs, choice, 0);
    ThenPlain(funcs, choice, s, [], 0, 0, 3, [-1], 0, 0);
    ThenMove(funcs, choice, s, [], 0, 3, [-1], 0, 3, 4, [-1, 3]);
    ThenPlain(funcs, choice, s, [], 0, 4, 4, [-1, 3], 0, 4);
    ThenMove(funcs, choice, s, [], 0, 8, [-1, 3], 0, 7, 9, [-1]);
    ThenMove(funcs, choice, s, [], 0, 9, [-1], 0, 7, 10, []);
    ThenLeave(funcs, choice, s, [], 0, 10, [], 0, 7);
  }

  lemma IfNotTakenCounts()
    ensures Counts([Body(IF)], _ => 0, 0, 4)
  {
    hide Leads, Program, In;
    var funcs, s, choice := [Body(IF)], Start(0, 0, 0), (_: int) => 0;
    Begins(funcs, choice, 0);
    ThenPlain(funcs, choice, s, [], 0, 0, 3, [-1], 0, 0);
    Skip(IF, 4, 4, 0);
    ThenMove(funcs, choice, s, [], 0, 3, [-1], 0, 3, 9, [-1]);
    ThenMove(funcs, choice, s, [], 0, 9, [-1], 0, 4, 10, []);
    ThenLeave(funcs, choice, s, [], 0, 10, [], 0, 4);
  }

  const IF_ELSE: seq<Op> := [X, If, X, X, Else, X, End, End]

  /** Either arm costs what is in it, and entering or skipping `else` costs nothing. */
  lemma ThenArmCounts()
    ensures Counts([Body(IF_ELSE)], _ => 1, 0, 4)
  {
    hide Leads, Program, In;
    var funcs, s, choice := [Body(IF_ELSE)], Start(0, 0, 0), (_: int) => 1;
    Begins(funcs, choice, 0);
    ThenPlain(funcs, choice, s, [], 0, 0, 1, [-1], 0, 0);
    ThenMove(funcs, choice, s, [], 0, 1, [-1], 0, 1, 2, [-1, 1]);
    ThenPlain(funcs, choice, s, [], 0, 2, 2, [-1, 1], 0, 2);
    assert EndFrom(IF_ELSE, 4, 0) == EndFrom(IF_ELSE, 5, 0) == EndFrom(IF_ELSE, 6, 0) == 6;
    Skip(IF_ELSE, 2, 2, 0);
    ThenMove(funcs, choice, s, [], 0, 4, [-1, 1], 0, 4, 7, [-1]);
    ThenMove(funcs, choice, s, [], 0, 7, [-1], 0, 4, 8, []);
    ThenLeave(funcs, choice, s, [], 0, 8, [], 0, 4);
  }

  lemma ElseArmCounts()
    ensures Counts([Body(IF_ELSE)], _ => 0, 0, 3)
  {
    hide Leads, Program, In;
    var funcs, s, choice := [Body(IF_ELSE)], Start(0, 0, 0), (_: int) => 0;
    Begins(funcs, choice, 0);
    ThenPlain(funcs, choice, s, [], 0, 0, 1, [-1], 0, 0);
    Skip(IF_ELSE, 2, 2, 0);
    ThenMove(funcs, choice, s, [], 0, 1, [-1], 0, 1, 5, [-1, 1]);
    ThenPlain(funcs, choice, s, [], 0, 5, 1, [-1, 1], 0, 2);
    ThenMove(funcs, choice, s, [], 0, 6, [-1, 1], 0, 3, 7, [-1]);
    ThenMove(funcs, choice, s, [], 0, 7, [-1], 0, 3, 8, []);
    ThenLeave(funcs, choice, s, [], 0, 8, [], 0, 3);
  }

  const AFTER_BR: seq<Op> := [Block, X, X, X, Br(0), End, X, X, X, Free, End]

  lemma CountAfterBrCounts(choice: int -> nat)
    ensures Counts([Body(AFTER_BR)], choice, 0, 7)
  {
    hide Leads, Program, In;
    var funcs, s := [Body(AFTER_BR)], Start(0, 0, 0);
    Begins(funcs, choice, 0);
    ThenMove(funcs, choice, s, [], 0, 0, [-1], 0, 0, 1, [-1, 0]);
    ThenPlain(funcs, choice, s, [], 0, 1, 3, [-1, 0], 0, 0);
    Skip(AFTER_BR, 1, 4, 0);
    ThenMove(funcs, choice, s, [], 0, 4, [-1, 0], 0, 3, 6, [-1]);
    ThenPlain(funcs, choice, s, [], 0, 6, 4, [-1], 0, 4);
    ThenMove(funcs, choice, s, [], 0, 10, [-1], 0, 7, 11, []);
    ThenLeave(funcs, choice, s, [], 0, 11, [], 0, 7);
  }

  const UNREACHABLE_CALL: seq<Op> := [X, Return, Call(0), End]

  lemma UnreachableCallCounts(choice: int -> nat)
    ensures Counts([Body(UNREACHABLE_CALL)], choice, 0, 1)
  {
    hide Leads, Program, In;
    var funcs, s := [Body(UNREACHABLE_CALL)], Start(0, 0, 0);
    Begins(funcs, choice, 0);
    ThenPlain(funcs, choice, s, [], 0, 0, 1, [-1], 0, 0);
    ThenLeave(funcs, choice, s, [], 0, 1, [-1], 0, 1);
  }

  const BR_TABLE: seq<Op> := [
    Block, X, Free, Block, X, Free, Block, X, Free, X, BrTable([0, 1, 2], 3), End, End, End, End]

  /** The index, 4, is past the table: the default branch leaves the function. */
  lemma BrTableCounts()
    ensures Counts([Body(BR_TABLE)], _ => 4, 0, 6)
  {
    hide Leads, Program, In;
    var funcs, s, choice := [Body(BR_TABLE)], Start(0, 0, 0), (_: int) => 4;
    Begins(funcs, choice, 0);
    ThenMove(funcs, choice, s, [], 0, 0, [-1], 0, 0, 1, [-1, 0]);
    ThenPlain(funcs, choice, s, [], 0, 1, 2, [-1, 0], 0, 0);
    ThenMove(funcs, choice, s, [], 0, 3, [-1, 0], 0, 1, 4, [-1, 0, 3]);
    ThenPlain(funcs, choice, s, [], 0, 4, 2, [-1, 0, 3], 0, 1);
    ThenMove(funcs, choice, s, [], 0, 6, [-1, 0, 3], 0, 2, 7, [-1, 0, 3, 6]);
    ThenPlain(funcs, choice, s, [], 0, 7, 3, [-1, 0, 3, 6], 0, 2);
    WholeTable();
    ThenMove(funcs, choice, s, [], 0, 10, [-1, 0, 3, 6], 0, 4, 15, []);
    ThenLeave(funcs, choice, s, [], 0, 15, [], 0, 6);
  }

  lemma WholeTable()
    ensures EndFrom(BR_TABLE, 0, 0) == 14
  {
    assert EndFrom(BR_TABLE, 11, 3) == EndFrom(BR_TABLE, 12, 2) == EndFrom(BR_TABLE, 13, 1) == 14;
    Skip(BR_TABLE, 7, 4, 3);
    Skip(BR_TABLE, 4, 2, 2);
    Skip(BR_TABLE, 1, 2, 1);
  }

  // ---- Loops ----

  /** The first operator adds nothing, the third of a round one. */
  const LOOPS: seq<Op> := [X, X, Block, Loop, X, X, Simple(1), X, X, X, X, BrIf(1), Br(0), End, End, End]

  function IsTen(d: int): nat { if d == 10 then 1 else 0 }

  lemma {:induction false} Rounds(i: nat)
    requires i < 10
    ensures Leads(Program([Body(LOOPS)], IsTen), Start(0, 0, 0), In([], 0, 4, [-1, 2, 3], i, 2 + 9 * i))
  {
    hide *;
    if i == 0 {
      FirstRound();
    } else {
      Rounds(i - 1);
      Round(i - 1);
      NextRound(i);
    }
  }

  lemma FirstRound()
    ensures Leads(Program([Body(LOOPS)], IsTen), Start(0, 0, 0), In([], 0, 4, [-1, 2, 3], 0, 2))
  {
    hide Leads, Program, In;
    var funcs, s, choice := [Body(LOOPS)], Start(0, 0, 0), IsTen;
    Begins(funcs, choice, 0);
    ThenPlain(funcs, choice, s, [], 0, 0, 2, [-1], 0, 0);
    ThenMove(funcs, choice, s, [], 0, 2, [-1], 0, 2, 3, [-1, 2]);
    ThenMove(funcs, choice, s, [], 0, 3, [-1, 2], 0, 2, 4, [-1, 2, 3]);
  }

  lemma NextRound(i: nat)
    requires 0 < i < 10
    requires Leads(Program([Body(LOOPS)], IsTen), Start(0, 0, 0), In([], 0, 11, [-1, 2, 3], i, 9 * i))
    ensures Leads(Program([Body(LOOPS)], IsTen), Start(0, 0, 0), In([], 0, 4, [-1, 2, 3], i, 2 + 9 * i))
  {
    hide Leads, Program, In;
    var funcs, s, choice := [Body(LOOPS)], Start(0, 0, 0), IsTen;
    ThenMove(funcs, choice, s, [], 0, 11, [-1, 2, 3], i, 9 * i, 12, [-1, 2, 3]);
    ThenMove(funcs, choice, s, [], 0, 12, [-1, 2, 3], i, 9 * i + 1, 4, [-1, 2, 3]);
  }

  lemma Round(i: nat)
    requires Leads(Program([Body(LOOPS)], IsTen), Start(0, 0, 0), In([], 0, 4, [-1, 2, 3], i, 2 + 9 * i))
    ensures Leads(Program([Body(LOOPS)], IsTen), Start(0, 0, 0), In([], 0, 11, [-1, 2, 3], i + 1, 9 * i + 9))
  {
    hide Leads, Program, In;
    ThenPlain([Body(LOOPS)], IsTen, Start(0, 0, 0), [], 0, 4, 7, [-1, 2, 3], i, 2 + 9 * i);
  }

  lemma LoopsCount()
    ensures Counts([Body(LOOPS)], IsTen, 0, 91)
  {
    hide Leads, Program, In;
    var funcs, s, choice := [Body(LOOPS)], Start(0, 0, 0), IsTen;
    Rounds(9);
    Round(9);
    assert EndFrom(LOOPS, 13, 1) == 14;
    Skip(LOOPS, 4, 9, 1);
    ThenMove(funcs, choice, s, [], 0, 11, [-1, 2, 3], 10, 90, 15, [-1]);
    ThenMove(funcs, choice, s, [], 0, 15, [-1], 10, 91, 16, []);
    ThenLeave(funcs, choice, s, [], 0, 16, [], 10, 91);
  }

  // ---- Calls ----

  const MUL2: seq<Op> := [X, X, X, End]

  function Doubling(h: nat): seq<Op> { [X, Call(h), X, Call(h), X, End] }

  const CALLS: seq<Op> := [X, Call(0), Free, X, Call(0), Free, X, Call(0), Free, End]
  const INDIRECT_CALLS: seq<Op> := [
    X, X, CallIndirect(0), Free, X, Simple(1), CallIndirect(0), Free, X, Simple(2), CallIndirect(0), Free, End]

  /** The functions of `indirect_calls.wat`; `calls.wat` has the first. */
  const MULS: seq<Function> := [Body(MUL2), Body(Doubling(0)), Body(Doubling(1)), Body(Doubling(2))]

  /** The number that says which function of the table is called. */
  function Index(d: int): nat { if d < 0 then 0 else d }

  /** What the functions of `MULS` are said to count: 3, 13, 33 and 73. */
  function MulCount(k: nat): nat { if k == 0 then 3 else 2 * MulCount(k - 1) + 7 }

  /** A call of the `k`-th function comes back with its count and one for the return. */
  lemma {:induction false} ThenMul(
      main: Function, s: Run<int>, rest: seq<Activation>, k: nat, d: int, count: nat)
    requires k < 4 && rest != [] && |rest| + k < 100
    requires Leads(Program(MULS + [main], Index), s, In(rest, k, 0, [-1], d, count))
    ensures Leads(Program(MULS + [main], Index), s, Run(rest, d, count + MulCount(k) + 1, Running))
    decreases k, 0
  {
    hide Leads, Program, In;
    var funcs := MULS + [main];
    if k == 0 {
      ThenPlain(funcs, Index, s, rest, 0, 0, 3, [-1], d, count);
      ThenMove(funcs, Index, s, rest, 0, 3, [-1], d, count + 3, 4, []);
      ThenLeave(funcs, Index, s, rest, 0, 4, [], d, count + 3);
    } else {
      assert funcs[k] == Body(Doubling(k - 1));
      var half := MulCount(k - 1) + 2;
      ThenPlain(funcs, Index, s, rest, k, 0, 1, [-1], d, count);
      ThenMulCall(main, s, rest, k, 1, k - 1, d, count + 1);
      ThenPlain(funcs, Index, s, rest, k, 2, 1, [-1], d, count + 1 + half);
      ThenMulCall(main, s, rest, k, 3, k - 1, d, count + 2 + half);
      ThenPlain(funcs, Index, s, rest, k, 4, 1, [-1], d, count + 2 + 2 * half);
      ThenMove(funcs, Index, s, rest, k, 5, [-1], d, count + 3 + 2 * half, 6, []);
      ThenLeave(funcs, Index, s, rest, k, 6, [], d, count + 3 + 2 * half);
    }
  }

  lemma {:induction false} ThenMulCall(
      main: Function, s: Run<int>, rest: seq<Activation>, f: nat, pc: nat, k: nat, d: int, count: nat)
    requires k < 4 && f < 5 && (f < 4 ==> k < f) && |rest| + 1 + k < 100
    requires var funcs := MULS + [main];
             funcs[f].Body? && pc < |funcs[f].ops| &&
             (funcs[f].ops[pc] == Call(k) || (funcs[f].ops[pc].CallIndirect? && Index(d) == k))
    requires Leads(Program(MULS + [main], Index), s, In(rest, f, pc, [-1], d, count))
    ensures var funcs := MULS + [main];
            Leads(Program(funcs, Index), s,
                  In(rest, f, pc + 1, [-1], d, count + OpCost(funcs[f].ops[pc]) + MulCount(k) + 1))
    decreases k, 1
  {
    hide Leads, Program;
    var funcs := MULS + [main];
    var price := OpCost(funcs[f].ops[pc]);
    ThenCall(funcs, Index, s, rest, f, pc, [-1], d, count, k);
    hide OpCost, MulCount;
    ThenMul(main, s, rest + [Activation(f, Place(pc + 1, [-1]))], k, d, count + price);
  }

  lemma CallsCount()
    ensures Counts(MULS + [Body(CALLS)], Index, 4, 18)
  {
    hide Leads, Program, In;
    var funcs, main, s := MULS + [Body(CALLS)], Body(CALLS), Start(4, 0, 0);
    Begins(funcs, Index, 4);
    ThenPlain(funcs, Index, s, [], 4, 0, 1, [-1], 0, 0);
    ThenMulCall(main, s, [], 4, 1, 0, 0, 1);
    ThenPlain(funcs, Index, s, [], 4, 2, 2, [-1], 0, 6);
    ThenMulCall(main, s, [], 4, 4, 0, 0, 7);
    ThenPlain(funcs, Index, s, [], 4, 5, 2, [-1], 0, 12);
    ThenMulCall(main, s, [], 4, 7, 0, 0, 13);
    ThenPlain(funcs, Index, s, [], 4, 8, 1, [-1], 0, 18);
    ThenMove(funcs, Index, s, [], 4, 9, [-1], 0, 18, 10, []);
    ThenLeave(funcs, Index, s, [], 4, 10, [], 0, 18);
  }

  lemma FirstIndirectCalls()
    ensures Leads(Program(MULS + [Body(INDIRECT_CALLS)], Index), Start(4, 0, 0), In([], 4, 7, [-1], 1, 26))
  {
    hide Leads, Program, In;
    var funcs, main, s := MULS + [Body(INDIRECT_CALLS)], Body(INDIRECT_CALLS), Start(4, 0, 0);
    Begins(funcs, Index, 4);
    ThenPlain(funcs, Index, s, [], 4, 0, 2, [-1], 0, 0);
    ThenMulCall(main, s, [], 4, 2, 0, 0, 2);
    ThenPlain(funcs, Index, s, [], 4, 3, 3, [-1], 0, 8);
    ThenMulCall(main, s, [], 4, 6, 1, 1, 10);
  }

  lemma IndirectCallsCount()
    ensures Counts(MULS + [Body(INDIRECT_CALLS)], Index, 4, 104)
  {
    hide Leads, Program, In;
    var funcs, main, s := MULS + [Body(INDIRECT_CALLS)], Body(INDIRECT_CALLS), Start(4, 0, 0);
    FirstIndirectCalls();
    ThenPlain(funcs, Index, s, [], 4, 7, 3, [-1], 1, 26);
    assert MulCount(1) == 13 && MulCount(2) == 33 && MulCount(3) == 73;
    ThenMulCall(main, s, [], 4, 10, 3, 3, 28);
    ThenPlain(funcs, Index, s, [], 4, 11, 1, [-1], 3, 104);
    ThenMove(funcs, Index, s, [], 4, 12, [-1], 3, 104, 13, []);
    ThenLeave(funcs, Index, s, [], 4, 13, [], 3, 104);
  }

  // ---- The same, compiled ----

  /** Compiled, such a program counts the same under any schedule of bounds. */
  lemma CompiledCounts(
      funcs: seq<Function>, choice: int -> nat, f: nat, total: nat, code: seq<Compiled>, mem: Counter, es: seq<Event>)
    requires Counts(funcs, choice, f, total)
    requires Ready(Program(funcs, choice), code, f, mem, 0)
    requires Play(Program(funcs, choice), code, Boot(f, 0, mem), es).mode.Finished?
    ensures Play(Program(funcs, choice), code, Boot(f, 0, mem), es).mem.Total() == Wrap(total)
  {
    var g := Program(funcs, choice);
    var d: int :| Leads(g, Start(f, 0, 0), Run([], d, total, Done));
    var n: nat :| Steps(g, Start(f, 0, 0), n) == Run([], d, total, Done);
    CountsExactly(g, code, f, 0, mem, 0, es);
    var k := Play(g, code, Boot(f, 0, mem), es).retired;
    hide Step, Play, Ready, Program;
    if n <= k {
      StoppedStays(g, Start(f, 0, 0), n, k);
    } else {
      StoppedStays(g, Start(f, 0, 0), k, n);
    }
  }
}
