/** The compiled program running: every activation keeps the count in a variable of its own,
    `instruction_count_adj` lives in memory, and the host may move the bound whenever it has control. */
module Target {
  import opened Int64
  import opened Wasm
  import opened Instrumentation
  import opened ControlStack

  /** An activation: where it is, the next item of the code emitted there, and the counter variable. */
  datatype CallFrame = CallFrame(func: nat, at: Place, k: nat, count: i64)

  datatype Mode = Going | BoundExpired | Hosting(callee: nat) | Finished | Faulted

  /** `retired` numbers the source operators and function exits that have taken effect. */
  datatype Machine<D> = Machine(frames: seq<CallFrame>, data: D, mem: Counter, retired: nat, mode: Mode) {
    predicate HasTop() { |frames| > 0 }
    function Top(): CallFrame requires HasTop() { frames[|frames| - 1] }
    function SetTop(f: CallFrame): Machine<D> requires HasTop() { this.(frames := frames[|frames| - 1 := f]) }
  }

  /** `Go` lets whoever has control do one thing; `Rebound` is the host setting a new bound, which it
      can do when the bound has expired or while an imported function has yielded. */
  datatype Event = Go | Rebound(delta: nat)

  /** Every function body is compiled. */
  ghost predicate Built<D>(g: Guest<D>, code: seq<Compiled>) {
    && |code| == |g.funcs|
    && forall f | 0 <= f < |code| && g.funcs[f].Body? :: code[f].Valid() && code[f].ops == g.funcs[f].ops
  }

  function Boot<D>(f: nat, data: D, mem: Counter): Machine<D> {
    Machine([CallFrame(f, ENTRY, 0, 0)], data, mem, 0, Going)
  }

  predicate Wired<D>(g: Guest<D>, code: seq<Compiled>, f: CallFrame) {
    && f.func < |code| && f.at.pc < |code[f.func].code|
    && Steppable(g, Activation(f.func, f.at))
  }

  function Exit<D>(m: Machine<D>): Machine<D>
    requires m.HasTop()
  {
    var rest := m.frames[..|m.frames| - 1];
    m.(frames := rest, mode := if rest == [] then Finished else Going)
  }

  /** The code a call itself compiles to; the callee's prologue starts with an unset variable. */
  function Invoke<D>(g: Guest<D>, m: Machine<D>, f: nat): Machine<D> {
    if f >= |g.funcs| || |m.frames| >= g.maxDepth then m.(mode := Faulted)
    else if g.funcs[f].Import? then m.(mode := Hosting(f))
    else m.(frames := m.frames + [CallFrame(f, ENTRY, 0, 0)])
  }

  /** The effect of the operator's own code when it does not trap. */
  function Effect<D>(g: Guest<D>, m: Machine<D>, op: Op, choice: nat): Machine<D>
    requires m.HasTop() && Steppable(g, Activation(m.Top().func, m.Top().at))
    requires var f := m.Top(); var ops := g.funcs[f.func].ops; f.at.pc < |ops| && ops[f.at.pc] == op
  {
    var f := m.Top();
    if op.Unreachable? then m.(mode := Faulted)
    else if op.Return? then Exit(m)
    else if op.Calls() then Invoke(g, m.SetTop(f.(k := f.k + 1)), Callee(g, op, choice))
    else m.SetTop(f.(at := Transfer(g.funcs[f.func].ops, f.at, choice), k := 0))
  }

  /** Executing the code of the source operator itself; past the last one, returning. */
  function Execute<D>(g: Guest<D>, m: Machine<D>): Machine<D>
    requires m.HasTop() && Steppable(g, Activation(m.Top().func, m.Top().at))
  {
    var f := m.Top();
    var ops := g.funcs[f.func].ops;
    var t := m.(retired := m.retired + 1);
    if f.at.pc == |ops| then Exit(t)
    else match g.eval(ops[f.at.pc], m.data)
         case Trap => t.(mode := Faulted)
         case Goes(choice, data) => Effect(g, t.(data := data), ops[f.at.pc], choice)
  }

  function Perform<D>(g: Guest<D>, m: Machine<D>, item: Item): Machine<D>
    requires m.HasTop() && Steppable(g, Activation(m.Top().func, m.Top().at))
  {
    var f := m.Top();
    var next := f.(k := f.k + 1);
    match item
    case AddCount(n) => m.SetTop(next.(count := Wrap(f.count + n)))
    case Save => m.SetTop(next).(mem := m.mem.(adj := f.count))
    case Load => m.SetTop(next.(count := m.mem.adj))
    case SkipIfNegative(n) => m.SetTop(if f.count < 0 then f.(k := f.k + 1 + n) else next)
    case Yield => m.SetTop(next).(mode := BoundExpired)
    case Source => Execute(g, m)
  }

  function GoOn<D>(g: Guest<D>, code: seq<Compiled>, m: Machine<D>): Machine<D> {
    if !m.HasTop() || !Wired(g, code, m.Top()) then m
    else
      var f := m.Top();
      var items := code[f.func].code[f.at.pc];
      if f.k < |items| then Perform(g, m, items[f.k])
      else m.SetTop(f.(at := f.at.(pc := f.at.pc + 1), k := 0))
  }

  function Advance<D>(g: Guest<D>, code: seq<Compiled>, m: Machine<D>, e: Event): Machine<D> {
    match (m.mode, e)
    case (Going, Go) => GoOn(g, code, m)
    case (Hosting(f), Go) => m.(mode := Going, data := g.host(f, m.data), retired := m.retired + 1)
    case (Hosting(f), Rebound(d)) => if d <= MAX then m.(mem := SetBoundDelta(m.mem, d)) else m
    case (BoundExpired, Rebound(d)) => if d <= MAX then m.(mem := SetBoundDelta(m.mem, d), mode := Going) else m
    case _ => m
  }

  function Play<D>(g: Guest<D>, code: seq<Compiled>, m: Machine<D>, es: seq<Event>): Machine<D> {
    if es == [] then m else Advance(g, code, Play(g, code, m, es[..|es| - 1]), es[|es| - 1])
  }
}
