/** Where the counting half and the instance half of the model meet: a slice of compiled code, read as the
    instance sees it, expires only when it has counted up to its bound. */
module Honesty {
  import opened Basics
  import opened Int64
  import opened Wasm
  import opened Instrumentation
  import opened Target
  import opened Counting
  import opened Slices
  import opened SliceTheorems
  import InstanceState
  import InstanceRuns

  /** The slice that leads from `m` to the expired `e`, by what it added to `instruction_count_adj`. */
  function ExpiringSlice(m: Counter, e: Counter): InstanceState.Slice {
    InstanceState.Slice(true, if e.adj >= m.adj then e.adj - m.adj else 0, InstanceState.Expires, true)
  }

  /** The bound an instance was entered or resumed with is the one the slice started with. */
  predicate Sets(mem: Counter, o: Origin, bound: Option<nat>) {
    match o
    case Entry => mem.adj == 0 - InstanceState.Delta(bound)
    case Resumption(_, delta) => delta == InstanceState.Delta(bound)
  }

  /** Every slice of compiled code that expires, on any run, is one the instance model allows: its count takes
      the counter to or past zero. The two counter fields of the expired instance are those of the instance
      model, and without a bound at least 2^63 - 1 was counted. */
  lemma CompiledSlicesAreHonest<D>(
      g: Guest<D>, code: seq<Compiled>, f: nat, data: D, mem: Counter, count: nat, o: Origin, bound: Option<nat>,
      n: nat, length: nat, cost: nat)
    requires Settings(g, code, length, cost) && Ready(g, code, f, mem, count) && g.maxDepth > 0
    requires InstanceState.BoundOk(bound)
    requires Begins(g, code, Boot(f, data, mem), o) && Sets(mem, o, bound)
    requires var m := Began(g, code, Boot(f, data, mem), o);
             Live(Coast(g, code, m, n)) && Coast(g, code, m, n + 1).mode.BoundExpired?
    ensures var m := Began(g, code, Boot(f, data, mem), o);
            var e := Coast(g, code, m, n + 1);
            var s := ExpiringSlice(m.mem, e.mem);
            && InstanceRuns.Honest(bound, s)
            && e.mem == m.mem.(adj := Wrap(m.mem.adj + s.counted))
            && (bound.None? ==> s.counted >= MAX)
  {
    hide Began, Begins, Sets, Settings, Ready, Coast, Live, ExpiringSlice, StackCost, Start;
    BeganAt(g, code, Boot(f, data, mem), o, bound);
    var m := Began(g, code, Boot(f, data, mem), o);
    var _, _ := EveryOvershootIsBounded(g, code, f, data, mem, count, o, n, length, cost);
    CoastRetires(g, code, m, n + 1);
    HonestCount(m.mem, Coast(g, code, m, n + 1).mem, bound);
  }

  lemma HonestCount(m: Counter, e: Counter, bound: Option<nat>)
    requires InstanceState.BoundOk(bound)
    requires m.adj == 0 - InstanceState.Delta(bound) && e.adj >= 0 && e.bound == m.bound
    ensures var s := ExpiringSlice(m, e);
            && InstanceRuns.Honest(bound, s)
            && e == m.(adj := Wrap(m.adj + s.counted))
            && (bound.None? ==> s.counted >= MAX)
  {
  }

  lemma BeganAt<D>(g: Guest<D>, code: seq<Compiled>, boot: Machine<D>, o: Origin, bound: Option<nat>)
    requires Begins(g, code, boot, o) && Sets(boot.mem, o, bound) && InstanceState.BoundOk(bound)
    ensures Began(g, code, boot, o).mem.adj == 0 - InstanceState.Delta(bound)
  {
    hide Play;
  }

  /** Without a bound compiled code does not expire before it has counted 2^63 - 1: the premise under which
      an async run without a bound never panics. */
  lemma UnboundedCodeDoesNotExpire<D>(
      g: Guest<D>, code: seq<Compiled>, f: nat, data: D, mem: Counter, count: nat, o: Origin,
      n: nat, length: nat, cost: nat)
    requires Settings(g, code, length, cost) && Ready(g, code, f, mem, count) && g.maxDepth > 0
    requires Begins(g, code, Boot(f, data, mem), o) && Sets(mem, o, None)
    requires var m := Began(g, code, Boot(f, data, mem), o);
             Live(Coast(g, code, m, n)) && ExpiringSlice(m.mem, Coast(g, code, m, n + 1).mem).counted < MAX
    ensures !Coast(g, code, Began(g, code, Boot(f, data, mem), o), n + 1).mode.BoundExpired?
  {
    hide Began, Begins, Settings, Ready, Coast, Live, Boot;
    if Coast(g, code, Began(g, code, Boot(f, data, mem), o), n + 1).mode.BoundExpired? {
      CompiledSlicesAreHonest(g, code, f, data, mem, count, o, None, n, length, cost);
    }
  }
}
