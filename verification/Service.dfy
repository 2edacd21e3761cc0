/** A guest that is resumed every time its bound expires gets all its work done. */
module Service {
  import opened Int64
  import opened Wasm
  import opened Instrumentation
  import opened CodeShape
  import opened Target
  import opened ExactCount
  import opened Counting

  /** What a serving host lets happen next: it resumes an expired guest at once, with some new bound. */
  function Serving<D>(m: Machine<D>, delta: nat): Event {
    if m.mode.BoundExpired? then Rebound(delta) else Go
  }

  /** The `k`-th state of a guest served with the bounds of `policy`. */
  function Serve<D>(g: Guest<D>, code: seq<Compiled>, m: Machine<D>, policy: nat -> nat, k: nat): Machine<D> {
    if k == 0 then m
    else
      var p := Serve(g, code, m, policy, k - 1);
      Advance(g, code, p, Serving(p, policy(k)))
  }

  /** Events left before the next operator takes effect, at most. */
  ghost function Distance<D>(g: Guest<D>, code: seq<Compiled>, m: Machine<D>): int
    requires m.HasTop() && FrameOk(g, code, m.Top())
  {
    var f := m.Top();
    2 * (9 - f.k) + (if m.mode.BoundExpired? then 1 else 0) + (if Sourced(g, code, f) then 21 else 0)
  }

  const FAR: nat := 40

  lemma DistanceIsNat<D>(g: Guest<D>, code: seq<Compiled>, m: Machine<D>)
    requires m.HasTop() && FrameOk(g, code, m.Top())
    ensures 0 <= Distance(g, code, m) <= FAR
  {
  }

  ghost predicate Unfinished<D>(m: Machine<D>) { m.mode.Going? || m.mode.Hosting? || m.mode.BoundExpired? }

  lemma RelHasTop<D>(g: Guest<D>, code: seq<Compiled>, m: Machine<D>, r: Run<D>)
    requires Rel(g, code, m, r) && Unfinished(m)
    ensures m.HasTop() && FrameOk(g, code, m.Top())
  {
  }

  /** An event that takes no operator into effect brings the next one nearer. */
  lemma Nearer<D>(g: Guest<D>, code: seq<Compiled>, m: Machine<D>, r: Run<D>, delta: nat)
    requires Built(g, code) && Rel(g, code, m, r) && Unfinished(m) && delta <= MAX
    requires m.HasTop() && FrameOk(g, code, m.Top())
    ensures var m' := Advance(g, code, m, Serving(m, delta));
            m'.retired == m.retired ==>
              m'.HasTop() && FrameOk(g, code, m'.Top()) && Distance(g, code, m') < Distance(g, code, m)
  {
    var f := m.Top();
    if m.mode.Going? {
      CanStep(g, code, f);
      Upcoming(g, code, f);
      var items := code[f.func].code[f.at.pc];
      if f.k >= |items| {
        FallThroughBalances(g, code, f, m.mem, r.count);
      } else if !items[f.k].Source? {
        ItemNearer(g, code, m, r, items[f.k]);
      }
    }
  }

  lemma ItemNearer<D>(g: Guest<D>, code: seq<Compiled>, m: Machine<D>, r: Run<D>, item: Item)
    requires Rel(g, code, m, r) && m.mode.Going? && !item.Source? && Upcomes(g, code, m.Top(), item)
    requires Steppable(g, Activation(m.Top().func, m.Top().at))
    ensures var m' := Perform(g, m, item);
            m'.HasTop() && FrameOk(g, code, m'.Top()) && Distance(g, code, m') < Distance(g, code, m)
  {
    ItemSimulates(g, code, m, r, item);
    Upcoming(g, code, m.Top());
  }

  /** After `k` events the machine has followed the source program to `r`, and if anything is left to run
      then enough operators have taken effect. */
  ghost predicate OnTrack<D>(g: Guest<D>, code: seq<Compiled>, m: Machine<D>, r: Run<D>, k: nat) {
    && Rel(g, code, m, r)
    && (Unfinished(m) ==>
        && m.HasTop() && FrameOk(g, code, m.Top())
        && k <= (FAR + 1) * m.retired + FAR - Distance(g, code, m))
  }

  lemma {:induction false} ServiceAdvances<D>(
      g: Guest<D>, code: seq<Compiled>, f: nat, data: D, mem: Counter, count: nat, policy: nat -> nat, k: nat)
    requires Ready(g, code, f, mem, count) && forall i :: policy(i) <= MAX
    ensures var m := Serve(g, code, Boot(f, data, mem), policy, k);
            OnTrack(g, code, m, Steps(g, Start(f, data, count), m.retired), k)
  {
    hide *;
    if k == 0 {
      ServiceBegins(g, code, f, data, mem, count, policy);
    } else {
      ServiceAdvances(g, code, f, data, mem, count, policy, k - 1);
      ReadyIsBuilt(g, code, f, mem, count);
      ServeStep(g, code, Boot(f, data, mem), policy, k);
      var p, s := Serve(g, code, Boot(f, data, mem), policy, k - 1), Start(f, data, count);
      ServedOnce(g, code, p, Steps(g, s, p.retired), policy(k), k - 1);
      StillOnTrack(g, code, s, p.retired, Serve(g, code, Boot(f, data, mem), policy, k), k);
    }
  }

  lemma ServeStep<D>(g: Guest<D>, code: seq<Compiled>, m: Machine<D>, policy: nat -> nat, k: nat)
    requires k > 0
    ensures var p := Serve(g, code, m, policy, k - 1);
            Serve(g, code, m, policy, k) == Advance(g, code, p, Serving(p, policy(k)))
  {
    hide Advance, Serving;
  }

  lemma StillOnTrack<D>(g: Guest<D>, code: seq<Compiled>, s: Run<D>, before: nat, m: Machine<D>, k: nat)
    requires before <= m.retired <= before + 1
    requires OnTrack(g, code, m, if m.retired == before then Steps(g, s, before) else Step(g, Steps(g, s, before)), k)
    ensures OnTrack(g, code, m, Steps(g, s, m.retired), k)
  {
    hide OnTrack, Step;
  }

  lemma ReadyIsBuilt<D>(g: Guest<D>, code: seq<Compiled>, f: nat, mem: Counter, count: nat)
    requires Ready(g, code, f, mem, count)
    ensures Built(g, code)
  {
  }

  lemma ServiceBegins<D>(
      g: Guest<D>, code: seq<Compiled>, f: nat, data: D, mem: Counter, count: nat, policy: nat -> nat)
    requires Ready(g, code, f, mem, count)
    ensures var m := Serve(g, code, Boot(f, data, mem), policy, 0);
            OnTrack(g, code, m, Steps(g, Start(f, data, count), m.retired), 0)
  {
    RunSimulates(g, code, f, data, mem, count, []);
    hide Rel, FrameOk, Distance;
    RelHasTop(g, code, Boot(f, data, mem), Start(f, data, count));
    DistanceIsNat(g, code, Boot(f, data, mem));
  }

  lemma ServedOnce<D>(g: Guest<D>, code: seq<Compiled>, p: Machine<D>, r: Run<D>, delta: nat, k: nat)
    requires Built(g, code) && OnTrack(g, code, p, r, k) && delta <= MAX
    ensures var m := Advance(g, code, p, Serving(p, delta));
            && p.retired <= m.retired <= p.retired + 1
            && OnTrack(g, code, m, if m.retired == p.retired then r else Step(g, r), k + 1)
  {
    var m := Advance(g, code, p, Serving(p, delta));
    Simulates(g, code, p, r, Serving(p, delta));
    hide Distance, GoOn, Step, FrameOk;
    if Unfinished(m) {
      RelHasTop(g, code, m, if m.retired == p.retired then r else Step(g, r));
      DistanceIsNat(g, code, m);
      if Unfinished(p) {
        DistanceIsNat(g, code, p);
        Nearer(g, code, p, r, delta);
      }
    }
  }

  /** With nothing left to run the guest has finished or trapped, as the source program has. */
  lemma NothingLeft<D>(g: Guest<D>, code: seq<Compiled>, m: Machine<D>, r: Run<D>)
    requires Rel(g, code, m, r) && !Unfinished(m)
    ensures r.status.Done? || r.status.Trapped?
    ensures r.status.Done? ==> m.mode.Finished? && m.data == r.data && m.mem.Total() == Wrap(r.count)
    ensures r.status.Trapped? ==> m.mode.Faulted?
  {
  }

  /** After enough events a guest with something left to run has taken more than `n` operators into effect. */
  lemma FarAlong<D>(g: Guest<D>, code: seq<Compiled>, m: Machine<D>, r: Run<D>, n: nat, k: nat)
    requires OnTrack(g, code, m, r, k) && k > (FAR + 1) * n + FAR
    ensures Rel(g, code, m, r)
    ensures Unfinished(m) ==> m.retired > n && !r.status.Done? && !r.status.Trapped?
  {
    if Unfinished(m) {
      DistanceIsNat(g, code, m);
    }
    hide FrameOk, Distance, Matches, Balanced;
  }

  /** A program that comes to an end has come to it in the served guest, too. */
  lemma ServiceSettles<D>(
      g: Guest<D>, code: seq<Compiled>, f: nat, data: D, mem: Counter, count: nat, policy: nat -> nat, n: nat, k: nat)
    requires Ready(g, code, f, mem, count) && forall i :: policy(i) <= MAX
    requires var r := Steps(g, Start(f, data, count), n); r.status.Done? || r.status.Trapped?
    requires k > (FAR + 1) * n + FAR
    ensures var m, r := Serve(g, code, Boot(f, data, mem), policy, k), Steps(g, Start(f, data, count), n);
            Rel(g, code, m, r) && !Unfinished(m)
  {
    hide Rel, OnTrack, Unfinished, Serve, Step, Ready, Boot, Start;
    var m := Serve(g, code, Boot(f, data, mem), policy, k);
    var s := Steps(g, Start(f, data, count), m.retired);
    ServiceAdvances(g, code, f, data, mem, count, policy, k);
    FarAlong(g, code, m, s, n, k);
    if Unfinished(m) {
      StoppedStays(g, Start(f, data, count), n, m.retired);
    } else {
      NothingLeft(g, code, m, s);
      if m.retired <= n {
        StoppedStays(g, Start(f, data, count), m.retired, n);
      } else {
        StoppedStays(g, Start(f, data, count), n, m.retired);
      }
    }
  }

  /** Whatever bounds the host chooses, if the source program finishes then so does the served guest,
      with the same result and the same count. */
  lemma ServiceFinishes<D>(
      g: Guest<D>, code: seq<Compiled>, f: nat, data: D, mem: Counter, count: nat, policy: nat -> nat, n: nat, k: nat)
    requires Ready(g, code, f, mem, count) && forall i :: policy(i) <= MAX
    requires Steps(g, Start(f, data, count), n).status.Done?
    requires k > (FAR + 1) * n + FAR
    ensures var m, r := Serve(g, code, Boot(f, data, mem), policy, k), Steps(g, Start(f, data, count), n);
            m.mode.Finished? && m.data == r.data && m.mem.Total() == Wrap(r.count)
  {
    hide Rel, Unfinished, Serve, Step, Ready, Boot, Start;
    ServiceSettles(g, code, f, data, mem, count, policy, n, k);
    NothingLeft(g, code, Serve(g, code, Boot(f, data, mem), policy, k), Steps(g, Start(f, data, count), n));
  }

  /** And if it traps, so does the served guest: bounds are invisible to traps, too. */
  lemma ServiceTraps<D>(
      g: Guest<D>, code: seq<Compiled>, f: nat, data: D, mem: Counter, count: nat, policy: nat -> nat, n: nat, k: nat)
    requires Ready(g, code, f, mem, count) && forall i :: policy(i) <= MAX
    requires Steps(g, Start(f, data, count), n).status.Trapped?
    requires k > (FAR + 1) * n + FAR
    ensures Serve(g, code, Boot(f, data, mem), policy, k).mode.Faulted?
  {
    hide Rel, Unfinished, Serve, Step, Ready, Boot, Start;
    ServiceSettles(g, code, f, data, mem, count, policy, n, k);
    NothingLeft(g, code, Serve(g, code, Boot(f, data, mem), policy, k), Steps(g, Start(f, data, count), n));
  }
}
