/** What can be said of the emitted code item by item. */
module CodeShape {
  import opened Wasm
  import opened Instrumentation
  import opened ControlStack

  function PriceAt(c: Compiled, pc: nat): nat
    requires pc <= |c.ops|
  {
    if pc < |c.ops| then OpCost(c.ops[pc]) else 0
  }

  function Owing(c: Compiled, pc: nat): nat
    requires pc < |c.states|
  {
    Top(c.states[pc].costs)
  }

  predicate CallsAt(c: Compiled, pc: nat) {
    pc < |c.ops| && c.ops[pc].Calls()
  }

  /** What is flushed at `pc`. */
  function FlushAt(c: Compiled, pc: nat): nat
    requires |c.states| == |c.ops| + 1 && pc <= |c.ops|
  {
    if pc < |c.ops| && Flushes(c.ops[pc]) then Owing(c, pc) + OpCost(c.ops[pc]) else 0
  }

  predicate ChecksAt(c: Compiled, pc: nat)
    requires |c.states| == |c.ops| + 1 && pc <= |c.ops|
    requires pc < |c.ops| ==> DepthsOk(c.ops[pc], |c.states[pc].costs|)
  {
    pc < |c.ops| && Checks(c.states[pc].costs, c.ops[pc])
  }

  // Where each part of the code at `pc` starts.
  function AddAt(pc: nat): nat { if pc == 0 then 1 else 0 }

  function CheckAt(c: Compiled, pc: nat): nat
    requires |c.states| == |c.ops| + 1 && pc <= |c.ops|
  {
    AddAt(pc) + if FlushAt(c, pc) == 0 then 0 else 1
  }

  function SourceAt(c: Compiled, pc: nat): nat
    requires |c.states| == |c.ops| + 1 && pc <= |c.ops|
    requires pc < |c.ops| ==> DepthsOk(c.ops[pc], |c.states[pc].costs|)
  {
    if pc == |c.ops| then 1 else CheckAt(c, pc) + if ChecksAt(c, pc) then 5 else 0
  }

  ghost predicate Depths(c: Compiled, pc: nat)
    requires c.Shaped() && pc <= |c.ops|
  {
    pc < |c.ops| ==> |c.states[pc].costs| == |c.states[pc].trans.frames| && DepthsOk(c.ops[pc], |c.states[pc].costs|)
  }

  lemma DepthsFit(c: Compiled, pc: nat)
    requires c.Valid() && pc <= |c.ops|
    ensures Depths(c, pc)
  {
    if pc < |c.ops| {
      assert c.StepAt(pc);
    }
  }

  /** The code at a reachable operator, item by item. */
  lemma Shape(c: Compiled, pc: nat)
    requires c.Valid() && pc < |c.ops| && c.states[pc].trans.reach && Depths(c, pc)
    ensures var items, a, h, s := c.code[pc], AddAt(pc), CheckAt(c, pc), SourceAt(c, pc);
            && |items| == s + (if CallsAt(c, pc) then 2 else 1)
            && (pc == 0 ==> items[0] == Load)
            && (h == a + 1 ==> items[a] == AddCount(FlushAt(c, pc)))
            && (h < s ==> items[h] == Save && items[h + 1] == SkipIfNegative(3) && items[h + 2] == Save
                          && items[h + 3] == Yield && items[h + 4] == Load)
            && items[s] == Source
            && (CallsAt(c, pc) ==> items[s + 1] == Load)
  {
    assert c.StepAt(pc);
  }
}
