/** Trap lookup: from an instruction pointer to the trap code the compiler recorded for it. */
module Traps {
  import opened Basics

  datatype TrapCode =
    | StackOverflow | HeapOutOfBounds | IndirectCallToNull | BadSignature | IntegerOverflow | IntegerDivByZero
    | BadConversionToInteger | Interrupt | TableOutOfBounds | Unreachable | HeapMisaligned

  datatype TrapSite = TrapSite(offset: nat, code: TrapCode)

  /** A function of the manifest; `None` is the null trap address. */
  datatype FunctionSpec = FunctionSpec(codeAddr: nat, codeLen: nat, traps: Option<seq<TrapSite>>) {
    predicate Contains(addr: nat) {
      addr >= codeAddr && addr - codeAddr < codeLen
    }

    function RelativeAddr(addr: nat): (r: Option<nat>)
      ensures r.Some? <==> codeAddr <= addr < codeAddr + codeLen
      ensures r.Some? <==> Contains(addr)
      ensures r.Some? ==> codeAddr + r.value == addr
    {
      if addr < codeAddr then None
      else if addr - codeAddr < codeLen then Some(addr - codeAddr) else None
    }
  }

  predicate StrictlySorted(sites: seq<TrapSite>) {
    forall j, k | 0 <= j < k < |sites| :: sites[j].offset < sites[k].offset
  }

  /** What the search finds among `size` sites from `base` on, sorted or not. */
  function Searched(sites: seq<TrapSite>, addr: nat, base: nat, size: nat): Option<TrapCode>
    requires size >= 1 && base + size <= |sites|
    decreases size
  {
    if size == 1 then if sites[base].offset == addr then Some(sites[base].code) else None
    else
      var half := size / 2;
      Searched(sites, addr, if sites[base + half].offset <= addr then base + half else base, size - half)
  }

  function Found(sites: seq<TrapSite>, addr: nat): Option<TrapCode> {
    if sites == [] then None else Searched(sites, addr, 0, |sites|)
  }

  lemma {:induction false} SearchedIsRecorded(sites: seq<TrapSite>, addr: nat, base: nat, size: nat)
    requires size >= 1 && base + size <= |sites|
    ensures var r := Searched(sites, addr, base, size); r.Some? ==> TrapSite(addr, r.value) in sites
    decreases size
  {
    if size == 1 {
      assert sites[base] in sites;
    } else {
      var half := size / 2;
      SearchedIsRecorded(sites, addr, if sites[base + half].offset <= addr then base + half else base, size - half);
    }
  }

  /** In a sorted list the search keeps the site it is looking for in range. */
  lemma {:induction false} SearchedFinds(sites: seq<TrapSite>, addr: nat, base: nat, size: nat, k: nat)
    requires StrictlySorted(sites)
    requires base <= k < base + size <= |sites| && sites[k].offset == addr
    ensures Searched(sites, addr, base, size) == Some(sites[k].code)
    decreases size
  {
    if size > 1 {
      var half := size / 2;
      SearchedFinds(sites, addr, if sites[base + half].offset <= addr then base + half else base, size - half, k);
    }
  }

  /** The binary search of the standard library, then the code of the site it ends on. What it returns is
      recorded; in a sorted list it finds what is recorded. */
  method LookupAddr(sites: seq<TrapSite>, addr: nat) returns (r: Option<TrapCode>)
    ensures r == Found(sites, addr)
    ensures r.Some? ==> TrapSite(addr, r.value) in sites
    ensures StrictlySorted(sites) ==> forall code :: r == Some(code) <==> TrapSite(addr, code) in sites
  {
    if |sites| == 0 {
      return None;
    }
    var base: nat, size: nat := 0, |sites|;
    while size > 1
      invariant 1 <= size && base + size <= |sites|
      invariant Searched(sites, addr, base, size) == Searched(sites, addr, 0, |sites|)
    {
      var half := size / 2;
      if sites[base + half].offset <= addr {
        base := base + half;
      }
      size := size - half;
    }
    r := if sites[base].offset == addr then Some(sites[base].code) else None;
    SearchedIsRecorded(sites, addr, 0, |sites|);
    if StrictlySorted(sites) {
      forall k | 0 <= k < |sites| && sites[k].offset == addr
        ensures r == Some(sites[k].code)
      {
        SearchedFinds(sites, addr, 0, |sites|, k);
      }
    }
  }

  // ---- The manifest ----

  /** Site `k` of function `i` lies at `rip`. */
  predicate SiteAt(manifest: seq<FunctionSpec>, rip: nat, i: nat, k: nat) {
    && i < |manifest| && manifest[i].Contains(rip)
    && manifest[i].traps.Some? && k < |manifest[i].traps.value|
    && manifest[i].codeAddr + manifest[i].traps.value[k].offset == rip
  }

  predicate HasTrap(manifest: seq<FunctionSpec>, rip: nat, code: TrapCode) {
    exists i, k | 0 <= i < |manifest| && manifest[i].traps.Some? && 0 <= k < |manifest[i].traps.value| ::
      SiteAt(manifest, rip, i, k) && manifest[i].traps.value[k].code == code
  }

  /** No address lies in two functions. */
  ghost predicate Disjoint(manifest: seq<FunctionSpec>) {
    forall i, j, addr: nat | 0 <= i < |manifest| && 0 <= j < |manifest| ::
      manifest[i].Contains(addr) && manifest[j].Contains(addr) ==> i == j
  }

  predicate Sorted(manifest: seq<FunctionSpec>) {
    forall i | 0 <= i < |manifest| :: manifest[i].traps.Some? ==> StrictlySorted(manifest[i].traps.value)
  }

  /** What a scan of any manifest finds: the search in the first function that contains `rip`. */
  function Scan(manifest: seq<FunctionSpec>, rip: nat): Option<TrapCode> {
    if manifest == [] then None
    else if !manifest[0].Contains(rip) then Scan(manifest[1..], rip)
    else if manifest[0].traps.None? then None
    else Found(manifest[0].traps.value, rip - manifest[0].codeAddr)
  }

  /** The first function that contains the address decides, whatever later ones record there: without traps of
      its own there is nothing to find. */
  lemma {:induction false} FirstFunctionDecides(manifest: seq<FunctionSpec>, rip: nat, n: nat)
    requires n <= |manifest| && forall i | 0 <= i < n :: !manifest[i].Contains(rip)
    ensures n == |manifest| ==> Scan(manifest, rip) == None
    ensures n < |manifest| && manifest[n].Contains(rip) ==>
              Scan(manifest, rip) ==
              if manifest[n].traps.None? then None else Found(manifest[n].traps.value, rip - manifest[n].codeAddr)
  {
    if n > 0 {
      FirstFunctionDecides(manifest[1..], rip, n - 1);
    }
  }

  /** Scans for the first function that contains `rip`. Every code it returns is recorded at `rip`; if
      functions are disjoint and traps sorted, it returns whatever is recorded there. */
  method LookupTrapcode(manifest: seq<FunctionSpec>, rip: nat) returns (r: Option<TrapCode>)
    ensures r == Scan(manifest, rip)
    ensures r.Some? ==> HasTrap(manifest, rip, r.value)
    ensures Disjoint(manifest) && Sorted(manifest) ==>
              forall code :: r == Some(code) <==> HasTrap(manifest, rip, code)
  {
    for n := 0 to |manifest|
      invariant forall i | 0 <= i < n :: !manifest[i].Contains(rip)
      invariant Scan(manifest[n..], rip) == Scan(manifest, rip)
    {
      assert manifest[n..][1..] == manifest[n + 1..];
      var offset := manifest[n].RelativeAddr(rip);
      if offset.Some? {
        if manifest[n].traps.None? {
          return None;
        }
        var sites := manifest[n].traps.value;
        r := LookupAddr(sites, offset.value);
        forall code
          ensures TrapSite(offset.value, code) in sites ==> HasTrap(manifest, rip, code)
        {
          if k :| 0 <= k < |sites| && sites[k] == TrapSite(offset.value, code) {
            assert SiteAt(manifest, rip, n, k);
          }
        }
        return;
      }
    }
    r := None;
  }

  /** At most one site lies at an address, so its code is unique. */
  lemma SiteIsUnique(manifest: seq<FunctionSpec>, rip: nat, i: nat, k: nat, i': nat, k': nat)
    requires Disjoint(manifest) && Sorted(manifest)
    requires SiteAt(manifest, rip, i, k) && SiteAt(manifest, rip, i', k')
    ensures i == i' && k == k'
  {
  }

  /** Entries of no length, wherever they stand and whatever traps they list, change no lookup in any manifest. */
  lemma {:induction false} EmptyEntriesNeverMatch(manifest: seq<FunctionSpec>, empty: FunctionSpec, at: nat, rip: nat)
    requires empty.codeLen == 0 && at <= |manifest|
    ensures Scan(manifest[..at] + [empty] + manifest[at..], rip) == Scan(manifest, rip)
    decreases at
  {
    var more := manifest[..at] + [empty] + manifest[at..];
    if at == 0 {
      assert more[1..] == manifest;
    } else {
      EmptyEntriesNeverMatch(manifest[1..], empty, at - 1, rip);
      assert more[1..] == manifest[1..][..at - 1] + [empty] + manifest[1..][at - 1..];
    }
  }

  /** The first function of the manifest that starts at `ptr`; `None` is the failed expectation. */
  method FunctionHandleFromPtr(manifest: seq<FunctionSpec>, ptr: nat) returns (id: Option<nat>)
    ensures id.None? <==> forall i | 0 <= i < |manifest| :: manifest[i].codeAddr != ptr
    ensures id.Some? ==> id.value < |manifest| && manifest[id.value].codeAddr == ptr
    ensures Disjoint(manifest) && id.Some? && manifest[id.value].codeLen > 0 ==>
              forall i | 0 <= i < |manifest| && manifest[i].Contains(ptr) :: i == id.value
    ensures id.Some? ==> forall i | 0 <= i < id.value :: manifest[i].codeAddr != ptr
  {
    for n := 0 to |manifest|
      invariant forall i | 0 <= i < n :: manifest[i].codeAddr != ptr
    {
      if manifest[n].codeAddr == ptr {
        assert manifest[n].codeLen > 0 ==> manifest[n].Contains(ptr);
        return Some(n);
      }
    }
    id := None;
  }
}
