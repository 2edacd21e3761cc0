/** The function table, from element segments to bytes to the emitted indirect-call check, against the
    rule of section 4.4.5 of the WebAssembly Core Specification 1.0. */
module Tables {
  import opened Basics
  import opened ModuleInfo

  datatype Error = NotFunctions | GlobalBase | OutOfRange

  /** An element segment; elements are function indices, merged ones once declared. */
  datatype Segment = Segment(hasBase: bool, offset: nat, elements: seq<nat>) {
    predicate Covers(i: nat) { offset <= i < offset + |elements| }
  }

  datatype Elem = Func(func: nat) | Empty

  // ---- Flattening ----

  /** What the last segment that covers slot `i` puts there. */
  function Slot(segments: seq<Segment>, i: nat): Elem {
    if segments == [] then Empty
    else
      var last := segments[|segments| - 1];
      if last.Covers(i) then Func(last.elements[i - last.offset]) else Slot(segments[..|segments| - 1], i)
  }

  /** The segment after which no other covers the slot decides; a slot no segment covers is empty. */
  lemma {:induction false} SlotIsLast(segments: seq<Segment>, i: nat)
    ensures Slot(segments, i).Empty? <==>
            forall k | 0 <= k < |segments| ::
              i < segments[k].offset || segments[k].offset + |segments[k].elements| <= i
    ensures forall k | 0 <= k < |segments| &&
              segments[k].offset <= i < segments[k].offset + |segments[k].elements| &&
              (forall j | k < j < |segments| ::
                 i < segments[j].offset || segments[j].offset + |segments[j].elements| <= i) ::
              Slot(segments, i) == Func(segments[k].elements[i - segments[k].offset])
  {
    if segments != [] {
      SlotIsLast(segments[..|segments| - 1], i);
    }
  }

  /** The error the first refused segment gives. */
  function Refusal(segments: seq<Segment>, minimum: nat): Option<Error> {
    if segments == [] then None
    else if segments[0].hasBase then Some(GlobalBase)
    else if segments[0].offset + |segments[0].elements| > minimum then Some(OutOfRange)
    else Refusal(segments[1..], minimum)
  }

  /** No segment is refused exactly if each has no base and ends at or before the end of the table; else the
      error is that of the first one that does not. */
  lemma {:induction false} RefusalIs(segments: seq<Segment>, minimum: nat)
    ensures Refusal(segments, minimum).None? <==>
            forall k | 0 <= k < |segments| ::
              !segments[k].hasBase && segments[k].offset + |segments[k].elements| <= minimum
    ensures forall k | 0 <= k < |segments| && Refusal(segments[..k], minimum).None? ::
              (segments[k].hasBase ==> Refusal(segments, minimum) == Some(GlobalBase)) &&
              (!segments[k].hasBase && segments[k].offset + |segments[k].elements| > minimum ==>
                 Refusal(segments, minimum) == Some(OutOfRange))
  {
    if segments != [] {
      RefusalIs(segments[1..], minimum);
      forall k | 0 < k < |segments|
        ensures segments[k] == segments[1..][k - 1] && segments[..k][1..] == segments[1..][..k - 1]
      {
      }
    }
  }

  method WriteSegment(elems: seq<Elem>, segment: Segment) returns (written: seq<Elem>)
    requires segment.offset + |segment.elements| <= |elems|
    ensures |written| == |elems|
    ensures forall i | 0 <= i < |elems| ::
              written[i] == if segment.Covers(i) then Func(segment.elements[i - segment.offset]) else elems[i]
  {
    written := elems;
    for ix := 0 to |segment.elements|
      invariant |written| == |elems|
      invariant forall i | 0 <= i < |elems| ::
        written[i] == if segment.offset <= i < segment.offset + ix then Func(segment.elements[i - segment.offset])
                      else elems[i]
    {
      written := written[segment.offset + ix := Func(segment.elements[ix])];
    }
  }

  method TableElements(isFuncs: bool, minimum: nat, segments: seq<Segment>) returns (r: Result<seq<Elem>, Error>)
    ensures r.Ok? <==> isFuncs && Refusal(segments, minimum).None?
    ensures r.Err? ==> r.error == if !isFuncs then NotFunctions else Refusal(segments, minimum).value
    ensures r.Ok? ==> |r.value| == minimum && forall i | 0 <= i < minimum :: r.value[i] == Slot(segments, i)
  {
    if !isFuncs {
      return Err(NotFunctions);
    }
    var elems := seq(minimum, _ => Empty);
    for k := 0 to |segments|
      invariant |elems| == minimum
      invariant forall i | 0 <= i < minimum :: elems[i] == Slot(segments[..k], i)
      invariant Refusal(segments[k..], minimum) == Refusal(segments, minimum)
    {
      assert segments[k..][1..] == segments[k + 1..];
      assert segments[..k + 1][..k] == segments[..k];
      if segments[k].hasBase {
        return Err(GlobalBase);
      }
      if segments[k].offset + |segments[k].elements| > minimum {
        return Err(OutOfRange);
      }
      elems := WriteSegment(elems, segments[k]);
    }
    assert segments[..|segments|] == segments;
    r := Ok(elems);
  }

  // ---- Bytes ----

  const U64_MAX: nat := 0xffff_ffff_ffff_ffff
  const U32_MAX: nat := 0xffff_ffff

  function Power256(n: nat): nat { if n == 0 then 1 else 256 * Power256(n - 1) }

  /** `n` bytes, least significant first. */
  function ToBytes(x: nat, n: nat): (b: seq<byte>)
    ensures |b| == n
  {
    if n == 0 then [] else [x % 256] + ToBytes(x / 256, n - 1)
  }

  function FromBytes(b: seq<byte>): nat {
    if b == [] then 0 else b[0] + 256 * FromBytes(b[1..])
  }

  lemma {:induction false} BytesRoundTrip(x: nat, n: nat)
    requires x < Power256(n)
    ensures FromBytes(ToBytes(x, n)) == x
  {
    if n > 0 {
      BytesRoundTrip(x / 256, n - 1);
      assert ToBytes(x, n)[1..] == ToBytes(x / 256, n - 1);
    }
  }

  /** `x` shifted right by `k` bytes. */
  function Shifted(x: nat, k: nat): nat
    decreases k
  {
    if k == 0 then x else Shifted(x / 256, k - 1)
  }

  lemma {:induction false} LittleEndian(x: nat, n: nat, k: nat)
    requires k < n
    ensures ToBytes(x, n)[k] == Shifted(x, k) % 256
    decreases k
  {
    if k > 0 {
      LittleEndian(x / 256, n - 1, k - 1);
    }
  }

  /** Eight bytes hold every 64-bit number. */
  lemma WordRoundTrip(x: nat)
    requires x <= U64_MAX
    ensures FromBytes(ToBytes(x, 8)) == x
  {
    assert Power256(2) == 0x1_0000 && Power256(4) == 0x1_0000_0000;
    assert Power256(6) == 0x1_0000_0000_0000;
    BytesRoundTrip(x, 8);
  }

  /** The eight-byte word at byte `p`. */
  function Word(data: seq<byte>, p: nat): nat
    requires p + 8 <= |data|
  {
    FromBytes(data[p..p + 8])
  }

  /** A table section: its bytes, and at which of them the linker puts the address of which function. */
  datatype Image = Image(data: seq<byte>, relocs: map<nat, nat>)

  /** The signature word of a slot. An empty slot has a word no signature index reaches. */
  function SigWord(e: Elem, sigs: seq<nat>): nat {
    match e
    case Func(u) => if u < |sigs| then sigs[u] else U64_MAX
    case Empty => U64_MAX
  }

  ghost predicate Images(image: Image, elems: seq<Elem>, sigs: seq<nat>) {
    && |image.data| == 16 * |elems|
    && (forall i | 0 <= i < |elems| :: EntryImaged(image, elems, sigs, i))
    && (forall p | p in image.relocs :: p < 16 * |elems|)
  }

  ghost predicate EntryImaged(image: Image, elems: seq<Elem>, sigs: seq<nat>, i: nat)
    requires i < |elems| && |image.data| == 16 * |elems|
  {
    && Word(image.data, 16 * i) == SigWord(elems[i], sigs)
    && Word(image.data, 16 * i + 8) == 0
    && (16 * i + 8 in image.relocs <==> elems[i].Func?)
    && (elems[i].Func? ==> image.relocs[16 * i + 8] == elems[i].func)
  }

  lemma {:induction false} BytesAreUnique(a: seq<byte>, b: seq<byte>)
    requires |a| == |b| && FromBytes(a) == FromBytes(b)
    ensures a == b
  {
    if a != [] {
      assert a[0] == FromBytes(a) % 256 && b[0] == FromBytes(b) % 256;
      BytesAreUnique(a[1..], b[1..]);
      assert a == [a[0]] + a[1..] && b == [b[0]] + b[1..];
    }
  }

  /** The sixteen bytes of an entry: the signature, least significant byte first and all ones for an empty slot,
      then zeroes that the linker fills in. */
  lemma EntryBytes(image: Image, elems: seq<Elem>, sigs: seq<nat>, i: nat, k: nat)
    requires Images(image, elems, sigs) && i < |elems| && SigWord(elems[i], sigs) <= U64_MAX && k < 16
    ensures image.data[16 * i + k] ==
            if k >= 8 then 0
            else if elems[i].Empty? then 255
            else Shifted(SigWord(elems[i], sigs), k) % 256
  {
    assert EntryImaged(image, elems, sigs, i);
    if k < 8 {
      WordByte(image.data, 16 * i, SigWord(elems[i], sigs), k);
      AllOnes(k);
    } else {
      WordByte(image.data, 16 * i + 8, 0, k - 8);
      AllZeroes(k - 8);
    }
    hide Images, EntryImaged, Word, Shifted;
  }

  lemma WordByte(data: seq<byte>, p: nat, x: nat, k: nat)
    requires p + 8 <= |data| && x <= U64_MAX && Word(data, p) == x && k < 8
    ensures data[p + k] == Shifted(x, k) % 256
  {
    WordRoundTrip(x);
    BytesAreUnique(data[p..p + 8], ToBytes(x, 8));
    assert data[p + k] == data[p..p + 8][k];
    LittleEndian(x, 8, k);
  }

  lemma AllOnes(k: nat)
    requires k < 8
    ensures Shifted(U64_MAX, k) % 256 == 255
  {
    assert Shifted(U64_MAX, 2) == 0xffff_ffff_ffff && Shifted(U64_MAX, 4) == 0xffff_ffff;
    assert Shifted(U64_MAX, 3) == 0xff_ffff_ffff && Shifted(U64_MAX, 5) == 0xff_ffff;
    assert Shifted(U64_MAX, 6) == 0xffff && Shifted(U64_MAX, 7) == 0xff;
  }

  lemma {:induction false} AllZeroes(k: nat)
    ensures Shifted(0, k) == 0
  {
    if k > 0 {
      AllZeroes(k - 1);
    }
  }

  /** Relocations are written at 32-bit offsets; a function too far out fails an assertion. */
  predicate Addressable(elems: seq<Elem>) {
    forall i | 0 <= i < |elems| :: elems[i].Func? ==> 16 * i + 8 < U32_MAX
  }

  /** The image with one more entry. */
  function Appended(image: Image, e: Elem, sigs: seq<nat>): Image {
    Image(image.data + ToBytes(SigWord(e, sigs), 8) + ToBytes(0, 8),
          if e.Func? then image.relocs[|image.data| + 8 := e.func] else image.relocs)
  }

  lemma AppendImages(image: Image, elems: seq<Elem>, sigs: seq<nat>, e: Elem)
    requires Images(image, elems, sigs)
    requires SigWord(e, sigs) <= U64_MAX
    ensures Images(Appended(image, e, sigs), elems + [e], sigs)
  {
    forall i | 0 <= i < |elems| + 1
      ensures EntryImaged(Appended(image, e, sigs), elems + [e], sigs, i)
    {
      if i < |elems| {
        EntryStays(image, elems, sigs, e, i);
      } else {
        EntryAdded(image, elems, sigs, e);
      }
    }
    hide EntryImaged, ToBytes, SigWord;
  }

  lemma EntryStays(image: Image, elems: seq<Elem>, sigs: seq<nat>, e: Elem, i: nat)
    requires i < |elems| && |image.data| == 16 * |elems| && EntryImaged(image, elems, sigs, i)
    ensures EntryImaged(Appended(image, e, sigs), elems + [e], sigs, i)
  {
    hide ToBytes, SigWord, FromBytes;
    var next := Appended(image, e, sigs);
    assert next.data[16 * i..16 * i + 8] == image.data[16 * i..16 * i + 8];
    assert next.data[16 * i + 8..16 * i + 8 + 8] == image.data[16 * i + 8..16 * i + 8 + 8];
  }

  lemma EntryAdded(image: Image, elems: seq<Elem>, sigs: seq<nat>, e: Elem)
    requires |image.data| == 16 * |elems| && (forall p | p in image.relocs :: p < 16 * |elems|)
    requires SigWord(e, sigs) <= U64_MAX
    ensures EntryImaged(Appended(image, e, sigs), elems + [e], sigs, |elems|)
  {
    hide ToBytes, SigWord, FromBytes, Word;
    WordRoundTrip(SigWord(e, sigs));
    WordRoundTrip(0);
    LastWords(image.data, ToBytes(SigWord(e, sigs), 8), ToBytes(0, 8));
  }

  lemma LastWords(data: seq<byte>, first: seq<byte>, second: seq<byte>)
    requires |first| == 8 && |second| == 8
    ensures Word(data + first + second, |data|) == FromBytes(first)
    ensures Word(data + first + second, |data| + 8) == FromBytes(second)
  {
    var all := data + first + second;
    assert all[|data|..|data| + 8] == first;
    assert all[|data| + 8..|data| + 8 + 8] == second;
  }

  /** `None` is the failed assertion. */
  method WriteTableData(elems: seq<Elem>, sigs: seq<nat>) returns (image: Option<Image>)
    requires forall i | 0 <= i < |elems| :: elems[i].Func? ==> elems[i].func < |sigs| && sigs[elems[i].func] <= U32_MAX
    ensures image.Some? <==> Addressable(elems)
    ensures image.Some? ==> Images(image.value, elems, sigs)
  {
    var data: seq<byte>, relocs := [], map[];
    for i := 0 to |elems|
      invariant Images(Image(data, relocs), elems[..i], sigs)
      invariant Addressable(elems[..i])
    {
      assert elems[..i + 1] == elems[..i] + [elems[i]];
      AppendImages(Image(data, relocs), elems[..i], sigs, elems[i]);
      match elems[i] {
        case Func(u) =>
          data := data + ToBytes(sigs[u], 8);
          var position := |data|;
          if position >= U32_MAX {
            return None;
          }
          relocs := relocs[position := u];
          data := data + ToBytes(0, 8);
        case Empty =>
          data := data + ToBytes(U64_MAX, 8);
          data := data + ToBytes(0, 8);
      }
    }
    assert elems[..|elems|] == elems;
    image := Some(Image(data, relocs));
  }

  // ---- The emitted check ----

  datatype Indirect = TableOutOfBounds | BadSignature | CallsNull | Calls(func: nat)

  /** `sextend` of a 32-bit index, read as an unsigned 64-bit number. */
  function SignExtend(callee: nat): nat
    requires callee <= U32_MAX
  {
    if callee < 0x8000_0000 then callee else callee + (U64_MAX - U32_MAX)
  }

  /** Bounds check, signature word against the expected unique index, then the function address. */
  function CallIndirect(image: Image, bound: nat, expected: nat, callee: nat): Indirect
    requires callee <= U32_MAX && |image.data| == 16 * bound && bound <= U32_MAX
  {
    var ix := SignExtend(callee);
    if ix >= bound then TableOutOfBounds
    else if Word(image.data, 16 * ix) != expected then BadSignature
    else if 16 * ix + 8 in image.relocs then Calls(image.relocs[16 * ix + 8])
    else CallsNull
  }

  /** The table of a module: segments with merged elements, and the unique signature of every merged function. */
  function Merged(i: Info, segments: seq<Segment>): (r: seq<Segment>)
    ensures |r| == |segments|
  {
    seq(|segments|, k requires 0 <= k < |segments| =>
      segments[k].(elements := seq(|segments[k].elements|, j requires 0 <= j < |segments[k].elements| =>
        if segments[k].elements[j] < |i.functionMapping| then i.functionMapping[segments[k].elements[j]] else 0)))
  }

  function Signatures(i: Info): (r: seq<nat>)
    ensures |r| == |i.functions|
  {
    seq(|i.functions|, u requires 0 <= u < |i.functions| =>
      if i.functions[u].typeIx < |i.signatureMapping| then i.signatureMapping[i.functions[u].typeIx] else 0)
  }

  ghost predicate ElementsOk(m: Module, segments: seq<Segment>) {
    forall k, j | 0 <= k < |segments| && 0 <= j < |segments[k].elements| :: segments[k].elements[j] < m.FuncCount()
  }

  lemma {:induction false} MergedSlot(m: Module, i: Info, segments: seq<Segment>, s: nat)
    requires ElementsOk(m, segments) && |i.functionMapping| == m.FuncCount()
    ensures var e := Slot(segments, s);
            && (e.Func? ==> e.func < m.FuncCount())
            && Slot(Merged(i, segments), s) == if e.Func? then Func(i.functionMapping[e.func]) else Empty
  {
    if segments != [] {
      var n := |segments| - 1;
      assert Merged(i, segments)[..n] == Merged(i, segments[..n]);
      MergedSlot(m, i, segments[..n], s);
    }
  }

  /** Merging function indices does not change which segments are refused. */
  lemma {:induction false} RefusalMerged(i: Info, segments: seq<Segment>, minimum: nat)
    ensures Refusal(Merged(i, segments), minimum) == Refusal(segments, minimum)
  {
    if segments != [] {
      assert Merged(i, segments)[1..] == Merged(i, segments[1..]);
      RefusalMerged(i, segments[1..], minimum);
    }
  }
}
