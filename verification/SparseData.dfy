/** Splitting data segments into sparse 4 KiB pages, against writing them one after the other into
    zeroed flat memory (section 4.5.4 of the WebAssembly Core Specification 1.0). */
module SparseData {
  import opened Basics

  const PAGE_SIZE: nat := 4096

  datatype Error = UnsupportedBase | InitData | IncorrectPageSize

  datatype DataInitializer = DataInitializer(hasBase: bool, offset: nat, data: seq<byte>) {
    function Limit(): nat { offset + |data| }

    predicate Covers(a: nat) { offset <= a < Limit() }

    /** The part of this initializer before byte `n`. */
    function Prefix(n: nat): DataInitializer
      requires n <= |data|
    {
      this.(data := data[..n])
    }
  }

  /** A chunk of an initializer together with the page it lies in. */
  datatype Chunk = Chunk(page: nat, init: DataInitializer) {
    function Address(): nat { page * PAGE_SIZE + init.offset }
  }

  // ---- Flat memory ----

  /** What address `a` holds after writing the initializers in order. */
  function Written(inits: seq<DataInitializer>, a: nat): byte {
    if inits == [] then 0
    else
      var last := inits[|inits| - 1];
      if last.Covers(a) then last.data[a - last.offset] else Written(inits[..|inits| - 1], a)
  }

  /** The initializer after which no other writes the address decides; an address none writes is zero. */
  lemma {:induction false} WrittenIsLast(inits: seq<DataInitializer>, a: nat, k: nat)
    requires k <= |inits|
    requires forall j | k <= j < |inits| :: a < inits[j].offset || inits[j].offset + |inits[j].data| <= a
    ensures k == 0 ==> Written(inits, a) == 0
    ensures k > 0 && inits[k - 1].offset <= a < inits[k - 1].offset + |inits[k - 1].data| ==>
              Written(inits, a) == inits[k - 1].data[a - inits[k - 1].offset]
  {
    if k < |inits| {
      WrittenIsLast(inits[..|inits| - 1], a, k);
    }
  }

  function Zeroes(size: nat): seq<byte> { seq(size, i => 0) }

  /** One initializer written into a memory, as far as the memory goes. */
  function Write(mem: seq<byte>, di: DataInitializer): (r: seq<byte>)
    ensures |r| == |mem|
  {
    seq(|mem|, a requires 0 <= a < |mem| => if di.Covers(a) then di.data[a - di.offset] else mem[a])
  }

  function FlatMemory(inits: seq<DataInitializer>, size: nat): (r: seq<byte>)
    ensures |r| == size
  {
    if inits == [] then Zeroes(size) else Write(FlatMemory(inits[..|inits| - 1], size), inits[|inits| - 1])
  }

  lemma {:induction false} WrittenIsFlat(inits: seq<DataInitializer>, size: nat, a: nat)
    requires a < size
    ensures FlatMemory(inits, size)[a] == Written(inits, a)
  {
    if inits != [] {
      WrittenIsFlat(inits[..|inits| - 1], size, a);
    }
  }

  // ---- Splitting one initializer ----

  /** A chunk lies in one page and carries the initializer's bytes from `from` on. */
  predicate ChunkOk(di: DataInitializer, c: Chunk, from: nat) {
    && !c.init.hasBase
    && c.init.data != []
    && c.init.Limit() <= PAGE_SIZE
    && c.Address() == di.offset + from
    && from + |c.init.data| <= |di.data|
    && c.init.data == di.data[from..from + |c.init.data|]
  }

  /** The chunks follow one another from byte `from` to byte `to` of the initializer. */
  predicate Chunked(di: DataInitializer, chunks: seq<Chunk>, from: nat, to: nat)
    decreases |chunks|
  {
    if chunks == [] then from == to
    else
      var n := |chunks| - 1;
      var size := |chunks[n].init.data|;
      && size <= to
      && ChunkOk(di, chunks[n], to - size)
      && Chunked(di, chunks[..n], from, to - size)
  }

  function Concat(chunks: seq<Chunk>): seq<byte> {
    if chunks == [] then [] else Concat(chunks[..|chunks| - 1]) + chunks[|chunks| - 1].init.data
  }

  lemma {:induction false} ChunksConcat(di: DataInitializer, chunks: seq<Chunk>, to: nat)
    requires Chunked(di, chunks, 0, to) && to <= |di.data|
    ensures Concat(chunks) == di.data[..to]
  {
    if chunks != [] {
      var n := |chunks| - 1;
      var from := to - |chunks[n].init.data|;
      ChunksConcat(di, chunks[..n], from);
      assert di.data[..to] == di.data[..from] + di.data[from..to];
    }
  }

  /** Every assertion of `linear_memory_range` on its range is a precondition here. */
  method LinearMemoryRange(di: DataInitializer, start: nat, end: nat) returns (slice: seq<byte>)
    requires di.offset <= start <= end <= di.Limit() && start < di.Limit()
    ensures slice == di.data[start - di.offset..end - di.offset]
  {
    slice := di.data[start - di.offset..end - di.offset];
  }

  /** The chunks are page-local, follow one another and put the data back together. */
  method Split(di: DataInitializer) returns (out: seq<Chunk>)
    ensures Chunked(di, out, 0, |di.data|)
    ensures Concat(out) == di.data
  {
    var end := di.offset + |di.data|;
    var offs := di.offset;
    out := [];
    while offs < end
      invariant di.offset <= offs <= end
      invariant Chunked(di, out, 0, offs - di.offset)
      decreases end - offs
    {
      var page := offs / PAGE_SIZE;
      var pageOffs := offs % PAGE_SIZE;
      var next := if (page + 1) * PAGE_SIZE < end then (page + 1) * PAGE_SIZE else end;
      var slice := LinearMemoryRange(di, offs, next);
      var chunk := Chunk(page, DataInitializer(false, pageOffs, slice));
      assert ChunkOk(di, chunk, offs - di.offset);
      assert (out + [chunk])[..|out|] == out;
      out := out + [chunk];
      offs := next;
    }
    ChunksConcat(di, out, |di.data|);
    assert di.data[..|di.data|] == di.data;
  }

  // ---- Building the pages ----

  type Pages = seq<Option<seq<byte>>>

  predicate WellSized(pages: Pages) {
    forall i | 0 <= i < |pages| :: pages[i].Some? ==> |pages[i].value| == PAGE_SIZE
  }

  /** `OwnedSparseData::new`. */
  function NewSparseData(pages: Pages): Result<Pages, Error> {
    if WellSized(pages) then Ok(pages) else Err(IncorrectPageSize)
  }

  /** Beyond the last page there is none. */
  function GetPage(pages: Pages, ix: nat): Option<seq<byte>> {
    if ix < |pages| then pages[ix] else None
  }

  /** An absent page is zero. */
  function ReadByte(pages: Pages, a: nat): byte
    requires WellSized(pages)
  {
    var page := GetPage(pages, a / PAGE_SIZE);
    if page.Some? then page.value[a % PAGE_SIZE] else 0
  }

  predicate MapOk(pagemap: map<nat, seq<byte>>) {
    forall p | p in pagemap :: |pagemap[p]| == PAGE_SIZE
  }

  function ReadMap(pagemap: map<nat, seq<byte>>, a: nat): byte
    requires MapOk(pagemap)
  {
    if a / PAGE_SIZE in pagemap then pagemap[a / PAGE_SIZE][a % PAGE_SIZE] else 0
  }

  /** Copying a chunk into its page, which is created zeroed if it was absent. */
  function CopyChunk(pagemap: map<nat, seq<byte>>, c: Chunk): map<nat, seq<byte>>
    requires MapOk(pagemap) && c.init.Limit() <= PAGE_SIZE
  {
    var page := if c.page in pagemap then pagemap[c.page] else Zeroes(PAGE_SIZE);
    pagemap[c.page := page[..c.init.offset] + c.init.data + page[c.init.Limit()..]]
  }

  lemma CopyChunkReads(pagemap: map<nat, seq<byte>>, c: Chunk, a: nat)
    requires MapOk(pagemap) && c.init.Limit() <= PAGE_SIZE
    ensures MapOk(CopyChunk(pagemap, c))
    ensures ReadMap(CopyChunk(pagemap, c), a)
         == if c.Address() <= a < c.Address() + |c.init.data| then c.init.data[a - c.Address()] else ReadMap(pagemap, a)
  {
  }

  /** The page limit the builder applies, which lets the page right after the memory through. */
  predicate PagesFit(di: DataInitializer, size: nat) {
    di.data != [] ==> (di.Limit() - 1) / PAGE_SIZE <= size / PAGE_SIZE
  }

  predicate Accepted(di: DataInitializer, size: nat) {
    !di.hasBase && PagesFit(di, size)
  }

  ghost predicate Holds(pagemap: map<nat, seq<byte>>, inits: seq<DataInitializer>) {
    MapOk(pagemap) && forall a: nat :: ReadMap(pagemap, a) == Written(inits, a)
  }

  lemma CopyChunkHolds(
      pagemap: map<nat, seq<byte>>, inits: seq<DataInitializer>, di: DataInitializer, c: Chunk, from: nat)
    requires ChunkOk(di, c, from) && Holds(pagemap, inits + [di.Prefix(from)])
    ensures Holds(CopyChunk(pagemap, c), inits + [di.Prefix(from + |c.init.data|)])
  {
    CopyChunkReads(pagemap, c, 0);
    hide Written, ReadMap, CopyChunk, MapOk;
    forall a: nat
      ensures ReadMap(CopyChunk(pagemap, c), a) == Written(inits + [di.Prefix(from + |c.init.data|)], a)
    {
      CopyChunkHoldsAt(pagemap, inits, di, c, from, a);
    }
  }

  lemma CopyChunkHoldsAt(
      pagemap: map<nat, seq<byte>>, inits: seq<DataInitializer>, di: DataInitializer, c: Chunk, from: nat, a: nat)
    requires ChunkOk(di, c, from) && Holds(pagemap, inits + [di.Prefix(from)])
    ensures MapOk(CopyChunk(pagemap, c))
    ensures ReadMap(CopyChunk(pagemap, c), a) == Written(inits + [di.Prefix(from + |c.init.data|)], a)
  {
    CopyChunkReads(pagemap, c, a);
    PrefixGrows(inits, di, c, from, a);
    hide Written, ReadMap, CopyChunk, MapOk;
    assert ReadMap(pagemap, a) == Written(inits + [di.Prefix(from)], a);
  }

  lemma PrefixGrows(inits: seq<DataInitializer>, di: DataInitializer, c: Chunk, from: nat, a: nat)
    requires ChunkOk(di, c, from)
    ensures Written(inits + [di.Prefix(from + |c.init.data|)], a) ==
            if c.Address() <= a < c.Address() + |c.init.data| then c.init.data[a - c.Address()]
            else Written(inits + [di.Prefix(from)], a)
  {
  }

  lemma EmptyPrefixHolds(pagemap: map<nat, seq<byte>>, inits: seq<DataInitializer>, di: DataInitializer)
    requires Holds(pagemap, inits)
    ensures Holds(pagemap, inits + [di.Prefix(0)])
  {
  }

  function Size(chunks: seq<Chunk>): nat {
    if chunks == [] then 0 else Size(chunks[..|chunks| - 1]) + |chunks[|chunks| - 1].init.data|
  }

  lemma {:induction false} ChunkAt(di: DataInitializer, chunks: seq<Chunk>, to: nat, k: nat)
    requires Chunked(di, chunks, 0, to) && k <= |chunks|
    ensures Size(chunks) == to
    ensures Size(chunks[..k]) <= to
    ensures k < |chunks| ==> ChunkOk(di, chunks[k], Size(chunks[..k])) && Size(chunks[..k + 1]) <= to
    ensures k < |chunks| ==> Size(chunks[..k + 1]) == Size(chunks[..k]) + |chunks[k].init.data|
  {
    assert k == |chunks| ==> chunks[..k] == chunks;
    if chunks != [] {
      var n := |chunks| - 1;
      var from := to - |chunks[n].init.data|;
      if k < n {
        ChunkAt(di, chunks[..n], from, k);
        assert chunks[..n][..k] == chunks[..k] && chunks[..n][..k + 1] == chunks[..k + 1];
      } else {
        ChunkAt(di, chunks[..n], from, n);
        assert chunks[..n][..n] == chunks[..n] && chunks[..n + 1] == chunks;
      }
    }
  }

  /** Copying one initializer into the pages, unless one of its pages is past the limit. */
  method PlaceInitializer(
      pagemap: map<nat, seq<byte>>, di: DataInitializer, size: nat, ghost inits: seq<DataInitializer>)
    returns (placed: map<nat, seq<byte>>, ok: bool)
    requires Holds(pagemap, inits)
    ensures ok <==> PagesFit(di, size)
    ensures ok ==> Holds(placed, inits + [di])
  {
    hide Written, ReadMap, CopyChunk;
    var chunks := Split(di);
    placed, ok := pagemap, true;
    EmptyPrefixHolds(pagemap, inits, di);
    for k := 0 to |chunks|
      invariant ok && Size(chunks[..k]) <= |di.data|
      invariant Holds(placed, inits + [di.Prefix(Size(chunks[..k]))])
      invariant k > 0 ==> chunks[k - 1].page <= size / PAGE_SIZE
    {
      ChunkAt(di, chunks, |di.data|, k);
      if chunks[k].page > size / PAGE_SIZE {
        assert chunks[k].Address() < di.Limit();
        return placed, false;
      }
      CopyChunkHolds(placed, inits, di, chunks[k], Size(chunks[..k]));
      placed := CopyChunk(placed, chunks[k]);
    }
    ChunkAt(di, chunks, |di.data|, |chunks|);
    assert chunks[..|chunks|] == chunks;
    assert di.Prefix(|di.data|) == di;
    if chunks != [] {
      ChunkAt(di, chunks, |di.data|, |chunks| - 1);
    }
  }

  /** Taking the pages of the memory out of the map, in order. What lies beyond them is dropped. */
  method CollectPages(pagemap: map<nat, seq<byte>>, count: nat) returns (out: Pages)
    requires MapOk(pagemap)
    ensures |out| == count && WellSized(out)
    ensures forall i | 0 <= i < count :: out[i] == if i in pagemap then Some(pagemap[i]) else None
  {
    out := [];
    for ix := 0 to count
      invariant |out| == ix && WellSized(out)
      invariant forall i | 0 <= i < ix :: out[i] == if i in pagemap then Some(pagemap[i]) else None
    {
      if ix in pagemap {
        out := out + [Some(pagemap[ix])];
      } else {
        out := out + [None];
      }
    }
  }

  lemma PagesRead(pagemap: map<nat, seq<byte>>, pages: Pages, a: nat)
    requires MapOk(pagemap) && WellSized(pages) && a / PAGE_SIZE < |pages|
    requires forall i | 0 <= i < |pages| :: pages[i] == if i in pagemap then Some(pagemap[i]) else None
    ensures ReadByte(pages, a) == ReadMap(pagemap, a)
  {
  }

  /** The error the first refused initializer gives. */
  function Refusal(inits: seq<DataInitializer>, size: nat): Option<Error> {
    if inits == [] then None
    else if inits[0].hasBase then Some(UnsupportedBase)
    else if !PagesFit(inits[0], size) then Some(InitData)
    else Refusal(inits[1..], size)
  }

  /** What construction makes of acceptable initializers: pages that read as flat memory does. */
  ghost predicate BuiltFrom(pages: Pages, inits: seq<DataInitializer>, size: nat) {
    && Refusal(inits, size).None?
    && |pages| * PAGE_SIZE == size && WellSized(pages)
    && forall a: nat | a < size :: ReadByte(pages, a) == FlatMemory(inits, size)[a]
  }

  /** Construction succeeds exactly if no initializer is refused, and then the pages read as flat memory does. */
  method OwnedSparseDataFromInitializers(inits: seq<DataInitializer>, size: nat) returns (r: Result<Pages, Error>)
    requires size % PAGE_SIZE == 0
    ensures r.Ok? <==> Refusal(inits, size).None?
    ensures r.Err? ==> r.error == Refusal(inits, size).value
    ensures r.Ok? ==> BuiltFrom(r.value, inits, size)
  {
    var pagemap: map<nat, seq<byte>> := map[];
    for k := 0 to |inits|
      invariant Holds(pagemap, inits[..k])
      invariant Refusal(inits[k..], size) == Refusal(inits, size)
    {
      assert inits[k..][1..] == inits[k + 1..];
      if inits[k].hasBase {
        return Err(UnsupportedBase);
      }
      var ok;
      pagemap, ok := PlaceInitializer(pagemap, inits[k], size, inits[..k]);
      if !ok {
        return Err(InitData);
      }
      assert inits[..k] + [inits[k]] == inits[..k + 1];
    }
    assert inits[..|inits|] == inits;
    var pages := CollectPages(pagemap, size / PAGE_SIZE);
    forall a: nat | a < size
      ensures ReadByte(pages, a) == FlatMemory(inits, size)[a]
    {
      PagesRead(pagemap, pages, a);
      WrittenIsFlat(inits, size, a);
    }
    r := NewSparseData(pages);
  }

  // ---- What the limit lets through ----

  /** What Wasm demands of a segment: it lies within the memory. */
  predicate InBounds(di: DataInitializer, size: nat) { di.Limit() <= size }

  lemma {:induction false} RefusalIs(inits: seq<DataInitializer>, size: nat)
    ensures Refusal(inits, size).None? <==> forall i | 0 <= i < |inits| :: Accepted(inits[i], size)
    ensures forall i | 0 <= i < |inits| && Refusal(inits[..i], size).None? ::
              (inits[i].hasBase ==> Refusal(inits, size) == Some(UnsupportedBase)) &&
              (!inits[i].hasBase && !Accepted(inits[i], size) ==> Refusal(inits, size) == Some(InitData))
  {
    if inits != [] {
      RefusalIs(inits[1..], size);
      forall i | 0 < i < |inits|
        ensures inits[i] == inits[1..][i - 1] && inits[..i][1..] == inits[1..][..i - 1]
      {
      }
      if Refusal(inits[1..], size).None? && Accepted(inits[0], size) {
        forall i | 0 <= i < |inits|
          ensures Accepted(inits[i], size)
        {
          assert i > 0 ==> inits[i] == inits[1..][i - 1];
        }
      } else if Accepted(inits[0], size) {
        var j :| 0 <= j < |inits[1..]| && !Accepted(inits[1..][j], size);
        assert !Accepted(inits[j + 1], size);
      }
    }
  }

  /** The limit agrees with the Wasm rule except exactly for segments that end in the page right after the
      memory, whose end is dropped, and for empty segments anywhere past it. */
  lemma LimitAgreesExactly(di: DataInitializer, size: nat)
    requires size % PAGE_SIZE == 0
    ensures (PagesFit(di, size) <==> InBounds(di, size)) <==>
            !(size < di.Limit() && (di.data == [] || di.Limit() <= size + PAGE_SIZE))
  {
  }

  /** Whatever the initializers write at or past the end of the memory, the image built from them reads as
      zero there: it is flat memory up to the end and nothing beyond. */
  lemma TailIsDropped(pages: Pages, inits: seq<DataInitializer>, size: nat, a: nat)
    requires BuiltFrom(pages, inits, size)
    ensures ReadByte(pages, a) == if a < size then Written(inits, a) else 0
  {
    if a < size {
      WrittenIsFlat(inits, size, a);
    }
  }

  /** One byte right past the end of a memory of one WebAssembly page is accepted, and lost in the image. */
  lemma OnePastTheEnd(pages: Pages)
    ensures var size, di := 0x1_0000, DataInitializer(false, 0x1_0000, [7]);
            && Refusal([di], size).None? && !InBounds(di, size) && Written([di], size) == 7
            && (BuiltFrom(pages, [di], size) ==> ReadByte(pages, size) == 0)
  {
    var di := DataInitializer(false, 0x1_0000, [7]);
    if BuiltFrom(pages, [di], 0x1_0000) {
      TailIsDropped(pages, [di], 0x1_0000, 0x1_0000);
    }
  }
}
