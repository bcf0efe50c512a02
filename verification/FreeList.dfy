// The pool's registers and link words, the sequence view they stand for, and the
// invariant that ties the two. Every operation of the pool is given twice: on
// registers and raw memory (what the code does) and on the view (what it means).
module FreeList {
  import opened Memory
  import opened Layout
  import opened Sequences

  const SIZE_MODULUS := 0x1_0000_0000_0000_0000

  // Largest chunk for which a first request of 64 chunks and a header does not wrap.
  const MAX_CHUNK := 0x3FF_FFFF_FFFF_FFFF

  // The data members of segregated_storage and Pool.
  datatype Regs = Regs(head: int, tail: int, first: int, nextSize: nat, allocSize: nat)

  // What the registers and the memory stand for: the free chunks from head to tail,
  // the chunks handed out, the blocks newest first and the size of the first growth.
  datatype View = View(free: seq<int>, live: set<int>, blocks: seq<Block>, start: nat)

  function Pow2(n: nat): (p: nat)
    ensures p > 0
  {
    if n == 0 then 1 else 2 * Pow2(n - 1)
  }

  // ---------- the operations on registers and memory ----------

  function IsEmpty(r: Regs): bool
  {
    r.head == r.tail
  }

  function Pop(m: Mem, r: Regs): Regs
  {
    r.(head := Word(m, r.head))
  }

  function Push(m: Mem, r: Regs, c: int): (Mem, Regs)
  {
    (SetWord(m, c, r.head), r.(head := c))
  }

  // The new tail's own link is not written.
  function Append(m: Mem, r: Regs, c: int): (Mem, Regs)
  {
    (SetWord(m, r.tail, c), r.(tail := c))
  }

  // Link chunk i to chunk i+1, then chunk i-1 to chunk i, down to chunk 0.
  function LinkDown(m: Mem, base: int, size: int, i: nat): Mem
  {
    var m1 := SetWord(m, ChunkAt(base, size, i), ChunkAt(base, size, i + 1));
    if i == 0 then m1 else LinkDown(m1, base, size, i - 1)
  }

  // Carve b and put it before the old tail; the result's second part is the new tail.
  function Segregate(m: Mem, tail: int, b: Block, size: int): (Mem, int)
    requires b.count >= 2
  {
    var last := ChunkAt(b.base, size, b.count - 1);
    var m1 := SetWord(m, last, tail);
    (LinkDown(m1, b.base, size, b.count - 2), if tail == NULL then last else tail)
  }

  // total_size as size_t arithmetic computes it.
  function TotalSize(r: Regs): nat
  {
    r.nextSize * r.allocSize % SIZE_MODULUS
  }

  // add_block, the header write and the doubling, for a block the system returned at p.
  function Grow(m: Mem, r: Regs, p: int): (Mem, Regs)
    requires r.nextSize >= 2
  {
    var (m1, t) := Segregate(m, r.tail, Block(p, r.nextSize), r.allocSize);
    (SetWord(m1, p, r.first),
     r.(head := p + PTR_SIZE, tail := t, first := p, nextSize := r.nextSize * 2 % SIZE_MODULUS))
  }

  // Pool::Malloc; p is what the system allocator answers if it is asked.
  function Malloc(m: Mem, r: Regs, p: int): (Mem, Regs, int)
    requires r.nextSize >= 2
  {
    if !IsEmpty(r) then (m, Pop(m, r), r.head)
    else if p == NULL then (m, r, NULL)
    else
      var (m1, r1) := Grow(m, r, p);
      (m1, Pop(m1, r1), r1.head)
  }

  // ---------- the operations on views ----------

  function TakeFront(v: View): View
    requires |v.free| > 0
  {
    v.(free := v.free[1..], live := v.live + {v.free[0]})
  }

  function PushFront(v: View, c: int): View
  {
    v.(free := [c] + v.free, live := v.live - {c})
  }

  function PushBack(v: View, c: int): View
  {
    v.(free := v.free + [c], live := v.live - {c})
  }

  // The size of the next growth.
  function NextCount(v: View): nat
  {
    v.start * Pow2(|v.blocks|)
  }

  function AddBlock(v: View, p: int, size: int): View
  {
    var b := Block(p, NextCount(v));
    v.(free := Ascending(b, size) + v.free, blocks := [b] + v.blocks)
  }

  predicate NeedsGrowth(v: View)
  {
    |v.free| < 2
  }

  // Malloc as the user sees it: the front of the queue, while one chunk is held back.
  function MallocView(v: View, size: int, p: int): (View, int)
    requires v.start >= 2
  {
    if !NeedsGrowth(v) then (TakeFront(v), v.free[0])
    else if p == NULL then (v, NULL)
    else
      Pow2Positive(v);
      var v1 := AddBlock(v, p, size);
      (TakeFront(v1), v1.free[0])
  }

  lemma Pow2Positive(v: View)
    requires v.start >= 2
    ensures NextCount(v) >= 2
  {
    assert (v.start - 2) * Pow2(|v.blocks|) >= 0;
  }

  // ---------- the invariant ----------

  function Links(m: Mem): int -> int
  {
    (a: int) => Word(m, a)
  }

  // Every free chunk but the last holds the address of the next; the link of the
  // last one is unconstrained.
  ghost predicate Linked(m: Mem, free: seq<int>)
  {
    Chained(Links(m), free)
  }

  // From `first`, the header words lead through the blocks, newest first, to null.
  ghost predicate Headers(m: Mem, first: int, blocks: seq<Block>)
    decreases |blocks|
  {
    if blocks == [] then first == NULL
    else first == blocks[0].base && Headers(m, Word(m, first), blocks[1..])
  }

  // Each block has twice the chunks of the one before it.
  predicate Doubling(blocks: seq<Block>, start: nat)
  {
    blocks == [] || (blocks[0].count == start * Pow2(|blocks| - 1) && Doubling(blocks[1..], start))
  }

  ghost predicate Ends(r: Regs, free: seq<int>)
  {
    if free == [] then r.head == NULL && r.tail == NULL
    else r.head == free[0] && r.tail == free[|free| - 1]
  }

  // Live and free chunks are exactly the carved ones, each once.
  ghost predicate Conserved(v: View, size: int)
  {
    && Distinct(v.free)
    && Elems(v.free) !! v.live
    && Elems(v.free) + v.live == Chunks(v.blocks, size)
  }

  // What holds of the view alone.
  ghost predicate ViewOk(v: View, size: int)
  {
    && (v.start == 32 || v.start == 64)
    && Doubling(v.blocks, v.start)
    && Sane(v.blocks, size)
    && (v.free == [] <==> v.blocks == [])
    && Conserved(v, size)
  }

  ghost predicate Inv(m: Mem, r: Regs, v: View)
  {
    && PTR_SIZE <= r.allocSize <= MAX_CHUNK
    && r.nextSize == NextCount(v)
    && ViewOk(v, r.allocSize)
    && Ends(r, v.free)
    && Linked(m, v.free)
    && Headers(m, r.first, v.blocks)
  }

  // What the system allocator may answer to a request for a block of NextCount chunks.
  ghost predicate SystemAnswer(p: int, v: View, size: int)
  {
    p == NULL || Fresh(Block(p, NextCount(v)), v.blocks, size)
  }

  // ---------- frame: what the invariant depends on ----------

  // m' may differ from m in live chunks, in the last free chunk and in free chunks
  // beyond their link, but not in the header and link words the invariant reads.
  ghost predicate KeepsLinks(m: Mem, m': Mem, v: View)
  {
    && (forall i :: 0 <= i < |v.free| - 1 ==> Word(m', v.free[i]) == Word(m, v.free[i]))
    && (forall k :: 0 <= k < |v.blocks| ==> Word(m', v.blocks[k].base) == Word(m, v.blocks[k].base))
  }

  lemma {:induction false} HeadersFrame(m: Mem, m': Mem, first: int, blocks: seq<Block>)
    requires Headers(m, first, blocks)
    requires forall k :: 0 <= k < |blocks| ==> Word(m', blocks[k].base) == Word(m, blocks[k].base)
    ensures Headers(m', first, blocks)
    decreases |blocks|
  {
    if blocks != [] {
      var rest := blocks[1..];
      forall k | 0 <= k < |rest|
        ensures Word(m', rest[k].base) == Word(m, rest[k].base)
      {
        assert rest[k] == blocks[k + 1];
      }
      assert Word(m', blocks[0].base) == Word(m, blocks[0].base);
      HeadersFrame(m, m', Word(m, first), rest);
    }
  }

  lemma InvFrame(m: Mem, m': Mem, r: Regs, v: View)
    requires Inv(m, r, v) && KeepsLinks(m, m', v)
    ensures Inv(m', r, v)
  {
    HeadersFrame(m, m', r.first, v.blocks);
  }

  // A write confined to one live chunk, or to the last free one, keeps all links.
  lemma ChunkWriteKeepsLinks(m: Mem, m': Mem, r: Regs, v: View, c: int)
    requires Inv(m, r, v)
    requires c in Chunks(v.blocks, r.allocSize)
    requires forall i :: 0 <= i < |v.free| - 1 ==> v.free[i] != c
    requires forall a :: m(a) != m'(a) ==> c <= a < c + r.allocSize
    ensures KeepsLinks(m, m', v)
  {
    var size := r.allocSize;
    forall i | 0 <= i < |v.free| - 1
      ensures Word(m', v.free[i]) == Word(m, v.free[i])
    {
      assert v.free[i] in Elems(v.free);
      ChunksApart(v.blocks, size, v.free[i], c);
      LoadSame(m, m', v.free[i], PTR_SIZE);
    }
    forall k | 0 <= k < |v.blocks|
      ensures Word(m', v.blocks[k].base) == Word(m, v.blocks[k].base)
    {
      ChunkHeaderApart(v.blocks, size, c, k);
      LoadSame(m, m', v.blocks[k].base, PTR_SIZE);
    }
  }

  // ---------- single operations ----------

  // "head_ == tail_" says exactly that at most one chunk is free.
  lemma EmptyMeansOneHeldBack(m: Mem, r: Regs, v: View)
    requires Inv(m, r, v)
    ensures IsEmpty(r) <==> NeedsGrowth(v)
  {
    if |v.free| >= 2 {
      assert v.free[0] != v.free[|v.free| - 1];
    }
  }

  lemma TakeFrontConserved(v: View, size: int)
    requires Conserved(v, size) && |v.free| > 0
    ensures Conserved(TakeFront(v), size)
  {
    var w := TakeFront(v);
    assert v.free == [v.free[0]] + w.free;
    assert Elems(v.free) == {v.free[0]} + Elems(w.free);
    assert v.free[0] !in Elems(w.free);
  }

  lemma PushFrontConserved(v: View, size: int, c: int)
    requires Conserved(v, size) && c in v.live
    ensures Conserved(PushFront(v, c), size)
  {
    var w := PushFront(v, c);
    assert Elems(w.free) == {c} + Elems(v.free);
    assert forall x :: x in v.free ==> x in Elems(v.free);
  }

  lemma PushBackConserved(v: View, size: int, c: int)
    requires Conserved(v, size) && c in v.live
    ensures Conserved(PushBack(v, c), size)
  {
    var w := PushBack(v, c);
    assert Elems(w.free) == Elems(v.free) + {c};
    assert forall x :: x in v.free ==> x in Elems(v.free);
  }

  // The ends of the list are chunks of the pool, hence real addresses.
  lemma FreeChunk(r: Regs, v: View, c: int)
    requires r.allocSize >= PTR_SIZE && Sane(v.blocks, r.allocSize) && Conserved(v, r.allocSize)
    requires c in v.free || c in v.live
    ensures c in Chunks(v.blocks, r.allocSize)
    ensures NULL < c && c + r.allocSize <= ADDRESS_LIMIT
  {
    assert c in v.free ==> c in Elems(v.free);
    var k := ChunkPlace(v.blocks, r.allocSize, c);
  }

  lemma LinkedTail(m: Mem, free: seq<int>)
    requires Linked(m, free) && free != []
    ensures Linked(m, free[1..])
  {
    ChainedDrop(Links(m), free, 1);
  }

  lemma LinkedCons(m: Mem, c: int, free: seq<int>)
    requires Linked(m, free) && free != [] && Word(m, c) == free[0]
    ensures Linked(m, [c] + free)
  {
    ChainedJoin(Links(m), [c], free);
  }

  lemma LinkedJoin(m: Mem, a: seq<int>, b: seq<int>)
    requires Linked(m, a) && Linked(m, b)
    requires a != [] && b != [] && Word(m, a[|a| - 1]) == b[0]
    ensures Linked(m, a + b)
  {
    ChainedJoin(Links(m), a, b);
  }

  lemma PopRefines(m: Mem, r: Regs, v: View)
    requires Inv(m, r, v) && !NeedsGrowth(v)
    ensures r.head == v.free[0]
    ensures Inv(m, Pop(m, r), TakeFront(v))
  {
    TakeFrontConserved(v, r.allocSize);
    LinkedTail(m, v.free);
    assert Word(m, v.free[0]) == v.free[1];
  }

  lemma PushRefines(m: Mem, r: Regs, v: View, c: int)
    requires Inv(m, r, v) && c in v.live
    ensures var (m', r') := Push(m, r, c); Inv(m', r', PushFront(v, c))
  {
    var (m', r') := Push(m, r, c);
    FreeChunk(r, v, c);
    assert v.free != [];
    FreeChunk(r, v, v.free[0]);
    assert forall i :: 0 <= i < |v.free| ==> v.free[i] in Elems(v.free);
    ChunkWriteKeepsLinks(m, m', r, v, c);
    InvFrame(m, m', r, v);
    WordSetWord(m, c, r.head);
    PushFrontConserved(v, r.allocSize, c);
    LinkedCons(m', c, v.free);
  }

  lemma AppendRefines(m: Mem, r: Regs, v: View, c: int)
    requires Inv(m, r, v) && c in v.live
    ensures r.tail != NULL
    ensures var (m', r') := Append(m, r, c); Inv(m', r', PushBack(v, c))
  {
    var (m', r') := Append(m, r, c);
    FreeChunk(r, v, c);
    assert v.free != [];
    FreeChunk(r, v, v.free[|v.free| - 1]);
    ChunkWriteKeepsLinks(m, m', r, v, r.tail);
    InvFrame(m, m', r, v);
    WordSetWord(m, r.tail, c);
    PushBackConserved(v, r.allocSize, c);
    LinkedJoin(m', v.free, [c]);
  }

  // Whatever is written into a chunk that is handed out, the pool is not disturbed.
  lemma LiveWriteKeepsInv(m: Mem, m': Mem, r: Regs, v: View, c: int)
    requires Inv(m, r, v) && c in v.live
    requires forall a :: m(a) != m'(a) ==> c <= a < c + r.allocSize
    ensures Inv(m', r, v)
  {
    FreeChunk(r, v, c);
    assert forall i :: 0 <= i < |v.free| ==> v.free[i] in Elems(v.free);
    ChunkWriteKeepsLinks(m, m', r, v, c);
    InvFrame(m, m', r, v);
  }
}
