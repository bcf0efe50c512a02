// Growth: a new block is carved by descending pointer arithmetic and put before the
// old tail.
module Carving {
  import opened Memory
  import opened Layout
  import opened Sequences
  import opened FreeList

  // a is a byte of the link word of one of the chunks 0..n-1 of b.
  ghost predicate InLink(b: Block, size: int, n: int, a: int)
  {
    exists i :: 0 <= i < n && ChunkAt(b.base, size, i) <= a < ChunkAt(b.base, size, i) + PTR_SIZE
  }

  ghost predicate OnlyLinks(m: Mem, m': Mem, b: Block, size: int, n: int)
  {
    forall a :: m(a) != m'(a) ==> InLink(b, size, n, a)
  }

  lemma SetWordOnlyLinks(m: Mem, b: Block, size: int, i: nat, w: int)
    ensures OnlyLinks(m, SetWord(m, ChunkAt(b.base, size, i), w), b, size, i + 1)
  {
    var c := ChunkAt(b.base, size, i);
    forall a | m(a) != SetWord(m, c, w)(a)
      ensures InLink(b, size, i + 1, a)
    {
      assert c <= a < c + PTR_SIZE;
    }
  }

  // A word apart from all carved links is not changed by carving.
  lemma OnlyLinksFrame(m: Mem, m': Mem, b: Block, size: int, n: int, a: int)
    requires OnlyLinks(m, m', b, size, n)
    requires forall i :: 0 <= i < n ==> Apart(ChunkAt(b.base, size, i), PTR_SIZE, a, PTR_SIZE)
    ensures Word(m', a) == Word(m, a)
  {
    LoadSame(m, m', a, PTR_SIZE);
  }

  lemma OnlyLinksTrans(m: Mem, m1: Mem, m': Mem, b: Block, size: int, k: int, n: int)
    requires k <= n && OnlyLinks(m, m1, b, size, n) && OnlyLinks(m1, m', b, size, k)
    ensures OnlyLinks(m, m', b, size, n)
  {
    forall a | m(a) != m'(a)
      ensures InLink(b, size, n, a)
    {
      if m1(a) != m'(a) {
        assert InLink(b, size, k, a);
      }
    }
  }

  // The loop links each chunk to the next higher one and writes nothing else.
  lemma {:induction false} LinkDownSpec(m: Mem, b: Block, size: int, i: nat)
    requires size >= PTR_SIZE && BlockOk(b, size) && i + 1 < b.count
    ensures var m' := LinkDown(m, b.base, size, i);
            && (forall j :: 0 <= j <= i ==>
                  Word(m', ChunkAt(b.base, size, j)) == ChunkAt(b.base, size, j + 1))
            && OnlyLinks(m, m', b, size, i + 1)
  {
    var c := ChunkAt(b.base, size, i);
    ChunkInside(b, size, i + 1);
    var m1 := SetWord(m, c, ChunkAt(b.base, size, i + 1));
    WordSetWord(m, c, ChunkAt(b.base, size, i + 1));
    SetWordOnlyLinks(m, b, size, i, ChunkAt(b.base, size, i + 1));
    if i > 0 {
      LinkDownSpec(m1, b, size, i - 1);
      var m' := LinkDown(m1, b.base, size, i - 1);
      forall j | 0 <= j < i
        ensures Apart(ChunkAt(b.base, size, j), PTR_SIZE, c, PTR_SIZE)
      {
        ChunkAtStep(b.base, size, j, i);
      }
      OnlyLinksFrame(m1, m', b, size, i, c);
      OnlyLinksTrans(m, m1, m', b, size, i, i + 1);
    }
  }

  lemma LinkedAscending(m: Mem, b: Block, size: int)
    requires forall j :: 0 <= j < b.count - 1 ==>
               Word(m, ChunkAt(b.base, size, j)) == ChunkAt(b.base, size, j + 1)
    ensures Linked(m, Ascending(b, size))
  {
    var s := Ascending(b, size);
    forall i | 0 <= i < |s| - 1
      ensures Word(m, s[i]) == s[i + 1]
    {
      assert Word(m, ChunkAt(b.base, size, i)) == ChunkAt(b.base, size, i + 1);
    }
  }

  lemma LastLinkKept(m: Mem, m': Mem, b: Block, size: int, n: int)
    requires size >= PTR_SIZE && OnlyLinks(m, m', b, size, n)
    ensures Word(m', ChunkAt(b.base, size, n)) == Word(m, ChunkAt(b.base, size, n))
  {
    forall j | 0 <= j < n
      ensures Apart(ChunkAt(b.base, size, j), PTR_SIZE, ChunkAt(b.base, size, n), PTR_SIZE)
    {
      ChunkAtStep(b.base, size, j, n);
    }
    OnlyLinksFrame(m, m', b, size, n, ChunkAt(b.base, size, n));
  }

  // segregate: ascending links through the whole block, the last one to the old tail
  // (null when there was none), and no byte written outside the link words.
  lemma SegregateSpec(m: Mem, tail: int, b: Block, size: int)
    requires size >= PTR_SIZE && BlockOk(b, size) && Address(tail)
    ensures var (m', t) := Segregate(m, tail, b, size);
            && Linked(m', Ascending(b, size))
            && Word(m', ChunkAt(b.base, size, b.count - 1)) == tail
            && t == (if tail == NULL then ChunkAt(b.base, size, b.count - 1) else tail)
            && OnlyLinks(m, m', b, size, b.count)
  {
    var n: nat := b.count - 2;
    var last := ChunkAt(b.base, size, n + 1);
    var m1 := SetWord(m, last, tail);
    var m' := LinkDown(m1, b.base, size, n);
    WordSetWord(m, last, tail);
    SetWordOnlyLinks(m, b, size, n + 1, tail);
    LinkDownSpec(m1, b, size, n);
    LastLinkKept(m1, m', b, size, n + 1);
    OnlyLinksTrans(m, m1, m', b, size, n + 1, n + 2);
    LinkedAscending(m', b, size);
  }

  // The descending loop meets the block start exactly when the size is a multiple of
  // the partition size and there are at least two partitions.
  lemma DescentMeetsBlock(block: int, sz: int, part: int)
    requires part > 0
    ensures (exists k: nat :: DescentAt(block, sz, part, k) == block)
       <==> sz % part == 0 && sz >= 2 * part
  {
    if sz % part == 0 && sz >= 2 * part {
      var q := sz / part;
      assert sz == q * part;
      assert q >= 2 by {
        if q <= 1 {
          MulStep(q, 2, part);
        }
      }
      assert DescentAt(block, sz, part, q - 2) == block by {
        assert (q - 2) * part == q * part - 2 * part;
      }
    }
    if k: nat :| DescentAt(block, sz, part, k) == block {
      assert sz == (k + 2) * part by {
        assert (k + 2) * part == k * part + 2 * part;
      }
      assert k * part >= 0;
      MultipleHasNoRemainder(k + 2, part);
    }
  }

  lemma MultipleHasNoRemainder(q: int, part: int)
    requires part > 0
    ensures q * part % part == 0
  {
    var x := q * part;
    assert x == (x / part) * part + x % part;
    if x / part < q {
      MulStep(x / part, q, part);
    } else if x / part > q {
      MulStep(q, x / part, part);
    }
  }

  // The loop variable before round k.
  function DescentAt(block: int, sz: int, part: int, k: nat): int
  {
    block + sz - part - part - k * part
  }

  // ---------- growth ----------

  lemma NextCountAtLeast(v: View)
    requires v.start >= 32
    ensures NextCount(v) >= 32
  {
    assert v.start * (Pow2(|v.blocks|) - 1) >= 0;
  }

  // The next growth asks for at most twice the largest block obtained so far.
  lemma NextSizeBound(v: View, size: nat)
    requires v.start <= 64 && size <= MAX_CHUNK
    requires Doubling(v.blocks, v.start) && Sane(v.blocks, size)
    ensures NextCount(v) * size + PTR_SIZE < SIZE_MODULUS
  {
    if v.blocks == [] {
      assert Pow2(0) == 1;
      ProductBound(v.start, size, 64, MAX_CHUNK);
    } else {
      var c := v.blocks[0].count;
      assert BlockOk(v.blocks[0], size);
      assert v.start * (2 * Pow2(|v.blocks| - 1)) == 2 * (v.start * Pow2(|v.blocks| - 1));
      assert NextCount(v) == 2 * c;
      assert (2 * c) * size == 2 * (c * size);
    }
  }

  // The sizes growth computes: nothing wraps, the size is an exact multiple of the
  // chunk size and there are at least 32 chunks.
  lemma GrowthSizes(m: Mem, r: Regs, v: View)
    requires Inv(m, r, v)
    ensures r.nextSize >= 32
    ensures TotalSize(r) == r.nextSize * r.allocSize
    ensures TotalSize(r) + PTR_SIZE < SIZE_MODULUS
    ensures TotalSize(r) % r.allocSize == 0
    ensures r.nextSize * 2 % SIZE_MODULUS == r.nextSize * 2
  {
    NextCountAtLeast(v);
    NextSizeBound(v, r.allocSize);
    hide Inv, NextCount;
    ProductBound(PTR_SIZE, r.nextSize, r.allocSize, r.nextSize);
    MultipleHasNoRemainder(r.nextSize, r.allocSize);
    SmallMod(r.nextSize * r.allocSize, SIZE_MODULUS);
    SmallMod(r.nextSize * 2, SIZE_MODULUS);
  }

  // For a new pool the chunk size alone decides whether the request wraps.
  lemma FirstRequestWraps(r: Regs)
    requires r.nextSize == 64
    ensures (r.nextSize * r.allocSize + PTR_SIZE) % SIZE_MODULUS == r.nextSize * r.allocSize + PTR_SIZE
       <==> r.allocSize <= MAX_CHUNK
    ensures r.allocSize <= MAX_CHUNK <==> TotalSize(r) == r.nextSize * r.allocSize
  {
    if r.allocSize <= MAX_CHUNK {
      SmallMod(64 * r.allocSize + PTR_SIZE, SIZE_MODULUS);
      SmallMod(64 * r.allocSize, SIZE_MODULUS);
    }
  }

  lemma SmallMod(x: nat, modulus: nat)
    requires x < modulus
    ensures x % modulus == x
  {
  }

  lemma ProductBound(x: nat, y: nat, x': nat, y': nat)
    requires x <= x' && y <= y'
    ensures x * y <= x' * y'
  {
    assert (x' - x) * y >= 0;
    assert x' * (y' - y) >= 0;
  }

  lemma GrowFrame(m: Mem, r: Regs, p: int, blocks: seq<Block>, b: Block, size: int, a: int)
    requires size == r.allocSize && size >= PTR_SIZE
    requires r.nextSize >= 2 && b == Block(p, r.nextSize) && BlockOk(b, size)
    requires Address(r.tail)
    requires Apart(p, BlockBytes(b, size), a, PTR_SIZE)
    ensures Word(Grow(m, r, p).0, a) == Word(m, a)
  {
    var (m1, t) := Segregate(m, r.tail, b, size);
    SegregateSpec(m, r.tail, b, size);
    forall i | 0 <= i < b.count
      ensures Apart(ChunkAt(p, size, i), PTR_SIZE, a, PTR_SIZE)
    {
      ChunkInside(b, size, i);
    }
    OnlyLinksFrame(m, m1, b, size, b.count, a);
    ChunkInside(b, size, 0);
    WordSetWordApart(m1, p, r.first, a);
  }

  lemma AddBlockConserved(v: View, p: int, size: int)
    requires Sane(v.blocks, size) && Conserved(v, size)
    requires Fresh(Block(p, NextCount(v)), v.blocks, size)
    ensures Conserved(AddBlock(v, p, size), size)
  {
    var b := Block(p, NextCount(v));
    var s := Ascending(b, size);
    var w := AddBlock(v, p, size);
    AscendingDistinct(b, size);
    forall c | c in s
      ensures c !in Chunks(v.blocks, size)
    {
      FreshChunk(b, v.blocks, size, c);
    }
    assert forall c :: c in v.free ==> c in Elems(v.free);
    DistinctJoin(s, v.free);
    assert Elems(w.free) == Elems(s) + Elems(v.free);
    assert w.blocks[1..] == v.blocks;
  }

  // Carving leaves the links of the new block behind whole, header write included.
  lemma GrowLinks(m: Mem, r: Regs, p: int, b: Block)
    requires r.allocSize >= PTR_SIZE && r.nextSize >= 2 && Address(r.tail) && Address(r.first)
    requires b == Block(p, r.nextSize) && BlockOk(b, r.allocSize)
    ensures var (m', r') := Grow(m, r, p);
            && Linked(m', Ascending(b, r.allocSize))
            && Word(m', ChunkAt(p, r.allocSize, b.count - 1)) == r.tail
            && Word(m', p) == r.first
  {
    var size := r.allocSize;
    var (m1, t) := Segregate(m, r.tail, b, size);
    SegregateSpec(m, r.tail, b, size);
    var m' := SetWord(m1, p, r.first);
    forall i | 0 <= i < b.count
      ensures Word(m', ChunkAt(p, size, i)) == Word(m1, ChunkAt(p, size, i))
    {
      ChunkInside(b, size, i);
      WordSetWordApart(m1, p, r.first, ChunkAt(p, size, i));
    }
    WordSetWord(m1, p, r.first);
    var s := Ascending(b, size);
    forall j | 0 <= j < b.count - 1
      ensures Word(m', ChunkAt(p, size, j)) == ChunkAt(p, size, j + 1)
    {
      assert Word(m1, s[j]) == s[j + 1];
    }
    LinkedAscending(m', b, size);
  }

  lemma GrowHeaders(m: Mem, r: Regs, v: View, p: int)
    requires Inv(m, r, v) && r.nextSize >= 2 && Address(r.tail) && Address(r.first)
    requires Fresh(Block(p, NextCount(v)), v.blocks, r.allocSize)
    ensures var (m', r') := Grow(m, r, p);
            Headers(m', r'.first, [Block(p, NextCount(v))] + v.blocks)
  {
    var size := r.allocSize;
    var b := Block(p, NextCount(v));
    var (m', r') := Grow(m, r, p);
    forall k | 0 <= k < |v.blocks|
      ensures Word(m', v.blocks[k].base) == Word(m, v.blocks[k].base)
    {
      ChunkInside(v.blocks[k], size, 0) by {
        assert BlockOk(v.blocks[k], size);
      }
      assert BlocksApart(b, v.blocks[k], size);
      GrowFrame(m, r, p, v.blocks, b, size, v.blocks[k].base);
    }
    HeadersFrame(m, m', r.first, v.blocks);
    GrowLinks(m, r, p, b);
    assert ([b] + v.blocks)[1..] == v.blocks;
  }

  lemma EndAddresses(m: Mem, r: Regs, v: View)
    requires Inv(m, r, v)
    ensures Address(r.head) && Address(r.tail) && Address(r.first)
  {
    if v.free != [] {
      FreeChunk(r, v, r.head);
      FreeChunk(r, v, r.tail);
      var b := v.blocks[0];
      assert BlockOk(b, r.allocSize);
      ChunkInside(b, r.allocSize, 0);
    }
  }

  lemma AddBlockOk(v: View, p: int, size: int)
    requires ViewOk(v, size) && Fresh(Block(p, NextCount(v)), v.blocks, size)
    ensures ViewOk(AddBlock(v, p, size), size)
  {
    var w := AddBlock(v, p, size);
    AddBlockConserved(v, p, size);
    FreshSane(Block(p, NextCount(v)), v.blocks, size);
    assert w.blocks[1..] == v.blocks;
    assert w.blocks[0].count == w.start * Pow2(|w.blocks| - 1);
    assert w.free[0] == ChunkAt(p, size, 0);
  }

  lemma NextCountDoubles(v: View, w: View)
    requires w.start == v.start && |w.blocks| == |v.blocks| + 1
    ensures NextCount(w) == 2 * NextCount(v)
  {
    assert v.start * (2 * Pow2(|v.blocks|)) == 2 * (v.start * Pow2(|v.blocks|));
  }

  lemma GrowEnds(r: Regs, v: View, p: int)
    requires Ends(r, v.free) && |v.free| <= 1 && NextCount(v) >= 2
    requires v.free != [] ==> r.tail != NULL
    ensures var w := AddBlock(v, p, r.allocSize);
            && w.free[0] == p + PTR_SIZE
            && w.free[|w.free| - 1] == if r.tail == NULL
                                       then ChunkAt(p, r.allocSize, NextCount(v) - 1) else r.tail
  {
  }

  // Growth on an empty list: the new chunks, ascending, go before the chunk held back.
  lemma GrowRefines(m: Mem, r: Regs, v: View, p: int)
    requires Inv(m, r, v) && IsEmpty(r)
    requires Fresh(Block(p, NextCount(v)), v.blocks, r.allocSize)
    ensures r.nextSize >= 2
    ensures var (m', r') := Grow(m, r, p); Inv(m', r', AddBlock(v, p, r.allocSize))
  {
    GrowthSizes(m, r, v);
    EmptyMeansOneHeldBack(m, r, v);
    EndAddresses(m, r, v);
    var size := r.allocSize;
    var b := Block(p, NextCount(v));
    var s := Ascending(b, size);
    var (m', r') := Grow(m, r, p);
    var w := AddBlock(v, p, size);
    GrowLinks(m, r, p, b);
    GrowHeaders(m, r, v, p);
    AddBlockOk(v, p, size);
    NextCountDoubles(v, w);
    if v.free == [] {
      assert w.free == s;
    } else {
      FreeChunk(r, v, r.tail);
      LinkedJoin(m', s, v.free);
    }
    GrowEnds(r, v, p);
    hide ViewOk, Linked, Headers, LinkDown, NextCount;
  }

  // Pool::Malloc is exactly the sequence operation, and keeps the invariant.
  lemma MallocRefines(m: Mem, r: Regs, v: View, p: int)
    requires Inv(m, r, v)
    requires NeedsGrowth(v) ==> SystemAnswer(p, v, r.allocSize)
    ensures r.nextSize >= 2 && v.start >= 2
    ensures var (m', r', c) := Malloc(m, r, p);
            && (MallocView(v, r.allocSize, p).1 == c)
            && Inv(m', r', MallocView(v, r.allocSize, p).0)
            && r'.allocSize == r.allocSize
  {
    GrowthSizes(m, r, v);
    EmptyMeansOneHeldBack(m, r, v);
    if !NeedsGrowth(v) {
      PopRefines(m, r, v);
    } else if p != NULL {
      GrowRefines(m, r, v, p);
      var (m1, r1) := Grow(m, r, p);
      PopRefines(m1, r1, AddBlock(v, p, r.allocSize));
    }
  }

  // Malloc writes nowhere but in the block it adds, if it adds one.
  lemma MallocTouches(m: Mem, r: Regs, v: View, p: int)
    requires Inv(m, r, v) && r.nextSize >= 2
    requires NeedsGrowth(v) ==> SystemAnswer(p, v, r.allocSize)
    ensures !NeedsGrowth(v) || p == NULL ==> Malloc(m, r, p).0 == m
    ensures OnlyBlocks(m, Malloc(m, r, p).0, [Block(p, NextCount(v))], r.allocSize)
  {
    EmptyMeansOneHeldBack(m, r, v);
    if NeedsGrowth(v) && p != NULL {
      EndAddresses(m, r, v);
      GrowTouches(m, r, Block(p, NextCount(v)));
    }
  }

  lemma GrowTouches(m: Mem, r: Regs, b: Block)
    requires r.allocSize >= PTR_SIZE && r.nextSize >= 2 && Address(r.tail)
    requires b.count == r.nextSize && BlockOk(b, r.allocSize)
    ensures OnlyBlocks(m, Grow(m, r, b.base).0, [b], r.allocSize)
  {
    var size := r.allocSize;
    SegregateSpec(m, r.tail, b, size);
    var m1 := Segregate(m, r.tail, b, size).0;
    ChunkInside(b, size, 0);
    forall a | m(a) != Grow(m, r, b.base).0(a)
      ensures InBlock([b][0], size, a)
    {
      if m(a) != m1(a) {
        var i :| 0 <= i < b.count
              && ChunkAt(b.base, size, i) <= a < ChunkAt(b.base, size, i) + PTR_SIZE;
        ChunkInside(b, size, i);
      }
    }
  }
}
