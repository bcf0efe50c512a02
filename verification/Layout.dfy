// Where blocks and chunks lie. A block is a one-word header followed by `count`
// chunks of `size` bytes; the chunks of a pool are those of all its blocks.
module Layout {
  import opened Memory
  import opened Sequences

  datatype Block = Block(base: int, count: nat)

  function ChunkAt(base: int, size: int, i: int): int
  {
    base + PTR_SIZE + i * size
  }

  function BlockBytes(b: Block, size: int): int
  {
    PTR_SIZE + b.count * size
  }

  // The chunks of a block in ascending address order.
  function Ascending(b: Block, size: int): (s: seq<int>)
    ensures |s| == b.count
    ensures forall i :: 0 <= i < b.count ==> s[i] == ChunkAt(b.base, size, i)
  {
    seq(b.count, i => ChunkAt(b.base, size, i))
  }

  ghost function Chunks(blocks: seq<Block>, size: int): set<int>
  {
    if blocks == [] then {} else Elems(Ascending(blocks[0], size)) + Chunks(blocks[1..], size)
  }

  predicate BlocksApart(a: Block, b: Block, size: int)
  {
    Apart(a.base, BlockBytes(a, size), b.base, BlockBytes(b, size))
  }

  predicate BlockOk(b: Block, size: int)
  {
    b.count >= 2 && b.base > NULL && b.base + BlockBytes(b, size) <= ADDRESS_LIMIT
  }

  // The blocks lie in the address space and share no byte.
  ghost predicate Sane(blocks: seq<Block>, size: int)
  {
    && size >= PTR_SIZE
    && (forall k :: 0 <= k < |blocks| ==> BlockOk(blocks[k], size))
    && (forall j, k :: 0 <= j < k < |blocks| ==> BlocksApart(blocks[j], blocks[k], size))
  }

  // A block at p can be added: what the system allocator promises of a block it hands out.
  ghost predicate Fresh(b: Block, blocks: seq<Block>, size: int)
  {
    && BlockOk(b, size)
    && forall k :: 0 <= k < |blocks| ==> BlocksApart(b, blocks[k], size)
  }

  predicate InBlock(b: Block, size: int, a: int)
  {
    b.base <= a < b.base + BlockBytes(b, size)
  }

  // The two memories differ only inside these blocks.
  ghost predicate OnlyBlocks(m: Mem, m': Mem, blocks: seq<Block>, size: int)
  {
    forall a :: m(a) != m'(a) ==> exists k :: 0 <= k < |blocks| && InBlock(blocks[k], size, a)
  }

  lemma {:induction false} MulStep(i: int, j: int, size: int)
    requires i < j && size >= 0
    ensures i * size + size <= j * size
    decreases j - i
  {
    assert j * size == (j - 1) * size + size;
    if i < j - 1 {
      MulStep(i, j - 1, size);
    }
  }

  lemma ChunkAtStep(base: int, size: int, i: int, j: int)
    requires i < j && size >= 0
    ensures ChunkAt(base, size, i) + size <= ChunkAt(base, size, j)
  {
    MulStep(i, j, size);
  }

  // A chunk lies inside its block, behind the header.
  lemma ChunkInside(b: Block, size: int, i: int)
    requires 0 <= i < b.count && size >= 0
    ensures b.base + PTR_SIZE <= ChunkAt(b.base, size, i)
    ensures ChunkAt(b.base, size, i) + size <= b.base + BlockBytes(b, size)
  {
    MulStep(i, b.count, size);
    assert i * size >= 0;
  }

  lemma AscendingDistinct(b: Block, size: int)
    requires size > 0
    ensures Distinct(Ascending(b, size))
  {
    forall i, j | 0 <= i < j < b.count
      ensures ChunkAt(b.base, size, i) != ChunkAt(b.base, size, j)
    {
      ChunkAtStep(b.base, size, i, j);
    }
  }

  // Which chunk of which block an address of the pool is.
  lemma {:induction false} Locate(blocks: seq<Block>, size: int, c: int) returns (k: int, i: int)
    requires c in Chunks(blocks, size)
    ensures 0 <= k < |blocks| && 0 <= i < blocks[k].count
    ensures c == ChunkAt(blocks[k].base, size, i)
  {
    var s := Ascending(blocks[0], size);
    if c in s {
      k := 0;
      i :| 0 <= i < |s| && s[i] == c;
    } else {
      k, i := Locate(blocks[1..], size, c);
      k := k + 1;
    }
  }

  lemma ChunkPlace(blocks: seq<Block>, size: int, c: int) returns (k: int)
    requires Sane(blocks, size) && c in Chunks(blocks, size)
    ensures 0 <= k < |blocks|
    ensures blocks[k].base + PTR_SIZE <= c
    ensures c + size <= blocks[k].base + BlockBytes(blocks[k], size)
    ensures NULL < c && c + size <= ADDRESS_LIMIT
  {
    var i;
    k, i := Locate(blocks, size, c);
    ChunkInside(blocks[k], size, i);
    assert BlockOk(blocks[k], size);
  }

  // Two different chunks share no byte.
  lemma ChunksApart(blocks: seq<Block>, size: int, c: int, d: int)
    requires Sane(blocks, size)
    requires c in Chunks(blocks, size) && d in Chunks(blocks, size) && c != d
    ensures Apart(c, size, d, size)
  {
    var k, i := Locate(blocks, size, c);
    var l, j := Locate(blocks, size, d);
    if k == l {
      if i < j {
        ChunkAtStep(blocks[k].base, size, i, j);
      } else {
        ChunkAtStep(blocks[k].base, size, j, i);
      }
    } else {
      ChunkInside(blocks[k], size, i);
      ChunkInside(blocks[l], size, j);
      if k < l {
        assert BlocksApart(blocks[k], blocks[l], size);
      } else {
        assert BlocksApart(blocks[l], blocks[k], size);
      }
    }
  }

  // A chunk and a block header share no byte.
  lemma ChunkHeaderApart(blocks: seq<Block>, size: int, c: int, k: int)
    requires Sane(blocks, size)
    requires c in Chunks(blocks, size) && 0 <= k < |blocks|
    ensures Apart(c, size, blocks[k].base, PTR_SIZE)
  {
    var l := ChunkPlace(blocks, size, c);
    ChunkInside(blocks[k], size, 0);
    if l < k {
      assert BlocksApart(blocks[l], blocks[k], size);
    } else if k < l {
      assert BlocksApart(blocks[k], blocks[l], size);
    }
  }

  // Chunks of a block the allocator just handed out are new.
  lemma FreshChunk(b: Block, blocks: seq<Block>, size: int, c: int)
    requires Sane(blocks, size) && Fresh(b, blocks, size)
    requires c in Ascending(b, size)
    ensures c !in Chunks(blocks, size)
    ensures Sane([b] + blocks, size)
  {
    var s := Ascending(b, size);
    var i :| 0 <= i < |s| && s[i] == c;
    ChunkInside(b, size, i);
    forall d | d in Chunks(blocks, size)
      ensures d != c
    {
      var k := ChunkPlace(blocks, size, d);
      assert BlocksApart(b, blocks[k], size);
    }
  }

  lemma FreshSane(b: Block, blocks: seq<Block>, size: int)
    requires Sane(blocks, size) && Fresh(b, blocks, size)
    ensures Sane([b] + blocks, size)
  {
    FreshChunk(b, blocks, size, Ascending(b, size)[0]);
  }
}
