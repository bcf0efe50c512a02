// The imperative form of segregated_storage and Pool over a system heap, each method
// proved against the operation on views of module FreeList.
module Pool {
  import opened Memory
  import opened Layout
  import opened Sequences
  import opened FreeList
  import Carving

  // Raw memory and the blocks the system allocator has handed out (base to size).
  class SystemHeap {
    var bytes: Mem
    var blocks: map<int, nat>
    ghost var released: seq<int>

    constructor (initial: Mem)
      ensures bytes == initial && blocks == map[] && released == []
    {
      bytes := initial;
      blocks := map[];
      released := [];
    }

    // ::malloc may answer null, or a block that overlaps none it handed out before.
    ghost predicate MayAnswer(p: int, size: nat)
      reads this
    {
      Unused(p, size, blocks)
    }

    method Malloc(size: nat, answer: int) returns (p: int)
      requires MayAnswer(answer, size)
      modifies this`blocks
      ensures p == answer
      ensures blocks == if p == NULL then old(blocks) else old(blocks)[p := size]
    {
      p := answer;
      if p != NULL {
        blocks := blocks[p := size];
      }
    }

    // ::free may overwrite the block with anything.
    method Free(p: int, garbage: Mem)
      requires p in blocks
      modifies this
      ensures blocks == old(blocks) - {p} && released == old(released) + [p]
      ensures forall a :: !(p <= a < p + old(blocks)[p]) ==> bytes(a) == old(bytes)(a)
    {
      var m, size := bytes, blocks[p];
      bytes := (a: int) => if p <= a < p + size then garbage(a) else m(a);
      blocks := blocks - {p};
      released := released + [p];
    }

    // A user's write to bytes it owns.
    method Write(a: int, n: nat, data: Mem)
      modifies this`bytes
      ensures forall i :: bytes(i) == if a <= i < a + n then data(i) else old(bytes)(i)
    {
      var m := bytes;
      bytes := (i: int) => if a <= i < a + n then data(i) else m(i);
    }
  }

  // Every one of these blocks is on the system's books with its real size.
  ghost predicate Booked(books: map<int, nat>, blocks: seq<Block>, size: nat)
  {
    forall k :: 0 <= k < |blocks| ==>
      blocks[k].base in books && books[blocks[k].base] == BlockBytes(blocks[k], size)
  }

  ghost predicate Extends(books: map<int, nat>, books': map<int, nat>)
  {
    forall q :: q in books ==> q in books' && books'[q] == books[q]
  }

  // The pool's invariant together with its entries in the system's books.
  ghost predicate Holds(m: Mem, r: Regs, v: View, books: map<int, nat>)
  {
    Inv(m, r, v) && Booked(books, v.blocks, r.allocSize)
  }

  ghost predicate Unused(p: int, size: nat, books: map<int, nat>)
  {
    p == NULL
    || (p > NULL && p + size <= ADDRESS_LIMIT && p !in books
        && forall q :: q in books ==> Apart(p, size, q, books[q]))
  }

  // An answer the system may give is an acceptable new block of the pool.
  lemma AnswerIsFresh(m: Mem, r: Regs, v: View, books: map<int, nat>, p: int)
    requires Holds(m, r, v, books) && Unused(p, TotalSize(r) + PTR_SIZE, books)
    ensures SystemAnswer(p, v, r.allocSize)
  {
    Carving.GrowthSizes(m, r, v);
    var b := Block(p, NextCount(v));
    if p != NULL {
      assert BlockBytes(b, r.allocSize) == TotalSize(r) + PTR_SIZE;
      forall k | 0 <= k < |v.blocks|
        ensures BlocksApart(b, v.blocks[k], r.allocSize)
      {
        assert v.blocks[k].base in books;
      }
    }
  }

  lemma BookedCons(books: map<int, nat>, b: Block, blocks: seq<Block>, size: nat)
    requires Booked(books, blocks, size) && b.base !in books
    ensures Booked(books[b.base := BlockBytes(b, size)], [b] + blocks, size)
    ensures Extends(books, books[b.base := BlockBytes(b, size)])
  {
  }

  function BooksAfter(books: map<int, nat>, r: Regs, p: int): map<int, nat>
  {
    if !IsEmpty(r) || p == NULL then books else books[p := TotalSize(r) + PTR_SIZE]
  }

  lemma MallocBooks(r: Regs, v: View, books: map<int, nat>, p: int)
    requires Booked(books, v.blocks, r.allocSize) && v.start >= 2
    requires IsEmpty(r) <==> NeedsGrowth(v)
    requires NeedsGrowth(v) && p != NULL ==> p !in books
    requires TotalSize(r) == NextCount(v) * r.allocSize
    ensures Booked(BooksAfter(books, r, p), MallocView(v, r.allocSize, p).0.blocks, r.allocSize)
    ensures Extends(books, BooksAfter(books, r, p))
  {
    if NeedsGrowth(v) && p != NULL {
      BookedCons(books, Block(p, NextCount(v)), v.blocks, r.allocSize);
    }
  }

  // What one Malloc does to registers, memory and books, and what it hands out.
  lemma MallocHolds(m: Mem, r: Regs, v: View, books: map<int, nat>, p: int)
    requires Holds(m, r, v, books)
    requires NeedsGrowth(v) ==> Unused(p, TotalSize(r) + PTR_SIZE, books)
    ensures r.nextSize >= 2 && v.start >= 2 && r.allocSize > 0
    ensures TotalSize(r) == r.nextSize * r.allocSize
    ensures IsEmpty(r) <==> NeedsGrowth(v)
    ensures var (m', r', c) := FreeList.Malloc(m, r, p);
            var (v', d) := MallocView(v, r.allocSize, p);
            c == d && Holds(m', r', v', BooksAfter(books, r, p))
    ensures Extends(books, BooksAfter(books, r, p))
  {
    Carving.GrowthSizes(m, r, v);
    EmptyMeansOneHeldBack(m, r, v);
    if NeedsGrowth(v) {
      AnswerIsFresh(m, r, v, books, p);
    }
    Carving.MallocRefines(m, r, v, p);
    MallocBooks(r, v, books, p);
  }

  class SegregatedStorage {
    const heap: SystemHeap
    var head: int
    var tail: int

    constructor (heap: SystemHeap)
      ensures this.heap == heap && head == NULL && tail == NULL
    {
      this.heap := heap;
      head, tail := NULL, NULL;
    }

    method Malloc() returns (ret: int)
      modifies this`head
      ensures ret == old(head) && head == Word(heap.bytes, old(head))
    {
      ret := head;
      head := Word(heap.bytes, head);
    }

    method Free(chunk: int)
      modifies this`head, heap`bytes
      ensures heap.bytes == SetWord(old(heap.bytes), chunk, old(head)) && head == chunk
    {
      heap.bytes := SetWord(heap.bytes, chunk, head);
      head := chunk;
    }

    method FreeAppend(chunk: int)
      requires tail != NULL
      modifies this`tail, heap`bytes
      ensures heap.bytes == SetWord(old(heap.bytes), old(tail), chunk) && tail == chunk
    {
      heap.bytes := SetWord(heap.bytes, tail, chunk);
      tail := chunk;
    }

    function Empty(): bool
      reads this
    {
      head == tail
    }

    // n is the number of partitions, used only to state the result.
    method Segregate(block: int, sz: int, part: int, ghost n: nat) returns (first: int)
      requires part > 0 && n >= 2 && sz == n * part
      modifies this`tail, heap`bytes
      ensures first == block
      ensures (heap.bytes, tail)
           == FreeList.Segregate(old(heap.bytes), old(tail), Block(block - PTR_SIZE, n), part)
    {
      ghost var base := block - PTR_SIZE;
      var last := block + sz - part;
      assert last == ChunkAt(base, part, n - 1) by {
        assert (n - 1) * part == n * part - part;
      }
      if tail == NULL {
        tail := last;
        heap.bytes := SetWord(heap.bytes, tail, NULL);
      } else {
        heap.bytes := SetWord(heap.bytes, last, tail);
      }
      ghost var m1 := heap.bytes;
      ghost var i := n - 2;
      var it := last - part;
      assert it == ChunkAt(base, part, i) by {
        assert (n - 2) * part == (n - 1) * part - part;
      }
      while true
        invariant 0 <= i <= n - 2
        invariant it == ChunkAt(base, part, i) && last == ChunkAt(base, part, i + 1)
        invariant LinkDown(heap.bytes, base, part, i) == LinkDown(m1, base, part, n - 2)
        invariant tail == if old(tail) == NULL then ChunkAt(base, part, n - 1) else old(tail)
        decreases i
      {
        heap.bytes := SetWord(heap.bytes, it, last);
        last := it;
        if it == block {
          assert i == 0 by {
            if i > 0 {
              MulStep(0, i, part);
            }
          }
          break;
        }
        assert i > 0;
        it := it - part;
        i := i - 1;
        assert (i + 1) * part == i * part + part;
      }
      first := block;
    }

    method AddBlock(block: int, sz: int, part: int, ghost n: nat)
      requires part > 0 && n >= 2 && sz == n * part
      modifies this, heap`bytes
      ensures head == block
      ensures (heap.bytes, tail)
           == FreeList.Segregate(old(heap.bytes), old(tail), Block(block - PTR_SIZE, n), part)
    {
      head := Segregate(block, sz, part, n);
    }
  }

  class Pool {
    const heap: SystemHeap
    const storage: SegregatedStorage
    var first: int
    var nextSize: nat
    const allocSize: nat
    ghost var view: View

    ghost function Registers(): Regs
      reads this, storage
    {
      Regs(storage.head, storage.tail, first, nextSize, allocSize)
    }

    ghost predicate Valid()
      reads this, storage, heap
    {
      storage.heap == heap && Holds(heap.bytes, Registers(), view, heap.blocks)
    }

    constructor (heap: SystemHeap, requestedSize: nat)
      ensures Valid() <==> requestedSize <= MAX_CHUNK
      ensures this.heap == heap && fresh(storage)
      ensures Registers() == Regs(NULL, NULL, NULL, 64, allocSize)
      ensures view == View([], {}, [], 64)
      ensures allocSize == if requestedSize < PTR_SIZE then PTR_SIZE else requestedSize
    {
      this.heap := heap;
      nextSize := 64;
      allocSize := if requestedSize < PTR_SIZE then PTR_SIZE else requestedSize;
      first := NULL;
      view := View([], {}, [], 64);
      storage := new SegregatedStorage(heap);
    }

    method Empty() returns (b: bool)
      requires Valid()
      ensures b <==> NeedsGrowth(view)
    {
      EmptyMeansOneHeldBack(heap.bytes, Registers(), view);
      b := storage.Empty();
    }

    method Malloc(answer: int) returns (c: int)
      requires Valid()
      requires NeedsGrowth(view) ==> heap.MayAnswer(answer, TotalSize(Registers()) + PTR_SIZE)
      modifies this, storage, heap
      ensures Valid()
      ensures old(view).start >= 2 && old(nextSize) >= 2
      ensures (view, c) == MallocView(old(view), allocSize, answer)
      ensures (heap.bytes, Registers(), c)
           == FreeList.Malloc(old(heap.bytes), old(Registers()), answer)
      ensures Extends(old(heap.blocks), heap.blocks)
    {
      MallocHolds(heap.bytes, Registers(), view, heap.blocks, answer);
      c := Allocate(answer);
      view := MallocView(view, allocSize, answer).0;
    }

    // The code of Pool::Malloc, on registers and memory alone.
    method Allocate(answer: int) returns (c: int)
      requires storage.heap == heap
      requires nextSize >= 2 && allocSize > 0 && TotalSize(Registers()) == nextSize * allocSize
      requires IsEmpty(Registers()) ==> heap.MayAnswer(answer, TotalSize(Registers()) + PTR_SIZE)
      modifies this`first, this`nextSize, storage, heap
      ensures (heap.bytes, Registers(), c)
           == FreeList.Malloc(old(heap.bytes), old(Registers()), answer)
      ensures heap.blocks
           == BooksAfter(old(heap.blocks), old(Registers()), answer)
    {
      if !storage.Empty() {
        c := storage.Malloc();
      } else {
        c := ResizeAndMalloc(answer);
      }
    }

    method ResizeAndMalloc(answer: int) returns (c: int)
      requires storage.heap == heap && IsEmpty(Registers())
      requires nextSize >= 2 && allocSize > 0 && TotalSize(Registers()) == nextSize * allocSize
      requires heap.MayAnswer(answer, TotalSize(Registers()) + PTR_SIZE)
      modifies this`first, this`nextSize, storage, heap
      ensures (heap.bytes, Registers(), c)
           == FreeList.Malloc(old(heap.bytes), old(Registers()), answer)
      ensures heap.blocks
           == BooksAfter(old(heap.blocks), old(Registers()), answer)
    {
      var totalSize := nextSize * allocSize % SIZE_MODULUS;
      assert totalSize == TotalSize(Registers());
      var ptr := heap.Malloc(totalSize + PTR_SIZE, answer);
      assert heap.blocks == BooksAfter(old(heap.blocks), old(Registers()), answer);
      if ptr == NULL {
        return NULL;
      }
      TakeBlock(ptr, totalSize);
      assert (heap.bytes, Registers()) == Grow(old(heap.bytes), old(Registers()), ptr);
      c := storage.Malloc();
    }

    // The middle of resize_and_malloc: carve, write the header, double.
    method TakeBlock(ptr: int, totalSize: nat)
      requires storage.heap == heap && allocSize > 0 && nextSize >= 2
      requires totalSize == nextSize * allocSize
      modifies this`first, this`nextSize, storage, heap`bytes
      ensures (heap.bytes, Registers()) == Grow(old(heap.bytes), old(Registers()), ptr)
    {
      storage.AddBlock(ptr + PTR_SIZE, totalSize, allocSize, nextSize);
      heap.bytes := SetWord(heap.bytes, ptr, first);
      first := ptr;
      nextSize := nextSize * 2 % SIZE_MODULUS;
    }

    method Free(chunk: int)
      requires Valid() && chunk in view.live
      modifies this, storage, heap`bytes
      ensures Valid() && view == PushFront(old(view), chunk)
      ensures (heap.bytes, Registers()) == Push(old(heap.bytes), old(Registers()), chunk)
    {
      PushRefines(heap.bytes, Registers(), view, chunk);
      storage.Free(chunk);
      view := PushFront(view, chunk);
    }

    method FreeAppend(chunk: int)
      requires Valid() && chunk in view.live
      modifies this, storage, heap`bytes
      ensures Valid() && view == PushBack(old(view), chunk)
      ensures (heap.bytes, Registers()) == Append(old(heap.bytes), old(Registers()), chunk)
    {
      AppendRefines(heap.bytes, Registers(), view, chunk);
      storage.FreeAppend(chunk);
      view := PushBack(view, chunk);
    }

    // Whatever a user writes into a chunk it was handed, the pool is not disturbed.
    method UserWrite(chunk: int, data: Mem)
      requires Valid() && chunk in view.live
      modifies heap`bytes
      ensures Valid()
      ensures forall i ::
                (heap.bytes(i) == if chunk <= i < chunk + allocSize then data(i) else old(heap.bytes)(i))
    {
      ghost var m, r := heap.bytes, Registers();
      heap.Write(chunk, allocSize, data);
      LiveWriteKeepsInv(m, heap.bytes, r, view, chunk);
    }

    // The header chain is followed to its end; each header is read before its block
    // is released, and freed memory may hold anything.
    method PurgeMemory(garbage: Mem) returns (ok: bool)
      requires Valid()
      modifies this, storage, heap
      ensures ok && Registers() == Purged(old(Registers()))
      ensures heap.released == old(heap.released) + Bases(old(view).blocks)
      ensures heap.blocks == old(heap.blocks) - Elems(Bases(old(view).blocks))
      ensures OnlyBlocks(old(heap.bytes), heap.bytes, old(view).blocks, allocSize)
      ensures old(view).blocks == [] ==> Valid() && view == View([], {}, [], 32)
    {
      ReleaseBlocks(garbage, view.blocks);
      nextSize := 32;
      storage.head := NULL;
      ok := true;
      if view.blocks == [] {
        view := View([], {}, [], 32);
      }
    }

    // The loop of PurgeMemory.
    method ReleaseBlocks(garbage: Mem, ghost all: seq<Block>)
      requires Sane(all, allocSize) && Headers(heap.bytes, first, all)
      requires Booked(heap.blocks, all, allocSize)
      modifies this`first, heap
      ensures first == NULL
      ensures heap.released == old(heap.released) + Bases(all)
      ensures heap.blocks == old(heap.blocks) - Elems(Bases(all))
      ensures OnlyBlocks(old(heap.bytes), heap.bytes, all, allocSize)
      ensures all == [] ==> heap.bytes == old(heap.bytes)
    {
      hide Purging, Sane, Headers, OnlyBlocks, Booked;
      ghost var done := 0;
      ghost var start := Purge(heap.bytes, first, heap.blocks, heap.released);
      PurgeStart(start, all, allocSize);
      while first != NULL
        invariant done <= |all|
        invariant Purging(start, Purge(heap.bytes, first, heap.blocks, heap.released), all, done, allocSize)
        invariant done == 0 ==> heap.bytes == start.m
        decreases |all| - done
      {
        ghost var now := Purge(heap.bytes, first, heap.blocks, heap.released);
        PurgingBlock(start, now, all, done, allocSize);
        var next := Word(heap.bytes, first);
        heap.Free(first, garbage);
        first := next;
        PurgeStep(start, now, Purge(heap.bytes, first, heap.blocks, heap.released), all, done, allocSize);
        done := done + 1;
      }
      PurgeEnd(start, Purge(heap.bytes, first, heap.blocks, heap.released), all, done, allocSize);
    }
  }

  // The block addresses in list order.
  function Bases(blocks: seq<Block>): (s: seq<int>)
    ensures |s| == |blocks| && forall k :: 0 <= k < |s| ==> s[k] == blocks[k].base
  {
    seq(|blocks|, k requires 0 <= k < |blocks| => blocks[k].base)
  }

  // The part of the state a purge works on.
  datatype Purge = Purge(m: Mem, first: int, books: map<int, nat>, released: seq<int>)

  // `done` blocks of `all` have been released since `start`, the rest are still chained.
  ghost predicate Purging(start: Purge, s: Purge, all: seq<Block>, done: nat, size: nat)
    requires done <= |all|
  {
    && Sane(all, size)
    && Headers(s.m, s.first, all[done..])
    && Booked(s.books, all[done..], size)
    && s.released == start.released + Bases(all[..done])
    && s.books == start.books - Elems(Bases(all[..done]))
    && OnlyBlocks(start.m, s.m, all[..done], size)
  }

  lemma PurgeStart(start: Purge, all: seq<Block>, size: nat)
    requires Sane(all, size) && Headers(start.m, start.first, all) && Booked(start.books, all, size)
    ensures Purging(start, start, all, 0, size)
  {
    assert all[0..] == all && all[..0] == [];
    assert Bases(all[..0]) == [];
  }

  lemma PurgingBlock(start: Purge, s: Purge, all: seq<Block>, done: nat, size: nat)
    requires done <= |all| && Purging(start, s, all, done, size) && s.first != NULL
    ensures done < |all| && s.first == all[done].base
    ensures s.first in s.books && s.books[s.first] == BlockBytes(all[done], size)
  {
    var rest := all[done..];
    assert rest != [];
    assert rest[0] == all[done];
  }

  lemma PurgeStep(start: Purge, s: Purge, s': Purge, all: seq<Block>, done: nat, size: nat)
    requires done < |all| && Purging(start, s, all, done, size) && s.first == all[done].base
    requires s'.first == Word(s.m, s.first)
    requires s'.books == s.books - {s.first} && s'.released == s.released + [s.first]
    requires forall a :: !InBlock(all[done], size, a) ==> s'.m(a) == s.m(a)
    ensures Purging(start, s', all, done + 1, size)
  {
    var rest := all[done..];
    assert rest[0] == all[done] && rest[1..] == all[done + 1..];
    SaneTail(all, size, done);
    HeadersAfterFree(s.m, s'.m, rest, size);
    BookedAfterFree(s.books, rest, size);
    BasesStep(all, done);
    OnlyBlocksStep(start.m, s.m, s'.m, all, done, size);
  }

  lemma PurgeEnd(start: Purge, s: Purge, all: seq<Block>, done: nat, size: nat)
    requires done <= |all| && Purging(start, s, all, done, size) && s.first == NULL
    ensures s.released == start.released + Bases(all)
    ensures s.books == start.books - Elems(Bases(all))
    ensures OnlyBlocks(start.m, s.m, all, size)
  {
    var rest := all[done..];
    assert done < |all| ==> BlockOk(all[done], size);
    assert rest == [];
    assert all[..done] == all;
  }

  lemma SaneTail(all: seq<Block>, size: int, done: nat)
    requires done <= |all| && Sane(all, size)
    ensures Sane(all[done..], size)
  {
  }

  lemma OnlyBlocksStep(m0: Mem, m: Mem, m': Mem, all: seq<Block>, done: nat, size: int)
    requires done < |all| && OnlyBlocks(m0, m, all[..done], size)
    requires forall a :: !InBlock(all[done], size, a) ==> m'(a) == m(a)
    ensures OnlyBlocks(m0, m', all[..done + 1], size)
  {
    var before, after := all[..done], all[..done + 1];
    forall a | m0(a) != m'(a)
      ensures exists k :: 0 <= k < |after| && InBlock(after[k], size, a)
    {
      if m0(a) != m(a) {
        var k :| 0 <= k < |before| && InBlock(before[k], size, a);
        assert InBlock(after[k], size, a);
      } else {
        assert InBlock(after[done], size, a);
      }
    }
  }

  lemma BasesStep(all: seq<Block>, done: nat)
    requires done < |all|
    ensures Bases(all[..done + 1]) == Bases(all[..done]) + [all[done].base]
    ensures Elems(Bases(all[..done + 1])) == Elems(Bases(all[..done])) + {all[done].base}
  {
    var s := Bases(all[..done]);
    assert Bases(all[..done + 1]) == s + [all[done].base];
    assert Elems(s + [all[done].base]) == Elems(s) + {all[done].base};
  }

  // Overwriting one block leaves the header word of another one alone.
  lemma HeaderKept(m: Mem, m': Mem, a: Block, b: Block, size: int)
    requires size >= 0 && BlocksApart(a, b, size) && b.count >= 1
    requires forall i :: !InBlock(a, size, i) ==> m'(i) == m(i)
    ensures Word(m', b.base) == Word(m, b.base)
  {
    ChunkInside(b, size, 0);
    LoadSame(m, m', b.base, PTR_SIZE);
  }

  // Overwriting the first block leaves the rest of the header chain whole.
  lemma HeadersAfterFree(m: Mem, m': Mem, rest: seq<Block>, size: int)
    requires rest != [] && Sane(rest, size) && Headers(m, rest[0].base, rest)
    requires forall a :: !InBlock(rest[0], size, a) ==> m'(a) == m(a)
    ensures Headers(m', Word(m, rest[0].base), rest[1..])
  {
    forall k | 0 <= k < |rest| - 1
      ensures Word(m', rest[1..][k].base) == Word(m, rest[1..][k].base)
    {
      assert BlockOk(rest[k + 1], size);
      HeaderKept(m, m', rest[0], rest[k + 1], size);
    }
    HeadersFrame(m, m', Word(m, rest[0].base), rest[1..]);
  }

  lemma BookedAfterFree(books: map<int, nat>, rest: seq<Block>, size: nat)
    requires rest != [] && Sane(rest, size) && Booked(books, rest, size)
    ensures Booked(books - {rest[0].base}, rest[1..], size)
  {
    forall k | 0 <= k < |rest| - 1
      ensures rest[1..][k].base != rest[0].base
    {
      assert BlocksApart(rest[0], rest[k + 1], size);
      assert BlockOk(rest[0], size) && BlockOk(rest[k + 1], size);
      ChunkInside(rest[0], size, 0);
      ChunkInside(rest[k + 1], size, 0);
    }
  }

  // The registers after a purge: the tail is left as it was.
  function Purged(r: Regs): Regs
  {
    r.(head := NULL, first := NULL, nextSize := 32)
  }

  // If the pool had ever grown, the next malloc after a purge takes the stale tail for a
  // sign of free chunks: whatever the system would answer, it is not asked, null is returned
  // and the word at address null becomes the new head. If it had not, the pool is as new.
  lemma MallocAfterPurge(m: Mem, r: Regs, v: View, m': Mem)
    requires Inv(m, r, v)
    ensures v.blocks != []
       <==> !IsEmpty(Purged(r))
            && forall answer :: FreeList.Malloc(m', Purged(r), answer)
                                == (m', Purged(r).(head := Word(m', NULL)), NULL)
    ensures v.blocks == [] ==> IsEmpty(Purged(r)) && Inv(m', Purged(r), View([], {}, [], 32))
    ensures (exists u :: Inv(m', Purged(r), u)) <==> v.blocks == []
  {
    if v.free != [] {
      FreeChunk(r, v, r.tail);
    }
    PurgedUsable(m', Purged(r));
  }

  lemma HeadNotNull(m: Mem, r: Regs, v: View)
    requires Inv(m, r, v)
    ensures v.free != [] ==> r.head != NULL
  {
    if v.free != [] {
      FreeChunk(r, v, v.free[0]);
    }
  }

  // Purged registers can stand for a pool exactly when the tail is null.
  lemma PurgedUsable(m: Mem, r: Regs)
    requires r.head == NULL && r.first == NULL && r.nextSize == 32
    requires PTR_SIZE <= r.allocSize <= MAX_CHUNK
    ensures (exists v :: Inv(m, r, v)) <==> r.tail == NULL
  {
    if v :| Inv(m, r, v) {
      HeadNotNull(m, r, v);
    }
    if r.tail == NULL {
      assert Inv(m, r, View([], {}, [], 32));
    }
  }
}
