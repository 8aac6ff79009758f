/** The linked structures of slab_allocator.c: chunk lists that are relinked in place, the chain of free slabs,
    and the operations on them, each proved against `SlabModel`. */
module SlabAllocator {
  import opened DoublyLinked
  import opened Options
  import opened SlabModel

  /** A chunk's item is its memory address; its home is the class whose lists it is on. */
  type Chunk = Node<Address>

  ghost function Addresses(s: seq<Chunk>): (xs: seq<int>)
    ensures |xs| == |s| && forall i :: 0 <= i < |s| ==> xs[i] == s[i].item
  {
    seq(|s|, i requires 0 <= i < |s| => s[i].item)
  }

  lemma AddressesFacts(s: seq<Chunk>, c: Chunk)
    ensures Addresses(s + [c]) == Addresses(s) + [c.item]
    ensures Addresses([c] + s) == [c.item] + Addresses(s)
    ensures forall k :: 0 <= k < |s| ==> Addresses(Drop(s, k)) == Without(Addresses(s), k)
  {
  }

  /** `Find` restricted to the first `k` addresses, as the backwards walk sees it. */
  ghost function FindBelow(xs: seq<int>, p: int, k: nat): nat
    requires k <= |xs|
  {
    var f := SlabModel.Find(xs[..k], p);
    if f == k then |xs| else f
  }

  lemma FindBelowEnds(xs: seq<int>, p: int)
    ensures FindBelow(xs, p, |xs|) == SlabModel.Find(xs, p)
    ensures FindBelow(xs, p, 0) == |xs|
  {
    assert xs[..|xs|] == xs;
  }

  lemma FindBelowStep(xs: seq<int>, p: int, k: nat)
    requires 0 < k <= |xs|
    ensures FindBelow(xs, p, k) == if xs[k - 1] == p then k - 1 else FindBelow(xs, p, k - 1)
  {
    assert xs[..k][..k - 1] == xs[..k - 1];
  }

  lemma WalkFacts(s: seq<Chunk>, p: int, k: int)
    requires Linked(s) && -1 <= k < |s|
    ensures At(s, k) == null <==> k == -1
    ensures k >= 0 ==> s[k].prev == At(s, k - 1) && At(s, k) == s[k] && Addresses(s)[k] == s[k].item
  {
  }

  method SearchBack(last: Node?<Address>, ghost s: seq<Chunk>, p: int) returns (chunk: Node?<Address>)
    requires Linked(s) && last == At(s, |s| - 1)
    ensures chunk == At(s, SlabModel.Find(Addresses(s), p))
  {
    hide Linked, At, Addresses, FindBelow, SlabModel.Find;
    ghost var xs := Addresses(s);
    var cursor := last;
    ghost var k := |s|;
    FindBelowEnds(xs, p);
    while cursor != null
      invariant 0 <= k <= |s| && cursor == At(s, k - 1)
      invariant SlabModel.Find(xs, p) == FindBelow(xs, p, k)
      decreases k
    {
      WalkFacts(s, p, k - 1);
      FindBelowStep(xs, p, k);
      if cursor.item == p {
        return cursor;
      }
      cursor := cursor.prev;
      k := k - 1;
    }
    WalkFacts(s, p, k - 1);
    AtEnd(s);
    return null;
  }

  /** The search meets NULL exactly when no chunk of the list has the address. */
  lemma FoundIff(s: seq<Chunk>, p: int)
    ensures var k := SlabModel.Find(Addresses(s), p);
            && (At(s, k) == null <==> p !in Addresses(s))
            && (p in Addresses(s) ==> k < |s| && At(s, k) == s[k])
  {
  }

  /** `head_chunk` is the head of the free list; `allocated_chunks` is the last chunk of the allocated list. */
  class SlabClass {
    var sizeChunk: nat
    var head: Node?<Address>
    var lastAllocated: Node?<Address>
    ghost var free: seq<Chunk>
    ghost var live: seq<Chunk>
    ghost var chunks: set<Chunk>

    /** `chunks` are all the nodes of the class. */
    ghost predicate Valid()
      reads this, chunks
    {
      && Within(free, chunks) && Within(live, chunks) && OwnedBy(chunks, this)
      && Linked(free) && Linked(live)
      && Distinct(free) && Distinct(live) && Apart(free, live)
      && head == At(free, 0) && lastAllocated == At(live, |live| - 1)
    }

    ghost function Value(): Class
      reads this
    {
      Class(sizeChunk, Addresses(free), Addresses(live))
    }

    /** The free list gets its chunks from `init_slab_allocator`. */
    constructor (sizeChunk: nat)
      ensures Valid() && Value() == Class(sizeChunk, [], [])
      ensures free == [] && live == []
    {
      this.sizeChunk := sizeChunk;
      head, lastAllocated := null, null;
      free, live, chunks := [], [], {};
    }

    method AddToAllocated(chunk: Chunk)
      requires Valid() && Apart(free, [chunk]) && Apart(live, [chunk]) && chunk in chunks
      requires chunk.prev == null && chunk.next == null
      modifies this`lastAllocated, this`live, chunks
      ensures Valid() && live == old(live) + [chunk]
    {
      hide Linked, Distinct, Apart, Within, OwnedBy;
      AppendFacts(live, chunk, free, chunks);
      LinkAllocated(chunk);
      live := live + [chunk];
    }

    method LinkAllocated(chunk: Chunk)
      requires Valid() && Apart(free, [chunk]) && Apart(live, [chunk]) && chunk in chunks
      requires chunk.prev == null && chunk.next == null
      modifies this`lastAllocated, chunks
      ensures Linked(free) && Linked(live + [chunk]) && lastAllocated == chunk
    {
      hide OwnedBy;
      assert chunk == [chunk][0];
      if lastAllocated == null {
        lastAllocated := chunk;
      } else {
        lastAllocated.next := chunk;
        chunk.prev := lastAllocated;
        lastAllocated := chunk;
      }
      assert Linked(free);
      AppendLinks(live, chunk);
    }

    /** `popChunk` on a class with a free chunk. */
    method TakeChunk() returns (chunk: Chunk)
      requires Valid() && head != null
      modifies this`head, this`lastAllocated, this`free, this`live, chunks
      ensures Valid() && old(free) != []
      ensures chunk == old(free)[0] && free == Drop(old(free), 0) && live == old(live) + [chunk]
    {
      ghost var s := free;
      chunk := DetachHead();
      AddToAllocated(chunk);
    }

    method DetachHead() returns (chunk: Chunk)
      requires Valid() && head != null
      modifies this`head, this`free, chunks
      ensures Valid() && old(free) != []
      ensures chunk == old(free)[0] && free == Drop(old(free), 0)
      ensures Apart(free, [chunk]) && Apart(live, [chunk]) && chunk in chunks
      ensures chunk.prev == null && chunk.next == null
    {
      hide Linked, Distinct, Apart, Within, OwnedBy, Drop;
      WithinAt(free, 0, chunks);
      ApartSymmetric(free, live);
      DropFacts(free, 0, live, chunks);
      chunk := BypassHead();
      free := Drop(free, 0);
    }

    method BypassHead() returns (chunk: Chunk)
      requires Valid() && head != null
      modifies this`head, chunks
      ensures free != [] && chunk == free[0]
      ensures Linked(live) && Linked(Drop(free, 0))
      ensures head == At(Drop(free, 0), 0)
      ensures chunk.prev == null && chunk.next == null
    {
      chunk := head;
      head := head.next;
      if head != null {
        head.prev := null;
      }
      chunk.prev := null;
      chunk.next := null;
      assert Linked(live);
      DropLinks(free, 0);
      AtDrop(free, 0, 0);
    }

    /** Walk the allocated list backwards from its last chunk. */
    method FindChunk(p: int) returns (chunk: Node?<Address>)
      requires Valid()
      ensures chunk == At(live, SlabModel.Find(Addresses(live), p))
    {
      hide Linked, Distinct, Apart, Within, OwnedBy, At, Addresses, SlabModel.Find;
      chunk := SearchBack(lastAllocated, live, p);
    }

    method Unlink(chunk: Chunk, ghost k: nat)
      requires Valid() && k < |live| && live[k] == chunk
      modifies this`lastAllocated, this`live, chunks
      ensures Valid() && live == Drop(old(live), k)
      ensures chunk.prev == null && chunk.next == null && Apart(live, [chunk]) && Apart(free, [chunk])
    {
      hide Linked, Distinct, OwnedBy, Drop;
      DropFacts(live, k, free, chunks);
      NeighboursAt(live, k);
      if chunk.next == null {
        lastAllocated := chunk.prev;
      }
      Detach(chunk, live, k);
      live := Drop(live, k);
    }

    method PushFree(chunk: Chunk)
      requires Valid() && Apart(free, [chunk]) && Apart(live, [chunk]) && chunk in chunks
      requires chunk.prev == null && chunk.next == null
      modifies this`head, this`free, chunks
      ensures Valid() && free == [chunk] + old(free)
    {
      hide Linked, Distinct, Apart, Within, OwnedBy;
      PrependFacts(free, chunk, live, chunks);
      LinkHead(chunk);
      free := [chunk] + free;
    }

    method LinkHead(chunk: Chunk)
      requires Valid() && Apart(free, [chunk]) && Apart(live, [chunk]) && chunk in chunks
      requires chunk.prev == null && chunk.next == null
      modifies this`head, chunks
      ensures Linked(live) && Linked([chunk] + free) && head == chunk
    {
      assert chunk == [chunk][0];
      if head == null {
        head := chunk;
      } else {
        chunk.next := head;
        head.prev := chunk;
        head := chunk;
      }
      assert Linked(live);
      PrependLinks(free, chunk);
    }

    /** `head_chunk = chopSlab(...)` on a class without free chunks. */
    method AcceptChunks(first: Node?<Address>, ghost s: seq<Chunk>, ghost nodes: set<Chunk>)
      requires Valid() && head == null && first == At(s, 0)
      requires Linked(s) && Distinct(s) && Within(s, nodes) && OwnedBy(nodes, this) && nodes !! chunks
      modifies this`head, this`free, this`chunks
      ensures Valid() && free == s && live == old(live) && sizeChunk == old(sizeChunk)
      ensures chunks == old(chunks) + nodes && head == first
    {
      NewNodesFacts(s, nodes, live, chunks, this);
      hide Linked, Distinct, Apart, Within, OwnedBy;
      head := first;
      free := s;
      chunks := chunks + nodes;
    }

    method PopHead() returns (chunk: Chunk)
      requires Valid() && head != null
      modifies this`head, this`lastAllocated, this`free, this`live, chunks
      ensures Valid() && sizeChunk == old(sizeChunk)
      ensures old(Value()).free != [] && Value() == TakeHead(old(Value())) && chunk.item == old(Value()).free[0]
      ensures old(free) != [] && chunk == old(free)[0] && free == Drop(old(free), 0) && live == old(live) + [chunk]
    {
      hide Linked, Distinct, Apart, Within, OwnedBy, Drop, Addresses;
      AddressesFacts(free, head);
      AddressesFacts(live, head);
      assert Without(Addresses(free), 0) == Addresses(free)[1..];
      chunk := TakeChunk();
    }

    /** The part of `free_mem` that follows a successful search. */
    method GiveBackChunk(chunk: Chunk, ghost p: int)
      requires Valid() && var k := SlabModel.Find(Addresses(live), p); k < |live| && chunk == live[k]
      modifies this`head, this`lastAllocated, this`free, this`live, chunks
      ensures Valid() && sizeChunk == old(sizeChunk)
      ensures p in old(Value()).live && Value() == GiveBack(old(Value()), p)
      ensures free == [chunk] + old(free)
      ensures exists k :: 0 <= k < |old(live)| && live == Drop(old(live), k)
    {
      hide Linked, Distinct, Apart, Within, OwnedBy, Drop, SlabModel.Find, Addresses;
      ghost var k := SlabModel.Find(Addresses(live), p);
      WithinAt(live, k, chunks);
      AddressesFacts(live, chunk);
      AddressesFacts(free, chunk);
      Unlink(chunk, k);
      PushFree(chunk);
    }
  }

  // ----- The pool of slabs ---------------------------------------------------------------------------

  class Slab {
    const memAddr: int
    var prev: Slab?
    var next: Slab?

    constructor (memAddr: int)
      ensures this.memAddr == memAddr && prev == null && next == null
    {
      this.memAddr := memAddr;
      prev, next := null, null;
    }
  }

  ghost function SlabAt(s: seq<Slab>, i: nat): Slab? {
    if i < |s| then s[i] else null
  }

  /** Only the `next` chain counts: popping a slab leaves its old links behind. */
  ghost predicate PoolChain(s: seq<Slab>)
    reads s
  {
    forall i :: 0 <= i < |s| ==> s[i].next == SlabAt(s, i + 1)
  }

  ghost function SlabsAt(s: seq<Slab>): (xs: seq<int>)
    ensures |xs| == |s| && forall i :: 0 <= i < |s| ==> xs[i] == s[i].memAddr
  {
    seq(|s|, i requires 0 <= i < |s| => s[i].memAddr)
  }

  /** `chopSlab`: the chunk nodes of one slab, linked in address order. */
  method ChopSlab(slab: Slab?, sizeChunk: int, ghost home: SlabClass)
    returns (head: Node?<Address>, ghost chunks: seq<Chunk>, ghost nodes: set<Chunk>)
    ensures slab == null || sizeChunk < 1 || sizeChunk > SIZE_SLAB ==> head == null
    ensures slab != null && 1 <= sizeChunk <= SIZE_SLAB ==>
              && chunks != [] && head == At(chunks, 0)
              && Addresses(chunks) == Chop(slab.memAddr, sizeChunk)
              && Linked(chunks) && Distinct(chunks)
              && Within(chunks, nodes) && OwnedBy(nodes, home) && fresh(nodes)
  {
    if slab == null || sizeChunk < 1 || sizeChunk > SIZE_SLAB {
      return null, [], {};
    }
    hide Linked, Distinct, Within, OwnedBy, Addresses, Chop, ChunksPerSlab;
    head, chunks, nodes := LinkChunks(slab.memAddr, sizeChunk, ChunksPerSlab(sizeChunk), home);
    StridesAreChop(chunks, slab.memAddr, sizeChunk);
  }

  lemma StridesAreChop(s: seq<Chunk>, address: int, size: nat)
    requires 1 <= size <= SIZE_SLAB && |s| == ChunksPerSlab(size)
    requires forall k :: 0 <= k < |s| ==> s[k].item == Stride(address, k, size)
    ensures s != [] && Addresses(s) == Chop(address, size)
  {
  }

  ghost function Stride(address: int, i: int, size: nat): int { address + i * size }

  lemma StrideStep(address: int, i: int, size: nat)
    ensures Stride(address, 0, size) == address
    ensures Stride(address, i + 1, size) == Stride(address, i, size) + size
  {
  }

  method LinkChunks(start: int, sizeChunk: nat, count: nat, ghost home: SlabClass)
    returns (head: Node?<Address>, ghost chunks: seq<Chunk>, ghost nodes: set<Chunk>)
    ensures |chunks| == count && head == At(chunks, 0)
    ensures forall k :: 0 <= k < count ==> chunks[k].item == Stride(start, k, sizeChunk)
    ensures Linked(chunks) && Distinct(chunks)
    ensures Within(chunks, nodes) && OwnedBy(nodes, home) && fresh(nodes)
  {
    hide Linked, Distinct, Within, OwnedBy, Apart, Stride, At;
    head, chunks, nodes := null, [], {};
    var address := start;
    var last: Node?<Address> := null;
    StrideStep(start, 0, sizeChunk);
    EmptyFacts<Address>(home);
    for i := 0 to count
      invariant |chunks| == i && address == Stride(start, i, sizeChunk)
      invariant last == At(chunks, i - 1) && head == At(chunks, 0) && (last != null ==> fresh(last))
      invariant forall k :: 0 <= k < i ==> chunks[k].item == Stride(start, k, sizeChunk)
      invariant Linked(chunks) && Distinct(chunks)
      invariant Within(chunks, nodes) && OwnedBy(nodes, home) && fresh(nodes)
    {
      var chunk := new Node<Address>(address, home);
      NewNodeFacts(chunks, nodes, chunk, home);
      AppendFacts(chunks, chunk, [], nodes + {chunk});
      AtAppend(chunks, chunk, i);
      AtAppend(chunks, chunk, 0);
      LinkLast(last, chunk, chunks);
      chunks, nodes := chunks + [chunk], nodes + {chunk};
      head, last := if i == 0 then chunk else head, chunk;
      StrideStep(start, i, sizeChunk);
      address := address + sizeChunk;
    }
  }

  method LinkLast(last: Node?<Address>, chunk: Chunk, ghost s: seq<Chunk>)
    requires Linked(s) && Distinct(s) && Apart(s, [chunk]) && last == At(s, |s| - 1)
    requires chunk.prev == null && chunk.next == null
    modifies chunk, last
    ensures Linked(s + [chunk])
  {
    assert chunk == [chunk][0];
    if last != null {
      chunk.prev := last;
      last.next := chunk;
    }
    AppendLinks(s, chunk);
  }

  /** The slab loop of `init_slab_allocator`. */
  method LinkSlabs(start: int, count: nat) returns (head: Slab?, ghost slabs: seq<Slab>)
    ensures |slabs| == count && head == SlabAt(slabs, 0) && PoolChain(slabs)
    ensures forall k :: 0 <= k < count ==> slabs[k].memAddr == SlabAddress(start, k)
  {
    head, slabs := null, [];
    var address := start;
    var prev: Slab? := null;
    for i := 0 to count
      invariant |slabs| == i && address == SlabAddress(start, i)
      invariant head == SlabAt(slabs, 0) && prev == if i == 0 then null else slabs[i - 1]
      invariant forall k :: 0 <= k < i ==> slabs[k].memAddr == SlabAddress(start, k)
      invariant PoolChain(slabs) && fresh(slabs)
      invariant forall k :: 0 <= k < i - 1 ==> slabs[k] != prev
    {
      var slab := new Slab(address);
      slab.prev := prev;
      if prev != null {
        prev.next := slab;
      }
      slabs := slabs + [slab];
      head, prev := if i == 0 then slab else head, slab;
      address := address + SIZE_SLAB;
    }
  }

  lemma SlabsAtIs(s: seq<Slab>, first: int)
    requires forall k :: 0 <= k < |s| ==> s[k].memAddr == SlabAddress(first, k)
    ensures SlabsAt(s) == SlabAddresses(first, 0, |s|)
  {
  }

  // ----- The allocator -------------------------------------------------------------------------------

  ghost predicate AllValid(classes: seq<SlabClass>)
    reads *
  {
    forall i :: 0 <= i < |classes| ==> classes[i].Valid() && 0 < classes[i].sizeChunk <= SIZE_SLAB
  }

  ghost predicate AllDistinct(classes: seq<SlabClass>) {
    forall i, j :: 0 <= i < j < |classes| ==> classes[i] != classes[j]
  }

  ghost function Values(classes: seq<SlabClass>): (values: seq<Class>)
    reads classes
    ensures |values| == |classes| && forall i :: 0 <= i < |classes| ==> values[i] == classes[i].Value()
  {
    seq(|classes|, i requires 0 <= i < |classes| reads classes => classes[i].Value())
  }

  twostate predicate AllNew(new classes: seq<SlabClass>)
    reads classes
  {
    forall i :: 0 <= i < |classes| ==> fresh(classes[i]) && fresh(classes[i].chunks)
  }

  lemma EmptyArena(first: int)
    ensures WithClasses(first, 0, 0) == Arena([], [], [])
  {
  }

  lemma NoClasses(first: int, n: nat)
    ensures AllValid([]) && AllDistinct([])
    ensures WithClasses(first, 0, n) == Arena(SlabAddresses(first, 0, n), [], Values([]))
  {
  }

  lemma WithClassesStep(first: int, i: nat, n: nat)
    requires i < MAX_NUM_CLASSES && i < n
    ensures WithClasses(first, i, n).pool != [] && i < |CHUNK_SIZES| && 0 < CHUNK_SIZES[i] <= SIZE_SLAB
    ensures WithClasses(first, i + 1, n) == AddClass(WithClasses(first, i, n), CHUNK_SIZES[i])
  {
    SizesInTable(i);
  }

  lemma AppendClass(made: seq<SlabClass>, c: SlabClass)
    requires AllValid(made) && AllDistinct(made) && c !in made && c.Valid() && 0 < c.sizeChunk <= SIZE_SLAB
    ensures AllValid(made + [c]) && AllDistinct(made + [c]) && Values(made + [c]) == Values(made) + [c.Value()]
  {
  }

  /** One turn of the class loop of `init_slab_allocator`. */
  method NewClass(slab: Slab, sizeChunk: nat) returns (c: SlabClass)
    requires 0 < sizeChunk <= SIZE_SLAB
    ensures fresh(c) && fresh(c.chunks) && c.Valid() && c.sizeChunk == sizeChunk
    ensures c.Value() == Class(sizeChunk, Chop(slab.memAddr, sizeChunk), [])
  {
    c := new SlabClass(sizeChunk);
    var first;
    ghost var s, nodes;
    first, s, nodes := ChopSlab(slab, sizeChunk, c);
    c.AcceptChunks(first, s, nodes);
  }

  class Allocator {
    var nSlabs: nat
    var nClasses: nat
    var pool: Slab?
    var classes: seq<SlabClass>
    ghost var slabs: seq<Slab>
    ghost var owner: seq<nat>

    ghost predicate PoolOk()
      reads this`nSlabs, this`pool, this`slabs, slabs
    {
      && nSlabs == |slabs| && pool == SlabAt(slabs, 0) && PoolChain(slabs)
    }

    ghost predicate ClassesOk()
      reads *
    {
      && nClasses == |classes|
      && AllValid(classes) && AllDistinct(classes)
    }

    ghost predicate Valid()
      reads *
    {
      PoolOk() && ClassesOk()
    }

    ghost function Value(): (a: Arena)
      reads this, classes
      ensures |a.classes| == |classes| && forall i :: 0 <= i < |classes| ==> a.classes[i] == classes[i].Value()
    {
      Arena(SlabsAt(slabs), owner, Values(classes))
    }

    constructor (block: int, memPoolSize: nat)
      ensures Valid() && Value() == InitialArena(block, memPoolSize) && AllNew(classes)
    {
      new;
      Init(block, memPoolSize);
    }

    /** `init_slab_allocator`, when malloc returned `block`. */
    method Init(block: int, memPoolSize: nat)
      modifies this
      ensures Valid() && Value() == InitialArena(block, memPoolSize) && AllNew(classes)
    {
      hide FirstSlab, WithClasses, PoolOk, ClassesOk, Values, SlabsAt, SlabAddresses;
      nSlabs, nClasses, pool, classes := 0, 0, null, [];
      slabs, owner := [], [];
      EmptyOk();
      var n := memPoolSize / SIZE_SLAB;
      EmptyArena(FirstSlab(block, n));
      if n < 1 {
        return;
      }
      MakeSlabs(FirstSlab(block, n), n);
      MakeClasses(FirstSlab(block, n));
    }

    lemma EmptyOk()
      requires nSlabs == nClasses == 0 && pool == null && classes == [] && slabs == [] && owner == []
      ensures Valid() && Value() == Arena([], [], [])
    {
    }

    method MakeSlabs(first: int, n: nat)
      modifies this`nSlabs, this`nClasses, this`pool, this`slabs
      ensures PoolOk() && nSlabs == n && nClasses == NumClasses(n)
      ensures SlabsAt(slabs) == SlabAddresses(first, 0, n)
    {
      hide PoolChain, SlabAddresses, SlabsAt;
      nSlabs := n;
      nClasses := if n > MAX_NUM_CLASSES then MAX_NUM_CLASSES else n;
      pool, slabs := LinkSlabs(first, n);
      SlabsAtIs(slabs, first);
    }

    /** The class loop of `init_slab_allocator`: one slab from the pool for each class. */
    method MakeClasses(ghost first: int)
      requires PoolOk() && nClasses <= nSlabs && nClasses <= MAX_NUM_CLASSES
      requires SlabsAt(slabs) == SlabAddresses(first, 0, nSlabs) && owner == [] && classes == []
      modifies this`pool, this`nSlabs, this`slabs, this`owner, this`classes
      ensures Valid() && Value() == WithClasses(first, nClasses, old(nSlabs))
      ensures AllNew(classes)
    {
      hide SlabClass.Valid, SlabClass.Value, PoolOk, SlabAddresses, SlabsAt;
      hide WithClasses, CHUNK_SIZES, AllDistinct, Chop;
      var made: seq<SlabClass> := [];
      ghost var n := nSlabs;
      NoClasses(first, n);
      for i := 0 to nClasses
        invariant PoolOk() && |made| == i
        invariant Arena(SlabsAt(slabs), owner, Values(made)) == WithClasses(first, i, n)
        invariant AllValid(made) && AllDistinct(made) && AllNew(made)
      {
        var c := NextClass(i, made, first, n);
        made := made + [c];
      }
      classes := made;
    }

    /** One turn of that loop. */
    method NextClass(i: nat, ghost made: seq<SlabClass>, ghost first: int, ghost n: nat) returns (c: SlabClass)
      requires PoolOk() && |made| == i < MAX_NUM_CLASSES && i < n && AllValid(made) && AllDistinct(made)
      requires Arena(SlabsAt(slabs), owner, Values(made)) == WithClasses(first, i, n)
      modifies this`pool, this`nSlabs, this`slabs, this`owner
      ensures PoolOk() && AllValid(made + [c]) && AllDistinct(made + [c]) && fresh(c) && fresh(c.chunks)
      ensures Arena(SlabsAt(slabs), owner, Values(made + [c])) == WithClasses(first, i + 1, n)
    {
      hide SlabClass.Valid, SlabClass.Value, PoolOk, SlabAddresses, SlabsAt;
      hide WithClasses, CHUNK_SIZES, AllDistinct, Chop;
      PoolFacts();
      WithClassesStep(first, i, n);
      var slab := PopSlab();
      owner := owner + [i];
      c := NewClass(slab, CHUNK_SIZES[i]);
      AppendClass(made, c);
    }

    method PopSlab() returns (slab: Slab?)
      requires PoolOk()
      modifies this`pool, this`nSlabs, this`slabs
      ensures PoolOk()
      ensures old(slabs) == [] ==> slab == null && slabs == old(slabs)
      ensures old(slabs) != [] ==> slab == old(slabs)[0] && slabs == old(slabs)[1..]
    {
      slab := pool;
      if nSlabs == 0 || slab == null {
        return null;
      }
      pool := pool.next;
      nSlabs := nSlabs - 1;
      slabs := slabs[1..];
    }

    /** The other classes keep out of an operation on class `i`. */
    lemma OthersApart(i: nat)
      requires ClassesOk() && i < |classes|
      ensures forall j :: 0 <= j < |classes| && j != i ==>
                classes[j] != classes[i] && classes[j].chunks !! classes[i].chunks
    {
    }

    lemma ClassValueFacts(i: nat)
      requires ClassesOk() && i < |classes|
      ensures SizesOk(Value().classes) && classes[i].Value().size == classes[i].sizeChunk
      ensures (classes[i].Value().free == []) == (classes[i].head == null)
    {
    }

    lemma PoolFacts()
      requires PoolOk()
      ensures (Value().pool == []) == (slabs == [])
      ensures slabs != [] ==> Value().pool[0] == slabs[0].memAddr && Value().pool[1..] == SlabsAt(slabs[1..])
    {
    }

    /** The refill of `popChunk`: one slab from the pool, chopped into the class's chunks. */
    method RefillClass(i: nat) returns (ok: bool)
      requires Valid() && i < |classes| && classes[i].head == null
      modifies this`pool, this`nSlabs, this`slabs, this`owner, classes[i]
      ensures Valid() && ok == (old(Value()).pool != [])
      ensures !ok ==> Value() == old(Value()) && classes[i].head == null
      ensures ok ==> Value() == Refill(old(Value()), i) && classes[i].head != null
      ensures fresh(classes[i].chunks - old(classes[i].chunks))
    {
      hide SlabClass.Valid, SlabClass.Value, PoolOk, SlabsAt;
      ghost var before := Value();
      ClassValueFacts(i);
      PoolFacts();
      var slab := PopSlab();
      if slab == null {
        return false;
      }
      owner := owner + [i];
      FillFrom(slab, i);
      ok := true;
      assert Value().classes
             == before.classes[i := before.classes[i].(free := Chop(slab.memAddr, before.classes[i].size))];
    }

    method FillFrom(slab: Slab, i: nat)
      requires ClassesOk() && i < |classes| && classes[i].head == null
      modifies classes[i]
      ensures ClassesOk() && classes[i].head != null
      ensures classes[i].Value() == old(classes[i].Value()).(free := Chop(slab.memAddr, old(classes[i].sizeChunk)))
      ensures forall j :: 0 <= j < |classes| && j != i ==> classes[j].Value() == old(classes[j].Value())
      ensures fresh(classes[i].chunks - old(classes[i].chunks))
    {
      hide SlabClass.Valid, Linked, Distinct, Within, OwnedBy;
      var c := classes[i];
      var first;
      ghost var s, nodes;
      first, s, nodes := ChopSlab(slab, c.sizeChunk, c);
      c.AcceptChunks(first, s, nodes);
    }

    method PopChunk(i: nat) returns (chunk: Node?<Address>)
      requires Valid() && i < |classes|
      modifies this`pool, this`nSlabs, this`slabs, this`owner, classes[i], classes[i].chunks
      ensures Valid() && SizesOk(old(Value()).classes)
      ensures var (a, r) := SlabModel.PopChunk(old(Value()), i);
              && Value() == a
              && (r.None? <==> chunk == null)
              && (r.Some? ==> chunk.item == r.value)
      ensures forall j :: 0 <= j < |classes| ==> fresh(classes[j].chunks - old(classes[j].chunks))
    {
      hide SlabClass.Valid, SlabClass.Value, PoolOk;
      ghost var before := Value();
      ClassValueFacts(i);
      if classes[i].head == null {
        var ok := RefillClass(i);
        if !ok {
          return null;
        }
      }
      chunk := TakeFrom(i);
    }

    method TakeFrom(i: nat) returns (chunk: Chunk)
      requires Valid() && i < |classes| && classes[i].head != null
      modifies classes[i], classes[i].chunks
      ensures Valid()
      ensures old(classes[i].Value()).free != [] && chunk.item == old(classes[i].Value()).free[0]
      ensures forall j :: 0 <= j < |classes| ==> classes[j].chunks == old(classes[j].chunks)
      ensures Value() == old(Value()).(classes := old(Value()).classes[i := TakeHead(old(classes[i].Value()))])
    {
      hide SlabClass.Valid, SlabClass.Value, PoolOk;
      OthersApart(i);
      ghost var before := Value();
      chunk := classes[i].PopHead();
      assert Value().classes == before.classes[i := TakeHead(before.classes[i])];
    }

    /** `alloc_mem`: the address, or 0 for NULL. */
    method AllocMem(numBytes: int) returns (p: int)
      requires Valid()
      modifies this`pool, this`nSlabs, this`slabs, this`owner
      modifies classes, set i, c | 0 <= i < |classes| && c in classes[i].chunks :: c
      ensures Valid() && SizesOk(old(Value()).classes)
      ensures var (a, r) := Alloc(old(Value()), numBytes);
              Value() == a && p == if r.None? then 0 else r.value
      ensures forall j :: 0 <= j < |classes| ==> fresh(classes[j].chunks - old(classes[j].chunks))
    {
      hide SlabClass.Valid, SlabClass.Value, PoolOk;
      SizesFacts();
      if numBytes <= 0 {
        return 0;
      }
      var i := 0;
      while i < nClasses && classes[i].sizeChunk < numBytes
        invariant 0 <= i <= nClasses
        invariant forall j :: 0 <= j < i ==> classes[j].sizeChunk < numBytes
      {
        i := i + 1;
      }
      FindClassIs(Value().classes, numBytes, i);
      if i == nClasses {
        return 0;
      }
      var chunk := PopChunk(i);
      p := if chunk == null then 0 else chunk.item;
    }

    lemma SizesFacts()
      requires ClassesOk()
      ensures SizesOk(Value().classes)
      ensures forall i :: 0 <= i < |classes| ==> Value().classes[i].size == classes[i].sizeChunk
    {
    }

    /** `free_mem`; address 0 is NULL. */
    method FreeMem(p: int) returns (status: int)
      requires Valid()
      modifies classes, set i, c | 0 <= i < |classes| && c in classes[i].chunks :: c
      ensures Valid() && (Value(), status) == Free(old(Value()), p)
      ensures forall j :: 0 <= j < |classes| ==> classes[j].chunks == old(classes[j].chunks)
    {
      hide SlabClass.Valid, SlabClass.Value, PoolOk, HomeOf, GiveBack, SlabModel.Find, Addresses;
      if p == 0 {
        return -1;
      }
      var i, chunk := FindHome(p);
      if chunk == null {
        return -1;
      }
      GiveBackTo(i, chunk, p);
      status := 0;
    }

    /** The search over all classes. */
    method FindHome(p: int) returns (i: nat, chunk: Node?<Address>)
      requires ClassesOk()
      ensures i == HomeOf(Value().classes, p) && (chunk == null <==> i == |classes|)
      ensures chunk != null ==>
                var k := SlabModel.Find(Addresses(classes[i].live), p);
                k < |classes[i].live| && chunk == classes[i].live[k]
    {
      hide SlabClass.Valid, HomeOf, SlabModel.Find, Addresses, At;
      i, chunk := 0, null;
      while i < nClasses
        invariant 0 <= i <= nClasses && chunk == null
        invariant forall j :: 0 <= j < i ==> p !in Value().classes[j].live
      {
        chunk := classes[i].FindChunk(p);
        FoundIff(classes[i].live, p);
        if chunk != null {
          HomeOfIs(Value().classes, p, i);
          return;
        }
        i := i + 1;
      }
      HomeOfIs(Value().classes, p, i);
    }

    method GiveBackTo(i: nat, chunk: Chunk, ghost p: int)
      requires Valid() && i < |classes|
      requires var c := classes[i]; var k := SlabModel.Find(Addresses(c.live), p); k < |c.live| && chunk == c.live[k]
      modifies classes[i], classes[i].chunks
      ensures Valid() && p in old(classes[i].Value()).live
      ensures Value() == old(Value()).(classes := old(Value()).classes[i := GiveBack(old(classes[i].Value()), p)])
      ensures forall j :: 0 <= j < |classes| ==> classes[j].chunks == old(classes[j].chunks)
    {
      hide SlabClass.Valid, SlabClass.Value, PoolOk, SlabModel.Find, GiveBack, Addresses, Drop;
      OthersApart(i);
      ghost var before := Value();
      classes[i].GiveBackChunk(chunk, p);
      assert Value().classes == before.classes[i := GiveBack(before.classes[i], p)];
    }

    method HandleRequest(r: Request) returns (answer: int)
      requires Valid()
      modifies this`pool, this`nSlabs, this`slabs, this`owner
      modifies classes, set i, c | 0 <= i < |classes| && c in classes[i].chunks :: c
      ensures Valid() && SizesOk(old(Value()).classes) && (Value(), answer) == Handle(old(Value()), r)
      ensures forall j :: 0 <= j < |classes| ==> fresh(classes[j].chunks - old(classes[j].chunks))
    {
      hide SlabClass.Valid, SlabClass.Value, PoolOk, ClassesOk, Alloc, Free;
      SizesFacts();
      match r {
        case AllocRequest(numBytes) => answer := AllocMem(numBytes);
        case FreeRequest(p) => answer := FreeMem(p);
      }
    }

    /** Any sequence of calls of `alloc_mem` and `free_mem` on one allocator. */
    method Serve(requests: seq<Request>) returns (answers: seq<int>)
      requires Valid()
      modifies this`pool, this`nSlabs, this`slabs, this`owner
      modifies classes, set i, c | 0 <= i < |classes| && c in classes[i].chunks :: c
      ensures Valid() && SizesOk(old(Value()).classes)
      ensures Value() == After(old(Value()), requests) && answers == Answers(old(Value()), requests)
      ensures forall j :: 0 <= j < |classes| ==> fresh(classes[j].chunks - old(classes[j].chunks))
    {
      hide SlabClass.Valid, SlabClass.Value, PoolOk, ClassesOk, Handle;
      SizesFacts();
      answers := [];
      var i := 0;
      while i < |requests|
        invariant 0 <= i <= |requests| && Valid() && SizesOk(Value().classes)
        invariant After(old(Value()), requests) == After(Value(), requests[i..])
        invariant Answers(old(Value()), requests) == answers + Answers(Value(), requests[i..])
        invariant forall j :: 0 <= j < |classes| ==> fresh(classes[j].chunks - old(classes[j].chunks))
      {
        assert requests[i..][1..] == requests[i + 1..];
        var answer := HandleRequest(requests[i]);
        answers := answers + [answer];
        i := i + 1;
      }
    }
  }

  /** The loops of `alloc_mem` and `free_mem` find what `FindClass` and `HomeOf` say. */
  lemma {:induction false} FindClassIs(classes: seq<Class>, numBytes: int, i: nat)
    requires i <= |classes| && (forall j :: 0 <= j < i ==> classes[j].size < numBytes)
    requires i < |classes| ==> classes[i].size >= numBytes
    ensures FindClass(classes, numBytes) == i
  {
  }

  lemma {:induction false} HomeOfIs(classes: seq<Class>, p: int, i: nat)
    requires i <= |classes| && (forall j :: 0 <= j < i ==> p !in classes[j].live)
    requires i < |classes| ==> p in classes[i].live
    ensures HomeOf(classes, p) == i
  {
  }

  /** The allocator in use, from its initialisation on. After any sequence of requests the arena is one of those of
      which `SlabModel.ReachableInv` and the lemmas after it speak. */
  method UseAllocator(block: int, memPoolSize: nat, requests: seq<Request>) returns (a: Allocator, answers: seq<int>)
    requires block > 0
    ensures a.Valid() && SizesOk(InitialArena(block, memPoolSize).classes)
    ensures a.Value() == After(InitialArena(block, memPoolSize), requests)
    ensures answers == Answers(InitialArena(block, memPoolSize), requests)
    ensures var n := NumSlabs(memPoolSize); Inv(a.Value(), FirstSlab(block, n), n)
  {
    hide SlabClass.Valid, InitialArena, FirstSlab, NumSlabs, Inv;
    ReachableInv(block, memPoolSize, requests);
    a := new Allocator(block, memPoolSize);
    answers := a.Serve(requests);
  }
}
