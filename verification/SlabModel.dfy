/** The slab allocator on values: addresses, free lists and allocated lists, with every law that does not
    depend on how the lists are linked. `SlabAllocator` refines it with the linked structures. */
module SlabModel {
  import opened Options
  import opened Unsigned

  const SIZE_SLAB := 1048576
  const NUM_ALIGNMENT := 8
  const MAX_NUM_CLASSES := 41

  /** sizeof(struct slab_t), sizeof(struct slab_class_t): three eight-byte fields each. */
  const SLAB_T_SIZE := 24
  const CLASS_T_SIZE := 24

  const CHUNK_SIZES: seq<nat> := [
    80, 96, 120, 152, 192, 240, 304, 384, 480, 600, 752, 944, 1184, 1480,
    1848, 2312, 2888, 3608, 4512, 5640, 7048, 8808, 11008, 13760, 17200,
    21504, 26880, 33600, 42000, 52496, 65616, 82016, 102520, 128152,
    160192, 200240, 250304, 312880, 391104, 488880, 1048576]

  type Address = int

  /** `free` from the head of the free list; `live` in the order of the allocated list, whose last element the
      class points to. */
  datatype Class = Class(size: nat, free: seq<Address>, live: seq<Address>)

  /** `owner[k]` is the class that the `k`-th slab was chopped for; the slabs after those are the pool. */
  datatype Arena = Arena(pool: seq<Address>, owner: seq<nat>, classes: seq<Class>)

  function ChunksPerSlab(size: nat): nat
    requires size > 0
  {
    SIZE_SLAB / size
  }

  /** The chunk addresses of one slab, in order. */
  function Chop(slab: Address, size: nat): (chunks: seq<Address>)
    requires size > 0
    ensures |chunks| == ChunksPerSlab(size)
    ensures forall i :: 0 <= i < |chunks| ==> chunks[i] == slab + i * size
  {
    seq(ChunksPerSlab(size), i => slab + i * size)
  }

  /** The first class whose chunks are large enough, or the number of classes. */
  function FindClass(classes: seq<Class>, numBytes: int): (i: nat)
    ensures i <= |classes|
    ensures i < |classes| ==> classes[i].size >= numBytes
    ensures forall j :: 0 <= j < i ==> classes[j].size < numBytes
  {
    if classes == [] || classes[0].size >= numBytes then 0 else 1 + FindClass(classes[1..], numBytes)
  }

  predicate SizesOk(classes: seq<Class>) {
    forall i :: 0 <= i < |classes| ==> 0 < classes[i].size <= SIZE_SLAB
  }

  /** Refill class `i` from the head of the pool. */
  function Refill(a: Arena, i: nat): Arena
    requires i < |a.classes| && a.pool != [] && a.classes[i].size > 0
  {
    Arena(a.pool[1..], a.owner + [i],
          a.classes[i := a.classes[i].(free := Chop(a.pool[0], a.classes[i].size))])
  }

  function TakeHead(c: Class): Class
    requires c.free != []
  {
    Class(c.size, c.free[1..], c.live + [c.free[0]])
  }

  /** `popChunk`: NULL, with nothing changed, when the class and the pool are both empty. */
  function PopChunk(a: Arena, i: nat): (Arena, Option<Address>)
    requires SizesOk(a.classes) && i < |a.classes|
  {
    if a.classes[i].free == [] && a.pool == [] then (a, None) else
      var b := if a.classes[i].free == [] then Refill(a, i) else a;
      RefillNotEmpty(a, i);
      (b.(classes := b.classes[i := TakeHead(b.classes[i])]), Some(b.classes[i].free[0]))
  }

  lemma RefillNotEmpty(a: Arena, i: nat)
    requires SizesOk(a.classes) && i < |a.classes|
    ensures a.pool != [] ==> Refill(a, i).classes[i].free != []
  {
  }

  function Alloc(a: Arena, numBytes: int): (Arena, Option<Address>)
    requires SizesOk(a.classes)
  {
    if numBytes <= 0 then (a, None) else
      var i := FindClass(a.classes, numBytes);
      if i == |a.classes| then (a, None) else PopChunk(a, i)
  }

  /** Where the search from the end of an allocated list finds `p`; the length of the list if it does not. */
  function Find(live: seq<Address>, p: Address): (k: nat)
    ensures k <= |live|
    ensures k < |live| ==> live[k] == p
    ensures k == |live| <==> p !in live
  {
    if live == [] then 0
    else if live[|live| - 1] == p then |live| - 1
    else
      var k := Find(live[..|live| - 1], p);
      if k == |live| - 1 then |live| else k
  }

  function Without(live: seq<Address>, k: nat): seq<Address>
    requires k < |live|
  {
    live[..k] + live[k + 1..]
  }

  /** The first class that has handed out `p`, or the number of classes. */
  function HomeOf(classes: seq<Class>, p: Address): (i: nat)
    ensures i <= |classes|
    ensures i < |classes| ==> p in classes[i].live
    ensures forall j :: 0 <= j < i ==> p !in classes[j].live
  {
    if classes == [] || p in classes[0].live then 0 else 1 + HomeOf(classes[1..], p)
  }

  function GiveBack(c: Class, p: Address): Class
    requires p in c.live
  {
    Class(c.size, [p] + c.free, Without(c.live, Find(c.live, p)))
  }

  /** `free_mem`: the result is 0 for success and -1 otherwise. Address 0 is NULL. */
  function Free(a: Arena, p: Address): (Arena, int) {
    var i := HomeOf(a.classes, p);
    if p == 0 || i == |a.classes| then (a, -1)
    else (a.(classes := a.classes[i := GiveBack(a.classes[i], p)]), 0)
  }

  // ----- Layout of the block that malloc returned ----------------------------------------------------

  function NumSlabs(poolSize: nat): nat { poolSize / SIZE_SLAB }

  function NumClasses(slabs: nat): nat { if slabs > MAX_NUM_CLASSES then MAX_NUM_CLASSES else slabs }

  function HeaderBytes(slabs: nat): nat { CLASS_T_SIZE * NumClasses(slabs) + SLAB_T_SIZE * slabs }

  function BlockBytes(slabs: nat): nat {
    CLASS_T_SIZE * NumClasses(slabs) + (SIZE_SLAB + SLAB_T_SIZE) * slabs + (NUM_ALIGNMENT - 1)
  }

  /** The first slab: the first multiple of 8 past the headers. */
  function FirstSlab(block: Address, slabs: nat): Address {
    var p := block + HeaderBytes(slabs);
    if p % NUM_ALIGNMENT != 0 then p + NUM_ALIGNMENT - p % NUM_ALIGNMENT else p
  }

  /** `malloc` is asked for this many bytes: a `size_t`. */
  function RequestedBytes(slabs: nat): nat { BlockBytes(slabs) % 0x1_0000_0000_0000_0000 }

  /** The slabs fit in the block, past the headers and 8-aligned; an odd enough block is used to its last byte. */
  lemma SlabsFit(block: Address, slabs: nat)
    ensures FirstSlab(block, slabs) % NUM_ALIGNMENT == 0
    ensures block + HeaderBytes(slabs) <= FirstSlab(block, slabs)
    ensures FirstSlab(block, slabs) + slabs * SIZE_SLAB <= block + BlockBytes(slabs)
    ensures block % NUM_ALIGNMENT == 1 ==> FirstSlab(block, slabs) + slabs * SIZE_SLAB == block + BlockBytes(slabs)
  {
  }

  /** The exact condition for the slabs to lie inside what malloc was asked for. */
  lemma SlabsInsideRequestIff(block: Address, slabs: nat)
    ensures FirstSlab(block, slabs) + slabs * SIZE_SLAB <= block + RequestedBytes(slabs)
            <==> BlockBytes(slabs) < 0x1_0000_0000_0000_0000
  {
  }

  /** A pool size whose request wraps round to a small one: not even the slab headers fit in it. */
  const WRAPPING_POOL_SIZE := 18446321870908162048

  lemma RequestCanWrap(block: Address)
    ensures WRAPPING_POOL_SIZE < 0x1_0000_0000_0000_0000
    ensures var slabs := NumSlabs(WRAPPING_POOL_SIZE);
            && RequestedBytes(slabs) == 222175
            && block + RequestedBytes(slabs) < block + HeaderBytes(slabs) <= FirstSlab(block, slabs)
  {
  }

  function SlabAddress(first: Address, k: nat): Address { first + k * SIZE_SLAB }

  function SlabAddresses(first: Address, from: nat, to: nat): (slabs: seq<Address>)
    requires from <= to
    ensures |slabs| == to - from
    ensures forall i :: 0 <= i < |slabs| ==> slabs[i] == SlabAddress(first, from + i)
  {
    seq(to - from, i requires 0 <= i => SlabAddress(first, from + i))
  }

  /** One turn of the class loop of `init_slab_allocator`. */
  function AddClass(a: Arena, size: nat): Arena
    requires a.pool != [] && size > 0
  {
    Arena(a.pool[1..], a.owner + [|a.classes|], a.classes + [Class(size, Chop(a.pool[0], size), [])])
  }

  function WithClasses(first: Address, count: nat, slabs: nat): (a: Arena)
    requires count <= slabs && count <= MAX_NUM_CLASSES
    ensures |a.pool| == slabs - count && |a.classes| == count
    ensures forall i :: 0 <= i < count ==> a.classes[i].size == CHUNK_SIZES[i]
  {
    if count == 0 then Arena(SlabAddresses(first, 0, slabs), [], []) else
      SizesInTable(count - 1);
      AddClass(WithClasses(first, count - 1, slabs), CHUNK_SIZES[count - 1])
  }

  /** `init_slab_allocator` when malloc returned `block`. */
  function InitialArena(block: Address, poolSize: nat): Arena {
    var slabs := NumSlabs(poolSize);
    WithClasses(FirstSlab(block, slabs), NumClasses(slabs), slabs)
  }

  lemma SizesInTable(i: nat)
    requires i < MAX_NUM_CLASSES
    ensures 0 < CHUNK_SIZES[i] <= SIZE_SLAB && CHUNK_SIZES[i] % NUM_ALIGNMENT == 0
    ensures i + 1 < MAX_NUM_CLASSES ==> CHUNK_SIZES[i] < CHUNK_SIZES[i + 1]
  {
  }

  lemma {:induction false} TableIncreases(i: nat, j: nat)
    requires i < j < MAX_NUM_CLASSES
    ensures CHUNK_SIZES[i] < CHUNK_SIZES[j]
  {
    hide CHUNK_SIZES;
    SizesInTable(j - 1);
    if i < j - 1 {
      TableIncreases(i, j - 1);
    }
  }

  /** A fresh class: the chunks of its one slab, all free. */
  predicate IsFresh(c: Class, slab: Address, size: nat)
    requires size > 0
  {
    && c.size == size && c.live == [] && |c.free| == SIZE_SLAB / size
    && forall m :: 0 <= m < |c.free| ==> c.free[m] == slab + m * size
  }

  /** The first classes are fresh, in the first slabs; the other slabs are the pool. */
  predicate LaidOut(a: Arena, first: Address, count: nat, slabs: nat)
    requires count <= slabs && count <= MAX_NUM_CLASSES
  {
    && |a.classes| == |a.owner| == count && (forall i :: 0 <= i < count ==> a.owner[i] == i)
    && a.pool == SlabAddresses(first, count, slabs)
    && forall i :: 0 <= i < count ==>
         CHUNK_SIZES[i] > 0 && IsFresh(a.classes[i], SlabAddress(first, i), CHUNK_SIZES[i])
  }

  lemma {:induction false} WithClassesLayout(first: Address, count: nat, slabs: nat)
    requires count <= slabs && count <= MAX_NUM_CLASSES
    ensures LaidOut(WithClasses(first, count, slabs), first, count, slabs)
  {
    if count == 0 {
    } else {
      hide LaidOut, AddClass;
      WithClassesLayout(first, count - 1, slabs);
      SizesInTable(count - 1);
      AddClassLayout(WithClasses(first, count - 1, slabs), first, count - 1, slabs, CHUNK_SIZES[count - 1]);
    }
  }

  lemma AddClassLayout(a: Arena, first: Address, i: nat, slabs: nat, size: nat)
    requires i < slabs && i < MAX_NUM_CLASSES && LaidOut(a, first, i, slabs) && 0 < size == CHUNK_SIZES[i]
    ensures a.pool != [] && LaidOut(AddClass(a, size), first, i + 1, slabs)
  {
    hide IsFresh, Chop, CHUNK_SIZES;
    ChopIsFresh(SlabAddress(first, i), size);
  }

  lemma ChopIsFresh(slab: Address, size: nat)
    requires size > 0
    ensures IsFresh(Class(size, Chop(slab, size), []), slab, size)
  {
  }

  /** What initialisation leaves, in plain numbers: one class for each slab up to 41, the first slabs chopped for
      them in turn, the others the pool, and all slabs one after the other from the first multiple of 8 behind 24
      bytes for each class and each slab. */
  lemma InitialLayout(block: Address, poolSize: nat) returns (first: Address)
    ensures var a, n := InitialArena(block, poolSize), poolSize / 1048576;
            var k := |a.classes|;
            && k == (if n < 41 then n else 41) && |a.pool| == n - k && |a.owner| == k
            && first % 8 == 0 && block + 24 * k + 24 * n <= first < block + 24 * k + 24 * n + 8
            && (forall j :: 0 <= j < n - k ==> a.pool[j] == first + (k + j) * 1048576)
            && (forall i :: 0 <= i < k ==> a.owner[i] == i && CHUNK_SIZES[i] > 0)
            && forall i :: 0 <= i < k ==> IsFresh(a.classes[i], first + i * 1048576, CHUNK_SIZES[i])
  {
    hide IsFresh, WithClasses;
    var n := NumSlabs(poolSize);
    first := FirstSlab(block, n);
    WithClassesLayout(first, NumClasses(n), n);
  }

  lemma FreshClasses(block: Address, poolSize: nat)
    ensures var a := InitialArena(block, poolSize);
            && |a.classes| == (if poolSize / 1048576 < 41 then poolSize / 1048576 else 41)
            && forall i :: 0 <= i < |a.classes| ==>
                 0 < a.classes[i].size == CHUNK_SIZES[i] <= SIZE_SLAB && a.classes[i].free != []
  {
    hide IsFresh, InitialArena;
    var a := InitialArena(block, poolSize);
    var first := InitialLayout(block, poolSize);
    forall i | 0 <= i < |a.classes|
      ensures 0 < a.classes[i].size == CHUNK_SIZES[i] <= SIZE_SLAB && a.classes[i].free != []
    {
      SizesInTable(i);
      FreshHasChunk(a.classes[i], first + i * 1048576, CHUNK_SIZES[i]);
    }
  }

  /** Classes of increasing size, all with free chunks, serve exactly the sizes up to that of the last. */
  lemma IncreasingServe(a: Arena, numBytes: int)
    requires SizesOk(a.classes) && forall i :: 0 <= i < |a.classes| ==> a.classes[i].free != []
    requires forall i, j :: 0 <= i < j < |a.classes| ==> a.classes[i].size < a.classes[j].size
    ensures Alloc(a, numBytes).1.Some?
            <==> numBytes > 0 && a.classes != [] && numBytes <= a.classes[|a.classes| - 1].size
  {
  }

  /** A fresh allocator serves exactly the sizes up to that of its last class. */
  lemma FreshServesIff(block: Address, poolSize: nat, numBytes: int)
    ensures var a := InitialArena(block, poolSize);
            var k := if poolSize / 1048576 < 41 then poolSize / 1048576 else 41;
            && SizesOk(a.classes)
            && (Alloc(a, numBytes).1.Some? <==> numBytes > 0 && k > 0 && numBytes <= CHUNK_SIZES[k - 1])
  {
    var a := InitialArena(block, poolSize);
    hide InitialArena, Alloc;
    FreshClasses(block, poolSize);
    forall i, j | 0 <= i < j < |a.classes|
      ensures a.classes[i].size < a.classes[j].size
    {
      TableIncreases(i, j);
    }
    IncreasingServe(a, numBytes);
  }

  lemma FreshHasChunk(c: Class, slab: Address, size: nat)
    requires 0 < size <= SIZE_SLAB && IsFresh(c, slab, size)
    ensures c.size == size && c.free != []
  {
  }

  // ----- Heap invariant ------------------------------------------------------------------------------

  function SlabIndex(first: Address, x: Address): int { (x - first) / SIZE_SLAB }
  function Offset(first: Address, x: Address): int { (x - first) % SIZE_SLAB }

  /** `x` is the start of a chunk in a slab chopped for class `i`. */
  predicate IsChunk(owner: seq<nat>, first: Address, i: nat, size: nat, x: Address) {
    var k := SlabIndex(first, x);
    && size > 0
    && 0 <= k < |owner| && owner[k] == i
    && Offset(first, x) % size == 0
    && Offset(first, x) + size <= SIZE_SLAB
  }

  function Chunks(c: Class): seq<Address> { c.free + c.live }

  predicate NoDuplicates(s: seq<Address>) {
    forall p, q :: 0 <= p < q < |s| ==> s[p] != s[q]
  }

  ghost predicate AllListed(owner: seq<nat>, first: Address, i: nat, c: Class) {
    forall x :: IsChunk(owner, first, i, c.size, x) ==> x in Chunks(c)
  }

  /** The two lists together hold every chunk of the class's slabs, once, and nothing else. */
  ghost predicate ClassOk(owner: seq<nat>, first: Address, i: nat, c: Class) {
    && 0 < c.size <= SIZE_SLAB && c.size % NUM_ALIGNMENT == 0
    && NoDuplicates(Chunks(c))
    && (forall x :: x in Chunks(c) ==> IsChunk(owner, first, i, c.size, x))
    && AllListed(owner, first, i, c)
    && |c.free| + |c.live| == multiset(owner)[i] * ChunksPerSlab(c.size)
  }

  /** `n` slabs start at `first`; those not yet chopped are the pool, in order. */
  ghost predicate Inv(a: Arena, first: Address, n: nat)
    ensures Inv(a, first, n) ==> SizesOk(a.classes)
  {
    && first > 0 && first % NUM_ALIGNMENT == 0
    && |a.owner| <= n
    && a.pool == SlabAddresses(first, |a.owner|, n)
    && (forall k :: 0 <= k < |a.owner| ==> a.owner[k] < |a.classes|)
    && (forall i :: 0 <= i < |a.classes| ==> ClassOk(a.owner, first, i, a.classes[i]))
  }

  lemma DivideUnique(x: int, q: int, r: int, m: nat)
    requires m > 0 && x == q * m + r && 0 <= r < m
    ensures x / m == q && x % m == r
  {
    ModuloUnique(x, q, r, m);
    assert x == m * (x / m) + r;
    assert m * (x / m - q) == 0;
    MultipleGap(m, x / m - q);
    MultipleGap(m, q - x / m);
  }

  lemma ChunkFits(m: nat, size: nat)
    requires size > 0 && m < ChunksPerSlab(size)
    ensures 0 <= m * size && m * size + size <= SIZE_SLAB && (m * size) % size == 0
  {
    var d := ChunksPerSlab(size) - 1 - m;
    assert size * ChunksPerSlab(size) <= SIZE_SLAB;
    assert size * ChunksPerSlab(size) == m * size + size + d * size;
    assert d * size >= 0;
    ModuloUnique(m * size, m, 0, size);
  }

  lemma ChopMakesChunks(owner: seq<nat>, first: Address, k: nat, size: nat, m: nat)
    requires size > 0 && m < ChunksPerSlab(size) && k < |owner|
    ensures var x := SlabAddress(first, k) + m * size;
            SlabIndex(first, x) == k && Offset(first, x) == m * size && IsChunk(owner, first, owner[k], size, x)
  {
    ChunkFits(m, size);
    DivideUnique(SlabAddress(first, k) + m * size - first, k, m * size, SIZE_SLAB);
  }

  /** Only the addresses that a slab is chopped into are chunks in that slab. */
  lemma ChunkInChop(first: Address, k: nat, size: nat, x: Address)
    requires size > 0 && SlabIndex(first, x) == k
    requires Offset(first, x) % size == 0 && Offset(first, x) + size <= SIZE_SLAB
    ensures x in Chop(SlabAddress(first, k), size)
  {
    var offset := Offset(first, x);
    var m := offset / size;
    assert x - first == SIZE_SLAB * k + offset;
    assert offset == size * m;
    QuotientBound(SIZE_SLAB, size, m);
    assert Chop(SlabAddress(first, k), size)[m] == x;
  }

  lemma QuotientBound(total: nat, size: nat, m: nat)
    requires size > 0 && size * m + size <= total
    ensures m < total / size
  {
    var q := total / size;
    assert total < size * q + size;
    assert size * (m - q) < size;
    MultipleGap(size, m - q);
  }

  lemma ChopDistinct(slab: Address, size: nat)
    requires size > 0
    ensures NoDuplicates(Chop(slab, size))
  {
  }

  lemma ClassOkInMoreSlabs(owner: seq<nat>, first: Address, i: nat, c: Class, newOwner: nat)
    requires ClassOk(owner, first, i, c) && newOwner != i
    ensures ClassOk(owner + [newOwner], first, i, c)
  {
    forall x | IsChunk(owner + [newOwner], first, i, c.size, x)
      ensures IsChunk(owner, first, i, c.size, x)
    {
    }
  }

  lemma NewSlabDistinct(free: seq<Address>, live: seq<Address>, first: Address, k: nat)
    requires NoDuplicates(free) && NoDuplicates(live)
    requires forall m :: 0 <= m < |free| ==> SlabIndex(first, free[m]) == k
    requires forall m :: 0 <= m < |live| ==> SlabIndex(first, live[m]) < k
    ensures NoDuplicates(free + live)
  {
    hide SlabIndex;
    forall p, q | 0 <= p < q < |free + live|
      ensures (free + live)[p] != (free + live)[q]
    {
      if p < |free| <= q {
        assert SlabIndex(first, free[p]) != SlabIndex(first, live[q - |free|]);
      }
    }
  }

  lemma RefilledAllListed(owner: seq<nat>, first: Address, i: nat, c: Class)
    requires AllListed(owner, first, i, c) && c.free == []
    requires c.size > 0
    ensures AllListed(owner + [i], first, i, c.(free := Chop(SlabAddress(first, |owner|), c.size)))
  {
    forall x | IsChunk(owner + [i], first, i, c.size, x)
      ensures x in Chop(SlabAddress(first, |owner|), c.size) || x in c.live
    {
      if SlabIndex(first, x) == |owner| {
        ChunkInChop(first, |owner|, c.size, x);
      } else {
        assert IsChunk(owner, first, i, c.size, x) && x in Chunks(c);
      }
    }
  }

  lemma RefilledClassOk(owner: seq<nat>, first: Address, i: nat, c: Class)
    requires ClassOk(owner, first, i, c) && c.free == []
    ensures ClassOk(owner + [i], first, i, c.(free := Chop(SlabAddress(first, |owner|), c.size)))
  {
    var slab := SlabAddress(first, |owner|);
    var c' := c.(free := Chop(slab, c.size));
    assert Chunks(c) == c.live;
    ChopDistinct(slab, c.size);
    forall m | 0 <= m < |c'.free|
      ensures SlabIndex(first, c'.free[m]) == |owner| && IsChunk(owner + [i], first, i, c.size, c'.free[m])
    {
      ChopMakesChunks(owner + [i], first, |owner|, c.size, m);
    }
    forall x | x in c.live
      ensures SlabIndex(first, x) < |owner| && IsChunk(owner + [i], first, i, c.size, x)
    {
      assert x in Chunks(c);
    }
    NewSlabDistinct(c'.free, c.live, first, |owner|);
    RefilledAllListed(owner, first, i, c);
    assert multiset(owner + [i])[i] == multiset(owner)[i] + 1;
    assert multiset(owner)[i] * ChunksPerSlab(c.size) + ChunksPerSlab(c.size)
           == (multiset(owner)[i] + 1) * ChunksPerSlab(c.size);
  }

  lemma RefillInv(a: Arena, first: Address, n: nat, i: nat)
    requires Inv(a, first, n) && i < |a.classes| && a.classes[i].free == [] && a.pool != []
    ensures a.classes[i].size > 0 && Inv(Refill(a, i), first, n)
  {
    hide ClassOk;
    assert ClassOk(a.owner, first, i, a.classes[i]);
    ClassSize(a, first, n, i);
    RefilledClassOk(a.owner, first, i, a.classes[i]);
    forall j | 0 <= j < |a.classes| && j != i
      ensures ClassOk(a.owner + [i], first, j, a.classes[j])
    {
      ClassOkInMoreSlabs(a.owner, first, j, a.classes[j], i);
    }
  }

  lemma ClassSize(a: Arena, first: Address, n: nat, i: nat)
    requires Inv(a, first, n) && i < |a.classes|
    ensures 0 < a.classes[i].size <= SIZE_SLAB && a.classes[i].size % NUM_ALIGNMENT == 0
  {
  }

  /** The lists of a class are only rearranged. */
  predicate Rearranged(c: Class, c': Class) {
    c'.size == c.size && multiset(Chunks(c')) == multiset(Chunks(c))
  }

  lemma NoDuplicatesMultiset(s: seq<Address>, t: seq<Address>)
    requires NoDuplicates(s) && multiset(s) == multiset(t)
    ensures NoDuplicates(t)
  {
    forall p, q | 0 <= p < q < |t|
      ensures t[p] != t[q]
    {
      if t[p] == t[q] {
        TwiceInMultiset(t, p, q);
        SingleInMultiset(s, t[p]);
        assert false;
      }
    }
  }

  lemma TwiceInMultiset(t: seq<Address>, p: nat, q: nat)
    requires p < q < |t| && t[p] == t[q]
    ensures multiset(t)[t[p]] >= 2
  {
    assert t == t[..p] + [t[p]] + t[p + 1..q] + [t[q]] + t[q + 1..];
  }

  lemma {:induction false} SingleInMultiset(s: seq<Address>, x: Address)
    requires NoDuplicates(s)
    ensures multiset(s)[x] <= 1
  {
    if s == [] {
    } else {
      assert s == [s[0]] + s[1..];
      SingleInMultiset(s[1..], x);
      forall k | 0 <= k < |s[1..]|
        ensures s[1..][k] != s[0]
      {
        assert s[1..][k] == s[k + 1];
      }
      assert s[0] !in s[1..];
    }
  }

  lemma RearrangedOk(owner: seq<nat>, first: Address, i: nat, c: Class, c': Class)
    requires ClassOk(owner, first, i, c) && Rearranged(c, c')
    ensures ClassOk(owner, first, i, c')
  {
    NoDuplicatesMultiset(Chunks(c), Chunks(c'));
    assert |multiset(Chunks(c))| == |Chunks(c)| && |multiset(Chunks(c'))| == |Chunks(c')|;
    forall x
      ensures x in Chunks(c') <==> x in Chunks(c)
    {
      assert x in multiset(Chunks(c')) <==> x in multiset(Chunks(c));
    }
  }

  lemma TakeHeadRearranges(c: Class)
    requires c.free != []
    ensures Rearranged(c, TakeHead(c))
  {
    assert c.free == [c.free[0]] + c.free[1..];
  }

  lemma GiveBackRearranges(c: Class, p: Address)
    requires p in c.live
    ensures Rearranged(c, GiveBack(c, p))
  {
    var k := Find(c.live, p);
    assert c.live == c.live[..k] + [c.live[k]] + c.live[k + 1..];
  }

  lemma UpdateClassInv(a: Arena, first: Address, n: nat, i: nat, c: Class)
    requires Inv(a, first, n) && i < |a.classes| && Rearranged(a.classes[i], c)
    ensures Inv(a.(classes := a.classes[i := c]), first, n)
  {
    RearrangedOk(a.owner, first, i, a.classes[i], c);
  }

  lemma PopChunkInv(a: Arena, first: Address, n: nat, i: nat)
    requires Inv(a, first, n) && i < |a.classes|
    ensures Inv(PopChunk(a, i).0, first, n)
  {
    hide ClassOk, Rearranged;
    if a.classes[i].free != [] || a.pool != [] {
      var b := if a.classes[i].free == [] then Refill(a, i) else a;
      if a.classes[i].free == [] {
        RefillInv(a, first, n, i);
        RefillNotEmpty(a, i);
      }
      TakeHeadRearranges(b.classes[i]);
      UpdateClassInv(b, first, n, i, TakeHead(b.classes[i]));
    }
  }

  lemma AllocInv(a: Arena, first: Address, n: nat, numBytes: int)
    requires Inv(a, first, n)
    ensures Inv(Alloc(a, numBytes).0, first, n)
  {
    if numBytes > 0 && FindClass(a.classes, numBytes) < |a.classes| {
      PopChunkInv(a, first, n, FindClass(a.classes, numBytes));
    }
  }

  lemma FreeInv(a: Arena, first: Address, n: nat, p: Address)
    requires Inv(a, first, n)
    ensures Inv(Free(a, p).0, first, n)
  {
    var i := HomeOf(a.classes, p);
    if p != 0 && i < |a.classes| {
      GiveBackRearranges(a.classes[i], p);
      UpdateClassInv(a, first, n, i, GiveBack(a.classes[i], p));
    }
  }

  lemma AddClassInv(a: Arena, first: Address, n: nat, size: nat)
    requires Inv(a, first, n) && a.pool != [] && 0 < size <= SIZE_SLAB && size % NUM_ALIGNMENT == 0
    ensures Inv(AddClass(a, size), first, n)
  {
    hide ClassOk;
    var i := |a.classes|;
    assert multiset(a.owner)[i] == 0;
    EmptyClassOk(a.owner, first, i, size);
    RefilledClassOk(a.owner, first, i, Class(size, [], []));
    forall j | 0 <= j < i
      ensures ClassOk(a.owner + [i], first, j, a.classes[j])
    {
      ClassOkInMoreSlabs(a.owner, first, j, a.classes[j], i);
    }
  }

  lemma EmptyClassOk(owner: seq<nat>, first: Address, i: nat, size: nat)
    requires multiset(owner)[i] == 0 && 0 < size <= SIZE_SLAB && size % NUM_ALIGNMENT == 0
    ensures ClassOk(owner, first, i, Class(size, [], []))
  {
    forall k | 0 <= k < |owner|
      ensures owner[k] != i
    {
      assert owner[k] in multiset(owner);
    }
  }

  lemma {:induction false} WithClassesInv(first: Address, count: nat, slabs: nat)
    requires first > 0 && first % NUM_ALIGNMENT == 0 && count <= slabs && count <= MAX_NUM_CLASSES
    ensures Inv(WithClasses(first, count, slabs), first, slabs)
  {
    if count == 0 {
    } else {
      WithClassesInv(first, count - 1, slabs);
      TableClassInv(WithClasses(first, count - 1, slabs), first, slabs, count - 1);
    }
  }

  lemma TableClassInv(a: Arena, first: Address, n: nat, i: nat)
    requires Inv(a, first, n) && a.pool != [] && i < MAX_NUM_CLASSES
    ensures CHUNK_SIZES[i] > 0 && Inv(AddClass(a, CHUNK_SIZES[i]), first, n)
  {
    hide Inv, AddClass;
    SizesInTable(i);
    AddClassInv(a, first, n, CHUNK_SIZES[i]);
  }

  // ----- Every sequence of requests ------------------------------------------------------------------

  datatype Request = AllocRequest(numBytes: int) | FreeRequest(p: Address)

  /** One call, and what it returns: an address, 0 for NULL, or a status. */
  function Handle(a: Arena, r: Request): (result: (Arena, int))
    requires SizesOk(a.classes)
    ensures SizesOk(result.0.classes)
  {
    match r
    case AllocRequest(numBytes) =>
      (Alloc(a, numBytes).0, if Alloc(a, numBytes).1.None? then 0 else Alloc(a, numBytes).1.value)
    case FreeRequest(p) => Free(a, p)
  }

  function After(a: Arena, requests: seq<Request>): Arena
    requires SizesOk(a.classes)
    decreases |requests|
  {
    if requests == [] then a else After(Handle(a, requests[0]).0, requests[1..])
  }

  function Answers(a: Arena, requests: seq<Request>): seq<int>
    requires SizesOk(a.classes)
    decreases |requests|
  {
    if requests == [] then [] else [Handle(a, requests[0]).1] + Answers(Handle(a, requests[0]).0, requests[1..])
  }

  lemma {:induction false} AfterInv(a: Arena, first: Address, n: nat, requests: seq<Request>)
    requires Inv(a, first, n)
    ensures Inv(After(a, requests), first, n)
    decreases |requests|
  {
    hide Inv, Alloc, Free;
    if requests == [] {
    } else {
      match requests[0]
      case AllocRequest(numBytes) =>
        AllocInv(a, first, n, numBytes);
        AfterInv(Alloc(a, numBytes).0, first, n, requests[1..]);
      case FreeRequest(p) =>
        FreeInv(a, first, n, p);
        AfterInv(Free(a, p).0, first, n, requests[1..]);
    }
  }

  /** The invariant holds after initialisation, for every block address and pool size, and after any requests. */
  lemma ReachableInv(block: Address, poolSize: nat, requests: seq<Request>)
    requires block > 0
    ensures var slabs := NumSlabs(poolSize); var first := FirstSlab(block, slabs);
            && SizesOk(InitialArena(block, poolSize).classes)
            && Inv(After(InitialArena(block, poolSize), requests), first, slabs)
  {
    var slabs := NumSlabs(poolSize);
    var first := FirstSlab(block, slabs);
    SlabsFit(block, slabs);
    WithClassesInv(first, NumClasses(slabs), slabs);
    AfterInv(InitialArena(block, poolSize), first, slabs, requests);
  }

  // ----- What users of the allocator rely on ---------------------------------------------------------

  predicate Disjoint(x: Address, size: nat, y: Address, size': nat) {
    x + size <= y || y + size' <= x
  }

  lemma ChunkInSlab(owner: seq<nat>, first: Address, i: nat, size: nat, x: Address)
    requires IsChunk(owner, first, i, size, x)
    ensures SlabAddress(first, SlabIndex(first, x)) <= x
    ensures x + size <= SlabAddress(first, SlabIndex(first, x) + 1)
    ensures x == SlabAddress(first, SlabIndex(first, x)) + Offset(first, x)
  {
  }

  /** Multiples of `size` that differ, differ by at least `size`. */
  lemma MultiplesApart(x: nat, y: nat, size: nat)
    requires size > 0 && x % size == 0 && y % size == 0 && x < y
    ensures x + size <= y
  {
    assert x == size * (x / size) && y == size * (y / size);
    assert y - x == size * (y / size - x / size);
    MultipleGap(size, y / size - x / size);
  }

  lemma TwoChunksDisjoint(owner: seq<nat>, first: Address, i: nat, size: nat, x: Address,
                          j: nat, size': nat, y: Address)
    requires IsChunk(owner, first, i, size, x) && IsChunk(owner, first, j, size', y)
    requires i == j ==> size == size' && x != y
    ensures Disjoint(x, size, y, size')
  {
    ChunkInSlab(owner, first, i, size, x);
    ChunkInSlab(owner, first, j, size', y);
    var k, l := SlabIndex(first, x), SlabIndex(first, y);
    if k == l {
      if Offset(first, x) < Offset(first, y) {
        MultiplesApart(Offset(first, x), Offset(first, y), size);
      } else {
        MultiplesApart(Offset(first, y), Offset(first, x), size);
      }
    }
  }

  /** The memory of any two different chunks, free or live, of the same class or of different ones, does not
      overlap. */
  lemma ChunksNeverOverlap(a: Arena, first: Address, n: nat, i: nat, p: nat, j: nat, q: nat)
    requires Inv(a, first, n)
    requires i < |a.classes| && p < |Chunks(a.classes[i])| && j < |a.classes| && q < |Chunks(a.classes[j])|
    requires i != j || p != q
    ensures Disjoint(Chunks(a.classes[i])[p], a.classes[i].size, Chunks(a.classes[j])[q], a.classes[j].size)
  {
    var x, y := Chunks(a.classes[i])[p], Chunks(a.classes[j])[q];
    assert ClassOk(a.owner, first, i, a.classes[i]) && x in Chunks(a.classes[i]);
    assert ClassOk(a.owner, first, j, a.classes[j]) && y in Chunks(a.classes[j]);
    TwoChunksDisjoint(a.owner, first, i, a.classes[i].size, x, j, a.classes[j].size, y);
  }

  /** Every chunk is 8-aligned, past the class and slab headers, and inside the block. */
  lemma ChunksInsideBlock(a: Arena, block: Address, n: nat, i: nat, p: nat)
    requires block > 0 && Inv(a, FirstSlab(block, n), n) && i < |a.classes| && p < |Chunks(a.classes[i])|
    ensures var x := Chunks(a.classes[i])[p];
            && x % NUM_ALIGNMENT == 0
            && block + HeaderBytes(n) <= x
            && x + a.classes[i].size <= block + BlockBytes(n)
            && (BlockBytes(n) < 0x1_0000_0000_0000_0000 ==> x + a.classes[i].size <= block + RequestedBytes(n))
  {
    hide FirstSlab, HeaderBytes, BlockBytes;
    var first := FirstSlab(block, n);
    var x, size := Chunks(a.classes[i])[p], a.classes[i].size;
    SlabsFit(block, n);
    assert ClassOk(a.owner, first, i, a.classes[i]) && x in Chunks(a.classes[i]);
    ChunkInSlab(a.owner, first, i, size, x);
    ChunkAligned(a.owner, first, i, size, x);
    SlabInside(first, SlabIndex(first, x), n);
  }

  lemma SlabInside(first: Address, k: nat, n: nat)
    requires k < n
    ensures first <= SlabAddress(first, k) && SlabAddress(first, k + 1) <= first + n * SIZE_SLAB
  {
  }

  lemma ChunkAligned(owner: seq<nat>, first: Address, i: nat, size: nat, x: Address)
    requires IsChunk(owner, first, i, size, x) && first % NUM_ALIGNMENT == 0 && size % NUM_ALIGNMENT == 0
    ensures x % NUM_ALIGNMENT == 0
  {
    ChunkInSlab(owner, first, i, size, x);
    var k: nat, o: nat := SlabIndex(first, x), Offset(first, x);
    MultipleAligned(o, size);
    hide Offset, SlabIndex;
    SumAligned(first, k, o);
  }

  lemma MultipleAligned(o: nat, size: nat)
    requires size > 0 && o % size == 0 && size % NUM_ALIGNMENT == 0
    ensures o % NUM_ALIGNMENT == 0
  {
    assert o == size * (o / size);
    AlignedMultiple(size, o / size);
  }

  lemma SumAligned(first: Address, k: nat, o: nat)
    requires first % NUM_ALIGNMENT == 0 && o % NUM_ALIGNMENT == 0
    ensures (SlabAddress(first, k) + o) % NUM_ALIGNMENT == 0
  {
    var q := first / NUM_ALIGNMENT + SIZE_SLAB / NUM_ALIGNMENT * k + o / NUM_ALIGNMENT;
    ModuloUnique(SlabAddress(first, k) + o, q, 0, NUM_ALIGNMENT);
  }

  lemma AlignedMultiple(size: nat, m: nat)
    requires size % NUM_ALIGNMENT == 0
    ensures (size * m) % NUM_ALIGNMENT == 0
  {
    assert size * m == (size / NUM_ALIGNMENT * m) * NUM_ALIGNMENT;
  }

  predicate IsLive(a: Arena, p: Address) {
    exists i :: 0 <= i < |a.classes| && p in a.classes[i].live
  }

  lemma LiveHome(a: Arena, first: Address, n: nat, i: nat, p: Address)
    requires Inv(a, first, n) && i < |a.classes| && p in Chunks(a.classes[i])
    ensures forall j :: 0 <= j < |a.classes| && p in Chunks(a.classes[j]) ==> j == i
    ensures p >= first
  {
  }

  predicate IsSmallestFit(classes: seq<Class>, i: nat, numBytes: int) {
    i < |classes| && classes[i].size >= numBytes && forall j :: 0 <= j < i ==> classes[j].size < numBytes
  }

  /** NULL exactly when the request is not positive, or no class is large enough, or the smallest that is has no
      free chunk and the pool is empty; and then nothing changes. */
  lemma AllocFailsIff(a: Arena, first: Address, n: nat, numBytes: int)
    requires Inv(a, first, n)
    ensures Alloc(a, numBytes).1.None? <==>
              || numBytes <= 0
              || (forall i :: 0 <= i < |a.classes| ==> a.classes[i].size < numBytes)
              || (a.pool == [] &&
                  exists i :: 0 <= i < |a.classes| && IsSmallestFit(a.classes, i, numBytes) && a.classes[i].free == [])
    ensures Alloc(a, numBytes).1.None? ==> Alloc(a, numBytes).0 == a
  {
  }

  /** Class `i` has handed out `p`: its first free chunk, or else the start of the first slab of the pool, of which
      it then has the others. */
  predicate Served(a: Arena, a': Arena, i: nat, p: Address)
    requires i < |a.classes| == |a'.classes|
  {
    var c, c' := a.classes[i], a'.classes[i];
    && a'.classes == a.classes[i := c'] && c'.size == c.size && c'.live == c.live + [p]
    && if c.free != [] then
         c.free == [p] + c'.free && a'.pool == a.pool && a'.owner == a.owner
       else
         && a.pool == [p] + a'.pool && a'.owner == a.owner + [i]
         && c.size * (|c'.free| + 1) <= SIZE_SLAB < c.size * (|c'.free| + 2)
         && forall m :: 0 <= m < |c'.free| ==> c'.free[m] == p + (m + 1) * c.size
  }

  /** Whatever a successful allocation hands out comes from the smallest class that is large enough, and everything
      else stays. */
  lemma AllocServes(a: Arena, first: Address, n: nat, numBytes: int) returns (i: nat)
    requires Inv(a, first, n) && Alloc(a, numBytes).1.Some?
    ensures IsSmallestFit(a.classes, i, numBytes) && |Alloc(a, numBytes).0.classes| == |a.classes|
    ensures Served(a, Alloc(a, numBytes).0, i, Alloc(a, numBytes).1.value)
  {
    i := FindClass(a.classes, numBytes);
    ClassSize(a, first, n, i);
    hide Inv, FindClass;
    if a.classes[i].free == [] {
      RefillServes(a, i);
    }
  }

  lemma RefillServes(a: Arena, i: nat)
    requires i < |a.classes| && 0 < a.classes[i].size <= SIZE_SLAB && a.classes[i].free == [] && a.pool != []
    ensures var b := Refill(a, i);
            && b.classes[i].free != [] && b.classes[i].free[0] == a.pool[0]
            && Served(a, b.(classes := b.classes[i := TakeHead(b.classes[i])]), i, a.pool[0])
  {
    var size := a.classes[i].size;
    var b := Refill(a, i);
    var c' := TakeHead(b.classes[i]);
    assert |c'.free| + 1 == SIZE_SLAB / size;
    assert SIZE_SLAB == size * (SIZE_SLAB / size) + SIZE_SLAB % size;
    assert b.classes[i := c'] == a.classes[i := c'];
  }

  /** What a successful allocation does to the allocated lists. */
  lemma AllocLists(a: Arena, numBytes: int)
    requires SizesOk(a.classes) && Alloc(a, numBytes).1.Some?
    ensures var (a', r) := Alloc(a, numBytes); var i := FindClass(a.classes, numBytes);
            && i < |a.classes| == |a'.classes| && a'.classes[i].live == a.classes[i].live + [r.value]
            && (forall j :: 0 <= j < |a.classes| && j != i ==> a'.classes[j].live == a.classes[j].live)
            && forall j :: 0 <= j < |a.classes| ==> a'.classes[j].size == a.classes[j].size
  {
  }

  /** The chunk handed out is apart from every chunk that was live. */
  lemma AllocDisjoint(a: Arena, first: Address, n: nat, numBytes: int, j: nat, p: Address)
    requires Inv(a, first, n) && Alloc(a, numBytes).1.Some?
    requires j < |a.classes| && p in a.classes[j].live
    ensures var (i, r) := (FindClass(a.classes, numBytes), Alloc(a, numBytes).1.value);
            p != r && Disjoint(r, a.classes[i].size, p, a.classes[j].size)
  {
    var (a', r) := Alloc(a, numBytes);
    var i := FindClass(a.classes, numBytes);
    AllocInv(a, first, n, numBytes);
    AllocLists(a, numBytes);
    hide Inv, Disjoint, Alloc, FindClass, Chunks;
    var c, d := a'.classes[j], a'.classes[i];
    var k :| 0 <= k < |a.classes[j].live| && a.classes[j].live[k] == p;
    LiveChunk(c, k);
    LiveChunk(d, |d.live| - 1);
    ChunksNeverOverlap(a', first, n, i, |Chunks(d)| - 1, j, |c.free| + k);
    ClassSize(a', first, n, i);
    ClassSize(a', first, n, j);
    NotSame(r.value, a.classes[i].size, p, a.classes[j].size);
  }

  lemma LiveChunk(c: Class, k: nat)
    requires k < |c.live|
    ensures |Chunks(c)| == |c.free| + |c.live| && Chunks(c)[|c.free| + k] == c.live[k]
  {
  }

  lemma NotSame(x: Address, size: nat, y: Address, size': nat)
    requires Disjoint(x, size, y, size') && size > 0 && size' > 0
    ensures x != y
  {
  }

  /** A successful allocation returns memory for `numBytes` that was not live and overlaps no live chunk; it
      becomes live and every other address stays as it was. */
  lemma AllocIsFresh(a: Arena, first: Address, n: nat, numBytes: int)
    requires Inv(a, first, n) && Alloc(a, numBytes).1.Some?
    ensures var (a', r) := Alloc(a, numBytes); var i := FindClass(a.classes, numBytes);
            && !IsLive(a, r.value)
            && (forall p :: IsLive(a', p) <==> IsLive(a, p) || p == r.value)
            && 0 < numBytes <= a.classes[i].size
            && (forall j, p :: 0 <= j < |a.classes| && p in a.classes[j].live ==>
                  Disjoint(r.value, a.classes[i].size, p, a.classes[j].size))
  {
    hide Inv, Disjoint;
    var (a', r) := Alloc(a, numBytes);
    var i := FindClass(a.classes, numBytes);
    forall j, p | 0 <= j < |a.classes| && p in a.classes[j].live
      ensures p != r.value && Disjoint(r.value, a.classes[i].size, p, a.classes[j].size)
    {
      AllocDisjoint(a, first, n, numBytes, j, p);
    }
    forall p
      ensures IsLive(a', p) <==> IsLive(a, p) || p == r.value
    {
      LiveAfterAlloc(a, numBytes, p);
    }
  }

  lemma LiveAfterAlloc(a: Arena, numBytes: int, p: Address)
    requires SizesOk(a.classes) && Alloc(a, numBytes).1.Some?
    ensures IsLive(Alloc(a, numBytes).0, p) <==> IsLive(a, p) || p == Alloc(a, numBytes).1.value
  {
    var (a', r) := Alloc(a, numBytes);
    var i := FindClass(a.classes, numBytes);
    AllocLists(a, numBytes);
    assert r.value in a'.classes[i].live;
    if IsLive(a, p) {
      var j :| 0 <= j < |a.classes| && p in a.classes[j].live;
      assert p in a'.classes[j].live;
    }
  }

  lemma FreeHeadNotLive(a: Arena, first: Address, n: nat, i: nat)
    requires Inv(a, first, n) && i < |a.classes| && a.classes[i].free != []
    ensures !IsLive(a, a.classes[i].free[0])
  {
    var c := a.classes[i];
    var p := c.free[0];
    assert Chunks(c)[0] == p;
    LiveHome(a, first, n, i, p);
    assert ClassOk(a.owner, first, i, c);
    forall k | 0 <= k < |c.live|
      ensures c.live[k] != p
    {
      assert Chunks(c)[|c.free| + k] == c.live[k];
    }
    forall j | 0 <= j < |a.classes|
      ensures p !in a.classes[j].live
    {
      assert p in a.classes[j].live ==> p in Chunks(a.classes[j]);
    }
  }

  /** `free_mem` returns 0 exactly for live addresses, which then stop being live; otherwise it returns -1 and
      changes nothing. */
  lemma FreeSucceedsIff(a: Arena, first: Address, n: nat, p: Address)
    requires Inv(a, first, n)
    ensures Free(a, p).1 == if IsLive(a, p) then 0 else -1
    ensures !IsLive(a, p) ==> Free(a, p).0 == a
    ensures forall x :: IsLive(Free(a, p).0, x) <==> IsLive(a, x) && x != p
  {
    var i := HomeOf(a.classes, p);
    if i < |a.classes| {
      assert p in Chunks(a.classes[i]);
      LiveHome(a, first, n, i, p);
      assert IsLive(a, p);
      var a' := Free(a, p).0;
      FreeInv(a, first, n, p);
      var c := a'.classes[i];
      FreeHeadNotLive(a', first, n, i);
      forall x
        ensures IsLive(a', x) <==> IsLive(a, x) && x != p
      {
        GiveBackLive(a.classes[i], p, x);
        assert forall j :: 0 <= j < |a.classes| && j != i ==> a'.classes[j] == a.classes[j];
        if IsLive(a', x) {
          var j :| 0 <= j < |a'.classes| && x in a'.classes[j].live;
          assert x in a.classes[j].live;
        }
        if IsLive(a, x) && x != p {
          var j :| 0 <= j < |a.classes| && x in a.classes[j].live;
          assert x in a'.classes[j].live;
        }
      }
    }
  }

  /** A successful `free_mem` moves the address from where it is in its class's allocated list to the head of the
      class's free list, and changes nothing else. */
  lemma FreeMovesChunk(a: Arena, p: Address) returns (i: nat, k: nat)
    requires Free(a, p).1 == 0
    ensures i < |a.classes| && k < |a.classes[i].live| && a.classes[i].live[k] == p
    ensures var c := a.classes[i];
            Free(a, p).0 == a.(classes := a.classes[i := Class(c.size, [p] + c.free, c.live[..k] + c.live[k + 1..])])
  {
    i := HomeOf(a.classes, p);
    k := Find(a.classes[i].live, p);
  }

  lemma GiveBackLive(c: Class, p: Address, x: Address)
    requires p in c.live
    ensures x in GiveBack(c, p).live ==> x in c.live
    ensures x in c.live && x != p ==> x in GiveBack(c, p).live
  {
  }

  /** The chunk freed last is the next one its class hands out. */
  lemma FreedChunkIsReused(a: Arena, first: Address, n: nat, p: Address, numBytes: int)
    requires Inv(a, first, n) && Free(a, p).1 == 0
    requires numBytes > 0 && FindClass(a.classes, numBytes) == HomeOf(a.classes, p)
    ensures SizesOk(Free(a, p).0.classes) && Alloc(Free(a, p).0, numBytes).1 == Some(p)
    ensures Alloc(Free(a, p).0, numBytes).0.classes[HomeOf(a.classes, p)].free == a.classes[HomeOf(a.classes, p)].free
  {
    var i := HomeOf(a.classes, p);
    var a' := Free(a, p).0;
    assert SizesOk(Handle(a, FreeRequest(p)).0.classes);
    assert forall j :: 0 <= j < |a.classes| ==> a'.classes[j].size == a.classes[j].size;
    assert FindClass(a'.classes, numBytes) == i;
  }

  /** Allocating from a class that has a free chunk and freeing the result restores the arena exactly. */
  lemma AllocThenFreeRestores(a: Arena, first: Address, n: nat, numBytes: int)
    requires Inv(a, first, n) && numBytes > 0
    requires var i := FindClass(a.classes, numBytes); i < |a.classes| && a.classes[i].free != []
    ensures Alloc(a, numBytes).1.Some?
    ensures Free(Alloc(a, numBytes).0, Alloc(a, numBytes).1.value) == (a, 0)
  {
    var i := FindClass(a.classes, numBytes);
    var (a', r) := Alloc(a, numBytes);
    var c, c' := a.classes[i], a'.classes[i];
    AllocInv(a, first, n, numBytes);
    assert c'.live == c.live + [r.value] && c'.free == c.free[1..];
    assert Chunks(c')[|Chunks(c')| - 1] == r.value;
    LiveHome(a', first, n, i, r.value);
    hide Inv;
    assert forall j :: 0 <= j < |a'.classes| && j != i ==> r.value !in a'.classes[j].live;
    assert HomeOf(a'.classes, r.value) == i;
    assert Find(c'.live, r.value) == |c.live|;
    assert GiveBack(c', r.value) == c;
    assert a'.classes[i := c] == a.classes;
  }

  /** Slabs and chunks are conserved: a slab is in the pool or belongs to one class, and the lists of each class
      hold exactly the chunks of its slabs, once each. */
  lemma Conservation(a: Arena, first: Address, n: nat)
    requires Inv(a, first, n)
    ensures |a.pool| + |a.owner| == n
    ensures forall i :: 0 <= i < |a.classes| ==>
              && a.classes[i].size > 0 && NoDuplicates(Chunks(a.classes[i]))
              && (forall x :: x in Chunks(a.classes[i]) <==> IsChunk(a.owner, first, i, a.classes[i].size, x))
              && |a.classes[i].free| + |a.classes[i].live| == multiset(a.owner)[i] * (SIZE_SLAB / a.classes[i].size)
  {
  }
}
