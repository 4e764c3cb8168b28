/**
 The wasm instance as the glue sees it: a linear memory whose ArrayBuffer is detached and
 replaced whenever it grows, and the exported allocator.
 */
module WasmMemory {
  import opened Wrappers
  import opened Unicode

  /** A 32-bit address space. */
  const ADDRESS_SPACE := 0x1_0000_0000

  /** No Rust allocation is larger than `isize::MAX`: `Layout` refuses it, and the export traps. */
  const MAX_BLOCK := 0x7FFF_FFFF

  /** `x >>> 0` on an i32 that wasm returned: the same 32 bits, unsigned. */
  function ToUint32(x: int): (r: nat)
    requires -0x8000_0000 <= x < 0x8000_0000
    ensures r < ADDRESS_SPACE
  {
    if x < 0 then x + ADDRESS_SPACE else x
  }

  /** How the engine hands an unsigned address to JavaScript: as an i32. */
  function ToInt32(x: nat): (r: int)
    requires x < ADDRESS_SPACE
    ensures -0x8000_0000 <= r < 0x8000_0000 && ToUint32(r) == x
  {
    if x < 0x8000_0000 then x else x - ADDRESS_SPACE
  }

  class ArrayBuffer {
    const data: array<Byte>
    var detached: bool

    constructor (size: nat)
      ensures fresh(this) && fresh(data) && data.Length == size && !detached
      ensures forall i :: 0 <= i < size ==> data[i] == 0
    {
      data := new Byte[size](_ => 0);
      detached := false;
    }
  }

  /** A Uint8Array: a window on a buffer. */
  datatype View = View(buffer: ArrayBuffer, offset: nat, length: nat)

  /** `byteLength`: zero once the buffer is detached. */
  function ByteLength(v: View): nat
    reads v.buffer
  {
    if v.buffer.detached then 0 else v.length
  }

  /** An argument of `subarray` on a view of length `n`: clamped, and from the end if negative. */
  function RelativeIndex(i: int, n: nat): (k: nat)
    ensures k <= n
  {
    if i < 0 then (if n + i < 0 then 0 else n + i) else Min(i, n)
  }

  /** `view.subarray(from, to)`. */
  function Subarray(v: View, from: int, to: int): View
    reads v.buffer
  {
    var n := ByteLength(v);
    var (start, end) := (RelativeIndex(from, n), RelativeIndex(to, n));
    View(v.buffer, v.offset + start, if start < end then end - start else 0)
  }

  predicate Within(v: View) {
    v.offset + v.length <= v.buffer.data.Length
  }

  /** `view[i] = b`: outside the view, or through a detached buffer, the write is lost. */
  method Store(v: View, i: nat, b: Byte)
    requires Within(v)
    modifies v.buffer.data
    ensures forall k :: 0 <= k < v.buffer.data.Length ==>
      (v.buffer.data[k] == if k == v.offset + i && i < ByteLength(v) then b else old(v.buffer.data[k]))
  {
    if i < ByteLength(v) {
      v.buffer.data[v.offset + i] := b;
    }
  }

  /** `view.set(bs)`: a RangeError, here false, when the bytes do not fit. */
  method SetBytes(v: View, bs: seq<Byte>) returns (ok: bool)
    requires Within(v)
    modifies v.buffer.data
    ensures ok == (|bs| <= ByteLength(v))
    ensures forall k :: 0 <= k < v.buffer.data.Length ==>
      (v.buffer.data[k] == if ok && v.offset <= k < v.offset + |bs| then bs[k - v.offset] else old(v.buffer.data[k]))
  {
    ok := |bs| <= ByteLength(v);
    if ok {
      forall j | 0 <= j < |bs| {
        v.buffer.data[v.offset + j] := bs[j];
      }
    }
  }

  function Min(x: nat, y: nat): nat {
    if x < y then x else y
  }

  predicate Disjoint(p: nat, n: nat, q: nat, m: nat) {
    p + n <= q || q + m <= p
  }

  type Heap = map<nat, seq<Byte>>

  /** The blocks are not empty, fit in a memory of `size` bytes and do not overlap. */
  ghost predicate Laid(blocks: Heap, size: nat) {
    && (forall p :: p in blocks ==> 0 < |blocks[p]| && p + |blocks[p]| <= size)
    && (forall p, q {:trigger Apart(blocks, p, q)} :: p in blocks && q in blocks ==> Apart(blocks, p, q))
  }

  ghost predicate Apart(blocks: Heap, p: nat, q: nat)
    requires p in blocks && q in blocks
  {
    p != q ==> Disjoint(p, |blocks[p]|, q, |blocks[q]|)
  }

  ghost predicate Clear(blocks: Heap, p: nat, n: nat) {
    forall q :: q in blocks ==> Disjoint(p, n, q, |blocks[q]|)
  }

  lemma LaidAdd(blocks: Heap, p: nat, bytes: seq<Byte>, size: nat)
    requires Laid(blocks, size) && Clear(blocks, p, |bytes|) && 0 < |bytes| && p + |bytes| <= size
    ensures p !in blocks && Laid(blocks[p := bytes], size)
  {
    var grown := blocks[p := bytes];
    forall q, r | q in grown && r in grown ensures Apart(grown, q, r) {
      if q != p && r != p {
        assert Apart(blocks, q, r);
      }
    }
  }

  lemma LaidDrop(blocks: Heap, p: nat, size: nat)
    requires Laid(blocks, size)
    ensures Laid(blocks - {p}, size)
  {
    var rest := blocks - {p};
    forall q, r | q in rest && r in rest ensures Apart(rest, q, r) {
      assert Apart(blocks, q, r);
    }
  }

  lemma LaidAgain(blocks: Heap, p: nat, bytes: seq<Byte>, size: nat)
    requires Laid(blocks, size) && p in blocks && |bytes| == |blocks[p]|
    ensures Laid(blocks[p := bytes], size)
  {
    var now := blocks[p := bytes];
    forall q, r | q in now && r in now ensures Apart(now, q, r) {
      assert Apart(blocks, q, r);
    }
  }

  /** The memory holds, block by block, what the owner of the heap thinks it holds. */
  ghost predicate Holds(data: array<Byte>, blocks: Heap)
    reads data
    requires Laid(blocks, data.Length)
  {
    forall p, i :: p in blocks && 0 <= i < |blocks[p]| ==> data[p + i] == blocks[p][i]
  }

  ghost predicate HoldsBeside(data: array<Byte>, blocks: Heap, p: nat)
    reads data
    requires Laid(blocks, data.Length)
  {
    forall q, i :: q in blocks && q != p && 0 <= i < |blocks[q]| ==> data[q + i] == blocks[q][i]
  }

  class Instance {
    var buffer: ArrayBuffer
    var live: map<nat, nat>   // the allocator's table: address to size
    ghost var blocks: Heap    // the allocated blocks and what they hold
    ghost var traps: nat      // how often the allocator has trapped
    ghost var asked: seq<nat> // the sizes it has been asked for

    ghost predicate Valid()
      reads this, buffer, buffer.data
    {
      WellLaid() && Holds(buffer.data, blocks)
    }

    ghost predicate WellLaid()
      reads this, buffer
    {
      && !buffer.detached && buffer.data.Length < ADDRESS_SPACE
      && Laid(blocks, buffer.data.Length)
      && live.Keys == blocks.Keys && (forall p :: p in blocks ==> live[p] == |blocks[p]|)
    }

    constructor (size: nat)
      requires size < ADDRESS_SPACE
      ensures Valid() && blocks == map[] && fresh(buffer) && fresh(buffer.data)
    {
      buffer := new ArrayBuffer(size);
      live, blocks, traps, asked := map[], map[], 0, [];
    }

    /** A block lies inside the memory, which holds its bytes. */
    lemma ReadBlock(p: nat)
      requires Valid() && p in blocks
      ensures p + |blocks[p]| <= buffer.data.Length && buffer.data[p..p + |blocks[p]|] == blocks[p]
    {
    }

    /** `memory.grow`: a longer buffer with the same contents; the old one is detached. */
    method Grow(extra: nat)
      requires Valid() && buffer.data.Length + extra < ADDRESS_SPACE
      modifies this`buffer, buffer
      ensures Valid() && fresh(buffer) && fresh(buffer.data) && old(buffer).detached
    {
      var bigger := new ArrayBuffer(buffer.data.Length + extra);
      forall i | 0 <= i < buffer.data.Length {
        bigger.data[i] := buffer.data[i];
      }
      buffer.detached := true;
      buffer := bigger;
    }

    /** Room for `size` bytes away from every live block: anywhere, growing the memory or not as
        the allocator likes, or nowhere (it traps). */
    method FindRoom(size: nat) returns (p: Option<nat>)
      requires Valid() && size > 0
      modifies this`buffer, buffer
      ensures Valid()
      ensures buffer == old(buffer) || (fresh(buffer) && fresh(buffer.data) && old(buffer).detached)
      ensures p.Some? ==> p.value + size <= buffer.data.Length && Clear(blocks, p.value, size) && size <= MAX_BLOCK
    {
      var extra: nat := *;
      if size > MAX_BLOCK || buffer.data.Length + extra >= ADDRESS_SPACE {
        return None;
      }
      if extra > 0 {
        Grow(extra);
      }
      var at: nat := *;
      if at + size <= buffer.data.Length && forall q :: q in live ==> Disjoint(at, size, q, live[q]) {
        return Some(at);
      }
      return None;
    }

    /** `__wbindgen_malloc(size, 1)`; None is a trap. An empty block gets a dangling address. */
    method Malloc(size: nat) returns (r: Option<int>)
      requires Valid()
      modifies this, buffer
      ensures Valid()
      ensures buffer == old(buffer) || (fresh(buffer) && fresh(buffer.data) && old(buffer).detached)
      ensures traps == if r.None? then old(traps) + 1 else old(traps)
      ensures asked == old(asked) + [size]
      ensures r.None? || size == 0 ==> blocks == old(blocks)
      ensures r.Some? ==> -0x8000_0000 <= r.value < 0x8000_0000 && size <= MAX_BLOCK
      ensures r.Some? && size > 0 ==>
        var p := ToUint32(r.value);
        p !in old(blocks) && p in blocks && |blocks[p]| == size && blocks == old(blocks)[p := blocks[p]]
    {
      asked := asked + [size];
      if size == 0 {
        return Some(1);
      }
      var p := FindRoom(size);
      if p.None? {
        traps := traps + 1;
        return None;
      }
      Occupy(p.value, size);
      return Some(ToInt32(p.value));
    }

    /** An unused stretch of memory becomes a block with whatever is there. */
    method Occupy(p: nat, size: nat)
      requires Valid() && Clear(blocks, p, size) && 0 < size && p + size <= buffer.data.Length
      modifies this`live, this`blocks
      ensures Valid() && p !in old(blocks) && blocks == old(blocks)[p := buffer.data[p..p + size]]
    {
      LaidAdd(blocks, p, buffer.data[p..p + size], buffer.data.Length);
      live := live[p := size];
      blocks := blocks[p := buffer.data[p..p + size]];
    }

    method Vacate(p: nat)
      requires Valid() && p in blocks
      modifies this`live, this`blocks
      ensures Valid() && blocks == old(blocks) - {p}
    {
      LaidDrop(blocks, p, buffer.data.Length);
      live := live - {p};
      blocks := blocks - {p};
    }

    /** `__wbindgen_realloc(ptr, oldSize, newSize, 1)`: the caller must name the block's true
        size. The bytes common to both sizes move with the block. */
    method Realloc(ptr: nat, oldSize: nat, newSize: nat) returns (r: Option<int>)
      requires Valid() && ptr in blocks && |blocks[ptr]| == oldSize && newSize > 0
      modifies this, buffer, buffer.data
      ensures Valid()
      ensures buffer == old(buffer) || (fresh(buffer) && fresh(buffer.data) && old(buffer).detached)
      ensures traps == if r.None? then old(traps) + 1 else old(traps)
      ensures asked == old(asked) + [newSize]
      ensures r.None? ==> blocks == old(blocks)
      ensures r.Some? ==> -0x8000_0000 <= r.value < 0x8000_0000 && newSize <= MAX_BLOCK
      ensures r.Some? ==>
        var p := ToUint32(r.value);
        && p !in old(blocks) - {ptr} && p in blocks && |blocks[p]| == newSize
        && blocks == (old(blocks) - {ptr})[p := blocks[p]]
        && var n := Min(oldSize, newSize); blocks[p][..n] == old(blocks)[ptr][..n]
    {
      asked := asked + [newSize];
      var p := FindRoom(newSize);
      if p.None? {
        traps := traps + 1;
        return None;
      }
      MoveBlock(ptr, p.value, newSize);
      return Some(ToInt32(p.value));
    }

    method MoveBlock(from: nat, to: nat, size: nat)
      requires Valid() && from in blocks && 0 < size
      requires Clear(blocks, to, size) && to + size <= buffer.data.Length
      modifies this`live, this`blocks, buffer.data
      ensures Valid() && to !in old(blocks) && to in blocks && |blocks[to]| == size
      ensures blocks == (old(blocks) - {from})[to := blocks[to]]
      ensures var n := Min(|old(blocks)[from]|, size); blocks[to][..n] == old(blocks)[from][..n]
    {
      var n := Min(live[from], size);
      CopyBytes(from, to, n);
      assert buffer.data[to..to + size][..n] == blocks[from][..n];
      Vacate(from);
      Occupy(to, size);
    }

    /** The glue has written into block `p` through a view: the owner takes note. */
    ghost method Written(p: nat)
      requires WellLaid() && p in blocks && HoldsBeside(buffer.data, blocks, p)
      modifies this`blocks
      ensures Valid() && blocks == old(blocks)[p := buffer.data[p..p + |old(blocks)[p]|]]
    {
      ghost var bytes := buffer.data[p..p + |blocks[p]|];
      LaidAgain(blocks, p, bytes, buffer.data.Length);
      blocks := blocks[p := bytes];
      assert Holds(buffer.data, blocks);
    }

    /** Copies a block's first bytes into an unused stretch of memory. */
    method CopyBytes(from: nat, to: nat, n: nat)
      requires Valid() && Clear(blocks, to, n) && to + n <= buffer.data.Length
      requires from in blocks && n <= |blocks[from]|
      modifies buffer.data
      ensures Valid() && forall i :: 0 <= i < n ==> buffer.data[to + i] == blocks[from][i]
    {
      forall i | 0 <= i < n {
        buffer.data[to + i] := buffer.data[from + i];
      }
      forall q, i | q in blocks && 0 <= i < |blocks[q]| ensures buffer.data[q + i] == blocks[q][i] {
        assert Disjoint(to, n, q, |blocks[q]|);
      }
      assert Disjoint(to, n, from, |blocks[from]|);
    }
  }
}
