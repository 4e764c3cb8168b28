/**
 The string half of webrtc/src/wasm/web_rtccam.js: how a JavaScript string is put into wasm
 memory and read back, over a memory that may be replaced under the cached view.
 */
module StringGlue {
  import opened Wrappers
  import opened Unicode
  import opened WasmMemory

  /** No engine makes a string of 2^30 code units or more. */
  const MAX_STRING := 0x3FFF_FFFF

  type JsString = s: seq<CodeUnit> | |s| <= MAX_STRING

  /** How a number reaches an i32 parameter of an export. */
  function ToWasm(n: nat): nat {
    n % ADDRESS_SPACE
  }

  /** What this browser's text encoder offers. */
  datatype Encoder = WithEncodeInto | EncodeOnly | Missing

  datatype Lookup = NotPassed | DecoderThrew | LookedUp(id: seq<CodeUnit>)

  /** What Rust code may ask of the allocator. */
  datatype RustWork = Allocates(size: nat) | Frees(p: nat) | Resizes(p: nat, size: nat)

  datatype Encoded = Encoded(read: nat, written: nat)

  /** `now` is `was` with one more block, of `n` bytes at `p`. */
  ghost predicate Fresh(was: Heap, now: Heap, p: nat, n: nat) {
    p !in was && p in now && |now[p]| == n && now == was[p := now[p]]
  }

  /** The length of the longest ASCII prefix. */
  function AsciiPrefix(s: seq<CodeUnit>): (k: nat)
    ensures k <= |s| && IsAscii(s[..k]) && (k < |s| ==> s[k] > 0x7F)
  {
    if s == [] || s[0] > 0x7F then 0 else 1 + AsciiPrefix(s[1..])
  }

  lemma {:induction false} AsciiPrefixIs(s: seq<CodeUnit>, k: nat)
    requires k <= |s| && IsAscii(s[..k]) && (k < |s| ==> s[k] > 0x7F)
    ensures AsciiPrefix(s) == k
  {
    if k > 0 {
      assert s[..k][0] <= 0x7F && s[1..][..k - 1] == s[..k][1..];
      AsciiPrefixIs(s[1..], k - 1);
    }
  }

  /** The sizes that passing a string asks the allocator for, in order: the encoding's, or one byte a
      unit, then three for every unit from the first non-ASCII one on, then the encoding's. */
  function Sizes(arg: JsString, hasRealloc: bool): seq<nat> {
    var k := AsciiPrefix(arg);
    if !hasRealloc then [|Encode(arg)|]
    else if k == |arg| then [|arg|]
    else [|arg|, k + 3 * (|arg| - k), |Encode(arg)|]
  }

  /** The allocator has been asked for all of these sizes, or `cut` short for the first few. */
  ghost predicate AskedFor(was: seq<nat>, now: seq<nat>, sizes: seq<nat>, cut: bool) {
    if cut then exists j :: 0 <= j <= |sizes| && now == was + sizes[..j] else now == was + sizes
  }

  lemma AskedFirst(was: seq<nat>, now: seq<nat>, sizes: seq<nat>, j: nat)
    requires j <= |sizes| && now == was + sizes[..j]
    ensures AskedFor(was, now, sizes, true) && (j == |sizes| ==> AskedFor(was, now, sizes, false))
  {
    assert sizes[..|sizes|] == sizes;
  }

  lemma AskedOn(was: seq<nat>, now: seq<nat>, sizes: seq<nat>, cut: bool)
    requires sizes != [] && AskedFor(was + [sizes[0]], now, sizes[1..], cut)
    ensures AskedFor(was, now, sizes, cut)
  {
    if cut {
      var j :| 0 <= j <= |sizes[1..]| && now == was + [sizes[0]] + sizes[1..][..j];
      assert now == was + sizes[..j + 1];
    } else {
      assert [sizes[0]] + sizes[1..] == sizes;
    }
  }

  /** What a call of passStringToWasm0 does to the heap and to WASM_VECTOR_LEN. On success the
      heap gains one block that is exactly as long as the encoding and holds it; a thrown
      exception may leak a block but leaves the others, and the length, as they were. */
  ghost predicate Passed(was: Heap, now: Heap, wasLen: nat, nowLen: nat, arg: JsString, r: Option<nat>) {
    match r
    case None => nowLen == wasLen && forall q :: q in was ==> q in now && now[q] == was[q]
    case Some(p) =>
      && p < ADDRESS_SPACE && nowLen == |Encode(arg)| <= MAX_BLOCK
      && (if arg == [] then now == was else p !in was && now == was[p := Encode(arg)])
  }

  lemma BesideBlock(blocks: Heap, p: nat, size: nat)
    requires Laid(blocks, size) && p in blocks
    ensures forall q :: q in blocks && q != p ==> Disjoint(p, |blocks[p]|, q, |blocks[q]|)
  {
    forall q | q in blocks && q != p ensures Disjoint(p, |blocks[p]|, q, |blocks[q]|) {
      assert Apart(blocks, p, q);
    }
  }

  /** A string that is all ASCII: the loop alone has done it. */
  lemma AsciiPhase(was: Heap, made: Heap, now: Heap, p: nat, arg: JsString)
    requires IsAscii(arg) && arg != [] && Fresh(was, made, p, |arg|)
    requires p in now && now == made[p := now[p]] && |now[p]| == |arg| && now[p][..|arg|] == arg[..|arg|]
    ensures |arg| == |Encode(arg)| && p !in was && now == was[p := Encode(arg)]
  {
    EncodeAscii(arg);
    assert now[p][..|arg|] == now[p] && arg[..|arg|] == arg;
  }

  lemma SliceOfSlice<T>(s: seq<T>, a: nat, b: nat, c: nat, d: nat)
    requires a <= b <= |s| && c <= d && a + d <= b
    ensures s[a..b][c..d] == s[a + c..a + d]
  {
    var x, y := s[a..b][c..d], s[a + c..a + d];
    assert |x| == |y| && forall i :: 0 <= i < |x| ==> x[i] == y[i];
  }

  /** What is written inside one block leaves the others as they were. */
  lemma BesideKept(blocks: Heap, p: nat, was: seq<Byte>, now: seq<Byte>)
    requires |now| == |was| && Laid(blocks, |was|) && p in blocks
    requires forall q, i :: q in blocks && 0 <= i < |blocks[q]| ==> was[q + i] == blocks[q][i]
    requires forall k :: 0 <= k < |was| && !(p <= k < p + |blocks[p]|) ==> now[k] == was[k]
    ensures forall q, i :: q in blocks && q != p && 0 <= i < |blocks[q]| ==> now[q + i] == blocks[q][i]
  {
    BesideBlock(blocks, p, |was|);
  }

  /** A block after `bytes` have been written into it at `offset`. */
  lemma FilledPart(was: seq<Byte>, all: seq<Byte>, p: nat, offset: nat, bytes: seq<Byte>)
    requires p + |was| <= |all| && offset + |bytes| <= |was|
    requires all[p + offset..p + offset + |bytes|] == bytes
    requires forall i :: 0 <= i < offset ==> all[p + i] == was[i]
    ensures all[p..p + |was|][..offset] == was[..offset]
    ensures all[p..p + |was|][offset..offset + |bytes|] == bytes
  {
    SliceOfSlice(all, p, p + |was|, offset, offset + |bytes|);
  }

  lemma PrefixKept(block: seq<Byte>, was: seq<Byte>, now: seq<Byte>, p: nat, offset: nat)
    requires p + |block| <= |was| == |now| && offset <= |block| && was[p..p + |block|] == block
    requires forall k :: 0 <= k < p + offset ==> now[k] == was[k]
    ensures forall i :: 0 <= i < offset ==> now[p + i] == block[i]
  {
    forall i | 0 <= i < offset ensures now[p + i] == block[i] {
      assert was[p + i] == was[p..p + |block|][i];
    }
  }

  lemma FilledBlock(was: Heap, made: Heap, p: nat, buf: seq<Byte>)
    requires Fresh(was, made, p, |buf|)
    ensures made[p := buf] == was[p := buf]
  {
  }

  /** The ASCII prefix and the encoding of the rest make the encoding of the whole. */
  lemma TwoPhases(whole: JsString, k: nat, block: seq<Byte>)
    requires k < |whole| && IsAscii(whole[..k]) && |block| >= k + |Encode(whole[k..])|
    requires block[..k] == whole[..k]
    requires block[k..k + |Encode(whole[k..])|] == Encode(whole[k..])
    ensures k + |Encode(whole[k..])| == |Encode(whole)|
    ensures block[..|Encode(whole)|] == Encode(whole)
  {
    assert k > 0 ==> whole[k - 1] == whole[..k][k - 1];
    EncodeSplits(whole, k);
    EncodeAscii(whole[..k]);
    var n := |Encode(whole[k..])|;
    assert block[..k + n] == block[..k] + block[k..k + n];
  }

  lemma FreshDropped(was: Heap, now: Heap, p: nat, n: nat)
    requires Fresh(was, now, p, n)
    ensures now - {p} == was
  {
  }

  lemma WrittenDropped(was: Heap, made: Heap, now: Heap, p: nat, n: nat)
    requires Fresh(was, made, p, n) && p in now && now == made[p := now[p]]
    ensures now - {p} == was
  {
  }

  /** Moving the one extra block, already filled, to a block of its final size. */
  lemma ShrunkBlock(others: Heap, full: Heap, now: Heap, p: nat, q: nat, bytes: seq<Byte>)
    requires p !in others && p in full && full == others[p := full[p]]
    requires Fresh(full - {p}, now, q, |bytes|)
    requires |bytes| <= |full[p]| && full[p][..|bytes|] == bytes && now[q][..|bytes|] == full[p][..|bytes|]
    ensures q !in others && now == others[q := bytes]
  {
    assert now[q] == now[q][..|bytes|];
    assert full - {p} == others;
  }

  class Glue {
    const wasm: Instance
    const encoder: Encoder
    const hasDecoder: bool
    var cached: Option<View>  // cachedUint8ArrayMemory0
    var vectorLen: nat        // WASM_VECTOR_LEN

    /** The cached view is of the current memory, or can be seen to be dead. */
    ghost predicate CacheOk()
      reads this`cached, wasm, if cached.Some? then {cached.value.buffer} else {}
    {
      cached.Some? ==>
        || cached.value == View(wasm.buffer, 0, wasm.buffer.data.Length)
        || (cached.value.buffer != wasm.buffer && cached.value.buffer.detached)
    }

    ghost predicate Valid()
      reads this`cached, wasm, wasm.buffer, wasm.buffer.data, if cached.Some? then {cached.value.buffer} else {}
    {
      wasm.Valid() && CacheOk()
    }

    constructor (wasm: Instance, encoder: Encoder, hasDecoder: bool)
      requires wasm.Valid()
      ensures Valid() && this.wasm == wasm && this.encoder == encoder && this.hasDecoder == hasDecoder
      ensures cached == None && vectorLen == 0
    {
      this.wasm, this.encoder, this.hasDecoder := wasm, encoder, hasDecoder;
      cached, vectorLen := None, 0;
    }

    /** getUint8ArrayMemory0 */
    method MemoryView() returns (v: View)
      requires !wasm.buffer.detached && CacheOk()
      modifies this`cached
      ensures v == View(wasm.buffer, 0, wasm.buffer.data.Length)
      ensures cached == Some(v)
    {
      if cached.None? || ByteLength(cached.value) == 0 {
        cached := Some(View(wasm.buffer, 0, wasm.buffer.data.Length));
      }
      v := cached.value;
    }

    /** encodeString: None stands for an exception. */
    method EncodeString(arg: seq<CodeUnit>, view: View) returns (r: Option<Encoded>)
      requires Within(view) && !view.buffer.detached
      modifies view.buffer.data
      ensures r.None? <==> encoder == Missing || (encoder == EncodeOnly && |Encode(arg)| > view.length)
      ensures r.Some? && encoder == EncodeOnly ==> r.value.read == |arg|
      ensures r.Some? && |Encode(arg)| <= view.length ==> r.value == Encoded(|arg|, |Encode(arg)|)
      ensures r.Some? && |Encode(arg)| <= view.length ==>
        view.buffer.data[view.offset..view.offset + |Encode(arg)|] == Encode(arg)
      ensures forall k :: 0 <= k < view.buffer.data.Length && !(view.offset <= k < view.offset + view.length) ==>
        view.buffer.data[k] == old(view.buffer.data[k])
    {
      match encoder
      case Missing => return None;
      case EncodeOnly =>
        var bs := Encode(arg);
        var fits := SetBytes(view, bs);
        if !fits {
          return None;
        }
        return Some(Encoded(|arg|, |bs|));
      case WithEncodeInto =>
        var into := EncodeInto(arg, view.length);
        EncodeIntoStaysInside(arg, view.length);
        if |Encode(arg)| <= view.length {
          EncodeIntoTakesAll(arg, view.length);
        }
        var _ := SetBytes(view, into.written);
        return Some(Encoded(into.read, |into.written|));
    }

    /** malloc(n, 1) >>> 0 */
    method Alloc(n: nat) returns (r: Option<nat>)
      requires Valid() && n < ADDRESS_SPACE
      modifies wasm, wasm.buffer
      ensures Valid()
      ensures wasm.buffer == old(wasm.buffer) || (fresh(wasm.buffer) && fresh(wasm.buffer.data))
      ensures wasm.traps == if r.None? then old(wasm.traps) + 1 else old(wasm.traps)
      ensures wasm.asked == old(wasm.asked) + [n]
      ensures r.None? || n == 0 ==> wasm.blocks == old(wasm.blocks)
      ensures r.Some? ==> r.value < ADDRESS_SPACE && n <= MAX_BLOCK
      ensures r.Some? && n > 0 ==> Fresh(old(wasm.blocks), wasm.blocks, r.value, n)
    {
      var m := wasm.Malloc(ToWasm(n));
      return if m.None? then None else Some(ToUint32(m.value));
    }

    /** realloc(ptr, oldLen, newLen, 1) >>> 0 */
    method Resize(ptr: nat, oldLen: nat, newLen: nat) returns (r: Option<nat>)
      requires Valid() && ptr in wasm.blocks && |wasm.blocks[ptr]| == oldLen
      requires oldLen < ADDRESS_SPACE && 0 < newLen < ADDRESS_SPACE
      modifies wasm, wasm.buffer, wasm.buffer.data
      ensures Valid()
      ensures wasm.buffer == old(wasm.buffer) || (fresh(wasm.buffer) && fresh(wasm.buffer.data))
      ensures wasm.traps == if r.None? then old(wasm.traps) + 1 else old(wasm.traps)
      ensures wasm.asked == old(wasm.asked) + [newLen]
      ensures r.None? ==> wasm.blocks == old(wasm.blocks)
      ensures r.Some? ==>
        && r.value < ADDRESS_SPACE && newLen <= MAX_BLOCK
        && Fresh(old(wasm.blocks) - {ptr}, wasm.blocks, r.value, newLen)
        && var n := Min(oldLen, newLen); wasm.blocks[r.value][..n] == old(wasm.blocks)[ptr][..n]
    {
      var m := wasm.Realloc(ptr, ToWasm(oldLen), ToWasm(newLen));
      return if m.None? then None else Some(ToUint32(m.value));
    }

    /** Copies the whole encoding into the block made for it. */
    method SetBlock(ptr: nat, buf: seq<Byte>)
      requires Valid() && (buf != [] ==> ptr in wasm.blocks && |wasm.blocks[ptr]| == |buf|)
      modifies this`cached, wasm`blocks, wasm.buffer.data
      ensures Valid()
      ensures wasm.blocks == if buf == [] then old(wasm.blocks) else old(wasm.blocks)[ptr := buf]
    {
      var mem := MemoryView();
      var view := Subarray(mem, ptr, ptr + |buf|);
      var fits := SetBytes(view, buf);
      if buf != [] {
        BesideBlock(wasm.blocks, ptr, wasm.buffer.data.Length);
        wasm.Written(ptr);
        assert wasm.blocks[ptr] == buf;
      }
    }

    /** The path of a caller without a realloc export. */
    method PassWhole(arg: JsString) returns (r: Option<nat>)
      requires Valid()
      modifies this`cached, this`vectorLen, wasm, wasm.buffer, wasm.buffer.data
      ensures wasm.buffer == old(wasm.buffer) || (fresh(wasm.buffer) && fresh(wasm.buffer.data))
      ensures wasm.traps == old(wasm.traps) ==> (r.None? <==> encoder == Missing)
      ensures AskedFor(old(wasm.asked), wasm.asked, Sizes(arg, false), r.None?)
      ensures Valid() && Passed(old(wasm.blocks), wasm.blocks, old(vectorLen), vectorLen, arg, r)
    {
      if encoder == Missing {
        AskedFirst(old(wasm.asked), wasm.asked, Sizes(arg, false), 0);
        return None;
      }
      EncodeFits(arg);
      var buf := Encode(arg);
      r := Alloc(|buf|);
      AskedFirst(old(wasm.asked), wasm.asked, Sizes(arg, false), 1);
      if r.None? {
        return;
      }
      if buf != [] {
        FilledBlock(old(wasm.blocks), wasm.blocks, r.value, buf);
      }
      SetBlock(r.value, buf);
      vectorLen := |buf|;
    }

    /** The loop of passStringToWasm0: stores the code units up to the first non-ASCII one. */
    method WriteAscii(arg: JsString, ptr: nat) returns (offset: nat)
      requires Valid() && (arg != [] ==> ptr in wasm.blocks && |wasm.blocks[ptr]| == |arg|)
      modifies this`cached, wasm`blocks, wasm.buffer.data
      ensures Valid()
      ensures offset <= |arg| && IsAscii(arg[..offset]) && (offset < |arg| ==> arg[offset] > 0x7F)
      ensures arg == [] ==> wasm.blocks == old(wasm.blocks)
      ensures arg != [] ==>
        && ptr in wasm.blocks && wasm.blocks == old(wasm.blocks)[ptr := wasm.blocks[ptr]]
        && |wasm.blocks[ptr]| == |arg| && wasm.blocks[ptr][..offset] == arg[..offset]
    {
      var mem := MemoryView();
      offset := 0;
      while offset < |arg|
        invariant offset <= |arg| && IsAscii(arg[..offset])
        invariant wasm.blocks == old(wasm.blocks) && cached == Some(mem)
        invariant arg != [] ==> HoldsBeside(wasm.buffer.data, wasm.blocks, ptr)
        invariant arg == [] ==> Holds(wasm.buffer.data, wasm.blocks)
        invariant forall i :: 0 <= i < offset ==> wasm.buffer.data[ptr + i] == arg[i]
      {
        var code := arg[offset];
        if code > 0x7F {
          break;
        }
        assert arg[..offset + 1] == arg[..offset] + [code];
        BesideBlock(wasm.blocks, ptr, wasm.buffer.data.Length);
        Store(mem, ptr + offset, code);
        offset := offset + 1;
      }
      if arg != [] {
        wasm.Written(ptr);
      }
    }

    /** Encodes `arg` into the memory between `from` and `to`. */
    method EncodeBetween(arg: seq<CodeUnit>, from: nat, to: nat) returns (r: Option<Encoded>)
      requires !wasm.buffer.detached && CacheOk()
      requires from + |Encode(arg)| <= to <= wasm.buffer.data.Length
      modifies this`cached, wasm.buffer.data
      ensures CacheOk()
      ensures r == if encoder == Missing then None else Some(Encoded(|arg|, |Encode(arg)|))
      ensures r.Some? ==> wasm.buffer.data[..][from..from + |Encode(arg)|] == Encode(arg)
      ensures forall k :: 0 <= k < wasm.buffer.data.Length && !(from <= k < to) ==>
        wasm.buffer.data[..][k] == old(wasm.buffer.data[..])[k]
    {
      var mem := MemoryView();
      var view := Subarray(mem, from, to);
      assert view == View(wasm.buffer, from, to - from);
      r := EncodeString(arg, view);
    }

    /** Writes the encoding of `arg` into the memory, from `offset` of block `ptr` on. */
    method FillAt(arg: seq<CodeUnit>, ptr: nat, offset: nat, len: nat) returns (r: Option<Encoded>)
      requires Valid() && ptr in wasm.blocks && |wasm.blocks[ptr]| == len
      requires offset + |Encode(arg)| <= len
      modifies this`cached, wasm.buffer.data
      ensures wasm.WellLaid() && CacheOk() && HoldsBeside(wasm.buffer.data, wasm.blocks, ptr)
      ensures r == if encoder == Missing then None else Some(Encoded(|arg|, |Encode(arg)|))
      ensures wasm.buffer.data[..][ptr..ptr + len][..offset] == wasm.blocks[ptr][..offset]
      ensures r.Some? ==> wasm.buffer.data[..][ptr..ptr + len][offset..offset + |Encode(arg)|] == Encode(arg)
    {
      wasm.ReadBlock(ptr);
      ghost var before := wasm.buffer.data[..];
      r := EncodeBetween(arg, ptr + offset, ptr + len);
      ghost var after := wasm.buffer.data[..];
      BesideKept(wasm.blocks, ptr, before, after);
      PrefixKept(wasm.blocks[ptr], before, after, ptr, offset);
      FilledPart(wasm.blocks[ptr], after, ptr, offset, []);
      if r.Some? {
        FilledPart(wasm.blocks[ptr], after, ptr, offset, Encode(arg));
      }
    }

    /** Encodes `arg` into the part of block `ptr` that starts at `offset`. */
    method EncodeAt(arg: seq<CodeUnit>, ptr: nat, offset: nat, len: nat) returns (r: Option<Encoded>)
      requires Valid() && ptr in wasm.blocks && |wasm.blocks[ptr]| == len
      requires offset + |Encode(arg)| <= len
      modifies this`cached, wasm`blocks, wasm.buffer.data
      ensures Valid() && ptr in wasm.blocks && wasm.blocks == old(wasm.blocks)[ptr := wasm.blocks[ptr]]
      ensures |wasm.blocks[ptr]| == len && wasm.blocks[ptr][..offset] == old(wasm.blocks)[ptr][..offset]
      ensures r.None? <==> encoder == Missing
      ensures r.Some? ==> r.value == Encoded(|arg|, |Encode(arg)|)
      ensures r.Some? ==> wasm.blocks[ptr][offset..offset + |Encode(arg)|] == Encode(arg)
    {
      r := FillAt(arg, ptr, offset, len);
      wasm.Written(ptr);
      assert wasm.blocks[ptr] == wasm.buffer.data[..][ptr..ptr + len];
    }

    /** Grows the block and encodes `arg` behind the `offset` bytes already in it. */
    method GrowAndEncode(arg: seq<CodeUnit>, ptr: nat, offset: nat, oldLen: nat, len: nat)
        returns (p: Option<nat>, r: Option<Encoded>)
      requires Valid() && ptr in wasm.blocks && |wasm.blocks[ptr]| == oldLen
      requires offset <= oldLen <= len == offset + |arg| * 3 && 0 < len < ADDRESS_SPACE
      modifies this`cached, wasm, wasm.buffer, wasm.buffer.data
      ensures Valid() && (wasm.buffer == old(wasm.buffer) || (fresh(wasm.buffer) && fresh(wasm.buffer.data)))
      ensures r.None? <==> p.None? || encoder == Missing
      ensures wasm.traps == if p.None? then old(wasm.traps) + 1 else old(wasm.traps)
      ensures wasm.asked == old(wasm.asked) + [len]
      ensures forall q :: q in old(wasm.blocks) - {ptr} ==> q in wasm.blocks && wasm.blocks[q] == old(wasm.blocks)[q]
      ensures r.Some? ==>
        && p.Some? && Fresh(old(wasm.blocks) - {ptr}, wasm.blocks, p.value, len)
        && r.value == Encoded(|arg|, |Encode(arg)|) && offset + |Encode(arg)| <= len
        && wasm.blocks[p.value][..offset] == old(wasm.blocks)[ptr][..offset]
        && wasm.blocks[p.value][offset..offset + |Encode(arg)|] == Encode(arg)
    {
      EncodeFits(arg);
      r := None;
      p := Resize(ptr, oldLen, len);
      if p.Some? {
        assert wasm.blocks[p.value][..oldLen][..offset] == wasm.blocks[p.value][..offset];
        assert old(wasm.blocks)[ptr][..oldLen][..offset] == old(wasm.blocks)[ptr][..offset];
        r := EncodeAt(arg, p.value, offset, len);
      }
    }

    /** Shrinks the block at `ptr`, which starts with the encoding of `whole`, to just that. */
    method Shrink(ghost whole: JsString, ptr: nat, len: nat, offset: nat) returns (r: Option<nat>)
      requires Valid() && whole != [] && ptr in wasm.blocks && |wasm.blocks[ptr]| == len < ADDRESS_SPACE
      requires 0 < offset == |Encode(whole)| <= len && wasm.blocks[ptr][..offset] == Encode(whole)
      modifies this`cached, this`vectorLen, wasm, wasm.buffer, wasm.buffer.data
      ensures wasm.buffer == old(wasm.buffer) || (fresh(wasm.buffer) && fresh(wasm.buffer.data))
      ensures wasm.traps == if r.None? then old(wasm.traps) + 1 else old(wasm.traps)
      ensures wasm.asked == old(wasm.asked) + [offset]
      ensures Valid() && Passed(old(wasm.blocks) - {ptr}, wasm.blocks, old(vectorLen), vectorLen, whole, r)
    {
      ghost var full := wasm.blocks;
      r := Resize(ptr, len, offset);
      if r.Some? {
        ShrunkBlock(full - {ptr}, full, wasm.blocks, ptr, r.value, Encode(whole));
        vectorLen := offset;
      }
    }

    /** The rest of passStringToWasm0, from the first non-ASCII code unit: grow, encode, shrink. */
    method PassRest(whole: JsString, ptr0: nat, offset0: nat) returns (r: Option<nat>)
      requires Valid() && offset0 < |whole| && whole[offset0] > 0x7F && IsAscii(whole[..offset0])
      requires ptr0 in wasm.blocks && |wasm.blocks[ptr0]| == |whole|
      requires wasm.blocks[ptr0][..offset0] == whole[..offset0]
      modifies this`cached, this`vectorLen, wasm, wasm.buffer, wasm.buffer.data
      ensures wasm.buffer == old(wasm.buffer) || (fresh(wasm.buffer) && fresh(wasm.buffer.data))
      ensures wasm.traps == old(wasm.traps) ==> (r.None? <==> encoder == Missing)
      ensures AskedFor(old(wasm.asked), wasm.asked, [offset0 + 3 * (|whole| - offset0), |Encode(whole)|], r.None?)
      ensures Valid() && Passed(old(wasm.blocks) - {ptr0}, wasm.blocks, old(vectorLen), vectorLen, whole, r)
    {
      var ptr, offset, arg, len := ptr0, offset0, whole, |whole|;
      if offset != 0 {
        arg := arg[offset..];
      }
      // Arguments are evaluated left to right: the old `len` is passed before it is reassigned.
      var oldLen := len;
      len := offset + |arg| * 3;
      var ret;
      r, ret := GrowAndEncode(arg, ptr, offset, oldLen, len);
      if ret.None? {
        AskedFirst(old(wasm.asked), wasm.asked, [len, |Encode(whole)|], 1);
        return None;
      }
      ptr := r.value;
      offset := offset + ret.value.written;
      TwoPhases(whole, offset0, wasm.blocks[ptr]);
      FreshDropped(old(wasm.blocks) - {ptr0}, wasm.blocks, ptr, len);
      EncodeFits(whole);
      r := Shrink(whole, ptr, len, offset);
      AskedFirst(old(wasm.asked), wasm.asked, [len, offset], 2);
    }

    /** The loop, and what comes after it, on the block just made for `arg`. */
    method PassInto(arg: JsString, ptr: nat, ghost others: Heap) returns (r: Option<nat>)
      requires Valid() && ptr < ADDRESS_SPACE && |arg| <= MAX_BLOCK
      requires if arg == [] then wasm.blocks == others else Fresh(others, wasm.blocks, ptr, |arg|)
      modifies this`cached, this`vectorLen, wasm, wasm.buffer, wasm.buffer.data
      ensures wasm.buffer == old(wasm.buffer) || (fresh(wasm.buffer) && fresh(wasm.buffer.data))
      ensures wasm.traps == old(wasm.traps) ==> (r.None? <==> encoder == Missing && !IsAscii(arg))
      ensures AskedFor(old(wasm.asked), wasm.asked, Sizes(arg, true)[1..], r.None?)
      ensures Valid() && Passed(others, wasm.blocks, old(vectorLen), vectorLen, arg, r)
    {
      ghost var made := wasm.blocks;
      var offset := WriteAscii(arg, ptr);
      AsciiPrefixIs(arg, offset);
      if offset != |arg| {
        WrittenDropped(others, made, wasm.blocks, ptr, |arg|);
        assert Sizes(arg, true)[1..] == [offset + 3 * (|arg| - offset), |Encode(arg)|];
        r := PassRest(arg, ptr, offset);
        return;
      }
      if arg != [] {
        assert arg[..|arg|] == arg;
        AsciiPhase(others, made, wasm.blocks, ptr, arg);
      }
      vectorLen := offset;
      r := Some(ptr);
    }

    /** The path of a caller with a realloc export. */
    method PassTwoPhase(arg: JsString) returns (r: Option<nat>)
      requires Valid()
      modifies this`cached, this`vectorLen, wasm, wasm.buffer, wasm.buffer.data
      ensures wasm.buffer == old(wasm.buffer) || (fresh(wasm.buffer) && fresh(wasm.buffer.data))
      ensures wasm.traps == old(wasm.traps) ==> (r.None? <==> encoder == Missing && !IsAscii(arg))
      ensures AskedFor(old(wasm.asked), wasm.asked, Sizes(arg, true), r.None?)
      ensures Valid() && Passed(old(wasm.blocks), wasm.blocks, old(vectorLen), vectorLen, arg, r)
    {
      r := Alloc(|arg|);
      if r.None? {
        AskedFirst(old(wasm.asked), wasm.asked, Sizes(arg, true), 1);
        return;
      }
      r := PassInto(arg, r.value, old(wasm.blocks));
      AskedOn(old(wasm.asked), wasm.asked, Sizes(arg, true), r.None?);
    }

    /** passStringToWasm0. None stands for an exception: a trap in the allocator, or a browser
        without TextEncoder. */
    method PassString(arg: JsString, hasRealloc: bool) returns (r: Option<nat>)
      requires Valid()
      modifies this`cached, this`vectorLen, wasm, wasm.buffer, wasm.buffer.data
      ensures wasm.buffer == old(wasm.buffer) || (fresh(wasm.buffer) && fresh(wasm.buffer.data))
      ensures wasm.traps == old(wasm.traps) ==> (r.None? <==> encoder == Missing && (!hasRealloc || !IsAscii(arg)))
      ensures AskedFor(old(wasm.asked), wasm.asked, Sizes(arg, hasRealloc), r.None?)
      ensures Valid() && Passed(old(wasm.blocks), wasm.blocks, old(vectorLen), vectorLen, arg, r)
      ensures r.Some? && arg != [] ==>
        r.value + vectorLen <= wasm.buffer.data.Length && wasm.buffer.data[r.value..r.value + vectorLen] == Encode(arg)
    {
      if !hasRealloc {
        r := PassWhole(arg);
      } else {
        r := PassTwoPhase(arg);
      }
      if r.Some? && arg != [] {
        wasm.ReadBlock(r.value);
      }
    }

    /** getStringFromWasm0; None stands for an exception. Both arguments arrive as i32, and only the
        pointer is made unsigned: a negative length would count from the end of the memory. */
    method GetString(ptr: int, len: int) returns (r: Option<seq<CodeUnit>>)
      requires Valid() && -0x8000_0000 <= ptr < 0x8000_0000 && -0x8000_0000 <= len < 0x8000_0000
      modifies this`cached
      ensures Valid()
      ensures
        var (n, p) := (wasm.buffer.data.Length, ToUint32(ptr));
        var (lo, hi) := (RelativeIndex(p, n), RelativeIndex(p + len, n));
        r == if hasDecoder then Decode(if lo < hi then wasm.buffer.data[lo..hi] else [], true) else None
    {
      var p := ToUint32(ptr);
      var mem := MemoryView();
      var view := Subarray(mem, p, p + len);
      if !hasDecoder {
        return None;
      }
      return Decode(view.buffer.data[view.offset..view.offset + view.length], true);
    }

    /** Rust code on the other side allocates, and so moves the memory, and frees and resizes blocks
        of its own as it pleases; only the block it was passed it keeps while it borrows the string. */
    method RustRuns(works: seq<RustWork>, borrowed: Option<nat>)
      requires Valid() && (borrowed.Some? ==> borrowed.value in wasm.blocks)
      modifies wasm, wasm.buffer, wasm.buffer.data
      ensures Valid()
      ensures borrowed.Some? ==>
        borrowed.value in wasm.blocks && wasm.blocks[borrowed.value] == old(wasm.blocks)[borrowed.value]
    {
      for i := 0 to |works|
        invariant Valid() && (wasm.buffer == old(wasm.buffer) || (fresh(wasm.buffer) && fresh(wasm.buffer.data)))
        invariant borrowed.Some? ==>
          borrowed.value in wasm.blocks && wasm.blocks[borrowed.value] == old(wasm.blocks)[borrowed.value]
      {
        RustDoes(works[i], borrowed);
      }
    }

    /** One request to the allocator. */
    method RustDoes(work: RustWork, borrowed: Option<nat>)
      requires Valid() && (borrowed.Some? ==> borrowed.value in wasm.blocks)
      modifies wasm, wasm.buffer, wasm.buffer.data
      ensures Valid() && (wasm.buffer == old(wasm.buffer) || (fresh(wasm.buffer) && fresh(wasm.buffer.data)))
      ensures borrowed.Some? ==>
        borrowed.value in wasm.blocks && wasm.blocks[borrowed.value] == old(wasm.blocks)[borrowed.value]
    {
      match work
      case Allocates(size) =>
        var _ := wasm.Malloc(size);
      case Frees(p) =>
        if p in wasm.live && borrowed != Some(p) {
          wasm.Vacate(p);
        }
      case Resizes(p, size) =>
        if p in wasm.live && borrowed != Some(p) && size > 0 {
          var _ := wasm.Realloc(p, wasm.live[p], size);
        }
    }

    /** The clamped slice at a block is the block. */
    lemma ReadBack(p: nat, s: JsString)
      requires Valid() && (s != [] ==> p in wasm.blocks && wasm.blocks[p] == Encode(s))
      ensures var n := wasm.buffer.data.Length;
        var (lo, hi) := (RelativeIndex(p, n), RelativeIndex(p + |Encode(s)|, n));
        (if lo < hi then wasm.buffer.data[lo..hi] else []) == Encode(s)
    {
      if s != [] {
        wasm.ReadBlock(p);
      }
    }

    /** The getElementById import, for a string that was passed in. It gets pointer and length back as
        i32; a block is small enough for its length to stay positive. */
    method LookUp(ptr: nat, len: nat, ghost passed: JsString) returns (r: Lookup)
      requires Valid() && ptr < ADDRESS_SPACE && len == |Encode(passed)| <= MAX_BLOCK
      requires passed != [] ==> ptr in wasm.blocks && wasm.blocks[ptr] == Encode(passed)
      modifies this`cached
      ensures Valid()
      ensures r == if hasDecoder then LookedUp(Repaired(passed)) else DecoderThrew
    {
      ReadBack(ptr, passed);
      DecodeEncode(passed);
      var id := GetString(ToInt32(ptr), ToInt32(len));
      r := match id case None => DecoderThrew case Some(s) => LookedUp(s);
    }

    /** start_camera up to the moment its Rust body looks the element up: the id is passed in,
        Rust works on the heap as it pleases, and the getElementById import reads the id back. */
    method StartCamera(videoId: JsString, rustWorks: seq<RustWork>) returns (r: Lookup)
      requires Valid()
      modifies this`cached, this`vectorLen, wasm, wasm.buffer, wasm.buffer.data
      ensures Valid()
      ensures r == NotPassed && wasm.traps == old(wasm.traps) ==> encoder == Missing && !IsAscii(videoId)
      ensures r == NotPassed ==> AskedFor(old(wasm.asked), wasm.asked, Sizes(videoId, true), true)
      ensures r == NotPassed || r == if hasDecoder then LookedUp(Repaired(videoId)) else DecoderThrew
      ensures IsWellFormed(videoId) && r.LookedUp? ==> r.id == videoId
    {
      var p := PassString(videoId, true);
      if p.None? {
        return NotPassed;
      }
      var ptr, len := p.value, vectorLen;
      RustRuns(rustWorks, if videoId == [] then None else Some(ptr));
      r := LookUp(ptr, len, videoId);
      if IsWellFormed(videoId) {
        WellFormedStringIsUnchanged(videoId);
      }
    }
  }
}
