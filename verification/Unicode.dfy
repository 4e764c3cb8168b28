/**
 The two text encodings that meet in the wasm glue: UTF-16 strings on the JavaScript side
 (section 2 of RFC 2781) and UTF-8 bytes on the wasm side (section 3 of RFC 3629), with the
 TextEncoder and TextDecoder of sections 7 and 8 of the WHATWG Encoding Standard between them.
 */
module Unicode {
  import opened Wrappers

  type CodeUnit = u: int | 0 <= u < 0x1_0000
  type Byte = b: int | 0 <= b < 0x100
  type Scalar = v: int | 0 <= v < 0xD800 || 0xE000 <= v < 0x11_0000

  const REPLACEMENT: Scalar := 0xFFFD

  predicate IsLead(u: CodeUnit) { 0xD800 <= u <= 0xDBFF }
  predicate IsTrail(u: CodeUnit) { 0xDC00 <= u <= 0xDFFF }
  predicate IsAscii(s: seq<CodeUnit>) { forall i :: 0 <= i < |s| ==> s[i] <= 0x7F }

  // ----- UTF-16 ------------------------------------------------------------------------

  predicate StartsWithPair(s: seq<CodeUnit>) {
    |s| >= 2 && IsLead(s[0]) && IsTrail(s[1])
  }

  function Combine(lead: CodeUnit, trail: CodeUnit): (v: Scalar)
    requires IsLead(lead) && IsTrail(trail)
    ensures v >= 0x1_0000
  {
    0x1_0000 + (lead - 0xD800) * 0x400 + (trail - 0xDC00)
  }

  /** How many code units the first scalar of `s` takes. */
  function HeadWidth(s: seq<CodeUnit>): (w: nat)
    requires s != []
    ensures 1 <= w <= 2 && w <= |s|
  {
    if StartsWithPair(s) then 2 else 1
  }

  function HeadScalar(s: seq<CodeUnit>): Scalar
    requires s != []
  {
    if StartsWithPair(s) then Combine(s[0], s[1])
    else if IsLead(s[0]) || IsTrail(s[0]) then REPLACEMENT
    else s[0]
  }

  /** The scalar values of a JavaScript string; a lone surrogate reads as U+FFFD. */
  function Scalars(s: seq<CodeUnit>): seq<Scalar> {
    if s == [] then [] else [HeadScalar(s)] + Scalars(s[HeadWidth(s)..])
  }

  function UnitsOf(v: Scalar): seq<CodeUnit> {
    if v < 0x1_0000 then [v]
    else [0xD800 + (v - 0x1_0000) / 0x400, 0xDC00 + (v - 0x1_0000) % 0x400]
  }

  function Utf16(vs: seq<Scalar>): seq<CodeUnit> {
    if vs == [] then [] else UnitsOf(vs[0]) + Utf16(vs[1..])
  }

  /** A surrogate with no partner, said by position and without reading the string in order. */
  predicate IsLone(s: seq<CodeUnit>, i: nat)
    requires i < |s|
  {
    || (IsLead(s[i]) && !(i + 1 < |s| && IsTrail(s[i + 1])))
    || (IsTrail(s[i]) && !(i > 0 && IsLead(s[i - 1])))
  }

  predicate IsWellFormed(s: seq<CodeUnit>) {
    forall i :: 0 <= i < |s| ==> !IsLone(s, i)
  }

  /** The string with every lone surrogate, and nothing else, replaced by U+FFFD. */
  function Repaired(s: seq<CodeUnit>): seq<CodeUnit> {
    seq(|s|, i requires 0 <= i < |s| => if IsLone(s, i) then REPLACEMENT as CodeUnit else s[i])
  }

  lemma LoneInSuffix(s: seq<CodeUnit>, w: nat, i: nat)
    requires w <= i < |s| && (i == w > 0 && IsTrail(s[w]) ==> !IsLead(s[w - 1]))
    ensures IsLone(s, i) == IsLone(s[w..], i - w)
  {
  }

  lemma RepairedUnfolds(s: seq<CodeUnit>)
    requires s != []
    ensures |UnitsOf(HeadScalar(s))| == HeadWidth(s)
    ensures Repaired(s) == UnitsOf(HeadScalar(s)) + Repaired(s[HeadWidth(s)..])
  {
    var w := HeadWidth(s);
    var head, rest := UnitsOf(HeadScalar(s)), s[w..];
    forall i | 0 <= i < |s| ensures Repaired(s)[i] == (head + Repaired(rest))[i] {
      if i >= w {
        LoneInSuffix(s, w, i);
      }
    }
  }

  lemma {:induction false} ScalarsReadTheRepairedString(s: seq<CodeUnit>)
    ensures Utf16(Scalars(s)) == Repaired(s)
  {
    if s != [] {
      var rest := s[HeadWidth(s)..];
      ScalarsReadTheRepairedString(rest);
      RepairedUnfolds(s);
      assert Scalars(s)[1..] == Scalars(rest);
    }
  }

  lemma WellFormedStringIsUnchanged(s: seq<CodeUnit>)
    requires IsWellFormed(s)
    ensures Repaired(s) == s
  {
  }

  lemma {:induction false} ScalarsOfUtf16(vs: seq<Scalar>)
    ensures Scalars(Utf16(vs)) == vs
  {
    if vs != [] {
      var s := Utf16(vs);
      ScalarsOfUtf16(vs[1..]);
      Utf16StartsWithNoTrail(vs[1..]);
      assert s[|UnitsOf(vs[0])|..] == Utf16(vs[1..]);
      assert HeadWidth(s) == |UnitsOf(vs[0])|;
    }
  }

  lemma Utf16StartsWithNoTrail(vs: seq<Scalar>)
    ensures Utf16(vs) != [] ==> !IsTrail(Utf16(vs)[0])
  {
  }

  // ----- UTF-8 encoding ----------------------------------------------------------------

  function EncodeScalar(v: Scalar): (bs: seq<Byte>)
    ensures 1 <= |bs| <= 4
  {
    if v < 0x80 then [v]
    else if v < 0x800 then [0xC0 + v / 0x40, 0x80 + v % 0x40]
    else if v < 0x1_0000 then [0xE0 + v / 0x1000, 0x80 + v / 0x40 % 0x40, 0x80 + v % 0x40]
    else [0xF0 + v / 0x4_0000, 0x80 + v / 0x1000 % 0x40, 0x80 + v / 0x40 % 0x40, 0x80 + v % 0x40]
  }

  function Utf8(vs: seq<Scalar>): seq<Byte> {
    if vs == [] then [] else EncodeScalar(vs[0]) + Utf8(vs[1..])
  }

  /** `TextEncoder.encode`: the simple whole-string form. */
  function Encode(s: seq<CodeUnit>): seq<Byte> {
    Utf8(Scalars(s))
  }

  /** A cut of `s` at `k` that does not fall between the two halves of a surrogate pair. */
  predicate SafeCut(s: seq<CodeUnit>, k: nat)
    requires k <= |s|
  {
    !(0 < k < |s| && IsLead(s[k - 1]) && IsTrail(s[k]))
  }

  /** No surrogate pair straddles the seam between `a` and `b`. */
  predicate NoPairAcross(a: seq<CodeUnit>, b: seq<CodeUnit>) {
    a == [] || b == [] || !IsLead(a[|a| - 1]) || !IsTrail(b[0])
  }

  lemma HeadOfAppend(a: seq<CodeUnit>, b: seq<CodeUnit>)
    requires a != [] && NoPairAcross(a, b)
    ensures HeadWidth(a + b) == HeadWidth(a) && HeadScalar(a + b) == HeadScalar(a)
    ensures (a + b)[HeadWidth(a)..] == a[HeadWidth(a)..] + b && NoPairAcross(a[HeadWidth(a)..], b)
  {
  }

  lemma {:induction false} ScalarsAppend(a: seq<CodeUnit>, b: seq<CodeUnit>)
    requires NoPairAcross(a, b)
    ensures Scalars(a + b) == Scalars(a) + Scalars(b)
  {
    if a == [] {
      assert a + b == b;
    } else {
      HeadOfAppend(a, b);
      ScalarsAppend(a[HeadWidth(a)..], b);
    }
  }

  lemma {:induction false} Utf8Append(vs: seq<Scalar>, ws: seq<Scalar>)
    ensures Utf8(vs + ws) == Utf8(vs) + Utf8(ws)
  {
    if vs == [] {
      assert vs + ws == ws;
    } else {
      assert (vs + ws)[1..] == vs[1..] + ws;
      Utf8Append(vs[1..], ws);
    }
  }

  /** Encoding the two parts of a string separately loses nothing at a safe cut. */
  lemma EncodeSplits(s: seq<CodeUnit>, k: nat)
    requires k <= |s| && SafeCut(s, k)
    ensures Encode(s) == Encode(s[..k]) + Encode(s[k..])
  {
    assert s == s[..k] + s[k..];
    ScalarsAppend(s[..k], s[k..]);
    Utf8Append(Scalars(s[..k]), Scalars(s[k..]));
  }

  /** Every other cut tears a pair: each half is encoded as U+FFFD, two bytes too many. */
  lemma UnsafeCutTears(s: seq<CodeUnit>, k: nat)
    requires k <= |s| && !SafeCut(s, k)
    ensures |Encode(s[..k]) + Encode(s[k..])| == |Encode(s)| + 2
  {
    var front, pair, back := s[..k - 1], s[k - 1..k + 1], s[k + 1..];
    assert s == s[..k - 1] + s[k - 1..] && s[k - 1..] == pair + back;
    EncodeSplits(s, k - 1);
    EncodeUnfolds(s[k - 1..]);
    assert s[k - 1..][2..] == back;
    var left, right := s[..k], s[k..];
    EncodeSplits(left, k - 1);
    EncodeUnfolds(left[k - 1..]);
    assert left[..k - 1] == front && left[k - 1..][1..] == [];
    EncodeUnfolds(right);
    assert right[1..] == back;
  }

  lemma EncodeUnfolds(s: seq<CodeUnit>)
    requires s != []
    ensures Encode(s) == EncodeScalar(HeadScalar(s)) + Encode(s[HeadWidth(s)..])
  {
    assert Scalars(s)[1..] == Scalars(s[HeadWidth(s)..]);
  }

  lemma {:induction false} EncodeAscii(s: seq<CodeUnit>)
    requires IsAscii(s)
    ensures Encode(s) == s
  {
    if s != [] {
      EncodeAscii(s[1..]);
      EncodeUnfolds(s);
    }
  }

  /** The room the glue reserves: three bytes a code unit are always enough. */
  lemma {:induction false} EncodeFits(s: seq<CodeUnit>)
    ensures |s| <= |Encode(s)| <= 3 * |s|
  {
    if s != [] {
      EncodeFits(s[HeadWidth(s)..]);
      EncodeUnfolds(s);
    }
  }

  datatype EncodeIntoResult = EncodeIntoResult(read: nat, written: seq<Byte>)

  /** `TextEncoder.encodeInto` with `room` bytes: whole scalars only, until one does not fit. */
  function EncodeInto(s: seq<CodeUnit>, room: nat): EncodeIntoResult {
    if s == [] || |EncodeScalar(HeadScalar(s))| > room then EncodeIntoResult(0, [])
    else
      var bs := EncodeScalar(HeadScalar(s));
      var rest := EncodeInto(s[HeadWidth(s)..], room - |bs|);
      EncodeIntoResult(HeadWidth(s) + rest.read, bs + rest.written)
  }

  lemma {:induction false} EncodeIntoStaysInside(s: seq<CodeUnit>, room: nat)
    ensures |EncodeInto(s, room).written| <= room
  {
    if s != [] && |EncodeScalar(HeadScalar(s))| <= room {
      EncodeIntoStaysInside(s[HeadWidth(s)..], room - |EncodeScalar(HeadScalar(s))|);
    }
  }

  /** What has been written is the encoding of what has been read, cut between two scalars. */
  lemma {:induction false} EncodeIntoIsPrefix(s: seq<CodeUnit>, room: nat)
    ensures var r := EncodeInto(s, room);
      r.read <= |s| && SafeCut(s, r.read) && r.written == Encode(s[..r.read])
      && (r.read < |s| ==> |r.written| + |EncodeScalar(HeadScalar(s[r.read..]))| > room)
  {
    var w := if s == [] then 0 else HeadWidth(s);
    if s != [] && |EncodeScalar(HeadScalar(s))| <= room {
      var rest := EncodeInto(s[w..], room - |EncodeScalar(HeadScalar(s))|);
      EncodeIntoIsPrefix(s[w..], room - |EncodeScalar(HeadScalar(s))|);
      var r := w + rest.read;
      assert s[r..] == s[w..][rest.read..] && s[..r][w..] == s[w..][..rest.read];
      HeadOfPrefix(s, r);
      EncodeUnfolds(s[..r]);
    }
  }

  lemma HeadOfPrefix(s: seq<CodeUnit>, r: nat)
    requires s != [] && HeadWidth(s) <= r <= |s|
    ensures HeadWidth(s[..r]) == HeadWidth(s) && HeadScalar(s[..r]) == HeadScalar(s)
  {
  }

  /** With enough room nothing is left unread, so the caller may ignore `read`. */
  lemma {:induction false} EncodeIntoTakesAll(s: seq<CodeUnit>, room: nat)
    requires |Encode(s)| <= room
    ensures EncodeInto(s, room) == EncodeIntoResult(|s|, Encode(s))
  {
    if s != [] {
      EncodeUnfolds(s);
      EncodeIntoTakesAll(s[HeadWidth(s)..], room - |EncodeScalar(HeadScalar(s))|);
    }
  }

  // ----- UTF-8 decoding ----------------------------------------------------------------

  /** The decoder between two bytes: the bits so far, the bytes still to come, and the range
      the next one must lie in. */
  datatype Decoder = Decoder(acc: nat, need: nat, lower: Byte, upper: Byte)

  const START := Decoder(0, 0, 0x80, 0xBF)

  /** `v` shifted left by `n` groups of six bits, and right by them. */
  function Shl(v: nat, n: nat): nat {
    if n == 0 then v else if n == 1 then v * 0x40 else v * 0x1000
  }

  function Shr(v: nat, n: nat): nat {
    if n == 0 then v else if n == 1 then v / 0x40 else if n == 2 then v / 0x1000 else v / 0x4_0000
  }

  /** Whatever bytes the decoder still accepts, it will end on a scalar value: the smallest and
      the largest result lie on the same side of the surrogates. */
  predicate OnCourse(d: Decoder) {
    d.need != 0 ==>
      && d.need <= 3 && 0x80 <= d.lower <= d.upper <= 0xBF
      && var least := Shl(d.acc * 0x40 + d.lower - 0x80, d.need - 1);
      && var most := Shl(d.acc * 0x40 + d.upper - 0x80 + 1, d.need - 1) - 1;
      && (most < 0xD800 || (0xE000 <= least && most < 0x11_0000))
  }

  datatype Fed = Malformed | More(state: Decoder) | Emit(v: Scalar)

  /** One step of the WHATWG UTF-8 decoder. */
  function Feed(d: Decoder, b: Byte): (r: Fed)
    requires OnCourse(d)
    ensures r.More? ==> OnCourse(r.state) && r.state.need > 0
  {
    if d.need == 0 then
      if b <= 0x7F then Emit(b)
      else if 0xC2 <= b <= 0xDF then More(Decoder(b - 0xC0, 1, 0x80, 0xBF))
      else if 0xE0 <= b <= 0xEF then
        More(Decoder(b - 0xE0, 2, if b == 0xE0 then 0xA0 else 0x80, if b == 0xED then 0x9F else 0xBF))
      else if 0xF0 <= b <= 0xF4 then
        More(Decoder(b - 0xF0, 3, if b == 0xF0 then 0x90 else 0x80, if b == 0xF4 then 0x8F else 0xBF))
      else Malformed
    else if !(d.lower <= b <= d.upper) then Malformed
    else
      var acc := d.acc * 0x40 + (b - 0x80);
      if d.need == 1 then Emit(acc) else More(Decoder(acc, d.need - 1, 0x80, 0xBF))
  }

  /** The fatal decoder from state `d`: None stands for the TypeError it throws. */
  function DecodeFrom(d: Decoder, bs: seq<Byte>): Option<seq<Scalar>>
    requires OnCourse(d)
    decreases |bs|
  {
    if bs == [] then (if d.need == 0 then Some([]) else None)
    else match Feed(d, bs[0])
      case Malformed => None
      case More(d') => DecodeFrom(d', bs[1..])
      case Emit(v) =>
        match DecodeFrom(START, bs[1..])
        case None => None
        case Some(vs) => Some([v] + vs)
  }

  /** `TextDecoder.decode` with `fatal: true`, down to the UTF-16 string it returns. */
  function Decode(bs: seq<Byte>, ignoreBom: bool): Option<seq<CodeUnit>> {
    var body := if !ignoreBom && [0xEF, 0xBB, 0xBF] <= bs then bs[3..] else bs;
    match DecodeFrom(START, body)
    case None => None
    case Some(vs) => Some(Utf16(vs))
  }

  /** The last `n` bytes of the encoding of `v`. */
  function Tail(n: nat, v: Scalar): (bs: seq<Byte>)
    requires n <= 3
    ensures |bs| == n
  {
    if n == 0 then [] else [0x80 + Shr(v, n - 1) % 0x40] + Tail(n - 1, v)
  }

  lemma EncodeScalarShape(v: Scalar)
    ensures EncodeScalar(v)[1..] == Tail(|EncodeScalar(v)| - 1, v)
  {
    var t := Tail(3, v);
    assert t[1..] == Tail(2, v) && t[1..][1..] == Tail(1, v) && t[1..][1..][1..] == Tail(0, v);
  }

  lemma DigitsOf(v: nat, n: nat)
    requires 1 <= n <= 3
    ensures Shr(v, n) * 0x40 + Shr(v, n - 1) % 0x40 == Shr(v, n - 1)
  {
    var q := Shr(v, n - 1);
    assert q / 0x40 == Shr(v, n);
  }

  lemma DecodeStep(d: Decoder, b: Byte, rest: seq<Byte>)
    requires OnCourse(d)
    ensures Feed(d, b).More? ==> DecodeFrom(d, [b] + rest) == DecodeFrom(Feed(d, b).state, rest)
    ensures Feed(d, b).Emit? ==>
      (DecodeFrom(d, [b] + rest) ==
        match DecodeFrom(START, rest) case None => None case Some(vs) => Some([Feed(d, b).v] + vs))
  {
    assert ([b] + rest)[1..] == rest;
  }

  function Step(v: Scalar, need: nat): Fed {
    if need <= 1 then Emit(v) else More(Decoder(Shr(v, need - 1), need - 1, 0x80, 0xBF))
  }

  /** A decoder that has read the leading bits of `v` takes the next six. */
  lemma FeedTail(d: Decoder, v: Scalar)
    requires OnCourse(d) && 0 < d.need <= 3 && d.acc == Shr(v, d.need)
    requires d.lower <= 0x80 + Shr(v, d.need - 1) % 0x40 <= d.upper
    ensures Feed(d, 0x80 + Shr(v, d.need - 1) % 0x40) == Step(v, d.need)
  {
    DigitsOf(v, d.need);
  }

  /** A decoder that has read the leading bits of `v` reads the rest of it back. */
  lemma {:induction false} DecodeTail(d: Decoder, v: Scalar, rest: seq<Byte>)
    requires OnCourse(d) && 0 < d.need <= 3 && d.acc == Shr(v, d.need)
    requires d.lower <= 0x80 + Shr(v, d.need - 1) % 0x40 <= d.upper
    ensures DecodeFrom(d, Tail(d.need, v) + rest) ==
      match DecodeFrom(START, rest) case None => None case Some(vs) => Some([v] + vs)
    decreases d.need
  {
    var b := 0x80 + Shr(v, d.need - 1) % 0x40;
    FeedTail(d, v);
    assert Tail(d.need, v) + rest == [b] + (Tail(d.need - 1, v) + rest);
    DecodeStep(d, b, Tail(d.need - 1, v) + rest);
    if d.need == 1 {
      assert Tail(0, v) + rest == rest;
    } else {
      assert OnCourse(Feed(d, b).state);
      DecodeTail(Feed(d, b).state, v, rest);
    }
  }

  /** The first byte announces the length, the leading bits and the range of the second byte. */
  lemma FirstByte(v: Scalar)
    ensures var bs := EncodeScalar(v);
      var n := |bs| - 1;
      if n == 0 then Feed(START, bs[0]) == Emit(v)
      else
        && Feed(START, bs[0]).More?
        && var d := Feed(START, bs[0]).state;
        && d.need == n && d.acc == Shr(v, n) && d.lower <= 0x80 + Shr(v, n - 1) % 0x40 <= d.upper
  {
  }

  lemma DecodeScalar(v: Scalar, rest: seq<Byte>)
    ensures DecodeFrom(START, EncodeScalar(v) + rest) ==
      match DecodeFrom(START, rest) case None => None case Some(vs) => Some([v] + vs)
  {
    var first, tail := EncodeScalar(v)[0], EncodeScalar(v)[1..];
    FirstByte(v);
    EncodeScalarShape(v);
    assert EncodeScalar(v) + rest == [first] + (tail + rest);
    DecodeStep(START, first, tail + rest);
    if tail == [] {
      assert tail + rest == rest;
    } else {
      DecodeTail(Feed(START, first).state, v, rest);
    }
  }

  lemma {:induction false} DecodeUtf8(vs: seq<Scalar>)
    ensures DecodeFrom(START, Utf8(vs)) == Some(vs)
  {
    if vs != [] {
      DecodeUtf8(vs[1..]);
      DecodeScalar(vs[0], Utf8(vs[1..]));
      assert vs == [vs[0]] + vs[1..];
    }
  }

  /** What the decoder accepted in the middle of a scalar can only have been its tail. */
  lemma {:induction false} AcceptedTail(d: Decoder, bs: seq<Byte>)
    requires OnCourse(d) && 0 < d.need <= 3 && DecodeFrom(d, bs).Some?
    ensures var vs := DecodeFrom(d, bs).value; var n := d.need;
      && vs != [] && |bs| >= n && d.lower <= bs[0] <= d.upper
      && Shr(vs[0], n) == d.acc && bs[..n] == Tail(n, vs[0])
      && DecodeFrom(START, bs[n..]) == Some(vs[1..])
    decreases d.need
  {
    if d.need == 1 {
      assert bs[..1] == [bs[0]];
    } else {
      AcceptedTail(Feed(d, bs[0]).state, bs[1..]);
      DigitsOf(DecodeFrom(d, bs).value[0], d.need);
      assert bs[..d.need] == [bs[0]] + bs[1..][..d.need - 1];
      assert bs[d.need..] == bs[1..][d.need - 1..];
    }
  }

  /** The range of the second byte is what rules out the overlong forms. */
  lemma AcceptedLength(first: Byte, second: Byte, v: Scalar)
    requires Feed(START, first).More?
    requires var d := Feed(START, first).state;
      && Shr(v, d.need) == d.acc && d.lower <= second <= d.upper
      && second == 0x80 + Shr(v, d.need - 1) % 0x40
    ensures EncodeScalar(v) == [first] + Tail(Feed(START, first).state.need, v)
  {
    var d := Feed(START, first).state;
    DigitsOf(v, d.need);
    EncodeScalarShape(v);
    assert EncodeScalar(v) == [EncodeScalar(v)[0]] + EncodeScalar(v)[1..];
  }

  /** The fatal decoder accepts nothing but encodings: overlong forms, surrogates, stray and
      missing bytes all throw. */
  lemma {:induction false} AcceptedIsEncoded(bs: seq<Byte>)
    requires DecodeFrom(START, bs).Some?
    ensures Utf8(DecodeFrom(START, bs).value) == bs
    decreases |bs|
  {
    if bs != [] {
      var vs := DecodeFrom(START, bs).value;
      match Feed(START, bs[0])
      case Malformed =>
      case Emit(v) =>
        AcceptedIsEncoded(bs[1..]);
      case More(d) =>
        AcceptedTail(d, bs[1..]);
        var n := d.need;
        AcceptedLength(bs[0], bs[1], vs[0]);
        AcceptedIsEncoded(bs[1..][n..]);
        assert bs == ([bs[0]] + bs[1..][..n]) + bs[1..][n..];
    }
  }

  // ----- The standards' own values ------------------------------------------------------------------

  lemma OneScalar(s: seq<CodeUnit>)
    requires s != [] && HeadWidth(s) == |s|
    ensures Encode(s) == EncodeScalar(HeadScalar(s))
  {
    EncodeUnfolds(s);
    assert s[|s|..] == [] && Encode([]) == [];
  }

  /** A lone surrogate is encoded as U+FFFD, and that is what takes its place. */
  lemma LoneSurrogate(u: CodeUnit)
    requires 0xD800 <= u <= 0xDFFF
    ensures Encode([u]) == [0xEF, 0xBF, 0xBD] && Repaired([u]) == [0xFFFD]
    ensures Decode([0xEF, 0xBF, 0xBD], true) == Some([0xFFFD])
  {
    OneScalar([u]);
    assert IsLone([u], 0);
    DecodeEncode([u]);
  }

  /** In a string of any length, U+FFFD stands exactly where a surrogate has no partner. */
  lemma RepairedAt(s: seq<CodeUnit>, i: nat)
    requires i < |s|
    ensures |Repaired(s)| == |s|
    ensures Repaired(s)[i] ==
      if (0xD800 <= s[i] <= 0xDBFF && !(i + 1 < |s| && 0xDC00 <= s[i + 1] <= 0xDFFF))
         || (0xDC00 <= s[i] <= 0xDFFF && !(i > 0 && 0xD800 <= s[i - 1] <= 0xDBFF)) then 0xFFFD else s[i]
  {
  }

  /** The examples of section 7 of RFC 3629 in the first plane: U+0041, U+2262, U+0391, U+002E. */
  lemma FirstPlaneExamples()
    ensures Encode([0x41]) == [0x41] && Encode([0x2E]) == [0x2E]
    ensures Encode([0x2262]) == [0xE2, 0x89, 0xA2]
    ensures Encode([0x391]) == [0xCE, 0x91]
  {
    OneScalar([0x41]);
    OneScalar([0x2E]);
    OneScalar([0x2262]);
    OneScalar([0x391]);
  }

  /** Beyond the first plane: U+233B4 of the same section, and U+12345 of section 5 of RFC 2781. */
  lemma OtherPlaneExamples()
    ensures Encode([0xD84C, 0xDFB4]) == [0xF0, 0xA3, 0x8E, 0xB4] == EncodeScalar(0x233B4)
    ensures UnitsOf(0x12345) == [0xD808, 0xDF45]
  {
    OneScalar([0xD84C, 0xDFB4]);
    assert HeadScalar([0xD84C, 0xDFB4]) == 0x233B4;
  }

  /** A decoder without `ignoreBOM` would lose a leading U+FEFF. */
  lemma BomIsKept(s: seq<CodeUnit>)
    ensures Decode(Encode([0xFEFF] + s), true) == Some([0xFEFF] + Repaired(s))
    ensures Decode(Encode([0xFEFF] + s), false) == Some(Repaired(s))
  {
    var t := [0xFEFF] + s;
    EncodeUnfolds(t);
    assert t[1..] == s;
    DecodeEncode(t);
    DecodeEncode(s);
    RepairedUnfolds(t);
    assert Encode(t)[3..] == Encode(s);
  }

  /** Decoding an encoded string gives the string with its lone surrogates repaired, and never
      throws; the glue's `ignoreBOM` is what keeps a leading U+FEFF. */
  lemma DecodeEncode(s: seq<CodeUnit>)
    ensures Decode(Encode(s), true) == Some(Repaired(s))
  {
    DecodeUtf8(Scalars(s));
    ScalarsReadTheRepairedString(s);
  }

  lemma EncodeDecode(bs: seq<Byte>)
    requires Decode(bs, true).Some?
    ensures Encode(Decode(bs, true).value) == bs
  {
    AcceptedIsEncoded(bs);
    ScalarsOfUtf16(DecodeFrom(START, bs).value);
  }
}
