/**
 RFC 6455 framing as the client uses it: one encoder, one decoder over a growing
 buffer, and the receive loop above them.
 */
module WebSocket {
  import opened Basics

  type byte = x: int | 0 <= x < 256
  type Mask = m: seq<byte> | |m| == 4 witness [0, 0, 0, 0]

  const OP_TEXT: byte := 1
  const OP_BINARY: byte := 2
  const OP_CLOSE: byte := 8
  const OP_PING: byte := 9
  const OP_PONG: byte := 10

  // ---- Big-endian integers

  function Pow256(k: nat): nat {
    if k == 0 then 1 else 256 * Pow256(k - 1)
  }

  function ToBytes(n: nat, k: nat): (r: seq<byte>)
    requires n < Pow256(k)
    ensures |r| == k
  {
    if k == 0 then [] else ToBytes(n / 256, k - 1) + [n % 256]
  }

  function FromBytes(s: seq<byte>): nat {
    if s == [] then 0 else FromBytes(s[..|s| - 1]) * 256 + s[|s| - 1]
  }

  lemma FromBytesAppend(init: seq<byte>, last: byte)
    ensures FromBytes(init + [last]) == FromBytes(init) * 256 + last
  {
    assert (init + [last])[..|init|] == init;
  }

  lemma {:induction false} FromToBytes(n: nat, k: nat)
    requires n < Pow256(k)
    ensures FromBytes(ToBytes(n, k)) == n
  {
    if k != 0 {
      FromToBytes(n / 256, k - 1);
      FromBytesAppend(ToBytes(n / 256, k - 1), n % 256);
    }
  }

  lemma {:induction false} ToFromBytes(s: seq<byte>)
    ensures FromBytes(s) < Pow256(|s|)
    ensures ToBytes(FromBytes(s), |s|) == s
  {
    if s != [] {
      var init := s[..|s| - 1];
      ToFromBytes(init);
      var last := s[|s| - 1];
      assert FromBytes(s) / 256 == FromBytes(init) && FromBytes(s) % 256 == last;
      assert s == init + [last];
    }
  }

  /** The most significant byte comes first. */
  lemma {:induction false} ToBytesBigEndian(n: nat, k: nat, i: nat)
    requires n < Pow256(k) && i < k
    ensures Pow256(k - 1 - i) > 0 && ToBytes(n, k)[i] == n / Pow256(k - 1 - i) % 256
  {
    if i < k - 1 {
      ToBytesBigEndian(n / 256, k - 1, i);
      assert ToBytes(n, k)[i] == ToBytes(n / 256, k - 1)[i];
      DivideFirst(n, Pow256(k - 2 - i));
    }
  }

  lemma DivideFirst(a: nat, d: nat)
    requires d > 0
    ensures a / (256 * d) == a / 256 / d
  {
    var (q, r) := (a / 256 / d, a / 256 % d);
    assert a / 256 == d * q + r;
    assert 256 * d * q == 256 * (d * q);
    Quotient(a, 256 * d, q, 256 * r + a % 256);
  }

  // ---- Masking

  function Pow2(k: nat): nat {
    if k == 0 then 1 else 2 * Pow2(k - 1)
  }

  /** Exclusive or of the low `bits` binary digits. */
  function XorBits(a: nat, b: nat, bits: nat): (r: nat)
    ensures r < Pow2(bits)
  {
    if bits == 0 then 0 else 2 * XorBits(a / 2, b / 2, bits - 1) + (a + b) % 2
  }

  lemma {:induction false} XorBitsTwice(a: nat, b: nat, bits: nat)
    requires a < Pow2(bits)
    ensures XorBits(XorBits(a, b, bits), b, bits) == a
  {
    if bits != 0 {
      XorBitsTwice(a / 2, b / 2, bits - 1);
      LowBit(a, b, XorBits(a / 2, b / 2, bits - 1));
    }
  }

  lemma LowBit(a: nat, b: nat, high: nat)
    ensures var x := 2 * high + (a + b) % 2; x / 2 == high && (x + b) % 2 == a % 2
  {
  }

  function XorByte(a: byte, b: byte): byte {
    assert Pow2(8) == 256;
    XorBits(a, b, 8)
  }

  function Xor(data: seq<byte>, mask: Mask): (r: seq<byte>)
    ensures |r| == |data|
    ensures forall i | 0 <= i < |data| :: r[i] == XorByte(data[i], mask[i % 4])
  {
    seq(|data|, i requires 0 <= i < |data| => XorByte(data[i], mask[i % 4]))
  }

  lemma {:induction false} Multiples(d: nat, q: nat)
    requires q >= 1
    ensures d * q >= d
  {
    if q > 1 {
      Multiples(d, q - 1);
      assert d * q == d * (q - 1) + d;
    }
  }

  lemma Quotient(a: nat, d: nat, q: nat, r: nat)
    requires a == d * q + r && r < d
    ensures a / d == q
  {
    var (p, s) := (a / d, a % d);
    assert a == d * p + s;
    if p > q {
      assert d * (p - q) == d * p - d * q;
      Multiples(d, p - q);
    } else if p < q {
      assert d * (q - p) == d * q - d * p;
      Multiples(d, q - p);
    }
  }

  /** Halving first changes no quotient. */
  lemma HalveFirst(a: nat, d: nat)
    requires d > 0
    ensures a / (2 * d) == a / 2 / d
  {
    var (q, r) := (a / 2 / d, a / 2 % d);
    assert a / 2 == d * q + r;
    assert 2 * d * q == 2 * (d * q);
    Quotient(a, 2 * d, q, 2 * r + a % 2);
  }

  /** Digit by digit, two digits give one exactly when they differ. */
  lemma {:induction false} XorDigits(a: nat, b: nat, bits: nat, i: nat)
    requires i < bits
    ensures Pow2(i) > 0
    ensures XorBits(a, b, bits) / Pow2(i) % 2 == 1 <==> a / Pow2(i) % 2 != b / Pow2(i) % 2
  {
    var x, high := XorBits(a, b, bits), XorBits(a / 2, b / 2, bits - 1);
    XorUnfold(a, b, bits);
    LowBit(a, b, high);
    if i == 0 {
      LowestDigits(a, b, x);
    } else {
      XorDigits(a / 2, b / 2, bits - 1, i - 1);
      hide XorBits;
      HalveFirst(x, Pow2(i - 1));
      HalveFirst(a, Pow2(i - 1));
      HalveFirst(b, Pow2(i - 1));
    }
  }

  lemma XorUnfold(a: nat, b: nat, bits: nat)
    requires bits > 0
    ensures XorBits(a, b, bits) == 2 * XorBits(a / 2, b / 2, bits - 1) + (a + b) % 2
  {
  }

  lemma LowestDigits(a: nat, b: nat, x: nat)
    requires x % 2 == (a + b) % 2
    ensures Pow2(0) == 1 && (x / 1 % 2 == 1 <==> a / 1 % 2 != b / 1 % 2)
  {
  }

  /** Section 5.3: each masked byte is the exclusive or of the byte with the key's byte at its index modulo 4. */
  lemma MaskedDigits(data: seq<byte>, mask: Mask, i: nat, digit: nat)
    requires i < |data| && digit < 8
    ensures Pow2(digit) > 0
    ensures Xor(data, mask)[i] / Pow2(digit) % 2 == 1 <==>
            data[i] / Pow2(digit) % 2 != mask[i % 4] / Pow2(digit) % 2
  {
    XorDigits(data[i], mask[i % 4], 8, digit);
  }

  /** Section 5.3: masking twice with one key gives the data back. */
  lemma XorTwice(data: seq<byte>, mask: Mask)
    ensures Xor(Xor(data, mask), mask) == data
  {
    forall i | 0 <= i < |data| ensures Xor(Xor(data, mask), mask)[i] == data[i] {
      assert Pow2(8) == 256;
      XorBitsTwice(data[i], mask[i % 4], 8);
    }
  }

  // ---- The second header byte: one mask bit above seven length bits

  function LengthByte(masked: bool, code: nat): byte
    requires code < 128
  {
    if masked then 128 + code else code
  }

  predicate IsMasked(b: byte) {
    b >= 128
  }

  function LengthCode(b: byte): (r: nat) {
    b % 128
  }

  // ---- Frames (section 5.2)

  /** How the length was written: in the second byte, in two more bytes, or in eight. */
  datatype Width = Short | Two | Eight

  /** `head` holds FIN, the reserved bits and the opcode. */
  datatype Frame = Frame(head: byte, mask: Option<Mask>, width: Width, payload: seq<byte>) {
    predicate Valid() {
      match width
      case Short => |payload| < 126
      case Two => |payload| < Pow256(2)
      case Eight => |payload| < Pow256(8)
    }

    function Opcode(): byte {
      head % 16
    }

    /** Everything before the mask key. */
    function HeadBytes(): (r: seq<byte>)
      requires Valid()
      ensures |r| >= 2
    {
      match width
      case Short => [head, LengthByte(mask.Some?, |payload|)]
      case Two => [head, LengthByte(mask.Some?, 126)] + ToBytes(|payload|, 2)
      case Eight => [head, LengthByte(mask.Some?, 127)] + ToBytes(|payload|, 8)
    }

    function Body(): (r: seq<byte>) {
      if mask.Some? then mask.value + Xor(payload, mask.value) else payload
    }

    /** The bytes of the frame on the wire. */
    function Wire(): (r: seq<byte>)
      requires Valid()
      ensures |r| >= 2
    {
      HeadBytes() + Body()
    }
  }

  // ---- Decoding

  datatype Header = Header(masked: bool, width: Width, length: nat, size: nat)

  /** The header at the front of the buffer, once all of its length field has arrived. */
  function ReadHeader(b: seq<byte>): (r: Option<Header>)
    ensures r.Some? ==> 2 <= r.value.size <= |b|
  {
    if |b| < 2 then None
    else
      var masked, code := IsMasked(b[1]), LengthCode(b[1]);
      if code == 126 then (if |b| < 4 then None else Some(Header(masked, Two, FromBytes(b[2..4]), 4)))
      else if code == 127 then (if |b| < 10 then None else Some(Header(masked, Eight, FromBytes(b[2..10]), 10)))
      else Some(Header(masked, Short, code, 2))
  }

  /** The frame at the front of the buffer, or None while it is incomplete. */
  function Decode(b: seq<byte>): (r: Option<Frame>) {
    var header := ReadHeader(b);
    if header.None? then None
    else
      var Header(masked, width, length, size) := header.value;
      if masked then
        if |b| < size + 4 + length then None
        else
          var mask: Mask := b[size..size + 4];
          Some(Frame(b[0], Some(mask), width, Xor(b[size + 4..size + 4 + length], mask)))
      else
        if |b| < size + length then None
        else Some(Frame(b[0], None, width, b[size..size + length]))
  }

  // Sequences of bytes, cut and joined.

  lemma Assoc(a: seq<byte>, b: seq<byte>, c: seq<byte>)
    ensures (a + b) + c == a + (b + c)
  {
  }

  lemma SliceOut(a: seq<byte>, middle: seq<byte>, c: seq<byte>)
    ensures (a + (middle + c))[|a|..|a| + |middle|] == middle
  {
  }

  lemma SliceJoin(b: seq<byte>, i: nat, j: nat)
    requires i <= j <= |b|
    ensures b[..i] + b[i..j] == b[..j]
  {
  }

  lemma ThreeSlices(b: seq<byte>, i: nat, j: nat, k: nat)
    requires i <= j <= k <= |b|
    ensures b[..i] + (b[i..j] + b[j..k]) == b[..k]
  {
  }

  lemma ReadHeaderWire(f: Frame, rest: seq<byte>)
    requires f.Valid()
    ensures ReadHeader(f.HeadBytes() + rest) == Some(Header(f.mask.Some?, f.width, |f.payload|, |f.HeadBytes()|))
  {
    hide ToBytes, FromBytes, Pow256;
    match f.width
    case Short =>
    case Two =>
      var first, more := [f.head, LengthByte(f.mask.Some?, 126)], ToBytes(|f.payload|, 2);
      Assoc(first, more, rest);
      SliceOut(first, more, rest);
      FromToBytes(|f.payload|, 2);
    case Eight =>
      var first, more := [f.head, LengthByte(f.mask.Some?, 127)], ToBytes(|f.payload|, 8);
      Assoc(first, more, rest);
      SliceOut(first, more, rest);
      FromToBytes(|f.payload|, 8);
  }

  /** Decoding what was written gives the frame back, whatever follows it. */
  lemma DecodeWire(f: Frame, rest: seq<byte>)
    requires f.Valid()
    ensures Decode(f.Wire() + rest) == Some(f)
  {
    var head := f.HeadBytes();
    assert (head + (f.Body() + rest))[0] == f.head;
    ReadHeaderWire(f, f.Body() + rest);
    Assoc(head, f.Body(), rest);
    hide ReadHeader, Frame.HeadBytes, Xor;
    if f.mask.Some? {
      var key, data := f.mask.value, Xor(f.payload, f.mask.value);
      XorTwice(f.payload, key);
      Assoc(key, data, rest);
      SliceOut(head, key, data + rest);
      Assoc(head, key, data + rest);
      SliceOut(head + key, data, rest);
    } else {
      SliceOut(head, f.payload, rest);
    }
  }

  lemma ReadHeaderSound(b: seq<byte>, f: Frame)
    requires |b| >= 1 && b[0] == f.head
    requires ReadHeader(b).Some? && ReadHeader(b).value.masked == f.mask.Some?
    requires ReadHeader(b).value.width == f.width && ReadHeader(b).value.length == |f.payload|
    ensures f.Valid() && f.HeadBytes() == b[..ReadHeader(b).value.size]
  {
    hide ToBytes, FromBytes, Pow256;
    match f.width
    case Short =>
      assert b[..2] == [b[0], b[1]];
    case Two =>
      ToFromBytes(b[2..4]);
      SliceJoin(b, 2, 4);
      assert b[..2] == [b[0], b[1]];
    case Eight =>
      ToFromBytes(b[2..10]);
      SliceJoin(b, 2, 10);
      assert b[..2] == [b[0], b[1]];
  }

  /** Every decoded frame is what the buffer starts with: the decoder invents nothing. */
  lemma DecodeSound(b: seq<byte>)
    requires Decode(b).Some?
    ensures var f := Decode(b).value;
      && f.Valid() && f.Wire() <= b
      && |f.Wire()| == ReadHeader(b).value.size + (if f.mask.Some? then 4 else 0) + |f.payload|
  {
    var f := Decode(b).value;
    ReadHeaderSound(b, f);
    hide ReadHeader, Frame.HeadBytes, Frame.Valid, Xor;
    var size := ReadHeader(b).value.size;
    if f.mask.Some? {
      var end := size + 4 + |f.payload|;
      XorTwice(b[size + 4..end], f.mask.value);
      ThreeSlices(b, size, size + 4, end);
      assert f.Body() == b[size..size + 4] + b[size + 4..end];
    } else {
      SliceJoin(b, size, size + |f.payload|);
      assert f.Wire() == b[..size + |f.payload|];
    }
  }

  /** A frame is decoded exactly when the buffer starts with one. */
  lemma DecodeIff(b: seq<byte>)
    ensures Decode(b).Some? <==> exists f: Frame :: f.Valid() && f.Wire() <= b
  {
    hide Frame.Wire, Frame.Valid, Decode;
    if Decode(b).Some? {
      DecodeSound(b);
    }
    if f: Frame :| f.Valid() && f.Wire() <= b {
      DecodeWire(f, b[|f.Wire()|..]);
      assert f.Wire() + b[|f.Wire()|..] == b;
    }
  }

  /** No frame starts another: the split of a stream into frames is unique. */
  lemma WirePrefixFree(f: Frame, g: Frame, r: seq<byte>, s: seq<byte>)
    requires f.Valid() && g.Valid() && f.Wire() + r == g.Wire() + s
    ensures f == g && r == s
  {
    hide Frame.Wire, Frame.Valid, Decode;
    DecodeWire(f, r);
    DecodeWire(g, s);
    assert r == (f.Wire() + r)[|f.Wire()|..];
  }

  /** A proper prefix of a frame is never taken for a frame. */
  lemma PrefixIncomplete(f: Frame, k: nat)
    requires f.Valid() && k < |f.Wire()|
    ensures Decode(f.Wire()[..k]).None?
  {
    hide Frame.Wire, Frame.Valid, Decode;
    var b := f.Wire()[..k];
    if Decode(b).Some? {
      DecodeSound(b);
      var g := Decode(b).value;
      assert f.Wire() + [] == g.Wire() + f.Wire()[|g.Wire()|..];
      WirePrefixFree(f, g, [], f.Wire()[|g.Wire()|..]);
    }
  }

  // ---- Streams of frames

  ghost predicate AllValid(frames: seq<Frame>) {
    forall i | 0 <= i < |frames| :: frames[i].Valid()
  }

  function WireAll(frames: seq<Frame>): seq<byte>
    requires AllValid(frames)
  {
    if frames == [] then [] else frames[0].Wire() + WireAll(frames[1..])
  }

  lemma {:induction false} WireAllAppend(a: seq<Frame>, b: seq<Frame>)
    requires AllValid(a) && AllValid(b)
    ensures AllValid(a + b) && WireAll(a + b) == WireAll(a) + WireAll(b)
  {
    hide Frame.Wire, Frame.Valid;
    if a == [] {
      assert a + b == b;
    } else {
      assert (a + b)[1..] == a[1..] + b;
      WireAllAppend(a[1..], b);
      Assoc(a[0].Wire(), WireAll(a[1..]), WireAll(b));
    }
  }

  /** Two readings of one stream agree as far as both go; the bytes left over tell the rest. */
  lemma {:induction false} SameStream(a: seq<Frame>, r: seq<byte>, b: seq<Frame>, s: seq<byte>)
    requires AllValid(a) && AllValid(b) && WireAll(a) + r == WireAll(b) + s && |a| <= |b|
    ensures a == b[..|a|] && r == WireAll(b[|a|..]) + s
  {
    hide Frame.Wire, Frame.Valid;
    if a != [] {
      Assoc(a[0].Wire(), WireAll(a[1..]), r);
      Assoc(b[0].Wire(), WireAll(b[1..]), s);
      WirePrefixFree(a[0], b[0], WireAll(a[1..]) + r, WireAll(b[1..]) + s);
      SameStream(a[1..], r, b[1..], s);
      assert a == [a[0]] + a[1..] && b[..|a|] == [b[0]] + b[1..][..|a| - 1];
      assert b[|a|..] == b[1..][|a| - 1..];
    }
  }

  // ---- The code

  function NarrowestWidth(length: nat): Width {
    if length < 126 then Short else if length < 65536 then Two else Eight
  }

  /** The frame the client means by an opcode and a payload: FIN set, masked, shortest length field. */
  function ClientFrame(payload: seq<byte>, opcode: byte, mask: Mask): Frame {
    Frame(128 + opcode % 16, Some(mask), NarrowestWidth(|payload|), payload)
  }

  /**
   Section 5.2, byte by byte: FIN and the opcode; the mask bit and the length code; the length in network byte order
   if the code stands for more bytes; the mask key; the masked payload.
   */
  lemma ClientFrameLayout(payload: seq<byte>, opcode: byte, mask: Mask)
    requires |payload| < Pow256(8) && opcode < 16
    ensures ClientFrame(payload, opcode, mask).Valid()
    ensures var w := ClientFrame(payload, opcode, mask).Wire();
      var more := if |payload| < 126 then 0 else if |payload| < 65536 then 2 else 8;
      && |w| == 6 + more + |payload|
      && w[0] == 0x80 + opcode
      && w[1] == 0x80 + (if more == 0 then |payload| else if more == 2 then 126 else 127)
      && (more > 0 ==> FromBytes(w[2..2 + more]) == |payload|)
      && w[2 + more..6 + more] == mask
      && w[6 + more..] == Xor(payload, mask)
  {
    PowValues();
    var f := ClientFrame(payload, opcode, mask);
    var head := f.HeadBytes();
    HeadLayout(f);
    hide ToBytes, FromBytes, Pow256, Xor, Frame.HeadBytes;
    var w := f.Wire();
    assert w == head + (mask + Xor(payload, mask));
    assert w[2..|head|] == head[2..];
  }

  /** The header of any frame, masked or not. */
  lemma HeadLayout(f: Frame)
    requires f.Valid()
    ensures var more := match f.width case Short => 0 case Two => 2 case Eight => 8;
      var head := f.HeadBytes();
      && |head| == 2 + more && head[0] == f.head && f.Opcode() == f.head % 16
      && head[1] == (if f.mask.Some? then 0x80 else 0) +
                    (match f.width case Short => |f.payload| case Two => 126 case Eight => 127)
      && (more > 0 ==> FromBytes(head[2..]) == |f.payload|)
  {
    hide ToBytes, FromBytes, Pow256;
    match f.width
    case Short =>
    case Two => FromToBytes(|f.payload|, 2);
    case Eight => FromToBytes(|f.payload|, 8);
  }

  /** Section 7.4: the close code, most significant byte first; none in a payload too short for it. */
  lemma CloseCodeIs(payload: seq<byte>)
    ensures CloseCode(payload) == if |payload| < 2 then None else Some(256 * payload[0] as int + payload[1] as int)
  {
    if |payload| >= 2 {
      var code := payload[..2];
      assert code[..1] == [payload[0]] && [payload[0]][..0] == [];
      FromBytesAppend([payload[0]], payload[1]);
      FromBytesAppend([], payload[0]);
      assert [payload[0]] + [payload[1]] == code && [] + [payload[0]] == [payload[0]];
    }
  }

  /** Section 5.2: the minimal number of length bytes is used. */
  lemma NarrowestIsMinimal(payload: seq<byte>, opcode: byte, mask: Mask, width: Width)
    requires |payload| < Pow256(8) && ClientFrame(payload, opcode, mask).(width := width).Valid()
    ensures var f := ClientFrame(payload, opcode, mask);
      f.Valid() && |f.Wire()| <= |f.(width := width).Wire()|
  {
    PowValues();
  }

  /** Client-to-server frame, always masked. None stands for the overflow past 64-bit lengths. */
  method EncodeFrame(payload: seq<byte>, opcode: byte, mask: Mask) returns (r: Option<seq<byte>>)
    ensures r.None? <==> |payload| >= Pow256(8)
    ensures r.Some? ==>
      ClientFrame(payload, opcode, mask).Valid() && r.value == ClientFrame(payload, opcode, mask).Wire()
  {
    PowValues();
    var header := [128 + opcode % 16];
    var length := |payload|;
    if length < 126 {
      header := header + [128 + length];
    } else if length < 65536 {
      header := header + [128 + 126];
      header := header + ToBytes(length, 2);
    } else if length < Pow256(8) {
      header := header + [128 + 127];
      header := header + ToBytes(length, 8);
    } else {
      return None;
    }
    hide ToBytes, Pow256, Xor;
    assert header == ClientFrame(payload, opcode, mask).HeadBytes();
    var masked := Xor(payload, mask);
    r := Some(header + mask + masked);
    Assoc(header, mask, masked);
  }

  lemma PowValues()
    ensures Pow256(2) == 65536 && Pow256(2) < Pow256(8)
  {
    assert Pow256(4) >= Pow256(2) * 256;
  }

  /** The shared byte buffer that received chunks are appended to and frames are cut from. */
  class Buffer {
    var bytes: seq<byte>

    constructor ()
      ensures bytes == []
    {
      bytes := [];
    }

    method Extend(chunk: seq<byte>)
      modifies this
      ensures bytes == old(bytes) + chunk
    {
      bytes := bytes + chunk;
    }

    /** Pop one complete frame; an incomplete one leaves the buffer as it was. */
    method DecodeFrame() returns (r: Option<(byte, seq<byte>)>)
      modifies this
      ensures match Decode(old(bytes))
        case None => r == None && bytes == old(bytes)
        case Some(f) => r == Some((f.Opcode(), f.payload)) && f.Valid() && old(bytes) == f.Wire() + bytes
    {
      hide Frame.Wire, Frame.Valid, FromBytes, Xor;
      if |bytes| < 2 {
        return None;
      }
      var opcode := bytes[0] % 16;
      var masked := IsMasked(bytes[1]);
      var length := LengthCode(bytes[1]);
      var index := 2;
      if length == 126 {
        if |bytes| < 4 {
          return None;
        }
        length := FromBytes(bytes[2..4]);
        index := 4;
      } else if length == 127 {
        if |bytes| < 10 {
          return None;
        }
        length := FromBytes(bytes[2..10]);
        index := 10;
      }
      var payload;
      if masked {
        if |bytes| < index + 4 + length {
          return None;
        }
        var mask: Mask := bytes[index..index + 4];
        index := index + 4;
        payload := Xor(bytes[index..index + length], mask);
      } else {
        if |bytes| < index + length {
          return None;
        }
        payload := bytes[index..index + length];
      }
      DecodeSound(bytes);
      bytes := bytes[index + length..];
      return Some((opcode, payload));
    }
  }

  // ---- The receive loop

  /** What the socket reports next: nothing within the timeout, or received bytes, none at end of stream. */
  datatype NetEvent = Quiet | Chunk(bytes: seq<byte>)

  datatype Outcome =
    | Text(payload: seq<byte>)
    | TimedOut
    | Closed(code: Option<nat>)
    | BinaryRefused

  function Received(events: seq<NetEvent>): seq<byte> {
    if events == [] then []
    else (if events[0].Chunk? then events[0].bytes else []) + Received(events[1..])
  }

  /** Section 7.4: the status code is the first two bytes of a close payload, when it has two. */
  function CloseCode(payload: seq<byte>): Option<nat> {
    if |payload| < 2 then None else Some(FromBytes(payload[..2]))
  }

  predicate Stops(f: Frame) {
    f.Opcode() == OP_CLOSE || f.Opcode() == OP_BINARY
  }

  predicate PassedOver(f: Frame) {
    !Stops(f) && f.Opcode() != OP_TEXT
  }

  predicate AllPassed(frames: seq<Frame>) {
    frames != [] ==> PassedOver(frames[|frames| - 1]) && AllPassed(frames[..|frames| - 1])
  }

  function TextsOf(frames: seq<Frame>): seq<seq<byte>> {
    if frames == [] then []
    else if frames[0].Opcode() == OP_TEXT then [frames[0].payload] + TextsOf(frames[1..])
    else TextsOf(frames[1..])
  }

  /** The replies due: one pong for each ping, with the ping's own payload. */
  function PongsFor(frames: seq<Frame>): seq<(byte, seq<byte>)> {
    if frames == [] then []
    else if frames[0].Opcode() == OP_PING then [(OP_PONG, frames[0].payload)] + PongsFor(frames[1..])
    else PongsFor(frames[1..])
  }

  /** What the peer reads off a list of frames. */
  function Contents(frames: seq<Frame>): seq<(byte, seq<byte>)> {
    if frames == [] then [] else [(frames[0].Opcode(), frames[0].payload)] + Contents(frames[1..])
  }

  lemma {:induction false} ReceivedAppend(a: seq<NetEvent>, b: seq<NetEvent>)
    ensures Received(a + b) == Received(a) + Received(b)
  {
    if a == [] {
      assert a + b == b;
    } else {
      assert (a + b)[1..] == a[1..] + b;
      ReceivedAppend(a[1..], b);
    }
  }

  // Appending one frame to the listings.

  lemma {:induction false} TextsAppend(a: seq<Frame>, f: Frame)
    ensures TextsOf(a + [f]) == TextsOf(a) + (if f.Opcode() == OP_TEXT then [f.payload] else [])
  {
    if a == [] {
      assert [f][1..] == [] && a + [f] == [f];
    } else {
      assert (a + [f])[1..] == a[1..] + [f];
      TextsAppend(a[1..], f);
    }
  }

  lemma {:induction false} PongsAppend(a: seq<Frame>, f: Frame)
    ensures PongsFor(a + [f]) == PongsFor(a) + (if f.Opcode() == OP_PING then [(OP_PONG, f.payload)] else [])
  {
    if a == [] {
      assert [f][1..] == [] && a + [f] == [f];
    } else {
      assert (a + [f])[1..] == a[1..] + [f];
      PongsAppend(a[1..], f);
    }
  }

  lemma {:induction false} ContentsAppend(a: seq<Frame>, f: Frame)
    ensures Contents(a + [f]) == Contents(a) + [(f.Opcode(), f.payload)]
  {
    if a == [] {
      assert [f][1..] == [] && a + [f] == [f];
    } else {
      assert (a + [f])[1..] == a[1..] + [f];
      ContentsAppend(a[1..], f);
    }
  }

  lemma AppendFrame(frames: seq<Frame>, f: Frame)
    requires AllValid(frames) && f.Valid()
    ensures AllValid(frames + [f]) && WireAll(frames + [f]) == WireAll(frames) + f.Wire()
    ensures Contents(frames + [f]) == Contents(frames) + [(f.Opcode(), f.payload)]
    ensures PongsFor(frames + [f]) == PongsFor(frames) + (if f.Opcode() == OP_PING then [(OP_PONG, f.payload)] else [])
    ensures TextsOf(frames + [f]) == TextsOf(frames) + (if f.Opcode() == OP_TEXT then [f.payload] else [])
  {
    hide Frame.Wire, Frame.Valid;
    assert [f][1..] == [];
    WireAllAppend(frames, [f]);
    TextsAppend(frames, f);
    PongsAppend(frames, f);
    ContentsAppend(frames, f);
  }

  class WebSocketClient {
    const buffer: Buffer
    var inbox: seq<NetEvent>
    var sent: seq<byte>
    ghost var sentFrames: seq<Frame>

    ghost predicate Valid()
      reads this
    {
      AllValid(sentFrames) && sent == WireAll(sentFrames)
    }

    constructor (inbox: seq<NetEvent>)
      ensures Valid() && fresh(buffer) && buffer.bytes == []
      ensures this.inbox == inbox && sentFrames == []
    {
      buffer := new Buffer();
      this.inbox := inbox;
      sent, sentFrames := [], [];
    }

    /** The mask key is random; whatever it is, the peer reads a pong with this payload. */
    method SendPong(payload: seq<byte>)
      requires Valid() && |payload| < Pow256(8)
      modifies this`sent, this`sentFrames
      ensures Valid() && Contents(sentFrames) == old(Contents(sentFrames)) + [(OP_PONG, payload)]
    {
      var mask: Mask := *;
      var bytes := EncodeFrame(payload, OP_PONG, mask);
      ghost var f := ClientFrame(payload, OP_PONG, mask);
      assert f.Opcode() == OP_PONG && f.payload == payload;
      hide Frame.Wire, Frame.Valid, ClientFrame, WireAll, Contents, Pow256;
      sent := sent + bytes.value;
      AppendFrame(sentFrames, f);
      sentFrames := sentFrames + [f];
    }

    /** Wait for the socket once: append what it gives, or report why there is nothing. */
    method AwaitBytes() returns (r: Option<Outcome>)
      requires inbox != []
      modifies this`inbox, buffer
      ensures inbox == old(inbox)[1..]
      ensures match old(inbox)[0]
        case Quiet => r == Some(TimedOut) && buffer.bytes == old(buffer.bytes)
        case Chunk(bytes) =>
          if bytes == [] then r == Some(Closed(None)) && buffer.bytes == old(buffer.bytes)
          else r == None && buffer.bytes == old(buffer.bytes) + bytes
    {
      var event := inbox[0];
      inbox := inbox[1..];
      if event == Quiet {
        return Some(TimedOut);
      }
      if event.bytes == [] {
        return Some(Closed(None));
      }
      buffer.Extend(event.bytes);
      return None;
    }

    /** One turn of the receive loop: handle a decoded frame, or wait for the socket once. */
    method Turn() returns (r: Option<Outcome>, ghost took: seq<Frame>, ghost used: nat)
      requires Valid()
      modifies this, buffer
      ensures Valid() && AllValid(took) && |took| <= 1
      ensures used <= |old(inbox)| && inbox == old(inbox)[used..]
      ensures old(buffer.bytes) + Received(old(inbox)[..used]) == WireAll(took) + buffer.bytes
      ensures Contents(sentFrames) == old(Contents(sentFrames)) + PongsFor(took)
      ensures r.None? ==> AllPassed(took)
      ensures r.None? ==> used > 0 || (inbox == old(inbox) && |buffer.bytes| < |old(buffer.bytes)|)
      ensures r.Some? ==> Decided(r.value, took) || Waiting(r.value, took, buffer.bytes, old(inbox), used)
    {
      hide Frame.Wire, Frame.Valid, Frame.Opcode, Decode, FromBytes, CloseCode, Pow256;
      ghost var before := buffer.bytes;
      var frame := buffer.DecodeFrame();
      if frame.None? {
        if inbox == [] {
          return Some(TimedOut), [], 0;
        }
        ReceivedOne(inbox, 0);
        r := AwaitBytes();
        return r, [], 1;
      }
      var (opcode, payload) := frame.value;
      ghost var f := Decode(before).value;
      TakeFrame([], f, before, buffer.bytes);
      assert [] + [f] == [f];
      r, took, used := None, [f], 0;
      if opcode == OP_CLOSE {
        return Some(Closed(CloseCode(payload))), took, used;
      }
      if opcode == OP_PING {
        SendPong(payload);
        return;
      }
      if opcode == OP_PONG {
        return;
      }
      if opcode == OP_TEXT {
        return Some(Text(payload)), took, used;
      }
      if opcode == OP_BINARY {
        return Some(BinaryRefused), took, used;
      }
    }

    /**
     The next text payload. `seen` lists the frames it went through and `used` counts the
     socket reports it took: no byte is lost, only the last frame can decide the outcome.
     */
    method RecvText() returns (r: Outcome, ghost seen: seq<Frame>, ghost used: nat)
      requires Valid()
      modifies this, buffer
      ensures Valid() && AllValid(seen)
      ensures used <= |old(inbox)| && inbox == old(inbox)[used..]
      ensures old(buffer.bytes) + Received(old(inbox)[..used]) == WireAll(seen) + buffer.bytes
      ensures seen != [] ==> AllPassed(seen[..|seen| - 1])
      ensures Contents(sentFrames) == old(Contents(sentFrames)) + PongsFor(seen)
      ensures Decided(r, seen) || Waiting(r, seen, buffer.bytes, old(inbox), used)
    {
      hide Decided, Waiting, WireAll, Contents, PongsFor, Received, AllValid;
      seen, used := [], 0;
      NothingYet(buffer.bytes);
      while true
        invariant Valid() && AllValid(seen) && AllPassed(seen)
        invariant used <= |old(inbox)| && inbox == old(inbox)[used..]
        invariant old(buffer.bytes) + Received(old(inbox)[..used]) == WireAll(seen) + buffer.bytes
        invariant Contents(sentFrames) == old(Contents(sentFrames)) + PongsFor(seen)
        decreases |inbox|, |buffer.bytes|
      {
        ghost var before := buffer.bytes;
        var ended, took, more := Turn();
        JoinTurns(old(buffer.bytes), old(inbox), seen, used, before, took, more, buffer.bytes);
        seen, used := seen + took, used + more;
        if ended.Some? {
          return ended.value, seen, used;
        }
      }
    }

    /**
     Reading on until the stream stops, as the gateway loop does. Whatever the chunks were,
     the texts and the pongs are those of the frames up to the first close or binary frame.
     */
    method Listen(ghost frames: seq<Frame>, ghost tail: seq<byte>) returns (texts: seq<seq<byte>>)
      requires Valid() && AllValid(frames) && Decode(tail).None?
      requires buffer.bytes + Received(inbox) == WireAll(frames) + tail
      requires forall i | 0 <= i < |inbox| - 1 :: inbox[i] != Chunk([])
      modifies this, buffer
      ensures Valid()
      ensures texts == TextsOf(BeforeStop(frames))
      ensures Contents(sentFrames) == old(Contents(sentFrames)) + PongsFor(BeforeStop(frames))
    {
      hide Frame.Opcode, CloseCode, WireAll, Contents, PongsFor, TextsOf, Received, AllValid, BeforeStop, Decode;
      hide AllPassed, NoStops;
      texts := [];
      ghost var all: seq<Frame> := [];
      ghost var total: nat := 0;
      NothingYet(buffer.bytes);
      while true
        invariant Valid() && AllValid(all) && NoStops(all) && texts == TextsOf(all)
        invariant total <= |old(inbox)| && inbox == old(inbox)[total..]
        invariant old(buffer.bytes) + Received(old(inbox)[..total]) == WireAll(all) + buffer.bytes
        invariant Contents(sentFrames) == old(Contents(sentFrames)) + PongsFor(all)
        decreases |inbox|, |buffer.bytes|
      {
        ghost var before := buffer.bytes;
        var outcome, seen, used := RecvText();
        JoinBytes(old(buffer.bytes), old(inbox), all, total, before, seen, used, buffer.bytes);
        ListingsAppend(all, seen);
        if Decided(outcome, seen) {
          JoinDecided(all, seen, outcome, buffer.bytes);
        } else {
          JoinWaiting(all, seen, outcome, buffer.bytes, old(inbox)[total..], used);
        }
        Shorter(before, seen, buffer.bytes);
        all, total := all + seen, total + used;
        match outcome {
          case Text(payload) =>
            texts := texts + [payload];
          case TimedOut =>
            if inbox == [] {
              WholeReading(old(buffer.bytes), old(inbox), total, all, buffer.bytes, frames, tail);
              return;
            }
          case _ =>
            WholeReading(old(buffer.bytes), old(inbox), total, all, buffer.bytes, frames, tail);
            return;
        }
      }
    }
  }

  lemma NothingYet(bytes: seq<byte>)
    ensures AllValid([]) && WireAll([]) == [] && Received([]) == []
    ensures AllPassed([]) && NoStops([]) && PongsFor([]) == [] && TextsOf([]) == []
  {
  }

  /** Two consecutive readings of the stream are one reading. */
  lemma JoinTurns(start: seq<byte>, inbox: seq<NetEvent>, seen: seq<Frame>, used: nat,
                  middle: seq<byte>, took: seq<Frame>, more: nat, end: seq<byte>)
    requires AllValid(seen) && AllPassed(seen) && AllValid(took) && |took| <= 1 && used + more <= |inbox|
    requires start + Received(inbox[..used]) == WireAll(seen) + middle
    requires middle + Received(inbox[used..][..more]) == WireAll(took) + end
    ensures AllValid(seen + took) && start + Received(inbox[..used + more]) == WireAll(seen + took) + end
    ensures PongsFor(seen + took) == PongsFor(seen) + PongsFor(took)
    ensures AllPassed(took) ==> AllPassed(seen + took)
    ensures seen + took != [] ==> AllPassed((seen + took)[..|seen + took| - 1])
    ensures forall r :: Decided(r, took) ==> Decided(r, seen + took)
    ensures forall r :: Waiting(r, took, end, inbox[used..], more) ==> Waiting(r, seen + took, end, inbox, used + more)
  {
    hide Frame.Wire, Frame.Valid, Frame.Opcode, Decode, FromBytes, CloseCode;
    JoinBytes(start, inbox, seen, used, middle, took, more, end);
    if took == [] {
      assert seen + took == seen;
      assert seen != [] ==> AllPassed(seen[..|seen| - 1]);
    } else {
      assert took == [took[0]] && (seen + took)[..|seen|] == seen;
      assert took[..0] == [];
      PongsAppend(seen, took[0]);
      assert took[1..] == [];
    }
  }

  lemma JoinBytes(start: seq<byte>, inbox: seq<NetEvent>, seen: seq<Frame>, used: nat,
                  middle: seq<byte>, took: seq<Frame>, more: nat, end: seq<byte>)
    requires AllValid(seen) && AllValid(took) && used + more <= |inbox|
    requires start + Received(inbox[..used]) == WireAll(seen) + middle
    requires middle + Received(inbox[used..][..more]) == WireAll(took) + end
    ensures AllValid(seen + took) && start + Received(inbox[..used + more]) == WireAll(seen + took) + end
  {
    hide Frame.Wire, Frame.Valid, WireAll, Received;
    var a, b := Received(inbox[..used]), Received(inbox[used..][..more]);
    assert inbox[..used + more] == inbox[..used] + inbox[used..][..more];
    ReceivedAppend(inbox[..used], inbox[used..][..more]);
    WireAllAppend(seen, took);
    Assoc(start, a, b);
    Assoc(WireAll(seen), middle, b);
    Assoc(WireAll(seen), WireAll(took), end);
  }

  /** The outcome was decided by the last frame. */
  ghost predicate Decided(r: Outcome, seen: seq<Frame>) {
    && seen != []
    && var f := seen[|seen| - 1];
      match r
      case Text(payload) => f.Opcode() == OP_TEXT && payload == f.payload
      case Closed(code) => f.Opcode() == OP_CLOSE && code == CloseCode(f.payload)
      case BinaryRefused => f.Opcode() == OP_BINARY
      case TimedOut => false
  }

  /** No frame decided: the buffer holds no complete frame, and the socket was quiet or ended. */
  ghost predicate Waiting(r: Outcome, seen: seq<Frame>, bytes: seq<byte>, inbox: seq<NetEvent>, used: nat)
    requires used <= |inbox|
  {
    && AllPassed(seen)
    && Decode(bytes).None?
    && match r
      case TimedOut => used == |inbox| || (used > 0 && inbox[used - 1] == Quiet)
      case Closed(code) => code == None && used > 0 && inbox[used - 1] == Chunk([])
      case _ => false
  }

  lemma ReceivedOne(inbox: seq<NetEvent>, used: nat)
    requires used < |inbox|
    ensures Received(inbox[..used + 1]) ==
            Received(inbox[..used]) + (if inbox[used].Chunk? then inbox[used].bytes else [])
  {
    var one := [inbox[used]];
    assert one[1..] == [] && inbox[..used + 1] == inbox[..used] + one;
    ReceivedAppend(inbox[..used], one);
  }

  /** Moving one decoded frame from the buffer to the list of seen frames. */
  lemma TakeFrame(seen: seq<Frame>, f: Frame, before: seq<byte>, after: seq<byte>)
    requires AllValid(seen) && f.Valid() && before == f.Wire() + after
    ensures AllValid(seen + [f])
    ensures WireAll(seen) + before == WireAll(seen + [f]) + after
    ensures PongsFor(seen + [f]) == PongsFor(seen) + (if f.Opcode() == OP_PING then [(OP_PONG, f.payload)] else [])
    ensures |f.payload| < Pow256(8)
    ensures (seen + [f])[..|seen|] == seen
    ensures AllPassed(seen) && PassedOver(f) ==> AllPassed(seen + [f])
  {
    assert (seen + [f])[..|seen|] == seen;
    PowValues();
    assert |f.payload| < Pow256(8);
    hide Frame.Wire, Frame.Valid, WireAll, PongsFor, Contents, TextsOf, Pow256;
    AppendFrame(seen, f);
    Assoc(WireAll(seen), f.Wire(), after);
  }

  // ---- Whole streams

  predicate NoStops(frames: seq<Frame>) {
    frames != [] ==> !Stops(frames[0]) && NoStops(frames[1..])
  }

  /** The frames up to the first close or binary frame, that one included. */
  function BeforeStop(frames: seq<Frame>): seq<Frame> {
    if frames == [] then []
    else if Stops(frames[0]) then [frames[0]]
    else [frames[0]] + BeforeStop(frames[1..])
  }

  /** The stream was read to a stop, or to its end without one. */
  ghost predicate Finished(all: seq<Frame>, rest: seq<byte>, complete: bool) {
    || (complete && NoStops(all) && Decode(rest).None?)
    || (all != [] && NoStops(all[..|all| - 1]) && Stops(all[|all| - 1]))
  }

  lemma {:induction false} NoStopsAppend(a: seq<Frame>, b: seq<Frame>)
    ensures NoStops(a + b) <==> NoStops(a) && NoStops(b)
  {
    if a == [] {
      assert a + b == b;
    } else {
      assert (a + b)[1..] == a[1..] + b;
      NoStopsAppend(a[1..], b);
    }
  }

  lemma {:induction false} PassedHaveNoStops(frames: seq<Frame>)
    requires AllPassed(frames)
    ensures NoStops(frames) && TextsOf(frames) == []
  {
    if frames != [] {
      var init, last := frames[..|frames| - 1], frames[|frames| - 1];
      PassedHaveNoStops(init);
      assert [last][1..] == [] && frames == init + [last];
      NoStopsAppend(init, [last]);
      TextsAppend(init, last);
    }
  }

  lemma {:induction false} ListingsAppend(a: seq<Frame>, b: seq<Frame>)
    ensures TextsOf(a + b) == TextsOf(a) + TextsOf(b)
    ensures PongsFor(a + b) == PongsFor(a) + PongsFor(b)
  {
    if b == [] {
      assert a + b == a;
    } else {
      var init, last := b[..|b| - 1], b[|b| - 1];
      assert a + b == (a + init) + [last] && b == init + [last];
      ListingsAppend(a, init);
      TextsAppend(a + init, last);
      TextsAppend(init, last);
      PongsAppend(a + init, last);
      PongsAppend(init, last);
    }
  }

  /** What one more call of the receive loop adds: a call that ended waiting. */
  lemma JoinWaiting(all: seq<Frame>, seen: seq<Frame>, r: Outcome, rest: seq<byte>, inbox: seq<NetEvent>, used: nat)
    requires NoStops(all) && used <= |inbox| && Waiting(r, seen, rest, inbox, used)
    requires forall i | 0 <= i < |inbox| - 1 :: inbox[i] != Chunk([])
    ensures TextsOf(all + seen) == TextsOf(all) && NoStops(all + seen)
    ensures (r.TimedOut? && (used > 0 || used == |inbox|)) || (r.Closed? && used == |inbox|)
    ensures used == |inbox| ==> Finished(all + seen, rest, true)
  {
    hide Frame.Wire, Frame.Valid, Frame.Opcode, Decode, NoStops, TextsOf, PongsFor, Stops, AllPassed;
    ListingsAppend(all, seen);
    PassedHaveNoStops(seen);
    NoStopsAppend(all, seen);
  }

  /** The same for a call that a frame decided. */
  lemma JoinDecided(all: seq<Frame>, seen: seq<Frame>, r: Outcome, rest: seq<byte>)
    requires NoStops(all) && Decided(r, seen) && AllPassed(seen[..|seen| - 1])
    ensures TextsOf(all + seen) == TextsOf(all) + (if r.Text? then [r.payload] else [])
    ensures r.Text? ==> NoStops(all + seen)
    ensures !r.Text? ==> Finished(all + seen, rest, false)
  {
    var init, last := seen[..|seen| - 1], seen[|seen| - 1];
    assert Stops(last) <==> !r.Text?;
    assert NoStops([last]) <==> r.Text? by {
      assert [last][1..] == [];
    }
    hide Frame.Wire, Frame.Valid, Frame.Opcode, NoStops, TextsOf, PongsFor, Stops, AllPassed, CloseCode;
    PassedHaveNoStops(init);
    NoStopsAppend(all, init);
    NoStopsAppend(all + init, [last]);
    ListingsAppend(all, init);
    TextsAppend(all + init, last);
    assert all + seen == (all + init) + [last];
    assert (all + seen)[..|all + seen| - 1] == all + init;
  }

  lemma Shorter(before: seq<byte>, seen: seq<Frame>, rest: seq<byte>)
    requires AllValid(seen)
    ensures seen != [] && before == WireAll(seen) + rest ==> |rest| < |before|
  {
    if seen != [] {
      assert |WireAll(seen)| >= |seen[0].Wire()|;
    }
  }

  lemma {:induction false} BeforeStopSplit(a: seq<Frame>, stop: Frame, b: seq<Frame>)
    requires NoStops(a) && Stops(stop)
    ensures BeforeStop(a + [stop] + b) == a + [stop]
  {
    var frames := a + [stop] + b;
    if a == [] {
      assert frames[0] == stop;
    } else {
      assert frames[1..] == a[1..] + [stop] + b;
      BeforeStopSplit(a[1..], stop, b);
      assert a + [stop] == [a[0]] + (a[1..] + [stop]);
    }
  }

  lemma {:induction false} BeforeStopAll(frames: seq<Frame>)
    requires NoStops(frames)
    ensures BeforeStop(frames) == frames
  {
    if frames != [] {
      BeforeStopAll(frames[1..]);
    }
  }

  /** A reading that is finished went through exactly the frames up to the first stop. */
  lemma FinishedReading(all: seq<Frame>, rest: seq<byte>, complete: bool, more: seq<byte>,
                        frames: seq<Frame>, tail: seq<byte>)
    requires AllValid(all) && AllValid(frames) && Decode(tail).None?
    requires WireAll(all) + (rest + more) == WireAll(frames) + tail
    requires Finished(all, rest, complete) && (complete ==> more == [])
    ensures all == BeforeStop(frames)
  {
    hide Frame.Wire, Frame.Valid, Frame.Opcode, Decode, Stops;
    if |all| <= |frames| {
      SameStream(all, rest + more, frames, tail);
      var left := frames[|all|..];
      assert frames == all + left;
      if all != [] && Stops(all[|all| - 1]) && NoStops(all[..|all| - 1]) {
        var init, stop := all[..|all| - 1], all[|all| - 1];
        BeforeStopSplit(init, stop, left);
        assert all == init + [stop];
      } else {
        assert rest + more == rest;
        if left != [] {
          Assoc(left[0].Wire(), WireAll(left[1..]), tail);
          DecodeWire(left[0], WireAll(left[1..]) + tail);
          assert false;
        }
        assert all == frames;
        BeforeStopAll(all);
      }
    } else {
      SameStream(frames, tail, all, rest + more);
      var extra := all[|frames|..];
      Assoc(extra[0].Wire(), WireAll(extra[1..]), rest + more);
      DecodeWire(extra[0], WireAll(extra[1..]) + (rest + more));
    }
  }

  lemma WholeReading(start: seq<byte>, inbox: seq<NetEvent>, total: nat, all: seq<Frame>, rest: seq<byte>,
                     frames: seq<Frame>, tail: seq<byte>)
    requires total <= |inbox| && AllValid(all) && AllValid(frames) && Decode(tail).None?
    requires start + Received(inbox[..total]) == WireAll(all) + rest
    requires start + Received(inbox) == WireAll(frames) + tail
    requires Finished(all, rest, false) || (total == |inbox| && Finished(all, rest, true))
    ensures all == BeforeStop(frames)
  {
    hide Frame.Wire, Frame.Valid, Frame.Opcode, Decode, WireAll, Finished;
    var first, more := inbox[..total], inbox[total..];
    assert inbox == first + more;
    ReceivedAppend(first, more);
    Assoc(start, Received(first), Received(more));
    Assoc(WireAll(all), rest, Received(more));
    FinishedReading(all, rest, !Finished(all, rest, false), Received(more), frames, tail);
  }
}
