/** Framing of components/tcp_transport/transport_ws.c against a decoder written from sections 5.2
    and 5.3 of RFC 6455. */
module WebSocket {

  import opened Basics

  function Pow2(width: nat): nat {
    if width == 0 then 1 else 2 * Pow2(width - 1)
  }

  /** Bit i of a number, the lowest being bit 0. */
  function Bit(n: nat, i: nat): nat {
    if i == 0 then n % 2 else Bit(n / 2, i - 1)
  }

  /** Exclusive or as `ws_write` applies it. */
  function XorBits(a: nat, b: nat, width: nat): (r: nat)
    ensures r < Pow2(width)
  {
    if width == 0 then 0 else (if a % 2 == b % 2 then 0 else 1) + 2 * XorBits(a / 2, b / 2, width - 1)
  }

  function Xor(a: byte, b: byte): byte {
    assert Pow2(8) == 256 by {
      assert Pow2(4) == 16;
    }
    XorBits(a, b, 8)
  }

  // ---- The frame format of RFC 6455 --------------------------------------

  datatype Frame = Frame(fin: bool, opcode: byte, masked: bool, payload: seq<byte>)

  /** The bytes may hold a frame and more, hold too little of one, or break the rules. */
  datatype Decoded = Good(frame: Frame, rest: seq<byte>) | Incomplete | Invalid

  function BigEndian(bs: seq<byte>): nat {
    if bs == [] then 0 else BigEndian(bs[..|bs| - 1]) * 256 + bs[|bs| - 1]
  }

  /** The number that has a bit exactly where a and b differ in theirs. */
  function Differing(a: nat, b: nat, width: nat): (r: nat)
    ensures r < Pow2(width)
  {
    if width == 0 then 0
    else Differing(a, b, width - 1) + if Bit(a, width - 1) == Bit(b, width - 1) then 0 else Pow2(width - 1)
  }

  lemma {:induction false} DifferingHalves(a: nat, b: nat, width: nat)
    ensures Differing(a, b, width + 1) == (if a % 2 == b % 2 then 0 else 1) + 2 * Differing(a / 2, b / 2, width)
    decreases width
  {
    if width == 0 {
      assert Differing(a, b, 0) == 0;
    } else {
      DifferingHalves(a, b, width - 1);
      assert Bit(a, width) == Bit(a / 2, width - 1) && Bit(b, width) == Bit(b / 2, width - 1);
    }
  }

  /** The exclusive or of the code is that of the standard. */
  lemma {:induction false} XorIsDiffering(a: nat, b: nat, width: nat)
    ensures XorBits(a, b, width) == Differing(a, b, width)
  {
    if width > 0 {
      XorIsDiffering(a / 2, b / 2, width - 1);
      DifferingHalves(a, b, width - 1);
    }
  }

  function Exclusive(a: byte, b: byte): byte {
    assert Pow2(8) == 256 by {
      assert Pow2(4) == 16;
    }
    Differing(a, b, 8)
  }

  /** Each bit of an exclusive or is the sum of the two bits. */
  lemma {:induction false} XorBit(a: nat, b: nat, width: nat, i: nat)
    requires i < width
    ensures Bit(XorBits(a, b, width), i) == (Bit(a, i) + Bit(b, i)) % 2
  {
    var bit := if a % 2 == b % 2 then 0 else 1;
    var half := XorBits(a / 2, b / 2, width - 1);
    assert XorBits(a, b, width) == bit + 2 * half;
    HalvesOf(bit, half);
    if i > 0 {
      XorBit(a / 2, b / 2, width - 1, i - 1);
    }
  }

  /** Section 5.3: octet i is transformed by octet i modulo 4 of the key, both ways. */
  function Transformed(data: seq<byte>, key: seq<byte>): (r: seq<byte>)
    requires |key| == 4
    ensures |r| == |data|
  {
    seq(|data|, i requires 0 <= i < |data| => Exclusive(data[i], key[i % 4]))
  }

  /** What `ws_write` makes of the payload. */
  function Masked(data: seq<byte>, key: seq<byte>): (r: seq<byte>)
    requires |key| == 4
    ensures |r| == |data|
  {
    seq(|data|, i requires 0 <= i < |data| => Xor(data[i], key[i % 4]))
  }

  lemma MaskedIsTransformed(data: seq<byte>, key: seq<byte>)
    requires |key| == 4
    ensures Masked(data, key) == Transformed(data, key)
  {
    forall i | 0 <= i < |data| ensures Masked(data, key)[i] == Transformed(data, key)[i] {
      XorIsDiffering(data[i], key[i % 4], 8);
    }
  }

  function LengthField(b: byte): nat {
    b % 128
  }

  /** How many bytes of extended length follow. */
  function Extended(b: byte): nat {
    if LengthField(b) == 126 then 2 else if LengthField(b) == 127 then 8 else 0
  }

  function KeySize(b: byte): nat {
    if b >= 128 then 4 else 0
  }

  function PayloadLength(bs: seq<byte>): nat
    requires |bs| >= 2 && |bs| >= 2 + Extended(bs[1])
  {
    if Extended(bs[1]) == 0 then LengthField(bs[1]) else BigEndian(bs[2..2 + Extended(bs[1])])
  }

  /** The length must use the shortest form, and 64-bit lengths have their top bit clear. */
  predicate ShortestForm(b: byte, len: nat) {
    match Extended(b)
    case 2 => len >= 126
    case 8 => 0x1_0000 <= len < 0x8000_0000_0000_0000
    case _ => true
  }

  /** The frame at the start of the bytes, whichever length form it uses. */
  function Unframe(bs: seq<byte>): Decoded {
    if |bs| < 2 || |bs| < 2 + Extended(bs[1]) then Incomplete
    else
      var start := 2 + Extended(bs[1]) + KeySize(bs[1]);
      var end := start + PayloadLength(bs);
      if |bs| < end then Incomplete
      else
        var data := bs[start..end];
        var payload := if KeySize(bs[1]) == 4 then Transformed(data, bs[start - 4..start]) else data;
        Good(Frame(bs[0] >= 128, bs[0] % 16, KeySize(bs[1]) == 4, payload), bs[end..])
  }

  /** A frame as the standard allows it: no reserved bits, the shortest length form. */
  function Decode(bs: seq<byte>): Decoded {
    if |bs| >= 2 && |bs| >= 2 + Extended(bs[1]) && (bs[0] / 16 % 8 != 0 || !ShortestForm(bs[1], PayloadLength(bs)))
    then Invalid else Unframe(bs)
  }

  // ---- ws_write ----------------------------------------------------------

  const WS_FIN := 0x80
  const WS_OPCODE_BINARY := 0x02
  const WS_MASK := 0x80
  const WS_SIZE16 := 126

  /** The header `ws_write` builds; `len` is cut to 16 bits in the long form. The flags or-ed
      together share no bits, so they are added. */
  function Header(len: nat, key: seq<byte>): seq<byte> {
    [WS_OPCODE_BINARY + WS_FIN] +
    (if len > 125 then [WS_SIZE16 + WS_MASK, len / 256 % 256, len % 256]
     else [len + WS_MASK]) + key
  }

  /** Builds the header and masks the payload in place. */
  method WsWrite(buffer: array<byte>, len: nat, key: seq<byte>) returns (header: seq<byte>)
    requires len <= buffer.Length && |key| == 4
    modifies buffer
    ensures header == Header(len, key)
    ensures buffer[..len] == Masked(old(buffer[..len]), key) && buffer[len..] == old(buffer[len..])
    ensures forall k, i {:trigger Bit(buffer[k], i)} | 0 <= k < len && 0 <= i < 8 ::
              Bit(buffer[k], i) == (Bit(old(buffer[k]), i) + Bit(key[k % 4], i)) % 2
  {
    header := [WS_OPCODE_BINARY + WS_FIN];
    if len > 125 {
      header := header + [WS_SIZE16 + WS_MASK];
      header := header + [len / 256 % 256];
      header := header + [len % 256];
    } else {
      header := header + [len + WS_MASK];
    }
    header := header + key;
    var i := 0;
    while i < len
      invariant 0 <= i <= len
      invariant forall k | 0 <= k < i :: buffer[k] == Xor(old(buffer[k]), key[k % 4])
      invariant forall k | i <= k < buffer.Length :: buffer[k] == old(buffer[k])
    {
      buffer[i] := Xor(buffer[i], key[i % 4]);
      i := i + 1;
    }
    forall k, b {:trigger Bit(buffer[k], b)} | 0 <= k < len && 0 <= b < 8
      ensures Bit(buffer[k], b) == (Bit(old(buffer[k]), b) + Bit(key[k % 4], b)) % 2
    {
      XorBit(old(buffer[k]), key[k % 4], 8, b);
    }
  }

  lemma HalvesOf(bit: nat, half: nat)
    requires bit < 2
    ensures (bit + 2 * half) % 2 == bit && (bit + 2 * half) / 2 == half
  {
  }

  lemma {:induction false} XorBitsTwice(a: nat, b: nat, width: nat)
    requires a < Pow2(width)
    ensures XorBits(XorBits(a, b, width), b, width) == a
  {
    if width > 0 {
      var bit := if a % 2 == b % 2 then 0 else 1;
      var half := XorBits(a / 2, b / 2, width - 1);
      assert XorBits(a, b, width) == bit + 2 * half;
      HalvesOf(bit, half);
      XorBitsTwice(a / 2, b / 2, width - 1);
    }
  }

  lemma XorTwice(a: byte, k: byte)
    ensures Xor(Xor(a, k), k) == a
  {
    assert Pow2(4) == 16;
    XorBitsTwice(a, k, 8);
  }

  /** Masking with the same key again gives the data back. */
  lemma MaskTwice(data: seq<byte>, key: seq<byte>)
    requires |key| == 4
    ensures Masked(Masked(data, key), key) == data
  {
    forall i | 0 <= i < |data| ensures Masked(Masked(data, key), key)[i] == data[i] {
      XorTwice(data[i], key[i % 4]);
    }
  }

  function Pow256(n: nat): nat {
    if n == 0 then 1 else 256 * Pow256(n - 1)
  }

  /** The first byte counts most. */
  lemma {:induction false} FirstByteCountsMost(b: byte, bs: seq<byte>)
    ensures BigEndian([b] + bs) == b * Pow256(|bs|) + BigEndian(bs)
    decreases |bs|
  {
    if bs == [] {
      assert [b] + bs == [b] && [b][..0] == [];
    } else {
      var front := bs[..|bs| - 1];
      assert ([b] + bs)[..|bs|] == [b] + front;
      FirstByteCountsMost(b, front);
      Scale(b, Pow256(|front|));
    }
  }

  lemma Scale(x: nat, y: nat)
    ensures x * (256 * y) == 256 * (x * y)
  {
  }

  lemma TwoBytes(hi: byte, lo: byte)
    ensures BigEndian([hi, lo]) == hi * 256 + lo
  {
    assert [hi, lo][..1] == [hi] && [hi][..0] == [];
    assert BigEndian([hi]) == hi;
  }

  lemma LongLength(len: nat)
    ensures BigEndian([len / 256 % 256, len % 256]) == len % 0x1_0000
  {
    TwoBytes(len / 256 % 256, len % 256);
  }

  /** What a peer reads from the header: the length modulo 2^16, and where the key is. */
  lemma HeaderReads(len: nat, key: seq<byte>, data: seq<byte>)
    requires |key| == 4
    ensures var bs := Header(len, key) + data;
            var size := |Header(len, key)|;
            && |bs| >= 2 + Extended(bs[1]) && KeySize(bs[1]) == 4 && size == 2 + Extended(bs[1]) + 4
            && bs[0] == WS_OPCODE_BINARY + WS_FIN == 0x82
            && bs[size - 4..size] == key && bs[size..] == data
            && PayloadLength(bs) == (if len <= 125 then len else len % 0x1_0000)
            && Extended(bs[1]) == if len <= 125 then 0 else 2
  {
    var bs := Header(len, key) + data;
    if len <= 125 {
      assert bs[1] == len + WS_MASK;
    } else {
      LongLength(len);
      assert bs[1] == WS_SIZE16 + WS_MASK;
      assert bs[2..4] == [len / 256 % 256, len % 256];
    }
  }

  lemma ShortIsWhole(payload: seq<byte>, key: seq<byte>)
    requires |key| == 4 && |payload| <= 0xFFFF
    ensures Decode(Header(|payload|, key) + Masked(payload, key)) == Good(Frame(true, WS_OPCODE_BINARY, true, payload), [])
  {
    var data := Masked(payload, key);
    var bs := Header(|payload|, key) + data;
    var size := |Header(|payload|, key)|;
    HeaderReads(|payload|, key, data);
    assert PayloadLength(bs) == |payload|;
    assert |bs| == size + |payload|;
    MaskedFrame(bs, payload, key, size);
  }

  lemma MaskedFrame(bs: seq<byte>, payload: seq<byte>, key: seq<byte>, start: nat)
    requires |key| == 4 && |bs| >= 2 && |bs| >= 2 + Extended(bs[1]) && KeySize(bs[1]) == 4
    requires start == 6 + Extended(bs[1]) && PayloadLength(bs) == |payload| && |bs| == start + |payload|
    requires bs[start - 4..start] == key && bs[start..] == Masked(payload, key)
    ensures Unframe(bs) == Good(Frame(bs[0] >= 128, bs[0] % 16, true, payload), [])
  {
    MaskTwice(payload, key);
    MaskedIsTransformed(Masked(payload, key), key);
    assert bs[start..|bs|] == bs[start..] && bs[|bs|..] == [];
  }

  lemma LongIsCut(payload: seq<byte>, key: seq<byte>)
    requires |key| == 4 && |payload| > 0xFFFF
    ensures var d := Decode(Header(|payload|, key) + Masked(payload, key));
            d.Good? ==> d.rest != []
  {
    var data := Masked(payload, key);
    HeaderReads(|payload|, key, data);
  }

  /** The frame decodes to the payload exactly up to 65535 bytes; longer lengths are cut. */
  lemma WriteThenDecode(payload: seq<byte>, key: seq<byte>)
    requires |key| == 4
    ensures Decode(Header(|payload|, key) + Masked(payload, key)) == Good(Frame(true, WS_OPCODE_BINARY, true, payload), [])
       <==> |payload| <= 0xFFFF
  {
    if |payload| <= 0xFFFF {
      ShortIsWhole(payload, key);
    } else {
      LongIsCut(payload, key);
    }
  }

  // ---- ws_read -----------------------------------------------------------

  /** A 32-bit signed int. */
  function ToInt32(x: nat): int
    requires x < 0x1_0000_0000
  {
    if x < 0x8000_0000 then x else x - 0x1_0000_0000
  }

  /** Length bytes put together by shifting, as `ws_read` does with its unsigned chars. */
  function Short(hi: byte, lo: byte): nat {
    hi * 0x100 + lo
  }

  function Long(a: byte, b: byte, c: byte, d: byte): (r: nat)
    ensures r < 0x1_0000_0000
  {
    Short(a, b) * 0x1_0000 + Short(c, d)
  }

  /** The length `ws_read` takes from the header; -1 when it needs more than 32 bits. */
  function Announced(bs: seq<byte>): int
    requires |bs| >= 2 && |bs| >= 2 + Extended(bs[1])
  {
    if Extended(bs[1]) == 2 then Short(bs[2], bs[3])
    else if Extended(bs[1]) == 8 then
      (if bs[2] != 0 || bs[3] != 0 || bs[4] != 0 || bs[5] != 0 then -1 else ToInt32(Long(bs[6], bs[7], bs[8], bs[9])))
    else LengthField(bs[1])
  }

  /** The most that is taken from a buffer of `len` bytes; the short form does not count the header. */
  function Room(b: byte, len: nat): int {
    if Extended(b) == 0 then len else len - 2 - Extended(b)
  }

  function ReadLength(bs: seq<byte>): int
    requires |bs| >= 2 && |bs| >= 2 + Extended(bs[1])
  {
    if Announced(bs) > Room(bs[1], |bs|) then Room(bs[1], |bs|) else Announced(bs)
  }

  /** When `ws_read` stays inside a buffer that holds the header: in the short form if the field fits
      behind the two header bytes, in the 16-bit form always, in the 64-bit form if the length fits
      an int. */
  predicate StaysInside(bs: seq<byte>)
    requires |bs| >= 2 && |bs| >= 2 + Extended(bs[1])
  {
    match Extended(bs[1])
    case 2 => true
    case 8 => bs[2] == 0 && bs[3] == 0 && bs[4] == 0 && bs[5] == 0 && bs[6] < 128
    case _ => LengthField(bs[1]) <= |bs| - 2
  }

  lemma StaysInsideExactly(bs: seq<byte>)
    requires |bs| >= 2 && |bs| >= 2 + Extended(bs[1])
    ensures StaysInside(bs) <==> 0 <= ReadLength(bs) <= |bs| - 2 - Extended(bs[1])
  {
    if Extended(bs[1]) == 8 {
      TopBit(bs[6], bs[7], bs[8], bs[9]);
    }
  }

  lemma TopBit(a: byte, b: byte, c: byte, d: byte)
    ensures a < 128 <==> Long(a, b, c, d) < 0x8000_0000
  {
    assert Short(a, b) < 0x8000 <==> a < 128;
  }

  /** Reads the header: where the payload starts, and the length to take. */
  method ReadHeader(buffer: array<byte>) returns (data: nat, n: int)
    requires buffer.Length >= 2 && buffer.Length >= 2 + Extended(buffer[1])
    ensures data == 2 + Extended(buffer[1]) && n == ReadLength(buffer[..])
  {
    data := 1;
    n := LengthField(buffer[data]);
    data := data + 1;
    var room: int := buffer.Length;
    if n == 126 {
      n := Short(buffer[data], buffer[data + 1]);
      room := buffer.Length - 4;
      data := data + 2;
    } else if n == 127 {
      if buffer[data] != 0 || buffer[data + 1] != 0 || buffer[data + 2] != 0 || buffer[data + 3] != 0 {
        n := -1;
      } else {
        n := ToInt32(Long(buffer[data + 4], buffer[data + 5], buffer[data + 6], buffer[data + 7]));
      }
      data := data + 8;
      room := buffer.Length - 10;
    }
    if n > room {
      n := room;
    }
  }

  /** Reading an unmasked frame from a buffer that has been filled: the payload is moved to the
      front, over the header and itself. */
  method WsRead(buffer: array<byte>) returns (n: int)
    requires buffer.Length >= 2 && buffer.Length >= 2 + Extended(buffer[1]) && KeySize(buffer[1]) == 0
    requires StaysInside(buffer[..])
    modifies buffer
    ensures n == ReadLength(old(buffer[..])) && 0 <= n <= buffer.Length
    ensures var start := 2 + Extended(old(buffer[1]));
            buffer[..n] == old(buffer[..])[start..start + n] && buffer[n..] == old(buffer[n..])
  {
    StaysInsideExactly(buffer[..]);
    var data;
    data, n := ReadHeader(buffer);
    MoveDown(buffer, data, n);
  }

  /** `memmove` to the front of the buffer. */
  method MoveDown(buffer: array<byte>, start: nat, n: nat)
    requires start + n <= buffer.Length
    modifies buffer
    ensures buffer[..n] == old(buffer[..])[start..start + n] && buffer[n..] == old(buffer[n..])
  {
    var i := 0;
    while i < n
      invariant 0 <= i <= n
      invariant forall k | 0 <= k < i :: buffer[k] == old(buffer[start + k])
      invariant forall k | i <= k < buffer.Length :: buffer[k] == old(buffer[k])
    {
      buffer[i] := buffer[start + i];
      i := i + 1;
    }
  }

  // ---- A complete frame --------------------------------------------------

  lemma Snoc(bs: seq<byte>)
    requires bs != []
    ensures BigEndian(bs) == BigEndian(bs[..|bs| - 1]) * 256 + bs[|bs| - 1]
  {
  }

  lemma FourMore(bs: seq<byte>)
    requires |bs| >= 4
    ensures var k := |bs| - 4;
            BigEndian(bs) == BigEndian(bs[..k]) * 0x1_0000_0000 + Long(bs[k], bs[k + 1], bs[k + 2], bs[k + 3])
  {
    var k := |bs| - 4;
    Snoc(bs);
    Snoc(bs[..k + 3]);
    Snoc(bs[..k + 2]);
    Snoc(bs[..k + 1]);
    assert bs[..k + 3][..k + 2] == bs[..k + 2];
    assert bs[..k + 2][..k + 1] == bs[..k + 1];
    assert bs[..k + 1][..k] == bs[..k];
  }

  lemma EightBytes(bs: seq<byte>)
    requires |bs| == 8
    ensures BigEndian(bs) == Long(bs[0], bs[1], bs[2], bs[3]) * 0x1_0000_0000 + Long(bs[4], bs[5], bs[6], bs[7])
  {
    FourMore(bs);
    FourMore(bs[..4]);
    assert bs[..4][..0] == [];
  }

  lemma NoHigh(n: nat, hi: nat, lo: nat)
    requires n == hi * 0x1_0000_0000 + lo && n < 0x8000_0000
    ensures hi == 0 && n == lo
  {
  }

  lemma ZeroBytes(a: byte, b: byte, c: byte, d: byte)
    ensures Long(a, b, c, d) == 0 ==> a == 0 && b == 0 && c == 0 && d == 0
  {
    assert Long(a, b, c, d) == 0 ==> Short(a, b) == 0 && Short(c, d) == 0;
  }

  /** On lengths that fit an int, the header says to `ws_read` what it says to the standard. */
  lemma AnnouncedIsLength(bs: seq<byte>)
    requires |bs| >= 2 && |bs| >= 2 + Extended(bs[1]) && PayloadLength(bs) < 0x8000_0000
    ensures Announced(bs) == PayloadLength(bs)
  {
    if Extended(bs[1]) == 2 {
      TwoBytes(bs[2], bs[3]);
      assert bs[2..4] == [bs[2], bs[3]];
    } else if Extended(bs[1]) == 8 {
      var ext := bs[2..10];
      EightBytes(ext);
      assert ext[0] == bs[2] && ext[1] == bs[3] && ext[2] == bs[4] && ext[3] == bs[5];
      assert ext[4] == bs[6] && ext[5] == bs[7] && ext[6] == bs[8] && ext[7] == bs[9];
      NoHigh(PayloadLength(bs), Long(bs[2], bs[3], bs[4], bs[5]), Long(bs[6], bs[7], bs[8], bs[9]));
      ZeroBytes(bs[2], bs[3], bs[4], bs[5]);
    }
  }

  /** The buffer starts with a complete unmasked frame, in any of the three length forms; what
      comes after the first `got` bytes is left from before. */
  ghost predicate HoldsFrame(bs: seq<byte>, got: nat) {
    got <= |bs| < 0x8000_0000 && Unframe(bs[..got]).Good? && !Unframe(bs[..got]).frame.masked
  }

  lemma SliceOfPrefix(bs: seq<byte>, got: nat, a: nat, b: nat)
    requires a <= b <= got <= |bs|
    ensures bs[..got][a..b] == bs[a..b]
  {
  }

  lemma FrameIsFound(bs: seq<byte>, got: nat)
    requires HoldsFrame(bs, got)
    ensures |bs| >= 2 && |bs| >= 2 + Extended(bs[1]) && KeySize(bs[1]) == 0
    ensures var start := 2 + Extended(bs[1]);
            var payload := Unframe(bs[..got]).frame.payload;
            ReadLength(bs) == |payload| && start + |payload| <= |bs| && bs[start..start + |payload|] == payload
  {
    var cs := bs[..got];
    assert cs[1] == bs[1];
    var start := 2 + Extended(bs[1]);
    SliceOfPrefix(bs, got, 2, start);
    assert PayloadLength(cs) == PayloadLength(bs);
    AnnouncedIsLength(bs);
    SliceOfPrefix(bs, got, start, start + PayloadLength(cs));
  }

  /** `ws_read` of a complete unmasked frame returns exactly its payload. */
  method ReadFrame(buffer: array<byte>, got: nat) returns (n: int)
    requires HoldsFrame(buffer[..], got)
    modifies buffer
    ensures var payload := Unframe(old(buffer[..got])).frame.payload;
            n == |payload| && buffer[..n] == payload
  {
    FrameIsFound(buffer[..], got);
    StaysInsideExactly(buffer[..]);
    assert buffer[..][..got] == buffer[..got];
    n := WsRead(buffer);
  }
}
