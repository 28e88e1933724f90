/** The WebSocket frame codec of dist/backend/proxyServer.js (`#decodeFrame` and
    `#encodeFrame`): the base framing of section 5.2 of RFC 6455 with the client masking
    of section 5.3, as far as the proxy implements it. */
module FrameCodec {
  import opened Wrappers
  import opened Json
  import opened Text

  /** A byte of a Node `Buffer`. */
  newtype Byte = x: int | 0 <= x < 256

  function Pow2(n: nat): (p: nat)
    ensures p >= 1
  {
    if n == 0 then 1 else 2 * Pow2(n - 1)
  }

  /** Bitwise exclusive or of two naturals, one bit at a time from the lowest. */
  function XorBits(a: nat, b: nat): nat
    decreases a + b
  {
    if a == 0 && b == 0 then 0
    else 2 * XorBits(a / 2, b / 2) + (if a % 2 == b % 2 then 0 else 1)
  }

  lemma {:induction false} XorBitsBelow(a: nat, b: nat, n: nat)
    requires a < Pow2(n) && b < Pow2(n)
    ensures XorBits(a, b) < Pow2(n)
    decreases n
  {
    if !(a == 0 && b == 0) {
      XorBitsBelow(a / 2, b / 2, n - 1);
    }
  }

  lemma {:induction false} XorBitsTwice(a: nat, k: nat)
    ensures XorBits(XorBits(a, k), k) == a
    decreases a + k
  {
    if !(a == 0 && k == 0) {
      var c := XorBits(a, k);
      assert c / 2 == XorBits(a / 2, k / 2);
      XorBitsTwice(a / 2, k / 2);
    }
  }

  /** The `^` of two bytes. The other bit operations the codec uses are arithmetic on a
      byte: `b & 0x0f` is `b % 16`, `b & 0x7f` is `b % 128`, `(b & 0x80) === 0x80` is
      `b >= 128`, and `0x80 | n` is `128 + n` for `n < 128`. */
  function Xor(a: Byte, b: Byte): Byte {
    XorBitsBelow(a as nat, b as nat, 8);
    XorBits(a as nat, b as nat) as Byte
  }

  /** XOR with the same key byte twice is the identity. */
  lemma XorTwice(a: Byte, k: Byte)
    ensures Xor(Xor(a, k), k) == a
  {
    XorBitsTwice(a as nat, k as nat);
  }

  /** 256 to the power `w`: the number of values a `w`-byte big-endian field can hold. */
  function Pow256(w: nat): (p: nat)
    ensures p >= 1
  {
    if w == 0 then 1 else 256 * Pow256(w - 1)
  }

  /** The value of a big-endian unsigned field, as `readUInt16BE` and
      `readBigUInt64BE` read it. */
  function BigEndian(s: seq<Byte>): (n: nat)
    ensures n < Pow256(|s|)
  {
    if s == [] then 0 else BigEndian(s[..|s| - 1]) * 256 + s[|s| - 1] as nat
  }

  /** `n` as a `w`-byte big-endian field, as `writeUInt16BE` and `writeBigUInt64BE` write it. */
  function BigEndianBytes(n: nat, w: nat): (s: seq<Byte>)
    requires n < Pow256(w)
    ensures |s| == w
  {
    if w == 0 then [] else BigEndianBytes(n / 256, w - 1) + [(n % 256) as Byte]
  }

  lemma {:induction false} BigEndianRoundTrip(n: nat, w: nat)
    requires n < Pow256(w)
    ensures BigEndian(BigEndianBytes(n, w)) == n
  {
    if w > 0 {
      var s := BigEndianBytes(n, w);
      assert s[..|s| - 1] == BigEndianBytes(n / 256, w - 1);
      BigEndianRoundTrip(n / 256, w - 1);
    }
  }

  /** The largest payload a 64-bit length field can describe, plus one. */
  const LengthLimit: nat := 0x1_0000_0000_0000_0000

  /** A decoded frame: the opcode and the payload bytes, unmasked. */
  datatype Frame = Frame(opcode: nat, payload: seq<Byte>)

  /** `buffer[i]` combined with a bit operator: past the end it is `undefined`, which
      the operator reads as 0. */
  function ByteAt(buffer: seq<Byte>, i: nat): (b: Byte)
    ensures i < |buffer| ==> b == buffer[i]
    ensures i >= |buffer| ==> b == 0
  {
    if i < |buffer| then buffer[i] else 0
  }

  /** `buffer.slice(start, end)` with `start <= end`: the ends are clamped to the buffer. */
  function Slice(buffer: seq<Byte>, start: nat, end: nat): (r: seq<Byte>)
    requires start <= end
    ensures |r| == (if end <= |buffer| then end - start else if start <= |buffer| then |buffer| - start else 0)
    ensures start <= |buffer| ==> r == buffer[start..if end <= |buffer| then end else |buffer|]
  {
    if start >= |buffer| then [] else if end <= |buffer| then buffer[start..end] else buffer[start..]
  }

  /** Node's message when a read at `offset` needs more bytes than the buffer has and
      the buffer still holds at least one field's worth from the start. */
  function OffsetOutOfRange(limit: nat, offset: nat): string {
    "The value of \"offset\" is out of range. It must be >= 0 and <= " + NatToString(limit)
      + ". Received " + NatToString(offset)
  }

  /** Node's message when the buffer is shorter than the field itself. */
  const OutsideBufferBounds := "Attempt to access memory outside buffer bounds"

  /** The opcode: the low four bits of the first byte. */
  function Opcode(buffer: seq<Byte>): (op: nat)
    ensures op < 16
  {
    ByteAt(buffer, 0) as nat % 16
  }

  /** The MASK bit of the second byte. */
  predicate Masked(buffer: seq<Byte>) {
    ByteAt(buffer, 1) >= 128
  }

  /** The length of the payload and the offset just past the length field: the seven-bit
      length, or the 16-bit (marker 126) or 64-bit (marker 127) big-endian field after it.
      A field that runs past the end of the buffer throws the engine's RangeError. */
  function PayloadLength(buffer: seq<Byte>): (r: Result<(nat, nat), JsError>)
    ensures r.Success? ==> r.value.1 in {2, 4, 10} && r.value.1 <= |buffer| + 2
    ensures r.Success? && r.value.1 == 2 ==> r.value.0 == ByteAt(buffer, 1) as nat % 128 < 126
    ensures r.Success? && r.value.1 > 2 ==> r.value.1 <= |buffer| && r.value.0 == BigEndian(buffer[2..r.value.1])
    ensures r.Failure? <==>
      (ByteAt(buffer, 1) % 128 == 126 && |buffer| < 4) || (ByteAt(buffer, 1) % 128 == 127 && |buffer| < 10)
    ensures r.Success? ==>
      && (r.value.1 == 2 <==> ByteAt(buffer, 1) % 128 < 126)
      && (r.value.1 == 4 <==> ByteAt(buffer, 1) % 128 == 126)
      && (r.value.1 == 10 <==> ByteAt(buffer, 1) % 128 == 127)
    ensures r.Failure? ==> r.error.RangeError?
  {
    var short := ByteAt(buffer, 1) as nat % 128;
    if short == 126 then
      if |buffer| < 4 then Failure(RangeError(OffsetOutOfRange(|buffer| - 2, 2)))
      else Success((BigEndian(buffer[2..4]), 4))
    else if short == 127 then
      if |buffer| < 8 then Failure(RangeError(OutsideBufferBounds))
      else if |buffer| < 10 then Failure(RangeError(OffsetOutOfRange(|buffer| - 8, 2)))
      else Success((BigEndian(buffer[2..10]), 10))
    else Success((short, 2))
  }

  /** `key[i % 4]` read by `^=`: a missing key byte is `undefined`, read as 0. */
  function Unmask(data: seq<Byte>, key: seq<Byte>): (r: seq<Byte>)
    ensures |r| == |data|
  {
    seq(|data|, i requires 0 <= i < |data| => Xor(data[i], ByteAt(key, i % 4)))
  }

  /** `#decodeFrame(buffer)` on the bytes of one `data` chunk. The payload is whatever of
      the announced length the chunk holds; bytes after it are ignored. */
  function DecodeFrame(buffer: seq<Byte>): Result<Frame, JsError> {
    var (length, offset) :- PayloadLength(buffer);
    if Masked(buffer) then
      var key := Slice(buffer, offset, offset + 4);
      Success(Frame(Opcode(buffer), Unmask(Slice(buffer, offset + 4, offset + 4 + length), key)))
    else
      Success(Frame(Opcode(buffer), Slice(buffer, offset, offset + length)))
  }

  /** Decoding throws exactly when reading the length field does, and then with a
      RangeError; otherwise the opcode is the low nibble of the first byte and the payload
      holds at most the announced length. */
  lemma DecodeFrameOutcome(buffer: seq<Byte>)
    ensures DecodeFrame(buffer).Failure? <==> PayloadLength(buffer).Failure?
    ensures DecodeFrame(buffer).Failure? ==> DecodeFrame(buffer).error.RangeError?
    ensures DecodeFrame(buffer).Success? ==>
      && DecodeFrame(buffer).value.opcode == Opcode(buffer)
      && |DecodeFrame(buffer).value.payload| <= PayloadLength(buffer).value.0
  {
  }

  /** What `DecodeFrame` returns once the length field has been read. */
  lemma DecodeAfterLength(buffer: seq<Byte>, length: nat, offset: nat)
    requires PayloadLength(buffer) == Success((length, offset))
    ensures Masked(buffer) ==>
      DecodeFrame(buffer) == Success(Frame(Opcode(buffer),
        Unmask(Slice(buffer, offset + 4, offset + 4 + length), Slice(buffer, offset, offset + 4))))
    ensures !Masked(buffer) ==> DecodeFrame(buffer) == Success(Frame(Opcode(buffer), Slice(buffer, offset, offset + length)))
  {
  }

  /** The second byte and the extended length field: the seven-bit length below 126,
      marker 126 and 16 bits below 65536, marker 127 and 64 bits otherwise. */
  function LengthField(length: nat, masked: bool): (f: seq<Byte>)
    requires length < LengthLimit
    ensures |f| == (if length < 126 then 1 else if length < 65536 then 3 else 9)
  {
    var maskBit: Byte := if masked then 128 else 0;
    if length < 126 then [maskBit + length as Byte]
    else if length < 65536 then [maskBit + 126] + BigEndianBytes(length, 2)
    else [maskBit + 127] + BigEndianBytes(length, 8)
  }

  /** `#encodeFrame(data)` on the bytes of `data`: a final text frame, never masked. */
  function EncodeFrame(payload: seq<Byte>): (frame: seq<Byte>)
    requires |payload| < LengthLimit
    ensures |frame| == 1 + |LengthField(|payload|, false)| + |payload|
    ensures frame[|frame| - |payload|..] == payload
  {
    [0x81] + LengthField(|payload|, false) + payload
  }

  /** The header of an encoded frame: 0x81, the mask bit clear, and the shortest of the
      three length forms. */
  lemma EncodeHeaderShape(payload: seq<Byte>)
    requires |payload| < LengthLimit
    ensures var frame := EncodeFrame(payload);
      var n := |payload|;
      && frame[0] == 0x81
      && frame[1] < 128
      && (n < 126 ==> |frame| == 2 + n && frame[1] as nat == n)
      && (126 <= n < 65536 ==> |frame| == 4 + n && frame[1] == 126 && BigEndian(frame[2..4]) == n)
      && (65536 <= n ==> |frame| == 10 + n && frame[1] == 127 && BigEndian(frame[2..10]) == n)
  {
    var frame := EncodeFrame(payload);
    var n := |payload|;
    if n < 126 {
      assert frame[1] == n as Byte;
    } else if n < 65536 {
      assert frame[2..4] == BigEndianBytes(n, 2);
      BigEndianRoundTrip(n, 2);
    } else {
      assert frame[2..10] == BigEndianBytes(n, 8);
      BigEndianRoundTrip(n, 8);
    }
  }

  /** The header sizes at the boundaries of the three forms. */
  lemma EncodeBoundaryLengths(p0: seq<Byte>, p125: seq<Byte>, p126: seq<Byte>, p65535: seq<Byte>, p65536: seq<Byte>)
    requires |p0| == 0 && |p125| == 125 && |p126| == 126 && |p65535| == 65535 && |p65536| == 65536
    ensures |EncodeFrame(p0)| == 2 && |EncodeFrame(p125)| == 127
    ensures |EncodeFrame(p126)| == 130 && |EncodeFrame(p65535)| == 65539 && |EncodeFrame(p65536)| == 65546
  {
  }

  /** The second byte of a frame whose length field was written for `length`. */
  lemma SecondByte(length: nat, masked: bool, first: Byte, rest: seq<Byte>)
    requires length < LengthLimit
    ensures var buffer := [first] + LengthField(length, masked) + rest;
      && |buffer| >= 2 + |rest|
      && buffer[1] as nat % 128 == (if length < 126 then length else if length < 65536 then 126 else 127)
      && (Masked(buffer) <==> masked)
      && Opcode(buffer) == first as nat % 16
  {
    var buffer := [first] + LengthField(length, masked) + rest;
    assert buffer[0] == first && buffer[1] == LengthField(length, masked)[0];
  }

  lemma ReadLength16(length: nat, masked: bool, first: Byte, rest: seq<Byte>)
    requires 126 <= length < 65536
    ensures var buffer := [first] + LengthField(length, masked) + rest;
      |buffer| >= 4 && BigEndian(buffer[2..4]) == length
  {
    var buffer := [first] + LengthField(length, masked) + rest;
    assert buffer[2..4] == BigEndianBytes(length, 2);
    BigEndianRoundTrip(length, 2);
  }

  lemma ReadLength64(length: nat, masked: bool, first: Byte, rest: seq<Byte>)
    requires 65536 <= length < LengthLimit
    ensures var buffer := [first] + LengthField(length, masked) + rest;
      |buffer| >= 10 && BigEndian(buffer[2..10]) == length
  {
    var buffer := [first] + LengthField(length, masked) + rest;
    assert buffer[2..10] == BigEndianBytes(length, 8);
    BigEndianRoundTrip(length, 8);
  }

  /** Decoding reads back the header an encoder wrote. */
  lemma DecodeLengthOfField(length: nat, masked: bool, first: Byte, rest: seq<Byte>)
    requires length < LengthLimit
    ensures var buffer := [first] + LengthField(length, masked) + rest;
      && PayloadLength(buffer) == Success((length, 1 + |LengthField(length, masked)|))
      && (Masked(buffer) <==> masked)
      && Opcode(buffer) == first as nat % 16
  {
    SecondByte(length, masked, first, rest);
    if 126 <= length < 65536 {
      ReadLength16(length, masked, first, rest);
    } else if 65536 <= length {
      ReadLength64(length, masked, first, rest);
    }
  }

  /** Decoding an encoded frame gives opcode 1 and exactly the payload, whatever bytes
      follow it in the chunk. */
  lemma DecodeEncodeRoundTrip(payload: seq<Byte>, rest: seq<Byte>)
    requires |payload| < LengthLimit
    ensures DecodeFrame(EncodeFrame(payload) + rest) == Success(Frame(1, payload))
  {
    var field := LengthField(|payload|, false);
    var buffer := EncodeFrame(payload) + rest;
    assert buffer == [0x81] + field + (payload + rest);
    DecodeLengthOfField(|payload|, false, 0x81, payload + rest);
    var offset := 1 + |field|;
    assert buffer[offset..offset + |payload|] == payload;
  }

  /** The same for the frame alone. */
  lemma DecodeEncode(payload: seq<Byte>)
    requires |payload| < LengthLimit
    ensures DecodeFrame(EncodeFrame(payload)) == Success(Frame(1, payload))
  {
    DecodeEncodeRoundTrip(payload, []);
    assert EncodeFrame(payload) + [] == EncodeFrame(payload);
  }

  /** A chunk that stops inside the payload gives the bytes that arrived. */
  lemma DecodeTruncated(payload: seq<Byte>, k: nat)
    requires |payload| < LengthLimit && k <= |payload|
    ensures var frame := EncodeFrame(payload);
      DecodeFrame(frame[..|frame| - |payload| + k]) == Success(Frame(1, payload[..k]))
  {
    var field := LengthField(|payload|, false);
    var frame := EncodeFrame(payload);
    var chunk := frame[..|frame| - |payload| + k];
    assert chunk == [0x81] + field + payload[..k];
    DecodeLengthOfField(|payload|, false, 0x81, payload[..k]);
    var offset := 1 + |field|;
    assert Slice(chunk, offset, offset + |payload|) == chunk[offset..] == payload[..k];
  }

  /** `payload[i] ^ mask[i % 4]`, the masking a client applies (section 5.3 of RFC 6455). */
  function Mask(payload: seq<Byte>, key: seq<Byte>): (r: seq<Byte>)
    requires |key| == 4
    ensures |r| == |payload|
  {
    seq(|payload|, i requires 0 <= i < |payload| => Xor(payload[i], key[i % 4]))
  }

  /** The client frame the tests build: 0x81, the mask bit set, the key, the masked payload. */
  function EncodeClientFrame(payload: seq<Byte>, key: seq<Byte>): seq<Byte>
    requires |payload| < LengthLimit && |key| == 4
  {
    [0x81] + LengthField(|payload|, true) + key + Mask(payload, key)
  }

  /** Masking twice with the same key is the identity. */
  lemma UnmaskMask(payload: seq<Byte>, key: seq<Byte>)
    requires |key| == 4
    ensures Unmask(Mask(payload, key), key) == payload
  {
    var r := Unmask(Mask(payload, key), key);
    forall i | 0 <= i < |payload| ensures r[i] == payload[i] {
      XorTwice(payload[i], key[i % 4]);
    }
  }

  /** With the mask bit set, byte `i` of the decoded payload is wire byte `i` XOR
      `key[i % 4]`, so a client-masked frame decodes to the original payload. */
  lemma DecodeClientFrame(payload: seq<Byte>, key: seq<Byte>)
    requires |payload| < LengthLimit && |key| == 4
    ensures DecodeFrame(EncodeClientFrame(payload, key)) == Success(Frame(1, payload))
  {
    var masked := Mask(payload, key);
    ClientFrameLayout(payload, key);
    DecodeMaskedFrame(0x81, key, masked);
    UnmaskMask(payload, key);
  }

  /** The client frame is the header byte, the length field, then the key and the data. */
  lemma ClientFrameLayout(payload: seq<Byte>, key: seq<Byte>)
    requires |payload| < LengthLimit && |key| == 4
    ensures EncodeClientFrame(payload, key) == [0x81] + LengthField(|payload|, true) + (key + Mask(payload, key))
  {
    var field := LengthField(|payload|, true);
    var masked := Mask(payload, key);
    assert [0x81] + field + key + masked == [0x81] + field + (key + masked);
  }

  /** With the mask bit set, byte `i` of the decoded payload is wire byte `i` of the
      payload XOR `key[i % 4]`; a chunk that carries any payload byte carries the whole key. */
  lemma MaskedPayloadBytes(buffer: seq<Byte>)
    requires PayloadLength(buffer).Success? && Masked(buffer)
    ensures var length := PayloadLength(buffer).value.0;
      var offset := PayloadLength(buffer).value.1;
      var payload := DecodeFrame(buffer).value.payload;
      && |payload| <= length
      && (|payload| > 0 ==> offset + 4 + |payload| <= |buffer|)
      && forall i :: 0 <= i < |payload| ==> payload[i] == Xor(buffer[offset + 4 + i], buffer[offset + i % 4])
  {
    var length := PayloadLength(buffer).value.0;
    var offset := PayloadLength(buffer).value.1;
    DecodeAfterLength(buffer, length, offset);
    var data := Slice(buffer, offset + 4, offset + 4 + length);
    var key := Slice(buffer, offset, offset + 4);
    var payload := DecodeFrame(buffer).value.payload;
    assert payload == Unmask(data, key);
    forall i | 0 <= i < |payload|
      ensures payload[i] == Xor(buffer[offset + 4 + i], buffer[offset + i % 4])
    {
      assert data[i] == buffer[offset + 4 + i];
      assert ByteAt(key, i % 4) == buffer[offset + i % 4];
    }
  }

  /** A masked frame carrying all of its `data` decodes to `data` unmasked with `key`. */
  lemma DecodeMaskedFrame(first: Byte, key: seq<Byte>, data: seq<Byte>)
    requires |data| < LengthLimit && |key| == 4
    ensures DecodeFrame([first] + LengthField(|data|, true) + (key + data))
      == Success(Frame(first as nat % 16, Unmask(data, key)))
  {
    var field := LengthField(|data|, true);
    var buffer := [first] + field + (key + data);
    DecodeLengthOfField(|data|, true, first, key + data);
    var offset := 1 + |field|;
    DecodeAfterLength(buffer, |data|, offset);
    assert buffer[offset..] == key + data;
    assert Slice(buffer, offset, offset + 4) == key;
    assert Slice(buffer, offset + 4, offset + 4 + |data|) == data;
  }

  /** Where `buffer.slice(offset, offset + payloadLength)` lies in a decodable buffer:
      past the length field and any key, both ends cut at the end of the buffer. */
  function PayloadWindow(buffer: seq<Byte>): (w: (nat, nat))
    requires PayloadLength(buffer).Success?
    ensures w.0 <= w.1 <= |buffer|
  {
    var (length, field) := PayloadLength(buffer).value;
    var offset := if Masked(buffer) then field + 4 else field;
    (if offset <= |buffer| then offset else |buffer|,
     if offset + length <= |buffer| then offset + length else |buffer|)
  }

  /** The result of the in-place decoder: the opcode and where the unmasked payload
      lies inside the buffer it was given, which `Buffer.slice` shares. */
  datatype FrameView = FrameView(opcode: nat, start: nat, end: nat)

  /** The loop `payload[i] ^= maskingKey[i % 4]` over the bytes `start..end` of the
      buffer that `payload` shares. */
  method UnmaskInPlace(buffer: array<Byte>, start: nat, end: nat, key: seq<Byte>)
    requires start <= end <= buffer.Length
    modifies buffer
    ensures buffer[start..end] == Unmask(old(buffer[start..end]), key)
    ensures buffer[..start] == old(buffer[..start]) && buffer[end..] == old(buffer[end..])
  {
    ghost var original := buffer[..];
    var i := 0;
    while i < end - start
      invariant 0 <= i <= end - start
      invariant forall j :: 0 <= j < i ==> buffer[start + j] == Xor(original[start + j], ByteAt(key, j % 4))
      invariant forall j :: 0 <= j < start ==> buffer[j] == original[j]
      invariant forall j :: start + i <= j < buffer.Length ==> buffer[j] == original[j]
    {
      buffer[start + i] := Xor(buffer[start + i], ByteAt(key, i % 4));
      i := i + 1;
    }
    assert buffer[start..end] == Unmask(original[start..end], key);
    assert buffer[..start] == original[..start];
    assert buffer[end..] == original[end..];
  }

  /** `#decodeFrame` as the source runs it: the offset advances past the length field and
      the key, and the XOR loop rewrites the payload's bytes inside `buffer` itself. */
  method DecodeInPlace(buffer: array<Byte>) returns (r: Result<FrameView, JsError>)
    modifies buffer
    ensures var expected := DecodeFrame(old(buffer[..]));
      && (expected.Failure? ==> r == Failure(expected.error) && buffer[..] == old(buffer[..]))
      && (expected.Success? ==>
            && r.Success? && (r.value.start, r.value.end) == PayloadWindow(old(buffer[..]))
            && r.value.opcode == expected.value.opcode
            && buffer[r.value.start..r.value.end] == expected.value.payload
            && buffer[..r.value.start] == old(buffer[..r.value.start])
            && buffer[r.value.end..] == old(buffer[r.value.end..]))
  {
    ghost var original := buffer[..];
    var header := PayloadLength(buffer[..]);
    if header.Failure? {
      return Failure(header.error);
    }
    var opcode := Opcode(buffer[..]);
    var masked := Masked(buffer[..]);
    var length := header.value.0;
    var offset := header.value.1;
    var key: seq<Byte> := [];
    if masked {
      key := Slice(buffer[..], offset, offset + 4);
      offset := offset + 4;
    }
    var start := if offset <= buffer.Length then offset else buffer.Length;
    var end := if offset + length <= buffer.Length then offset + length else buffer.Length;
    assert Slice(original, offset, offset + length) == original[start..end];
    if masked {
      UnmaskInPlace(buffer, start, end, key);
    }
    return Success(FrameView(opcode, start, end));
  }
}
