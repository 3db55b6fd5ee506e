/**
 Padding of serialised requests (components/internal_server/string_padder.cc):
 a big-endian length header, the message, and filler, written through a cursor
 over a preallocated buffer.
 */
module StringPadder {
  import opened Basics
  import opened Status

  type byte = x: int | 0 <= x < 256

  type Bytes = seq<byte>

  type uint32 = x: int | 0 <= x < 0x1_0000_0000

  const NO_SIZE := Error(InvalidArgument, "Failed to read string size")
  const NO_STRING := Error(InvalidArgument, "Failed to read a string")

  const HEADER := 4
  const FILLER: byte := 48  // the character '0'

  /* ---------- the length header ---------- */

  function Encode32(n: uint32): (r: Bytes)
    ensures |r| == HEADER
  {
    [n / 0x100_0000, n / 0x1_0000 % 0x100, n / 0x100 % 0x100, n % 0x100]
  }

  function Decode32(b: Bytes): (n: uint32)
    requires |b| == HEADER
  {
    var b0: int, b1: int, b2: int := b[0], b[1], b[2];
    b0 * 0x100_0000 + b1 * 0x1_0000 + b2 * 0x100 + b[3]
  }

  lemma DecodeEncode32(n: uint32)
    ensures Decode32(Encode32(n)) == n
  {
    var a, b := n / 0x100, n / 0x1_0000;
    assert n == a * 0x100 + n % 0x100;
    assert a == b * 0x100 + a % 0x100;
    assert b == (n / 0x100_0000) * 0x100 + b % 0x100;
  }

  /** The header has the most significant byte first: headers compare byte by byte as their lengths do. */
  lemma HeaderIsBigEndian(m: uint32, n: uint32)
    ensures Encode32(n)[0] == n / 0x100_0000 && Encode32(n)[3] == n % 0x100
    ensures m < n ==> exists i ::
      && 0 <= i < HEADER && Encode32(m)[..i] == Encode32(n)[..i] && Encode32(m)[i] < Encode32(n)[i]
  {
    DecodeEncode32(m);
    DecodeEncode32(n);
    var a, b := Encode32(m), Encode32(n);
    if m < n {
      SmallerHeader(a, b);
    }
  }

  lemma SmallerHeader(a: Bytes, b: Bytes)
    requires |a| == HEADER && |b| == HEADER && Decode32(a) < Decode32(b)
    ensures exists i :: 0 <= i < HEADER && a[..i] == b[..i] && a[i] < b[i]
  {
    var i := if a[0] != b[0] then 0 else if a[1] != b[1] then 1 else if a[2] != b[2] then 2 else 3;
    assert a[..i] == b[..i] && a[i] < b[i];
  }

  /* ---------- specification ---------- */

  function Filler(n: nat): (r: Bytes)
    ensures |r| == n
  {
    seq(n, _ => FILLER)
  }

  /** A padding amount is usable when the total size is an int that is not negative. */
  predicate PadSizeOk(s: Bytes, extra: int) {
    0 <= HEADER + |s| + extra <= INT32_MAX && |s| < 0x1_0000_0000
  }

  /** The output of Pad.  When the buffer is too short (negative padding) the
      writer leaves out what does not fit. */
  function Padded(s: Bytes, extra: int): (r: Bytes)
    requires PadSizeOk(s, extra)
    ensures |r| == HEADER + |s| + extra
  {
    var size := HEADER + |s| + extra;
    if size < HEADER then (if |s| <= size then s + Filler(size - |s|) else Filler(size))
    else if extra < 0 then Encode32(|s|) + Filler(size - HEADER)
    else Encode32(|s|) + s + Filler(extra)
  }

  function Unpadded(p: Bytes): Result<Bytes> {
    if |p| < HEADER then Err(NO_SIZE)
    else
      var n := Decode32(p[..HEADER]);
      if |p| - HEADER < n then Err(NO_STRING) else Ok(p[HEADER..HEADER + n])
  }

  /** What is where in a padded message: the length, the message, and the character zero up to the end; when the
      buffer is short, only what fits. */
  lemma PaddedLayout(s: Bytes, extra: int)
    requires PadSizeOk(s, extra)
    ensures var p := Padded(s, extra);
      && (extra >= 0 ==> p[..4] == Encode32(|s|) && p[4..4 + |s|] == s && forall i :: 4 + |s| <= i < |p| ==> p[i] == 48)
      && (extra < 0 && |p| >= 4 ==> p[..4] == Encode32(|s|) && forall i :: 4 <= i < |p| ==> p[i] == 48)
      && (|p| < 4 && |s| <= |p| ==> p[..|s|] == s && forall i :: |s| <= i < |p| ==> p[i] == 48)
      && (|p| < 4 && |s| > |p| ==> forall i :: 0 <= i < |p| ==> p[i] == 48)
  {
  }

  /** Unpadding undoes padding exactly when the padding is not negative. */
  lemma UnpadUndoesPad(s: Bytes, extra: int)
    requires PadSizeOk(s, extra)
    ensures Unpadded(Padded(s, extra)) == Ok(s) <==> extra >= 0
    ensures extra < 0 ==> Unpadded(Padded(s, extra)).Err?
  {
    var p := Padded(s, extra);
    DecodeEncode32(|s|);
    if |p| >= HEADER {
      assert p[..HEADER] == Encode32(|s|);
    }
    if extra >= 0 {
      assert p[HEADER..HEADER + |s|] == s;
    }
  }

  /** Unpad fails exactly on a short header or a length beyond the remaining bytes. */
  lemma UnpadFailsExactly(p: Bytes)
    ensures Unpadded(p).Err? <==> |p| < HEADER || Decode32(p[..HEADER]) > |p| - HEADER
    ensures Unpadded(p).Ok? ==>
      exists rest :: p == Encode32(|Unpadded(p).value|) + Unpadded(p).value + rest
  {
    if Unpadded(p).Ok? {
      var n := Decode32(p[..HEADER]);
      EncodeDecode32(p[..HEADER]);
      assert p == Encode32(n) + p[HEADER..HEADER + n] + p[HEADER + n..];
    }
  }

  lemma EncodeDecode32(b: Bytes)
    requires |b| == HEADER
    ensures Encode32(Decode32(b)) == b
  {
    var n := Decode32(b);
    var b0: int, b1: int, b2: int := b[0], b[1], b[2];
    var m: int, l: int := b0 * 0x1_0000 + b1 * 0x100 + b2, b0 * 0x100 + b1;
    assert n == m * 0x100 + b[3] && n / 0x100 == m && n % 0x100 == b[3];
    assert m == l * 0x100 + b[2] && n / 0x1_0000 == l && m % 0x100 == b[2];
    assert n / 0x100_0000 == b[0] && l % 0x100 == b[1];
  }

  /* ---------- the writer and the reader ---------- */

  /** The bytes of a buffer after a write, which does nothing when it does not fit. */
  function Written(buffer: Bytes, at: nat, s: Bytes): (r: Bytes)
    ensures |r| == |buffer|
  {
    if at + |s| <= |buffer| then buffer[..at] + s + buffer[at + |s|..] else buffer
  }

  /** Where the cursor is after a write. */
  function CursorAfter(size: nat, at: nat, s: Bytes): nat {
    if at + |s| <= size then at + |s| else at
  }

  /** A cursor over a fixed buffer. */
  class DataWriter {
    const buffer: array<byte>
    var length: nat

    constructor (buffer: array<byte>)
      ensures this.buffer == buffer && length == 0
    {
      this.buffer, this.length := buffer, 0;
    }

    method WriteStringPiece(s: Bytes) returns (ok: bool)
      requires length <= buffer.Length
      modifies this`length, buffer
      ensures ok <==> old(length) + |s| <= buffer.Length
      ensures length == CursorAfter(buffer.Length, old(length), s) <= buffer.Length
      ensures buffer[..] == Written(old(buffer[..]), old(length), s)
    {
      ok := length + |s| <= buffer.Length;
      if ok {
        for i := 0 to |s|
          invariant length == old(length)
          invariant forall j :: 0 <= j < length ==> buffer[j] == old(buffer[j])
          invariant forall j :: 0 <= j < i ==> buffer[length + j] == s[j]
          invariant forall j :: length + i <= j < buffer.Length ==> buffer[j] == old(buffer[j])
        {
          buffer[length + i] := s[i];
        }
        assert buffer[..] == Written(old(buffer[..]), length, s);
        length := length + |s|;
      }
    }

    /** Writes in network byte order. */
    method WriteUInt32(n: uint32) returns (ok: bool)
      requires length <= buffer.Length
      modifies this`length, buffer
      ensures ok <==> old(length) + HEADER <= buffer.Length
      ensures length == CursorAfter(buffer.Length, old(length), Encode32(n)) <= buffer.Length
      ensures buffer[..] == Written(old(buffer[..]), old(length), Encode32(n))
    {
      ok := WriteStringPiece(Encode32(n));
    }
  }

  /** Writing behind what has been written into a filled buffer. */
  lemma WrittenBehind(front: Bytes, s: Bytes, size: nat)
    requires |front| + |s| <= size
    ensures Written(front + Filler(size - |front|), |front|, s) == front + s + Filler(size - |front| - |s|)
  {
    var buffer := front + Filler(size - |front|);
    assert buffer[..|front|] == front;
    assert buffer[|front| + |s|..] == Filler(size - |front| - |s|);
  }

  /** Writing the header and then the message gives the padded message. */
  lemma WritesPadded(s: Bytes, extra: int)
    requires PadSizeOk(s, extra)
    ensures var size := HEADER + |s| + extra; var header := Encode32(|s|);
      Written(Written(Filler(size), 0, header), CursorAfter(size, 0, header), s) == Padded(s, extra)
  {
    var size, header := HEADER + |s| + extra, Encode32(|s|);
    assert [] + Filler(size) == Filler(size);
    if HEADER <= size {
      WrittenBehind([], header, size);
      assert [] + header == header;
      if extra >= 0 { WrittenBehind(header, s, size); }
    } else if |s| <= size {
      WrittenBehind([], s, size);
      assert [] + s == s;
    }
  }

  method Pad(s: Bytes, extra: int) returns (out: Bytes)
    requires PadSizeOk(s, extra)
    ensures out == Padded(s, extra)
  {
    var size := HEADER + |s| + extra;
    var buffer := new byte[size](_ => FILLER);
    assert buffer[..] == Filler(size);
    var writer := new DataWriter(buffer);
    var _ := writer.WriteUInt32(|s|);
    var _ := writer.WriteStringPiece(s);
    WritesPadded(s, extra);
    out := buffer[..];
  }

  /** A cursor over the bytes still to be read. */
  class DataReader {
    var rest: Bytes

    constructor (data: Bytes)
      ensures rest == data
    {
      rest := data;
    }

    method ReadStringPiece(n: nat) returns (ok: bool, s: Bytes)
      modifies this
      ensures ok <==> n <= |old(rest)|
      ensures ok ==> s == old(rest)[..n] && rest == old(rest)[n..]
      ensures !ok ==> rest == old(rest)
    {
      ok, s := n <= |rest|, [];
      if ok {
        s, rest := rest[..n], rest[n..];
      }
    }

    method ReadUInt32() returns (ok: bool, n: uint32)
      modifies this
      ensures ok <==> HEADER <= |old(rest)|
      ensures ok ==> n == Decode32(old(rest)[..HEADER]) && rest == old(rest)[HEADER..]
      ensures !ok ==> rest == old(rest)
    {
      var b;
      ok, b := ReadStringPiece(HEADER);
      n := if ok then Decode32(b) else 0;
    }
  }

  method Unpad(p: Bytes) returns (r: Result<Bytes>)
    ensures r == Unpadded(p)
  {
    var reader := new DataReader(p);
    var ok, n := reader.ReadUInt32();
    if !ok {
      return Err(NO_SIZE);
    }
    var body;
    ok, body := reader.ReadStringPiece(n);
    if !ok {
      return Err(NO_STRING);
    }
    assert p[HEADER..][..n] == p[HEADER..HEADER + n];
    r := Ok(body);
  }
}
