/** Variable-length integers of record and cell headers (SQLite "Database File Format", section 1.6). */
module Varint {
  import opened Wrappers
  import opened Bytes

  const TWO_63 := 0x8000_0000_0000_0000

  const TWO_64 := 0x1_0000_0000_0000_0000

  datatype PageError = PageUnavailable

  /** The decoder after `i` continuation bytes have given `value`. */
  function DecodeFrom(data: seq<byte>, offset: nat, end: int, i: nat, value: nat): Result<(nat, nat), PageError>
    requires end <= |data| && i <= 8
    decreases 8 - i
  {
    if end <= offset then Err(PageUnavailable)
    else if i == 8 then Ok((value * 256 + data[offset] as int, offset + 1))
    else
      var more := value * 128 + data[offset] as int % 128;
      if data[offset] < 128 then Ok((more, offset + 1)) else DecodeFrom(data, offset + 1, end, i + 1, more)
  }

  /** A number that is read lies before `end`. */
  lemma {:induction false} DecodeWithin(data: seq<byte>, offset: nat, end: int, i: nat, value: nat)
    requires end <= |data| && i <= 8 && DecodeFrom(data, offset, end, i, value).Ok?
    ensures offset < DecodeFrom(data, offset, end, i, value).value.1 <= end
    decreases 8 - i
  {
    if i < 8 && data[offset] >= 128 {
      DecodeWithin(data, offset + 1, end, i + 1, value * 128 + data[offset] as int % 128);
    }
  }

  method Decode(data: seq<byte>, start: nat, end: int) returns (r: Result<(nat, nat), PageError>)
    requires end <= |data|
    ensures r == DecodeFrom(data, start, end, 0, 0)
  {
    var value, offset := 0, start;
    for i := 0 to 8
      invariant start <= offset && 0 <= value
      invariant DecodeFrom(data, start, end, 0, 0) == DecodeFrom(data, offset, end, i, value)
    {
      if end <= offset { return Err(PageUnavailable); }
      var b := data[offset] as int;
      offset := offset + 1;
      value := value * 128 + b % 128;
      if b < 128 { return Ok((value, offset)); }
    }
    if end <= offset { return Err(PageUnavailable); }
    return Ok((value * 256 + data[offset] as int, offset + 1));
  }

  // ---- The encoding, stated on its own ----

  function Power128(n: nat): (r: int)
    ensures 1 <= r
  {
    if n == 0 then 1 else 128 * Power128(n - 1)
  }

  /** `n` groups of seven bits, most significant first, each with its continuation bit set. */
  function Groups(u: nat, n: nat): (r: seq<byte>)
    ensures |r| == n
  {
    if n == 0 then [] else Groups(u / 128, n - 1) + [128 + u % 128]
  }

  /** How many continuation groups the shortest encoding of `u` takes. */
  function Length(u: nat): (n: nat)
    ensures u < Power128(n)
    ensures n > 0 ==> Power128(n - 1) <= u
  {
    if u == 0 then 0 else
      var n := Length(u / 128);
      assert u < 128 * (u / 128 + 1) <= 128 * Power128(n);
      n + 1
  }

  /** One to nine bytes; the ninth carries eight bits. */
  function Encode(v: nat): (r: seq<byte>)
    requires v < TWO_64
  {
    if v < 0x100_0000_0000_0000 then Groups(v / 128, Length(v / 128)) + [v % 128]
    else Groups(v / 256, 8) + [v % 256]
  }

  lemma {:induction false} LengthBound(u: nat, n: nat)
    requires u < Power128(n)
    ensures Length(u) <= n
    decreases n
  {
    if u != 0 {
      if n > 0 { LengthBound(u / 128, n - 1); }
    }
  }

  lemma NextGroup(data: seq<byte>, at: nat, end: int, u: nat, n: nat)
    requires at < end <= |data| && n < 8 && data[at] as int == 128 + u % 128
    ensures DecodeFrom(data, at, end, n, u / 128) == DecodeFrom(data, at + 1, end, n + 1, u)
  {
    var b := data[at] as int;
    assert b % 128 == u % 128 && u / 128 * 128 + u % 128 == u;
  }

  /** Reading `n` groups leaves the decoder with their value. */
  lemma {:induction false} GroupsDecode(data: seq<byte>, offset: nat, end: int, u: nat, n: nat)
    requires end <= |data| && n <= 8 && u < Power128(n)
    requires offset + n <= end && data[offset..offset + n] == Groups(u, n)
    ensures DecodeFrom(data, offset, end, 0, 0) == DecodeFrom(data, offset + n, end, n, u)
    decreases n
  {
    if n > 0 {
      var front := data[offset..offset + n][..n - 1];
      assert front == data[offset..offset + (n - 1)] && front == Groups(u / 128, n - 1);
      GroupsDecode(data, offset, end, u / 128, n - 1);
      assert data[offset + n - 1] == data[offset..offset + n][n - 1] == 128 + u % 128;
      hide Groups, Power128;
      NextGroup(data, offset + n - 1, end, u, n - 1);
    }
  }

  /** Groups followed by one closing byte: the eighth group is followed by a full byte. */
  lemma GroupsThen(data: seq<byte>, offset: nat, end: int, u: nat, n: nat, last: byte)
    requires end <= |data| && n <= 8 && u < Power128(n) && offset + n < end
    requires data[offset..offset + n] == Groups(u, n) && data[offset + n] == last
    requires n < 8 ==> last < 128
    ensures DecodeFrom(data, offset, end, 0, 0)
            == Ok((if n < 8 then u * 128 + last as int else u * 256 + last as int, offset + n + 1))
  {
    GroupsDecode(data, offset, end, u, n);
    hide Groups, Power128;
    LastGroup(data, offset + n, end, u, n, last);
  }

  lemma LastGroup(data: seq<byte>, at: nat, end: int, u: nat, n: nat, last: byte)
    requires end <= |data| && n <= 8 && at < end && data[at] == last && (n < 8 ==> last < 128)
    ensures DecodeFrom(data, at, end, n, u) == Ok((if n < 8 then u * 128 + last as int else u * 256 + last as int, at + 1))
  {
  }

  lemma EncodeShape(v: nat) returns (u: nat, n: nat, last: byte)
    requires v < TWO_64
    ensures n <= 8 && u < Power128(n) && Encode(v) == Groups(u, n) + [last]
    ensures n < 8 ==> last < 128
    ensures v == if n < 8 then u * 128 + last as int else u * 256 + last as int
  {
    assert Power128(7) == 0x2_0000_0000_0000 && Power128(8) == 0x100_0000_0000_0000 by {
      assert Power128(4) == 0x1000_0000;
    }
    if v < 0x100_0000_0000_0000 {
      u, n, last := v / 128, Length(v / 128), v % 128;
      LengthBound(u, 7);
    } else {
      u, n, last := v / 256, 8, v % 256;
    }
  }

  /** Decoding inverts the encoding at any place in a buffer. */
  lemma DecodeEncode(data: seq<byte>, offset: nat, end: int, v: nat)
    requires v < TWO_64 && end <= |data|
    requires offset + |Encode(v)| <= end && data[offset..offset + |Encode(v)|] == Encode(v)
    ensures DecodeFrom(data, offset, end, 0, 0) == Ok((v, offset + |Encode(v)|))
    ensures 1 <= |Encode(v)| <= 9
  {
    var u, n, last := EncodeShape(v);
    var bytes := data[offset..offset + |Encode(v)|];
    assert bytes[..n] == Groups(u, n) && bytes[n] == last;
    assert data[offset..offset + n] == bytes[..n];
    GroupsThen(data, offset, end, u, n, last);
  }

  /** Row ids are the 64-bit two's complement reading of a varint. */
  function RowId(value: int): int {
    if value >= TWO_63 then value - TWO_64 else value
  }

  function Unsigned(key: int): (r: int)
    requires -TWO_63 <= key < TWO_63
    ensures 0 <= r < TWO_64
  {
    if key < 0 then key + TWO_64 else key
  }

  /** Every signed 64-bit row id survives its encoding. */
  lemma RowIdRoundTrip(key: int, before: seq<byte>, after: seq<byte>)
    requires -TWO_63 <= key < TWO_63
    ensures var data := before + Encode(Unsigned(key)) + after;
            var r := DecodeFrom(data, |before|, |data|, 0, 0);
            r.Ok? && RowId(r.value.0) == key && r.value.1 == |data| - |after|
  {
    var bytes := Encode(Unsigned(key));
    var data := before + bytes + after;
    assert data[|before|..|before| + |bytes|] == bytes;
    DecodeEncode(data, |before|, |data|, Unsigned(key));
  }
}
