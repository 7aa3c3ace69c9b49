/** Bytes and the integers they encode. */
module Bytes {
  type byte = x: int | 0 <= x < 256

  function Big(data: seq<byte>, at: nat): (r: int)
    requires at + 4 <= |data|
    ensures 0 <= r < 0x1_0000_0000
  {
    ((data[at] as int * 256 + data[at + 1] as int) * 256 + data[at + 2] as int) * 256 + data[at + 3] as int
  }

  function Little(data: seq<byte>, at: nat): (r: int)
    requires at + 4 <= |data|
    ensures 0 <= r < 0x1_0000_0000
  {
    ((data[at + 3] as int * 256 + data[at + 2] as int) * 256 + data[at + 1] as int) * 256 + data[at] as int
  }

  function Big16(data: seq<byte>, at: nat): (r: int)
    requires at + 2 <= |data|
    ensures 0 <= r < 0x1_0000
  {
    data[at] as int * 256 + data[at + 1] as int
  }

  // ---- Writing ----

  predicate Word32(n: int) { 0 <= n < 0x1_0000_0000 }

  function Be(n: int): (r: seq<byte>)
    requires Word32(n)
    ensures |r| == 4
  {
    [n / 256 / 256 / 256, n / 256 / 256 % 256, n / 256 % 256, n % 256]
  }

  function Be16(n: int): (r: seq<byte>)
    requires 0 <= n < 0x1_0000
    ensures |r| == 2
  {
    [n / 256, n % 256]
  }

  lemma BeBig(data: seq<byte>, at: nat, n: int)
    requires Word32(n) && at + 4 <= |data| && data[at..at + 4] == Be(n)
    ensures Big(data, at) == n
  {
    var x := data[at..at + 4];
    assert data[at] == x[0] && data[at + 1] == x[1] && data[at + 2] == x[2] && data[at + 3] == x[3];
    Digits(n);
    hide Be;
  }

  lemma Digits(n: int)
    requires Word32(n)
    ensures var b := Be(n); n == ((b[0] as int * 256 + b[1] as int) * 256 + b[2] as int) * 256 + b[3] as int
  {
    var x := n / 256;
    var y := x / 256;
    assert n == x * 256 + n % 256 && x == y * 256 + x % 256 && y == y / 256 * 256 + y % 256;
  }

  lemma BigBe(data: seq<byte>, at: nat)
    requires at + 4 <= |data|
    ensures Be(Big(data, at)) == data[at..at + 4]
  {
    var a, b, c, d := data[at] as int, data[at + 1] as int, data[at + 2] as int, data[at + 3] as int;
    assert (((a * 256 + b) * 256 + c) * 256 + d) / 256 == (a * 256 + b) * 256 + c;
    assert ((a * 256 + b) * 256 + c) / 256 == a * 256 + b;
  }

  lemma Be16Big(data: seq<byte>, at: nat, n: int)
    requires 0 <= n < 0x1_0000 && at + 2 <= |data| && data[at..at + 2] == Be16(n)
    ensures Big16(data, at) == n
  {
    var x := data[at..at + 2];
    assert data[at] == x[0] && data[at + 1] == x[1];
  }

  lemma BigBe16(data: seq<byte>, at: nat)
    requires at + 2 <= |data|
    ensures Be16(Big16(data, at)) == data[at..at + 2]
  {
  }
}
