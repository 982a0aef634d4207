/** The standard base64 encoding, section 4 of RFC 4648. */
module Base64 {
  import opened Values

  datatype Decoded = Bad | Bytes(bytes: seq<Byte>)

  /** The alphabet. */
  function Digit(i: int): char
    requires 0 <= i < 64
  {
    if i < 26 then 'A' + i as char
    else if i < 52 then 'a' + (i - 26) as char
    else if i < 62 then '0' + (i - 52) as char
    else if i == 62 then '+' else '/'
  }

  function Value(c: char): int
  {
    if 'A' <= c <= 'Z' then c as int - 'A' as int
    else if 'a' <= c <= 'z' then c as int - 'a' as int + 26
    else if '0' <= c <= '9' then c as int - '0' as int + 52
    else if c == '+' then 62 else if c == '/' then 63 else -1
  }

  lemma DigitValue(i: int)
    requires 0 <= i < 64
    ensures Value(Digit(i)) == i && Plain(Digit(i)) && Digit(i) != '='
  {}

  /** What may appear in encoded text: no control character, no space. */
  predicate Plain(c: char)
  {
    '+' <= c <= 'z'
  }

  /** Four characters for one to three bytes, padded. */
  function Block(b: seq<Byte>): string
  {
    if |b| == 1 then [Digit(b[0] / 4), Digit(b[0] % 4 * 16), '=', '=']
    else if |b| == 2 then [Digit(b[0] / 4), Digit(b[0] % 4 * 16 + b[1] / 16), Digit(b[1] % 16 * 4), '=']
    else if |b| == 3 then
      [Digit(b[0] / 4), Digit(b[0] % 4 * 16 + b[1] / 16), Digit(b[1] % 16 * 4 + b[2] / 64), Digit(b[2] % 64)]
    else ""
  }

  function Blocks(block: seq<Byte> -> string, b: seq<Byte>): string
  {
    if |b| == 0 then "" else if |b| <= 3 then block(b) else block(b[..3]) + Blocks(block, b[3..])
  }

  function BlockOf(): seq<Byte> -> string { b => Block(b) }

  /** `base64.StdEncoding.EncodeToString`. */
  function Encode(b: seq<Byte>): string
  {
    Blocks(BlockOf(), b)
  }

  /** One to three bytes for four characters. */
  function Unblock(s: string): Decoded
  {
    if |s| != 4 then Bad else
      var p, q, r, t := Value(s[0]), Value(s[1]), Value(s[2]), Value(s[3]);
      if p < 0 || q < 0 then Bad
      else if s[2] == '=' && s[3] == '=' then Bytes([Top(p, q)])
      else if r < 0 then Bad
      else if s[3] == '=' then Bytes([Top(p, q), Middle(q, r)])
      else if t < 0 then Bad
      else Bytes([Top(p, q), Middle(q, r), Bottom(r, t)])
  }

  /** Padding ends the text. */
  function Unblocks(unblock: string -> Decoded, s: string): Decoded
  {
    if |s| == 0 then Bytes([])
    else if |s| < 4 then Bad
    else match unblock(s[..4])
      case Bad => Bad
      case Bytes(x) =>
        if |x| < 3 && |s| > 4 then Bad
        else match Unblocks(unblock, s[4..])
          case Bad => Bad
          case Bytes(rest) => Bytes(x + rest)
  }

  function UnblockOf(): string -> Decoded { s => Unblock(s) }

  function Decode(s: string): Decoded
  {
    Unblocks(UnblockOf(), s)
  }

  function Top(p: int, q: int): Byte
    requires 0 <= p && 0 <= q
  {
    (p * 4 + q / 16) % 256
  }

  function Middle(q: int, r: int): Byte
    requires 0 <= q && 0 <= r
  {
    (q * 16 + r / 4) % 256
  }

  function Bottom(r: int, t: int): Byte
    requires 0 <= r && 0 <= t
  {
    (r * 64 + t) % 256
  }

  lemma TopOf(x: Byte, y: Byte)
    ensures Top(x / 4, x % 4 * 16 + y / 16) == x
  {
    assert (x % 4 * 16 + y / 16) / 16 == x % 4;
  }

  lemma MiddleOf(x: Byte, y: Byte, z: Byte)
    ensures Middle(x % 4 * 16 + y / 16, y % 16 * 4 + z / 64) == y
  {
    assert (y % 16 * 4 + z / 64) / 4 == y % 16;
    assert (x % 4 * 16 + y / 16) * 16 + y % 16 == x % 4 * 256 + y;
  }

  lemma BottomOf(y: Byte, z: Byte)
    ensures Bottom(y % 16 * 4 + z / 64, z % 64) == z
  {
    assert (y % 16 * 4 + z / 64) * 64 + z % 64 == y % 16 * 256 + z;
  }

  lemma Regroup(x: Byte, y: Byte, z: Byte)
    ensures Top(x / 4, x % 4 * 16 + y / 16) == x
    ensures Middle(x % 4 * 16 + y / 16, y % 16 * 4 + z / 64) == y
    ensures Bottom(y % 16 * 4 + z / 64, z % 64) == z
  {
    TopOf(x, y);
    MiddleOf(x, y, z);
    BottomOf(y, z);
  }

  lemma ThreeRead(x: Byte, y: Byte, z: Byte)
    ensures Unblock(Block([x, y, z])) == Bytes([x, y, z])
  {
    DigitValue(x / 4);
    DigitValue(x % 4 * 16 + y / 16);
    DigitValue(y % 16 * 4 + z / 64);
    DigitValue(z % 64);
    Regroup(x, y, z);
  }

  lemma TwoRead(x: Byte, y: Byte)
    ensures Unblock(Block([x, y])) == Bytes([x, y])
  {
    DigitValue(x / 4);
    DigitValue(x % 4 * 16 + y / 16);
    DigitValue(y % 16 * 4);
    TopOf(x, y);
    MiddleOf(x, y, 0);
  }

  lemma OneRead(x: Byte)
    ensures Unblock(Block([x])) == Bytes([x])
  {
    DigitValue(x / 4);
    DigitValue(x % 4 * 16);
    TopOf(x, 0);
  }

  lemma BlockRead(b: seq<Byte>)
    requires 1 <= |b| <= 3
    ensures |Block(b)| == 4 && Unblock(Block(b)) == Bytes(b)
  {
    if |b| == 1 {
      OneRead(b[0]);
      assert b == [b[0]];
    } else if |b| == 2 {
      TwoRead(b[0], b[1]);
      assert b == [b[0], b[1]];
    } else {
      ThreeRead(b[0], b[1], b[2]);
      assert b == [b[0], b[1], b[2]];
    }
  }

  /** Text whose blocks read back reads back. */
  lemma {:induction false} BlocksRead(block: seq<Byte> -> string, unblock: string -> Decoded, b: seq<Byte>)
    requires forall c :: 1 <= |c| <= 3 ==> |block(c)| == 4 && unblock(block(c)) == Bytes(c)
    ensures Unblocks(unblock, Blocks(block, b)) == Bytes(b)
    decreases |b|
  {
    if |b| > 0 {
      var c, rest := if |b| <= 3 then b else b[..3], if |b| <= 3 then [] else b[3..];
      assert b == c + rest;
      var s := block(c) + Blocks(block, rest);
      assert Blocks(block, b) == s;
      assert s[..4] == block(c) && s[4..] == Blocks(block, rest);
      BlocksRead(block, unblock, rest);
    }
  }

  /** Decoding undoes encoding. */
  lemma RoundTrip(b: seq<Byte>)
    ensures Decode(Encode(b)) == Bytes(b)
  {
    forall c | 1 <= |c| <= 3 ensures |BlockOf()(c)| == 4 && UnblockOf()(BlockOf()(c)) == Bytes(c) { BlockRead(c); }
    BlocksRead(BlockOf(), UnblockOf(), b);
  }

  lemma BlockPlain(b: seq<Byte>)
    ensures forall c :: c in Block(b) ==> Plain(c)
  {
    if |b| == 1 {
      DigitValue(b[0] / 4);
      DigitValue(b[0] % 4 * 16);
    } else if |b| == 2 {
      DigitValue(b[0] / 4);
      DigitValue(b[0] % 4 * 16 + b[1] / 16);
      DigitValue(b[1] % 16 * 4);
    } else if |b| == 3 {
      DigitValue(b[0] / 4);
      DigitValue(b[0] % 4 * 16 + b[1] / 16);
      DigitValue(b[1] % 16 * 4 + b[2] / 64);
      DigitValue(b[2] % 64);
    }
  }

  lemma {:induction false} BlocksPlain(block: seq<Byte> -> string, b: seq<Byte>)
    requires forall x, c :: c in block(x) ==> Plain(c)
    ensures forall c :: c in Blocks(block, b) ==> Plain(c)
  {
    if |b| > 3 { BlocksPlain(block, b[3..]); }
  }

  /** Encoded text has no newline, carriage return or other control character. */
  lemma EncodePlain(b: seq<Byte>)
    ensures forall c :: c in Encode(b) ==> Plain(c)
  {
    forall x, c | c in BlockOf()(x) ensures Plain(c) { BlockPlain(x); }
    BlocksPlain(BlockOf(), b);
  }

  lemma {:induction false} BlocksLength(block: seq<Byte> -> string, b: seq<Byte>)
    requires forall c :: 1 <= |c| <= 3 ==> |block(c)| == 4
    ensures |Blocks(block, b)| == (|b| + 2) / 3 * 4
  {
    if |b| > 3 { BlocksLength(block, b[3..]); }
  }

  lemma EncodeLength(b: seq<Byte>)
    ensures |Encode(b)| == (|b| + 2) / 3 * 4
  {
    forall c | 1 <= |c| <= 3 ensures |BlockOf()(c)| == 4 { BlockRead(c); }
    BlocksLength(BlockOf(), b);
  }

  // ---------- the encoding of the standard ----------

  /** Table 1 of RFC 4648: `A` to `Z`, `a` to `z`, `0` to `9`, `+` and `/`. */
  lemma DigitsInTable(i: int)
    requires 0 <= i < 64
    ensures Digit(0) == 'A' && Digit(25) == 'Z' && Digit(26) == 'a' && Digit(51) == 'z' && Digit(52) == '0'
    ensures Digit(61) == '9' && Digit(62) == '+' && Digit(63) == '/'
    ensures i < 61 && i != 25 && i != 51 ==> Digit(i + 1) as int == Digit(i) as int + 1
  {}

  /** Three bytes are one number of 24 bits, written in four digits of six bits. */
  lemma BlockIsNumber(a: Byte, b: Byte, c: Byte)
    ensures var n := a as int * 65536 + b as int * 256 + c as int;
      && 0 <= n / 262144 < 64
      && Encode([a, b, c]) == [Digit(n / 262144), Digit(n / 4096 % 64), Digit(n / 64 % 64), Digit(n % 64)]
  {
    DigitsOf(a as int, b as int, c as int, a as int * 65536 + b as int * 256 + c as int);
  }

  lemma DigitsOf(a: int, b: int, c: int, n: int)
    requires 0 <= a < 256 && 0 <= b < 256 && 0 <= c < 256 && n == a * 65536 + b * 256 + c
    ensures n / 262144 == a / 4 && n / 4096 % 64 == a % 4 * 16 + b / 16
    ensures n / 64 % 64 == b % 16 * 4 + c / 64 && n % 64 == c % 64
  {
    assert a == 4 * (a / 4) + a % 4 && b == 16 * (b / 16) + b % 16 && c == 64 * (c / 64) + c % 64;
    SixBits(a / 4, a % 4 * 16 + b / 16, b % 16 * 4 + c / 64, c % 64, n);
  }

  lemma SixBits(d: int, e: int, f: int, g: int, n: int)
    requires 0 <= d < 64 && 0 <= e < 64 && 0 <= f < 64 && 0 <= g < 64 && n == ((d * 64 + e) * 64 + f) * 64 + g
    ensures n / 262144 == d && n / 4096 % 64 == e && n / 64 % 64 == f && n % 64 == g
  {
    assert n / 64 == (d * 64 + e) * 64 + f;
    assert n / 4096 == d * 64 + e;
  }

  /** One or two bytes are encoded as if zeros followed, with `=` in place of the digits that
      only the zeros reach. */
  lemma PaddedBlocks(a: Byte, b: Byte)
    ensures Encode([a]) == Encode([a, 0, 0])[..2] + "=="
    ensures Encode([a, b]) == Encode([a, b, 0])[..3] + "="
  {}

  /** Longer text is encoded three bytes at a time. */
  lemma EncodeThree(b: seq<Byte>, more: seq<Byte>)
    requires |b| == 3
    ensures Encode(b + more) == Encode(b) + Encode(more)
  {
    if more == [] {
      assert b + more == b;
    } else {
      assert (b + more)[..3] == b && (b + more)[3..] == more;
    }
  }

  /** The bytes of `Man`, the classic example. */
  lemma ManIsTWFu()
    ensures Encode([77, 97, 110]) == "TWFu"
  {}
}
