/** Byte strings, fixed-width big-endian integers and hex text. */
module Bytes {
  import opened Wrappers

  type Byte = b: int | 0 <= b < 256

  function Pow256(k: nat): nat { if k == 0 then 1 else 256 * Pow256(k - 1) }

  lemma {:induction false} Pow256Positive(k: nat)
    ensures Pow256(k) > 0
  {
    if k > 0 { Pow256Positive(k - 1); }
  }

  /** Byte i, counted from the most significant of k. */
  function Digit(n: nat, k: nat, i: nat): Byte
    requires i < k
  {
    Pow256Positive(k - 1 - i);
    n / Pow256(k - 1 - i) % 256
  }

  /** int.to_bytes(k, "big") for n below 256^k. */
  function ToBytes(n: nat, k: nat): (r: seq<Byte>)
    ensures |r| == k
  {
    seq(k, i requires 0 <= i < k => Digit(n, k, i))
  }

  function FromBytes(b: seq<Byte>): nat {
    if b == [] then 0 else 256 * FromBytes(b[..|b| - 1]) + b[|b| - 1]
  }

  lemma DivDiv(n: nat, p: nat)
    requires p > 0
    ensures n / (256 * p) == n / 256 / p
  {
    var q, r := n / 256 / p, n / 256 % p;
    assert n / 256 == p * q + r;
    assert n == 256 * p * q + (256 * r + n % 256);
    assert 0 <= 256 * r + n % 256 < 256 * p;
    QuotientUnique(n, 256 * p, q, 256 * r + n % 256);
  }

  lemma QuotientUnique(n: nat, d: nat, q: nat, r: nat)
    requires d > 0 && n == d * q + r && r < d
    ensures n / d == q
  {
    var x := n / d - q;
    assert n == d * (n / d) + n % d;
    Distribute(d, n / d, q);
    assert d * x == r - n % d;
    SmallMultiple(d, x);
  }

  lemma Distribute(d: int, a: int, b: int)
    ensures d * (a - b) == d * a - d * b
  {
  }

  lemma SmallMultiple(d: int, x: int)
    requires -d < d * x < d
    ensures x == 0
  {
  }

  /** The leading bytes are those of n / 256; the last byte is n mod 256. */
  lemma ToBytesSplit(n: nat, k: nat)
    requires k > 0
    ensures ToBytes(n, k) == ToBytes(n / 256, k - 1) + [n % 256]
  {
    forall i | 0 <= i < k - 1 ensures Digit(n, k, i) == Digit(n / 256, k - 1, i) {
      Pow256Positive(k - 2 - i);
      DivDiv(n, Pow256(k - 2 - i));
    }
  }

  lemma {:induction false} IntegerRoundTrip(n: nat, k: nat)
    requires n < Pow256(k)
    ensures FromBytes(ToBytes(n, k)) == n
  {
    if k > 0 {
      IntegerRoundTrip(n / 256, k - 1);
      ToBytesSplit(n, k);
      assert ToBytes(n, k)[..k - 1] == ToBytes(n / 256, k - 1);
    }
  }

  lemma {:induction false} FromBytesBelow(b: seq<Byte>)
    ensures FromBytes(b) < Pow256(|b|)
  {
    if b != [] { FromBytesBelow(b[..|b| - 1]); }
  }

  lemma {:induction false} BytesRoundTrip(b: seq<Byte>)
    ensures ToBytes(FromBytes(b), |b|) == b
  {
    hide ToBytes;
    if b != [] {
      var front, last := FromBytes(b[..|b| - 1]), b[|b| - 1];
      BytesRoundTrip(b[..|b| - 1]);
      ToBytesSplit(FromBytes(b), |b|);
      LastByte(front, last);
      assert b == b[..|b| - 1] + [last];
    }
  }

  lemma LastByte(front: nat, last: Byte)
    ensures (256 * front + last) / 256 == front && (256 * front + last) % 256 == last
  {
  }

  lemma {:induction false} Pow256Add(j: nat, k: nat)
    ensures Pow256(j + k) == Pow256(j) * Pow256(k)
  {
    if j > 0 { Pow256Add(j - 1, k); }
  }

  function Zeros(n: nat): (r: seq<Byte>)
    ensures |r| == n
  {
    seq(n, _ => 0)
  }

  predicate IsHexDigit(c: char) { '0' <= c <= '9' || 'a' <= c <= 'f' || 'A' <= c <= 'F' }

  function HexValue(c: char): (v: int)
    requires IsHexDigit(c)
    ensures 0 <= v < 16
  {
    if '0' <= c <= '9' then c as int - '0' as int
    else if 'a' <= c <= 'f' then c as int - 'a' as int + 10
    else c as int - 'A' as int + 10
  }

  function HexChar(v: int): (c: char)
    requires 0 <= v < 16
    ensures IsHexDigit(c) && HexValue(c) == v
  {
    if v < 10 then ('0' as int + v) as char else ('a' as int + v - 10) as char
  }

  /** bytes.hex() */
  function Hex(b: seq<Byte>): string {
    if b == [] then "" else [HexChar(b[0] / 16), HexChar(b[0] % 16)] + Hex(b[1..])
  }

  /** bytes.fromhex on an even number of digits; None stands for ValueError. */
  function FromHex(s: string): Option<seq<Byte>> {
    if s == "" then Some([])
    else if |s| == 1 || !IsHexDigit(s[0]) || !IsHexDigit(s[1]) then None
    else
      var rest := FromHex(s[2..]);
      if rest.None? then None else Some([16 * HexValue(s[0]) + HexValue(s[1])] + rest.value)
  }

  /** _hex_to_bytes: drop 0x, left-pad an odd digit count with one zero. */
  function HexToBytes(s: string): Option<seq<Byte>> {
    var raw := if |s| >= 2 && s[..2] == "0x" then s[2..] else s;
    FromHex(if |raw| % 2 == 1 then "0" + raw else raw)
  }

  lemma {:induction false} HexLength(b: seq<Byte>)
    ensures |Hex(b)| == 2 * |b| && |Hex(b)| % 2 == 0
  {
    if b != [] { HexLength(b[1..]); }
  }

  lemma {:induction false} FromHexOfHex(b: seq<Byte>)
    ensures FromHex(Hex(b)) == Some(b)
  {
    if b != [] {
      FromHexOfHex(b[1..]);
      var s := Hex(b);
      assert s[0] == HexChar(b[0] / 16) && s[1] == HexChar(b[0] % 16) && s[2..] == Hex(b[1..]);
      assert [16 * HexValue(s[0]) + HexValue(s[1])] + b[1..] == b;
    }
  }

  function Lower(s: string): string {
    if s == "" then ""
    else Lower(s[..|s| - 1]) + [if 'A' <= s[|s| - 1] <= 'F' then (s[|s| - 1] as int + 32) as char else s[|s| - 1]]
  }

  predicate AllHexDigits(s: string) { forall i :: 0 <= i < |s| ==> IsHexDigit(s[i]) }

  lemma {:induction false} LowerSplit(s: string, t: string)
    ensures Lower(s + t) == Lower(s) + Lower(t)
  {
    if t == "" {
      assert s + t == s;
    } else {
      assert (s + t)[..|s + t| - 1] == s + t[..|t| - 1];
      LowerSplit(s, t[..|t| - 1]);
    }
  }

  lemma LowerPair(a: char, b: char)
    requires IsHexDigit(a) && IsHexDigit(b)
    ensures Lower([a, b]) == [HexChar(HexValue(a)), HexChar(HexValue(b))]
  {
    LowerOne(a);
    LowerOne(b);
    LowerSplit([a], [b]);
    assert [a] + [b] == [a, b];
  }

  lemma LowerOne(a: char)
    requires IsHexDigit(a)
    ensures Lower([a]) == [HexChar(HexValue(a))]
  {
    assert [a][..0] == "";
    var l := if 'A' <= a <= 'F' then (a as int + 32) as char else a;
    assert Lower([a]) == [l];
    assert l == HexChar(HexValue(a));
  }

  /** On an even number of characters: exactly hex digits are read, and their lower-case form is what hex gives back. */
  lemma {:induction false} FromHexMeans(s: string)
    requires |s| % 2 == 0
    ensures FromHex(s).Some? <==> AllHexDigits(s)
    ensures FromHex(s).Some? ==> Hex(FromHex(s).value) == Lower(s)
  {
    if s != "" {
      FromHexMeans(s[2..]);
      assert s == [s[0], s[1]] + s[2..];
      if AllHexDigits(s) {
        assert AllHexDigits(s[2..]);
        LowerSplit([s[0], s[1]], s[2..]);
        LowerPair(s[0], s[1]);
        var first := 16 * HexValue(s[0]) + HexValue(s[1]);
        assert FromHex(s).value[1..] == FromHex(s[2..]).value && FromHex(s).value[0] == first;
        assert first / 16 == HexValue(s[0]) && first % 16 == HexValue(s[1]);
      } else if AllHexDigits(s[2..]) {
        assert !IsHexDigit(s[0]) || !IsHexDigit(s[1]);
      }
    }
  }

  /** A text is read as bytes if and only if everything after an optional 0x is a hex digit, and the bytes read are
      the ones whose hex is that text in lower case, with a leading zero when the number of digits is odd. */
  lemma HexToBytesMeans(s: string)
    ensures var raw := if |s| >= 2 && s[0] == '0' && s[1] == 'x' then s[2..] else s;
            && (HexToBytes(s).Some? <==> AllHexDigits(raw))
            && (HexToBytes(s).Some? ==> Hex(HexToBytes(s).value) == Lower(if |raw| % 2 == 0 then raw else "0" + raw))
  {
    var raw := if |s| >= 2 && s[0] == '0' && s[1] == 'x' then s[2..] else s;
    assert |s| >= 2 ==> (s[..2] == "0x" <==> s[0] == '0' && s[1] == 'x');
    FromHexMeans(if |raw| % 2 == 0 then raw else "0" + raw);
    assert AllHexDigits("0" + raw) <==> AllHexDigits(raw) by {
      assert forall i :: 0 <= i < |raw| ==> raw[i] == ("0" + raw)[i + 1];
      assert ("0" + raw)[0] == '0';
    }
  }

  lemma PrefixDropped(raw: string, b: seq<Byte>)
    requires |raw| % 2 == 0 && FromHex(raw) == Some(b)
    ensures HexToBytes("0x" + raw) == Some(b)
  {
    var s := "0x" + raw;
    assert s[..2] == "0x" && s[2..] == raw;
  }

  /** "0x" + data.hex() reads back as data. */
  lemma HexRoundTrip(b: seq<Byte>)
    ensures HexToBytes("0x" + Hex(b)) == Some(b)
  {
    HexLength(b);
    FromHexOfHex(b);
    PrefixDropped(Hex(b), b);
  }
}
