/** Text of NMEA sentences in gps/libloc_api_50001/loc_eng_nmea.cpp: the printf formats it uses and the
    checksum. */
module NmeaText {

  const NMEA_SENTENCE_MAX_LENGTH := 200

  /** No character that could be taken for the start of the checksum. */
  predicate Clean(s: string) {
    '*' !in s
  }

  function Digits(n: nat): (r: string)
    ensures r != []
    ensures n < 10 ==> |r| == 1
    ensures n < 100 ==> |r| <= 2
    ensures n < 1000 ==> |r| <= 3
  {
    if n < 10 then [Digit(n)] else Digits(n / 10) + [Digit(n % 10)]
  }

  function Digit(d: nat): char
    requires d < 10
  {
    "0123456789"[d]
  }

  function Zeros(n: int): (r: string)
    ensures |r| == if n > 0 then n else 0
  {
    if n <= 0 then "" else "0" + Zeros(n - 1)
  }

  /** %d */
  function Plain(n: int): string {
    if n >= 0 then Digits(n) else "-" + Digits(-n)
  }

  /** %0<width>d */
  function Padded(n: int, width: nat): (r: string)
    ensures |r| >= width
    ensures 0 <= n < 100 && width == 2 ==> |r| == 2
    ensures 0 <= n < 1000 && width == 3 ==> |r| == 3
  {
    if n >= 0 then Zeros(width - |Digits(n)|) + Digits(n)
    else "-" + Zeros(width - 1 - |Digits(-n)|) + Digits(-n)
  }

  lemma {:induction false} DigitsClean(n: nat)
    ensures Clean(Digits(n))
  {
    if n >= 10 {
      DigitsClean(n / 10);
    }
  }

  lemma {:induction false} ZerosClean(n: int)
    ensures Clean(Zeros(n))
  {
    if n > 0 {
      ZerosClean(n - 1);
    }
  }

  lemma CleanConcat(a: string, b: string)
    requires Clean(a) && Clean(b)
    ensures Clean(a + b)
  {
  }

  lemma NumbersClean(n: int, width: nat)
    ensures Clean(Plain(n)) && Clean(Padded(n, width))
  {
    var digits := Digits(if n >= 0 then n else -n);
    var zeros := Zeros(width - |digits| - if n >= 0 then 0 else 1);
    DigitsClean(if n >= 0 then n else -n);
    ZerosClean(width - |digits| - if n >= 0 then 0 else 1);
    CleanConcat(zeros, digits);
    CleanConcat("-", digits);
    CleanConcat("-", zeros);
    CleanConcat("-" + zeros, digits);
  }

  // ----- Bits

  function Pow2(n: nat): (r: nat)
    ensures r >= 1
  {
    if n == 0 then 1 else 2 * Pow2(n - 1)
  }

  function BitAt(n: nat, b: nat): (r: nat)
    ensures r < 2
  {
    if b == 0 then n % 2 else BitAt(n / 2, b - 1)
  }

  /** How many characters have bit `b` set. */
  function Setting(s: string, b: nat): nat {
    if s == "" then 0 else Setting(s[..|s| - 1], b) + BitAt(s[|s| - 1] as int, b)
  }

  // ----- Checksum (NMEA 0183, section 5.3.1: the exclusive OR of all characters between '$' and '*')

  /** The low byte of a character. */
  function Byte(c: char): nat {
    c as int % 256
  }

  /** The exclusive OR, bit by bit. */
  function Xor(x: nat, y: nat): nat
    decreases x + y
  {
    if x == 0 then y
    else if y == 0 then x
    else 2 * Xor(x / 2, y / 2) + (x % 2 + y % 2) % 2
  }

  function Fold(s: string): nat {
    if s == "" then 0 else Xor(Fold(s[..|s| - 1]), Byte(s[|s| - 1]))
  }

  function HexDigit(n: nat): char
    requires n < 16
  {
    "0123456789ABCDEF"[n]
  }

  /** %02X */
  function Hex(b: nat): (r: string)
    requires b < 256
    ensures |r| == 2
  {
    [HexDigit(b / 16), HexDigit(b % 16)]
  }

  function HexValue(c: char): nat {
    if '0' <= c <= '9' then c as int - '0' as int
    else if 'A' <= c <= 'F' then c as int - 'A' as int + 10
    else 0
  }

  function Trailer(s: string): (r: string)
    requires s != []
    ensures |r| == 5
  {
    FoldIsByte(s[1..]);
    "*" + Hex(Fold(s[1..])) + "\r\n"
  }

  function Min(a: int, b: int): int {
    if a < b then a else b
  }

  /** What fits of the trailer in the buffer, with room for the NUL. */
  function Sealed(s: string, maxSize: nat): string
    requires 0 < |s| < maxSize
  {
    s + Trailer(s)[..Min(5, maxSize - |s| - 1)]
  }

  /** loc_eng_nmea_put_checksum on a buffer that holds `s`: the new text and the result, which leaves out
      the '$' and counts a trailer that was cut as if it were whole. */
  method PutChecksum(s: string, maxSize: nat) returns (text: string, length: nat)
    requires 0 < |s| < maxSize
    ensures text == Sealed(s, maxSize)
    ensures length == |s| - 1 + 5
    ensures |s| + 5 < maxSize ==> length == |text| - 1
  {
    var checksum := 0;
    var i := 1;
    while i < |s|
      invariant 1 <= i <= |s|
      invariant checksum == Fold(s[1..i])
    {
      assert s[1..i + 1][..|s[1..i + 1]| - 1] == s[1..i];
      checksum := Xor(checksum, Byte(s[i]));
      i := i + 1;
    }
    assert s[1..|s|] == s[1..];
    FoldIsByte(s[1..]);
    var trailer := "*" + Hex(checksum) + "\r\n";
    text := s + trailer[..Min(5, maxSize - |s| - 1)];
    length := |s| - 1 + |trailer|;
  }

  predicate IsHex(c: char) {
    '0' <= c <= '9' || 'A' <= c <= 'F'
  }

  /** What a receiver checks: bit by bit, the two digits behind the first '*' are odd where an odd number of
      the characters between '$' and '*' are. */
  ghost predicate Verifies(text: string) {
    exists k :: 0 < k < |text| - 2 && text[k] == '*' && (forall j :: 0 <= j < k ==> text[j] != '*')
      && VerifiesAt(text, k)
  }

  ghost predicate VerifiesAt(text: string, k: nat)
    requires 0 < k < |text| - 2
  {
    && IsHex(text[k + 1]) && IsHex(text[k + 2])
    && forall b: nat :: b < 8 ==>
         BitAt(16 * HexValue(text[k + 1]) + HexValue(text[k + 2]), b) == Setting(text[1..k], b) % 2
  }

  // ----- Why the fold is the parity

  lemma {:induction false} BitAtIs(n: nat, b: nat)
    ensures BitAt(n, b) == n / Pow2(b) % 2
    decreases b
  {
    if b > 0 {
      BitAtIs(n / 2, b - 1);
      TwoDivisions(n, Pow2(b - 1));
    }
  }

  lemma TwoDivisions(n: nat, p: nat)
    requires p > 0
    ensures n / (2 * p) == n / 2 / p
  {
    var q := n / 2 / p;
    var r := n / 2 % p;
    assert n / 2 == p * q + r;
    assert n == 2 * (n / 2) + n % 2;
    assert n == (2 * p) * q + (2 * r + n % 2);
    Quotient(n, 2 * p, q, 2 * r + n % 2);
  }

  lemma Quotient(n: nat, d: nat, q: nat, r: nat)
    requires r < d && n == d * q + r
    ensures n / d == q
  {
    var x := n / d;
    assert n == d * x + n % d;
    Apart(d, x, q);
    Apart(d, q, x);
  }

  lemma {:induction false} Apart(d: nat, a: nat, b: nat)
    ensures a < b ==> d * a + d <= d * b
    decreases b
  {
    if a < b {
      assert d * b == d * (b - 1) + d;
      Apart(d, a, b - 1);
    }
  }

  lemma {:induction false} NoBits(b: nat)
    ensures BitAt(0, b) == 0
  {
    if b > 0 {
      NoBits(b - 1);
    }
  }

  lemma {:induction false} XorParity(x: nat, y: nat, b: nat)
    ensures BitAt(Xor(x, y), b) == (BitAt(x, b) + BitAt(y, b)) % 2
    decreases b
  {
    NoBits(b);
    if x != 0 && y != 0 && b > 0 {
      XorParity(x / 2, y / 2, b - 1);
    }
  }

  lemma {:induction false} XorBelow(x: nat, y: nat, k: nat)
    requires x < Pow2(k) && y < Pow2(k)
    ensures Xor(x, y) < Pow2(k)
    decreases k
  {
    if x != 0 && y != 0 {
      XorBelow(x / 2, y / 2, k - 1);
    }
  }

  lemma {:induction false} FoldIsByte(s: string)
    ensures Fold(s) < 256
  {
    if s != "" {
      FoldIsByte(s[..|s| - 1]);
      assert Pow2(8) == 2 * (2 * (2 * (2 * Pow2(4)))) && Pow2(4) == 16;
      XorBelow(Fold(s[..|s| - 1]), Byte(s[|s| - 1]), 8);
    }
  }

  /** What is above bit `k` does not show below it. */
  lemma {:induction false} LowBits(q: nat, r: nat, k: nat, b: nat)
    requires b < k
    ensures BitAt(Pow2(k) * q + r, b) == BitAt(r, b)
    decreases b
  {
    var x := Pow2(k - 1) * q;
    TwiceAs(Pow2(k - 1), q);
    assert Pow2(k) * q + r == 2 * x + r;
    if b > 0 {
      LowBits(q, r / 2, k - 1, b - 1);
      assert (2 * x + r) / 2 == x + r / 2;
    } else {
      assert (2 * x + r) % 2 == r % 2;
    }
  }

  lemma TwiceAs(p: nat, q: nat)
    ensures 2 * p * q == 2 * (p * q)
  {
  }

  /** Cutting a character to a byte keeps its low bits. */
  lemma {:induction false} ByteBits(c: char, b: nat)
    requires b < 8
    ensures BitAt(Byte(c), b) == BitAt(c as int, b)
  {
    var n := c as int;
    assert Pow2(8) == 2 * (2 * (2 * (2 * Pow2(4)))) && Pow2(4) == 16;
    LowBits(n / 256, n % 256, 8, b);
    assert 256 * (n / 256) + n % 256 == n;
  }

  lemma OddSum(n: nat, k: nat)
    ensures (n % 2 + k) % 2 == (n + k) % 2
  {
  }

  lemma {:induction false} FoldParity(s: string, b: nat)
    requires b < 8
    ensures BitAt(Fold(s), b) == Setting(s, b) % 2
  {
    if s == "" {
      NoBits(b);
    } else {
      FoldParity(s[..|s| - 1], b);
      ByteBits(s[|s| - 1], b);
      XorParity(Fold(s[..|s| - 1]), Byte(s[|s| - 1]), b);
      OddSum(Setting(s[..|s| - 1], b), BitAt(s[|s| - 1] as int, b));
    }
  }

  lemma HexRoundTrip(b: nat)
    requires b < 256
    ensures 16 * HexValue(Hex(b)[0]) + HexValue(Hex(b)[1]) == b
    ensures IsHex(Hex(b)[0]) && IsHex(Hex(b)[1])
  {
    HexDigitValue(b / 16);
    HexDigitValue(b % 16);
  }

  lemma HexDigitValue(n: nat)
    requires n < 16
    ensures HexValue(HexDigit(n)) == n && IsHex(HexDigit(n))
  {
  }

  /** A sentence without a '*' of its own, sealed in a buffer that has room, passes that check; behind the
      sentence it has the five characters of the checksum and the line end, and no more. */
  lemma SealedVerifies(s: string, maxSize: nat)
    requires 0 < |s| && |s| + 5 < maxSize
    requires Clean(s)
    ensures var text := Sealed(s, maxSize);
      && Verifies(text)
      && |text| == |s| + 5 && text[..|s|] == s && text[|s| + 3..] == "\r\n"
  {
    var text := Sealed(s, maxSize);
    var sum := Fold(s[1..]);
    FoldIsByte(s[1..]);
    HexRoundTrip(sum);
    assert text == s + Trailer(s);
    assert text[1..|s|] == s[1..];
    assert text[|s| + 1] == Hex(sum)[0] && text[|s| + 2] == Hex(sum)[1];
    forall b: nat | b < 8 ensures BitAt(sum, b) == Setting(s[1..], b) % 2 {
      FoldParity(s[1..], b);
    }
    assert VerifiesAt(text, |s|);
  }

  /** In a buffer without room the same text is cut, and one place is left for the NUL. */
  lemma SealedCut(s: string, maxSize: nat)
    requires 0 < |s| < maxSize
    ensures Sealed(s, maxSize) <= Sealed(s, |s| + 6)
    ensures |Sealed(s, maxSize)| == Min(|s| + 5, maxSize - 1)
  {
  }
}
