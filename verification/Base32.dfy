/** Hashes in base 32 (nix/libutil/hash.cc).  Machine operations on bytes are operations on
    the bits of natural numbers. */
module Base32 {
  import opened Wrappers

  const BASE32_CHARS := "0123456789abcdfghijklmnpqrsvwxyz"

  // Bits

  predicate Bit(a: nat, t: nat) {
    if t == 0 then a % 2 == 1 else Bit(a / 2, t - 1)
  }

  function Or(a: nat, b: nat): nat {
    if a == 0 && b == 0 then 0 else 2 * Or(a / 2, b / 2) + if a % 2 == 1 || b % 2 == 1 then 1 else 0
  }

  function ShiftRight(a: nat, j: nat): nat {
    if j == 0 then a else ShiftRight(a / 2, j - 1)
  }

  function ShiftLeft(a: nat, j: nat): nat {
    if j == 0 then a else 2 * ShiftLeft(a, j - 1)
  }

  /** The `k` low bits: a mask, or a conversion to a shorter type. */
  function Low(a: nat, k: nat): nat {
    if k == 0 then 0 else a % 2 + 2 * Low(a / 2, k - 1)
  }

  /** `k` bits suffice. */
  predicate Fits(a: nat, k: nat) {
    if k == 0 then a == 0 else Fits(a / 2, k - 1)
  }

  lemma OrHalves(a: nat, b: nat)
    ensures Or(a, b) / 2 == Or(a / 2, b / 2)
    ensures Or(a, b) % 2 == 1 <==> a % 2 == 1 || b % 2 == 1
  {
    if a > 0 || b > 0 {
      var x := Or(a / 2, b / 2);
      if a % 2 == 1 || b % 2 == 1 { assert Or(a, b) == 2 * x + 1; } else { assert Or(a, b) == 2 * x; }
    }
  }

  lemma {:induction false} OrBit(a: nat, b: nat, t: nat)
    ensures Bit(Or(a, b), t) <==> Bit(a, t) || Bit(b, t)
    decreases t
  {
    OrHalves(a, b);
    if t > 0 { OrBit(a / 2, b / 2, t - 1); }
  }

  lemma {:induction false} ShiftRightBit(a: nat, j: nat, t: nat)
    ensures Bit(ShiftRight(a, j), t) <==> Bit(a, t + j)
  {
    if j > 0 { ShiftRightBit(a / 2, j - 1, t); }
  }

  lemma {:induction false} ShiftLeftBit(a: nat, j: nat, t: nat)
    ensures Bit(ShiftLeft(a, j), t) <==> t >= j && Bit(a, t - j)
  {
    if j > 0 && t > 0 {
      ShiftLeftBit(a, j - 1, t - 1);
      assert ShiftLeft(a, j) / 2 == ShiftLeft(a, j - 1);
    }
  }

  lemma {:induction false} LowBit(a: nat, k: nat, t: nat)
    ensures Bit(Low(a, k), t) <==> t < k && Bit(a, t)
  {
    if k == 0 {
      ZeroBit(t);
    } else if t > 0 {
      LowBit(a / 2, k - 1, t - 1);
      assert Low(a, k) / 2 == Low(a / 2, k - 1);
    }
  }

  lemma {:induction false} ZeroBit(t: nat)
    ensures !Bit(0, t)
  {
    if t > 0 { ZeroBit(t - 1); }
  }

  lemma {:induction false} LowFits(a: nat, k: nat)
    ensures Fits(Low(a, k), k)
  {
    if k > 0 {
      LowFits(a / 2, k - 1);
      assert Low(a, k) / 2 == Low(a / 2, k - 1);
    }
  }

  lemma {:induction false} FitsBit(a: nat, k: nat, t: nat)
    requires Fits(a, k) && t >= k
    ensures !Bit(a, t)
  {
    if k == 0 { ZeroBit(t); } else { FitsBit(a / 2, k - 1, t - 1); }
  }

  /** Numbers with the same bits are the same. */
  lemma {:induction false} SameBits(a: nat, b: nat)
    requires forall t :: Bit(a, t) <==> Bit(b, t)
    ensures a == b
    decreases a + b
  {
    if a > 0 || b > 0 {
      assert Bit(a, 0) <==> Bit(b, 0);
      forall t: nat ensures Bit(a / 2, t) <==> Bit(b / 2, t) { assert Bit(a, t + 1) <==> Bit(b, t + 1); }
      SameBits(a / 2, b / 2);
    }
  }

  /** The bits of a number that is put together from `k` low bits and the rest. */
  lemma {:induction false} JoinedBit(low: nat, high: nat, k: nat, t: nat)
    requires Fits(low, k)
    ensures Bit(low + ShiftLeft(high, k), t) <==> if t < k then Bit(low, t) else Bit(high, t - k)
  {
    if k > 0 {
      var sum := low + ShiftLeft(high, k);
      assert sum / 2 == low / 2 + ShiftLeft(high, k - 1) && sum % 2 == low % 2;
      if t > 0 { JoinedBit(low / 2, high, k - 1, t - 1); }
    }
  }

  // Numbers in base 2^k

  /** The number with these digits of `k` bits, least significant first. */
  function FromDigits(digits: seq<nat>, k: nat): nat {
    if digits == [] then 0 else digits[0] + ShiftLeft(FromDigits(digits[1..], k), k)
  }

  predicate AllFit(digits: seq<nat>, k: nat) {
    forall i :: 0 <= i < |digits| ==> Fits(digits[i], k)
  }

  /** Bit `8 * i + j` of a number in bytes is bit `j` of byte `i`, and so for any digits. */
  lemma {:induction false} DigitsBit(digits: seq<nat>, k: nat, i: nat, j: nat)
    requires AllFit(digits, k) && j < k
    ensures Bit(FromDigits(digits, k), k * i + j) <==> i < |digits| && Bit(digits[i], j)
    decreases i
  {
    if digits == [] {
      ZeroBit(k * i + j);
    } else {
      var high := FromDigits(digits[1..], k);
      JoinedBit(digits[0], high, k, k * i + j);
      if i > 0 {
        assert k * i + j - k == k * (i - 1) + j;
        DigitsBit(digits[1..], k, i - 1, j);
      } else {
        assert k * i + j == j;
      }
    }
  }

  // Hashes

  type Bytes = seq<nat>

  predicate IsHash(h: Bytes) {
    |h| >= 1 && AllFit(h, 8)
  }

  /** The hash as an integer, least significant byte first. */
  function Value(h: Bytes): nat {
    FromDigits(h, 8)
  }

  function HashLength32(size: nat): (len: nat)
    requires size >= 1
    ensures 5 * (len - 1) < 8 * size <= 5 * len
  {
    (size * 8 - 1) / 5 + 1
  }

  /** Digit `n` of a number in base 32. */
  function Digit(v: nat, n: nat): (d: nat)
    ensures d < 32
  {
    LowIsSmall(ShiftRight(v, 5 * n));
    Low(ShiftRight(v, 5 * n), 5)
  }

  lemma LowIsSmall(a: nat)
    ensures Low(a, 5) < 32
  {
    var a1, a2, a3, a4 := a / 2, a / 4, a / 8, a / 16;
    assert Low(a4, 1) < 2;
    assert Low(a3, 2) < 4;
    assert Low(a2, 3) < 8;
    assert Low(a1, 4) < 16;
  }

  function Byte(v: nat, i: nat): nat {
    Low(ShiftRight(v, 8 * i), 8)
  }

  lemma DigitBit(v: nat, n: nat, t: nat)
    ensures Bit(Digit(v, n), t) <==> t < 5 && Bit(v, 5 * n + t)
  {
    LowBit(ShiftRight(v, 5 * n), 5, t);
    ShiftRightBit(v, 5 * n, t);
  }

  lemma ByteBit(v: nat, i: nat, t: nat)
    ensures Bit(Byte(v, i), t) <==> t < 8 && Bit(v, 8 * i + t)
  {
    LowBit(ShiftRight(v, 8 * i), 8, t);
    ShiftRightBit(v, 8 * i, t);
  }

  lemma ByteOfValue(h: Bytes, i: nat)
    requires IsHash(h) && i < |h|
    ensures Byte(Value(h), i) == h[i]
  {
    forall t: nat ensures Bit(Byte(Value(h), i), t) <==> Bit(h[i], t) {
      ByteBit(Value(h), i, t);
      if t < 8 { DigitsBit(h, 8, i, t); } else { FitsBit(h[i], 8, t); }
    }
    SameBits(Byte(Value(h), i), h[i]);
  }

  function Printed(h: Bytes): (s: string)
    requires IsHash(h)
    ensures |s| == HashLength32(|h|)
  {
    var len := HashLength32(|h|);
    seq(len, k requires 0 <= k < len => BASE32_CHARS[Digit(Value(h), len - 1 - k)])
  }

  /** The value of a character: the first place where it occurs, or 32. */
  function DigitOf(c: char, from: nat): (d: nat)
    requires from <= 32
    ensures from <= d <= 32 && (d < 32 ==> BASE32_CHARS[d] == c)
    decreases 32 - from
  {
    if from == 32 || BASE32_CHARS[from] == c then from else DigitOf(c, from + 1)
  }

  /** The digits of a number in base 32, written most significant first. */
  function DigitsOf(s: string): (r: seq<nat>)
    ensures |r| == |s| && forall n :: 0 <= n < |s| ==> r[n] == DigitOf(s[|s| - 1 - n], 0)
  {
    seq(|s|, n requires 0 <= n < |s| => DigitOf(s[|s| - 1 - n], 0))
  }

  predicate AllDigits(s: string) {
    forall n :: 0 <= n < |s| ==> DigitsOf(s)[n] < 32
  }

  function FromBase32(s: string): nat {
    FromDigits(DigitsOf(s), 5)
  }

  /** What fits into the bytes of a hash; None is a wrong length or character. */
  function Parsed(size: nat, s: string): Option<Bytes>
    requires size >= 1
  {
    if |s| != HashLength32(size) || !AllDigits(s) then None
    else Some(seq(size, i requires 0 <= i < size => Byte(FromBase32(s), i)))
  }

  // Printing

  /** The expression that picks a digit from two adjacent bytes. */
  function Picked(h: Bytes, n: nat): nat
    requires IsHash(h) && n < HashLength32(|h|)
  {
    var i, j := 5 * n / 8, 5 * n % 8;
    Low(Low(Or(ShiftRight(h[i], j), if i >= |h| - 1 then 0 else ShiftLeft(h[i + 1], 8 - j)), 8), 5)
  }

  lemma PickedBit(h: Bytes, n: nat, t: nat)
    requires IsHash(h) && n < HashLength32(|h|)
    ensures Bit(Picked(h, n), t) <==> t < 5 && Bit(Value(h), 5 * n + t)
  {
    var i, j := 5 * n / 8, 5 * n % 8;
    var low, high := ShiftRight(h[i], j), if i >= |h| - 1 then 0 else ShiftLeft(h[i + 1], 8 - j);
    LowBit(Low(Or(low, high), 8), 5, t);
    LowBit(Or(low, high), 8, t);
    OrBit(low, high, t);
    ShiftRightBit(h[i], j, t);
    if i >= |h| - 1 { ZeroBit(t); } else { ShiftLeftBit(h[i + 1], 8 - j, t); }
    if t < 5 {
      if t + j < 8 {
        DigitsBit(h, 8, i, t + j);
      } else {
        FitsBit(h[i], 8, t + j);
        DigitsBit(h, 8, i + 1, t + j - 8);
      }
    }
  }

  lemma PickedIsDigit(h: Bytes, n: nat)
    requires IsHash(h) && n < HashLength32(|h|)
    ensures Picked(h, n) == Digit(Value(h), n)
  {
    forall t: nat ensures Bit(Picked(h, n), t) <==> Bit(Digit(Value(h), n), t) {
      PickedBit(h, n, t);
      DigitBit(Value(h), n, t);
    }
    SameBits(Picked(h, n), Digit(Value(h), n));
  }

  method PrintHash32(h: Bytes) returns (s: string)
    requires IsHash(h)
    ensures s == Printed(h)
  {
    var len := HashLength32(|h|);
    s := "";
    var n: int := len - 1;
    while n >= 0
      invariant -1 <= n < len && s == Printed(h)[..len - 1 - n]
    {
      PickedIsDigit(h, n);
      s := s + [BASE32_CHARS[Picked(h, n)]];
      n := n - 1;
    }
  }

  // Parsing

  /** The bits of a number with one more digit. */
  lemma OneMoreDigit(digits: seq<nat>, n: nat, m: nat)
    requires AllFit(digits, 5) && n < |digits|
    ensures Bit(FromDigits(digits[..n + 1], 5), m) <==>
            Bit(FromDigits(digits[..n], 5), m) || (m >= 5 * n && Bit(digits[n], m - 5 * n))
  {
    DigitsBit(digits[..n], 5, m / 5, m % 5);
    DigitsBit(digits[..n + 1], 5, m / 5, m % 5);
    if m >= 5 * n + 5 { FitsBit(digits[n], 5, m - 5 * n); }
  }

  /** The bytes that receive the digit, and those that do not. */
  lemma DigitEnters(digits: seq<nat>, n: nat, k: nat)
    requires AllFit(digits, 5) && n < |digits|
    ensures var v, v2, i, j := FromDigits(digits[..n], 5), FromDigits(digits[..n + 1], 5), 5 * n / 8, 5 * n % 8;
      Byte(v2, k) == if k == i then Low(Or(Byte(v, k), ShiftLeft(digits[n], j)), 8)
                     else if k == i + 1 then Low(Or(Byte(v, k), ShiftRight(digits[n], 8 - j)), 8)
                     else Byte(v, k)
  {
    var v, v2, i, j, d := FromDigits(digits[..n], 5), FromDigits(digits[..n + 1], 5), 5 * n / 8, 5 * n % 8, digits[n];
    var r := if k == i then Low(Or(Byte(v, k), ShiftLeft(d, j)), 8)
             else if k == i + 1 then Low(Or(Byte(v, k), ShiftRight(d, 8 - j)), 8)
             else Byte(v, k);
    forall t: nat ensures Bit(Byte(v2, k), t) <==> Bit(r, t) {
      EnteringBit(digits, n, k, t);
    }
    SameBits(Byte(v2, k), r);
  }

  lemma EnteringBit(digits: seq<nat>, n: nat, k: nat, t: nat)
    requires AllFit(digits, 5) && n < |digits|
    ensures var v, v2, i, j := FromDigits(digits[..n], 5), FromDigits(digits[..n + 1], 5), 5 * n / 8, 5 * n % 8;
      Bit(Byte(v2, k), t) <==> Bit(if k == i then Low(Or(Byte(v, k), ShiftLeft(digits[n], j)), 8)
                                   else if k == i + 1 then Low(Or(Byte(v, k), ShiftRight(digits[n], 8 - j)), 8)
                                   else Byte(v, k), t)
  {
    var v, v2, i, j, d := FromDigits(digits[..n], 5), FromDigits(digits[..n + 1], 5), 5 * n / 8, 5 * n % 8, digits[n];
    ByteBit(v2, k, t);
    ByteBit(v, k, t);
    OneMoreDigit(digits, n, 8 * k + t);
    if k == i {
      LowBit(Or(Byte(v, k), ShiftLeft(d, j)), 8, t);
      OrBit(Byte(v, k), ShiftLeft(d, j), t);
      ShiftLeftBit(d, j, t);
    } else if k == i + 1 {
      LowBit(Or(Byte(v, k), ShiftRight(d, 8 - j)), 8, t);
      OrBit(Byte(v, k), ShiftRight(d, 8 - j), t);
      ShiftRightBit(d, 8 - j, t);
    } else if t < 8 && 8 * k + t >= 5 * n {
      FitsBit(d, 5, 8 * k + t - 5 * n);
    }
  }

  /** The place of a character, by trying one after the other. */
  method FindDigit(c: char) returns (digit: nat)
    ensures digit == DigitOf(c, 0)
  {
    digit := 0;
    while digit < |BASE32_CHARS|
      invariant digit <= 32 && DigitOf(c, 0) == DigitOf(c, digit)
    {
      if BASE32_CHARS[digit] == c { break; }
      digit := digit + 1;
    }
  }

  lemma SmallFits(d: nat)
    requires d < 32
    ensures Fits(d, 5)
  {
    assert Fits(d / 16, 1);
    assert Fits(d / 8, 2);
    assert Fits(d / 4, 3);
    assert Fits(d / 2, 4);
  }

  /** The bytes hold the number made of the first `n` digits. */
  ghost predicate Holds(bytes: seq<nat>, digits: seq<nat>, n: nat) {
    n <= |digits| && forall i :: 0 <= i < |bytes| ==> bytes[i] == Byte(FromDigits(digits[..n], 5), i)
  }

  /** One digit is ORed into one byte or two. */
  method EnterDigit(hash: array<nat>, digit: nat, n: nat, ghost digits: seq<nat>)
    requires n < |digits| && digits[n] == digit && (forall k :: 0 <= k <= n ==> digits[k] < 32)
    requires 5 * n / 8 < hash.Length && Holds(hash[..], digits, n)
    modifies hash
    ensures Holds(hash[..], digits, n + 1)
  {
    ghost var before := hash[..];
    ghost var known := digits[..n + 1];
    assert known[..n] == digits[..n] && known[..n + 1] == known;
    assert AllFit(known, 5) by { forall k | 0 <= k <= n ensures Fits(known[k], 5) { SmallFits(known[k]); } }
    var i, j := 5 * n / 8, 5 * n % 8;
    hash[i] := Low(Or(hash[i], ShiftLeft(digit, j)), 8);
    if i < hash.Length - 1 { hash[i + 1] := Low(Or(hash[i + 1], ShiftRight(digit, 8 - j)), 8); }
    forall k | 0 <= k < hash.Length ensures hash[..][k] == Byte(FromDigits(digits[..n + 1], 5), k) {
      assert before[k] == Byte(FromDigits(digits[..n], 5), k);
      DigitEnters(known, n, k);
    }
  }

  method ParseHash32(size: nat, s: string) returns (r: Option<Bytes>)
    requires size >= 1
    ensures r == Parsed(size, s)
  {
    var len := HashLength32(size);
    if |s| != len { return None; }
    var hash := new nat[size](_ => 0);
    ghost var digits := DigitsOf(s);
    NoDigitsYet(digits, size);
    for n := 0 to len
      invariant forall k :: 0 <= k < n ==> digits[k] < 32
      invariant Holds(hash[..], digits, n)
    {
      var digit := FindDigit(s[len - n - 1]);
      if digit >= 32 {
        assert digits[n] >= 32;
        return None;
      }
      EnterDigit(hash, digit, n, digits);
    }
    HeldIsParsed(hash[..], s);
    r := Some(hash[..]);
  }

  lemma HeldIsParsed(bytes: Bytes, s: string)
    requires |bytes| >= 1 && |s| == HashLength32(|bytes|) && AllDigits(s) && Holds(bytes, DigitsOf(s), |s|)
    ensures Parsed(|bytes|, s) == Some(bytes)
  {
    assert DigitsOf(s)[..|s|] == DigitsOf(s);
    assert Parsed(|bytes|, s).value == bytes;
  }

  lemma NoDigitsYet(digits: seq<nat>, size: nat)
    ensures forall i :: 0 <= i < size ==> Byte(FromDigits(digits[..0], 5), i) == 0
  {
    forall i | 0 <= i < size ensures Byte(0, i) == 0 {
      forall t: nat ensures Bit(Byte(0, i), t) <==> Bit(0, t) {
        ByteBit(0, i, t);
        ZeroBit(t);
        ZeroBit(8 * i + t);
      }
      SameBits(Byte(0, i), 0);
    }
  }

  // Printing and parsing back

  lemma NextChar(i: nat)
    requires i < 31
    ensures BASE32_CHARS[i] < BASE32_CHARS[i + 1]
  {
    if i < 16 { if i < 8 {} else {} } else { if i < 24 {} else {} }
  }

  lemma {:induction false} CharsAscend(i: nat, j: nat)
    requires i < j < 32
    ensures BASE32_CHARS[i] < BASE32_CHARS[j]
    decreases j - i
  {
    NextChar(i);
    if i + 1 < j { CharsAscend(i + 1, j); }
  }

  lemma {:induction false} DigitFound(d: nat, from: nat)
    requires from <= d < 32
    ensures DigitOf(BASE32_CHARS[d], from) == d
    decreases d - from
  {
    if from < d {
      CharsAscend(from, d);
      DigitFound(d, from + 1);
    }
  }

  lemma PrintedDigits(h: Bytes)
    requires IsHash(h)
    ensures var len := HashLength32(|h|); DigitsOf(Printed(h)) == seq(len, n requires 0 <= n < len => Digit(Value(h), n))
    ensures AllDigits(Printed(h))
  {
    var s, len := Printed(h), HashLength32(|h|);
    forall n | 0 <= n < len ensures DigitsOf(s)[n] == Digit(Value(h), n) {
      assert s[len - 1 - n] == BASE32_CHARS[Digit(Value(h), n)];
      DigitFound(Digit(Value(h), n), 0);
    }
  }

  /** What is printed are the base-32 digits, most significant first, of the hash as an
      integer with its least significant byte first. */
  lemma PrintedValue(h: Bytes)
    requires IsHash(h)
    ensures FromBase32(Printed(h)) == Value(h)
  {
    PrintedDigits(h);
    var digits := DigitsOf(Printed(h));
    forall n | 0 <= n < |digits| ensures Fits(digits[n], 5) { SmallFits(digits[n]); }
    forall m: nat ensures Bit(FromDigits(digits, 5), m) <==> Bit(Value(h), m) {
      DigitsBit(digits, 5, m / 5, m % 5);
      if m / 5 < |digits| {
        DigitBit(Value(h), m / 5, m % 5);
      } else {
        DigitsBit(h, 8, m / 8, m % 8);
      }
    }
    SameBits(FromDigits(digits, 5), Value(h));
  }

  /** Parsing restores every byte of a printed hash. */
  lemma RoundTrip(h: Bytes)
    requires IsHash(h)
    ensures Parsed(|h|, Printed(h)) == Some(h)
  {
    PrintedDigits(h);
    PrintedValue(h);
    var r := Parsed(|h|, Printed(h)).value;
    forall i | 0 <= i < |h| ensures r[i] == h[i] { ByteOfValue(h, i); }
    assert r == h;
  }

  // Which texts are printed hashes

  lemma {:induction false} FitsIsBelow(a: nat, k: nat)
    ensures Fits(a, k) <==> a < ShiftLeft(1, k)
  {
    if k > 0 {
      FitsIsBelow(a / 2, k - 1);
      assert ShiftLeft(1, k) == 2 * ShiftLeft(1, k - 1);
    }
  }

  lemma {:induction false} NoHighBits(a: nat, k: nat)
    requires forall t: nat :: t >= k ==> !Bit(a, t)
    ensures Fits(a, k)
    decreases a, k
  {
    if k == 0 {
      forall t: nat ensures Bit(a, t) <==> Bit(0, t) { ZeroBit(t); }
      SameBits(a, 0);
    } else {
      forall t: nat | t >= k - 1 ensures !Bit(a / 2, t) { assert !Bit(a, t + 1); }
      NoHighBits(a / 2, k - 1);
    }
  }

  /** The bytes hold the low bits of the number. */
  lemma ParsedBit(size: nat, s: string, m: nat)
    requires size >= 1 && Parsed(size, s).Some?
    ensures IsHash(Parsed(size, s).value)
    ensures Bit(Value(Parsed(size, s).value), m) <==> m < 8 * size && Bit(FromBase32(s), m)
  {
    var h, v := Parsed(size, s).value, FromBase32(s);
    forall i | 0 <= i < |h| ensures Fits(h[i], 8) { LowFits(ShiftRight(v, 8 * i), 8); }
    DigitsBit(h, 8, m / 8, m % 8);
    ByteBit(v, m / 8, m % 8);
  }

  lemma DigitOfDigits(digits: seq<nat>, n: nat)
    requires AllFit(digits, 5) && n < |digits|
    ensures Digit(FromDigits(digits, 5), n) == digits[n]
  {
    var d := Digit(FromDigits(digits, 5), n);
    forall t: nat ensures Bit(d, t) <==> Bit(digits[n], t) {
      DigitBit(FromDigits(digits, 5), n, t);
      if t < 5 { DigitsBit(digits, 5, n, t); } else { FitsBit(digits[n], 5, t); }
    }
    SameBits(d, digits[n]);
  }

  lemma ReprintedWhenFits(size: nat, s: string)
    requires size >= 1 && Parsed(size, s).Some? && Fits(FromBase32(s), 8 * size)
    ensures IsHash(Parsed(size, s).value) && Printed(Parsed(size, s).value) == s
  {
    var h, v, digits := Parsed(size, s).value, FromBase32(s), DigitsOf(s);
    forall m: nat ensures Bit(Value(h), m) <==> Bit(v, m) {
      ParsedBit(size, s, m);
      if m >= 8 * size { FitsBit(v, 8 * size, m); }
    }
    ParsedBit(size, s, 0);
    SameBits(Value(h), v);
    forall n | 0 <= n < |digits| ensures Fits(digits[n], 5) { SmallFits(digits[n]); }
    forall k | 0 <= k < |s| ensures Printed(h)[k] == s[k] { DigitOfDigits(digits, |s| - 1 - k); }
  }

  /** Printing what was parsed gives the text back if and only if its number is less than
      256 to the power of the number of bytes. */
  lemma ReprintedExactly(size: nat, s: string)
    requires size >= 1 && Parsed(size, s).Some?
    ensures IsHash(Parsed(size, s).value)
    ensures Printed(Parsed(size, s).value) == s <==> FromBase32(s) < ShiftLeft(1, 8 * size)
  {
    var h, v := Parsed(size, s).value, FromBase32(s);
    ParsedBit(size, s, 0);
    FitsIsBelow(v, 8 * size);
    if Fits(v, 8 * size) { ReprintedWhenFits(size, s); }
    if Printed(h) == s {
      PrintedValue(h);
      forall t: nat | t >= 8 * size ensures !Bit(v, t) { ParsedBit(size, s, t); }
      NoHighBits(v, 8 * size);
    }
  }

  /** Two digits for one byte: the number is too great. */
  lemma OverlongText()
    ensures Parsed(1, "zz").Some? && IsHash(Parsed(1, "zz").value) && Printed(Parsed(1, "zz").value) != "zz"
  {
    assert BASE32_CHARS[31] == 'z';
    DigitFound(31, 0);
    var digits := DigitsOf("zz");
    assert digits == [31, 31] && digits[1..] == [31] && digits[1..][1..] == [];
    assert FromDigits([31], 5) == 31;
    assert ShiftLeft(31, 5) == 992 by {
      assert ShiftLeft(31, 1) == 62;
      assert ShiftLeft(31, 2) == 124;
      assert ShiftLeft(31, 3) == 248;
      assert ShiftLeft(31, 4) == 496;
    }
    assert FromBase32("zz") == 1023;
    assert ShiftLeft(1, 8) == 256 by {
      assert ShiftLeft(1, 2) == 4;
      assert ShiftLeft(1, 4) == 16;
      assert ShiftLeft(1, 6) == 64;
    }
    ReprintedExactly(1, "zz");
  }
}
