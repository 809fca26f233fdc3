/** Integers and strings in the binary format of nix/libutil/serialise.cc.  A byte is a
    character below 256. */
module Serialise {
  import opened Wrappers

  const TWO_TO_32: nat := 0x1_0000_0000
  const TWO_TO_64: nat := 0x1_0000_0000_0000_0000

  function Power(k: nat): (p: nat)
    ensures p > 0
  {
    if k == 0 then 1 else 256 * Power(k - 1)
  }

  /** The last `k` bytes of a number, least significant first. */
  function LittleEndian(n: nat, k: nat): (s: string)
    ensures |s| == k
  {
    if k == 0 then "" else [(n % 256) as char] + LittleEndian(n / 256, k - 1)
  }

  function FromLittleEndian(s: string): nat {
    if s == "" then 0 else s[0] as int + 256 * FromLittleEndian(s[1..])
  }

  lemma {:induction false} LittleEndianBack(n: nat, k: nat)
    requires n < Power(k)
    ensures FromLittleEndian(LittleEndian(n, k)) == n
  {
    if k > 0 {
      assert n / 256 < Power(k - 1);
      LittleEndianBack(n / 256, k - 1);
      assert LittleEndian(n, k)[1..] == LittleEndian(n / 256, k - 1);
    }
  }

  lemma {:induction false} HighBytesAreZero(n: nat, k: nat, j: nat)
    requires n < Power(k) && k <= j
    ensures LittleEndian(n, j) == LittleEndian(n, k) + Zeros(j - k)
  {
    if k == 0 {
      ZeroBytes(j);
      assert "" + Zeros(j) == Zeros(j);
    } else {
      assert n / 256 < Power(k - 1);
      HighBytesAreZero(n / 256, k - 1, j - 1);
      assert [(n % 256) as char] + (LittleEndian(n / 256, k - 1) + Zeros(j - k)) == LittleEndian(n, k) + Zeros(j - k);
    }
  }

  function Zeros(k: nat): (s: string)
    ensures |s| == k && forall i :: 0 <= i < k ==> s[i] == '\0'
  {
    seq(k, _ => '\0')
  }

  lemma {:induction false} ZeroBytes(k: nat)
    ensures LittleEndian(0, k) == Zeros(k)
  {
    if k > 0 { ZeroBytes(k - 1); }
  }

  lemma Powers()
    ensures Power(4) == TWO_TO_32 && Power(8) == TWO_TO_64
  {
    assert Power(4) == 256 * (256 * (256 * (256 * Power(0))));
    assert Power(8) == 256 * (256 * (256 * (256 * Power(4))));
  }

  // Writing

  function Padding(len: nat): string {
    if len % 8 == 0 then "" else Zeros(8 - len % 8)
  }

  /** A 32-bit number; a greater one loses its high bits. */
  function WrittenInt(n: nat): string {
    LittleEndian(n % TWO_TO_32, 8)
  }

  function WrittenLongLong(n: nat): string {
    LittleEndian(n % TWO_TO_64, 8)
  }

  function WrittenString(s: string): string {
    WrittenInt(|s|) + s + Padding(|s|)
  }

  // Reading

  /** The next `n` bytes. */
  function Take(s: string, n: nat): (r: Parsed<string>)
    ensures r.Ok? <==> n <= |s|
    ensures r.Ok? ==> |r.value| == n && s == r.value + r.rest
  {
    if n <= |s| then Ok(s[..n], s[n..]) else Bad
  }

  function ReadPadding(s: string, len: nat): (r: Parsed<()>)
    ensures r.Ok? ==> |r.rest| <= |s|
  {
    if len % 8 == 0 then Ok((), s)
    else
      var (zero, s1) :- Take(s, 8 - len % 8);
      if zero == Zeros(8 - len % 8) then Ok((), s1) else Bad
  }

  function ReadInt(s: string): (r: Parsed<nat>)
    ensures r.Ok? ==> |r.rest| + 8 == |s|
  {
    var (buf, s1) :- Take(s, 8);
    if buf[4..] == Zeros(4) then Ok(FromLittleEndian(buf[..4]), s1) else Bad
  }

  function ReadLongLong(s: string): (r: Parsed<nat>)
    ensures r.Ok? ==> |r.rest| + 8 == |s|
  {
    var (buf, s1) :- Take(s, 8);
    Ok(FromLittleEndian(buf), s1)
  }

  function ReadBytes(s: string, len: nat): (r: Parsed<string>)
    ensures r.Ok? ==> |r.rest| <= |s|
  {
    var (value, s1) :- Take(s, len);
    var (_, s2) :- ReadPadding(s1, len);
    Ok(value, s2)
  }

  function ReadString(s: string): (r: Parsed<string>)
    ensures r.Ok? ==> |r.rest| < |s|
  {
    var (len, s1) :- ReadInt(s);
    ReadBytes(s1, len)
  }

  // Reading back what was written

  lemma TakeBack(s: string, rest: string)
    ensures Take(s + rest, |s|) == Ok(s, rest)
  {
  }

  lemma PaddingBack(len: nat, rest: string)
    ensures ReadPadding(Padding(len) + rest, len) == Ok((), rest)
  {
    if len % 8 == 0 { assert Padding(len) + rest == rest; } else { TakeBack(Padding(len), rest); }
  }

  lemma IntBack(n: nat, rest: string)
    requires n < TWO_TO_32
    ensures ReadInt(WrittenInt(n) + rest) == Ok(n, rest)
  {
    assert n % TWO_TO_32 == n;
    var buf := LittleEndian(n, 8);
    TakeBack(buf, rest);
    assert FromLittleEndian(buf[..4]) == n && buf[4..] == Zeros(4) by {
      Powers();
      HighBytesAreZero(n, 4, 8);
      LittleEndianBack(n, 4);
      assert buf[..4] == LittleEndian(n, 4);
    }
  }

  lemma LongLongBack(n: nat, rest: string)
    requires n < TWO_TO_64
    ensures ReadLongLong(WrittenLongLong(n) + rest) == Ok(n, rest)
  {
    assert n % TWO_TO_64 == n;
    TakeBack(LittleEndian(n, 8), rest);
    assert FromLittleEndian(LittleEndian(n, 8)) == n by {
      Powers();
      LittleEndianBack(n, 8);
    }
  }

  lemma BytesBack(s: string, rest: string)
    ensures ReadBytes(s + (Padding(|s|) + rest), |s|) == Ok(s, rest)
  {
    TakeBack(s, Padding(|s|) + rest);
    PaddingBack(|s|, rest);
  }

  /** Any string below 4 GiB is read back, and nothing after it is touched. */
  lemma StringBack(s: string, rest: string)
    requires |s| < TWO_TO_32
    ensures ReadString(WrittenString(s) + rest) == Ok(s, rest)
  {
    assert WrittenString(s) + rest == WrittenInt(|s|) + (s + (Padding(|s|) + rest));
    IntBack(|s|, s + (Padding(|s|) + rest));
    BytesBack(s, rest);
  }
}
