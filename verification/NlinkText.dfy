// The text in which a link count is kept on disk: "U" or "L", a sign, decimal digits.

module NlinkText {
  import opened Tree

  const TWO_31: int := 0x8000_0000
  const TWO_32: int := 0x1_0000_0000
  /** The buffer has 13 bytes; one is for the terminator. */
  const MAX_TEXT := 12

  /** A conversion to a 32-bit int. */
  function Int32(x: int): (r: int)
    ensures -TWO_31 <= r < TWO_31
    ensures (r - x) % TWO_32 == 0
  {
    var m := x % TWO_32;
    if m < TWO_31 then m else m - TWO_32
  }

  lemma Int32Unique(x: int, r: int)
    requires -TWO_31 <= r < TWO_31 && (r - x) % TWO_32 == 0
    ensures Int32(x) == r
  {
    assert (r - x) % TWO_32 == 0;
  }

  /** Adding after converting is converting after adding. */
  lemma Int32Sum(x: int, y: int)
    ensures Int32(Int32(x) + Int32(y)) == Int32(x + y)
  {
    var r := Int32(Int32(x) + Int32(y));
    var a, b, c := (Int32(x) - x) / TWO_32, (Int32(y) - y) / TWO_32, (r - Int32(x) - Int32(y)) / TWO_32;
    assert r - (x + y) == TWO_32 * (a + b + c);
    Int32Unique(x + y, r);
  }

  datatype Base = Upper | Lower

  function Digit(k: nat): char
    requires k < 10
  {
    '0' + k as char
  }

  predicate IsDigit(c: char) {
    '0' <= c <= '9'
  }

  function Digits(n: nat): string {
    if n < 10 then [Digit(n)] else Digits(n / 10) + [Digit(n % 10)]
  }

  /** What snprintf makes of "U%+i" or "L%+i". */
  function Text(base: Base, diff: int): string {
    [if base.Upper? then 'U' else 'L', if diff < 0 then '-' else '+'] + Digits(if diff < 0 then -diff else diff)
  }

  function Number(s: string): Option<nat> {
    if s == [] then None
    else
      var last := s[|s| - 1];
      if !IsDigit(last) then None
      else
        var k := (last - '0') as nat;
        if |s| == 1 then Some(k)
        else
          match Number(s[..|s| - 1])
          case Some(n) => Some(10 * n + k)
          case None => None
  }

  /** kstrtoint in base 10: a sign, at least one digit, perhaps a newline, in range. */
  function ParseInt(s: string): Option<int> {
    var negative := s != [] && s[0] == '-';
    var unsigned := if s != [] && (s[0] == '-' || s[0] == '+') then s[1..] else s;
    var body := if unsigned != [] && unsigned[|unsigned| - 1] == '\n' then unsigned[..|unsigned| - 1] else unsigned;
    match Number(body)
    case None => None
    case Some(n) =>
      var v := if negative then -(n as int) else n;
      if -TWO_31 <= v < TWO_31 then Some(v) else None
  }

  function ParseText(t: string): Option<(Base, int)> {
    if |t| < 2 || |t| > MAX_TEXT then None
    else if t[0] != 'U' && t[0] != 'L' then None
    else if t[1] != '+' && t[1] != '-' then None
    else
      match ParseInt(t[1..])
      case None => None
      case Some(v) => Some((if t[0] == 'L' then Lower else Upper, v))
  }

  lemma {:induction false} DigitsRead(n: nat)
    ensures Number(Digits(n)) == Some(n)
    ensures Digits(n) != [] && IsDigit(Digits(n)[|Digits(n)| - 1])
  {
    if n >= 10 {
      DigitsRead(n / 10);
      assert Digits(n)[..|Digits(n)| - 1] == Digits(n / 10);
    }
  }

  function Pow10(k: nat): nat {
    if k == 0 then 1 else 10 * Pow10(k - 1)
  }

  lemma {:induction false} DigitsLength(n: nat, k: nat)
    requires k > 0 && n < Pow10(k)
    ensures |Digits(n)| <= k
  {
    if n >= 10 {
      DigitsLength(n / 10, k - 1);
    }
  }

  lemma SignedRead(sign: char, n: nat)
    requires sign == '-' || sign == '+'
    requires -TWO_31 <= (if sign == '-' then -(n as int) else n) < TWO_31
    ensures ParseInt([sign] + Digits(n)) == Some(if sign == '-' then -(n as int) else n)
  {
    DigitsRead(n);
    assert ([sign] + Digits(n))[1..] == Digits(n);
  }

  /** Every 32-bit difference fits the buffer and reads back as itself. */
  lemma TextRoundTrip(base: Base, diff: int)
    requires -TWO_31 <= diff < TWO_31
    ensures |Text(base, diff)| <= MAX_TEXT
    ensures ParseText(Text(base, diff)) == Some((base, diff))
  {
    var n: nat := if diff < 0 then -diff else diff;
    var sign := if diff < 0 then '-' else '+';
    assert Pow10(5) == 100_000;
    DigitsLength(n, 10);
    SignedRead(sign, n);
    assert Text(base, diff)[1..] == [sign] + Digits(n);
  }
}
