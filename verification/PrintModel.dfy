/** What print_number of rt-thread/src/kservice.c:590-762 prints, and reading it back with Myatoi of
    drivers/lcd.c:29-50.  RT_PRINTF_PRECISION is defined; RT_PRINTF_SPECIAL and RT_PRINTF_LONGLONG
    are not. */
module PrintModel {
  const WORD: nat := 0x1_0000_0000

  datatype Flags = Flags(zeropad: bool, sign: bool, plus: bool, space: bool, left: bool, large: bool)

  /** The base divide uses: everything but 10 is 16. */
  function Radix(base: nat): nat { if base == 10 then 10 else 16 }

  function Digit(d: nat, large: bool): char
    requires d < 16
  {
    if d < 10 then '0' + d as char else if large then 'A' + (d - 10) as char else 'a' + (d - 10) as char
  }

  /** The digits of n, most significant first; none for 0. */
  function Digits(n: nat, radix: nat, large: bool): seq<char>
    requires 2 <= radix <= 16
  {
    if n == 0 then [] else Digits(n / radix, radix, large) + [Digit(n % radix, large)]
  }

  function Numeral(n: nat, radix: nat, large: bool): seq<char>
    requires 2 <= radix <= 16
  {
    if n == 0 then ['0'] else Digits(n, radix, large)
  }

  predicate Long(num: int) { -0x8000_0000 <= num < 0x8000_0000 }

  /** The number that is converted: num itself, its negation, or its 32 bits read as unsigned. */
  function Magnitude(num: int, flags: Flags): nat
    requires Long(num)
  {
    if num >= 0 then num else if flags.sign then -num else num + WORD
  }

  function SignOf(num: int, flags: Flags): seq<char> {
    if !flags.sign then [] else if num < 0 then ['-'] else if flags.plus then ['+'] else if flags.space then [' '] else []
  }

  function Fill(c: char, n: int): (r: seq<char>)
    ensures |r| == (if n < 0 then 0 else n) && forall i :: 0 <= i < |r| ==> r[i] == c
  {
    if n <= 0 then [] else [c] + Fill(c, n - 1)
  }

  function Max(a: int, b: int): int { if a < b then b else a }

  /** One number field: padding, sign, padding zeros, precision zeros, digits, padding.  An explicit
      precision of 0 suppresses the digits but still reserves their place. */
  function Field(num: int, base: nat, width: int, precision: int, flags: Flags): seq<char>
    requires Long(num)
  {
    var digits := Numeral(Magnitude(num, flags), Radix(base), flags.large);
    var sign := SignOf(num, flags);
    var pad := width - Max(|digits|, precision) - |sign|;
    var zeros := flags.zeropad && !flags.left;
    (if zeros || flags.left then [] else Fill(' ', pad)) + sign + (if zeros then Fill('0', pad) else [])
    + Fill('0', precision - |digits|) + (if precision == 0 then [] else digits)
    + (if flags.left then Fill(' ', pad) else [])
  }

  /** The field is as wide as asked for, or as wide as sign and digits need. */
  lemma FieldLength(num: int, base: nat, width: int, precision: int, flags: Flags)
    requires Long(num) && precision != 0
    ensures |Field(num, base, width, precision, flags)| ==
      Max(width, |SignOf(num, flags)| + Max(|Numeral(Magnitude(num, flags), Radix(base), flags.large)|, precision))
  {
  }

  /** With precision 0 it is narrower by just the digits it leaves out. */
  lemma FieldLengthZero(num: int, base: nat, width: int, flags: Flags)
    requires Long(num)
    ensures |Field(num, base, width, 0, flags)| ==
      Max(width, |SignOf(num, flags)| + |Numeral(Magnitude(num, flags), Radix(base), flags.large)|) - |Numeral(Magnitude(num, flags), Radix(base), flags.large)|
  {
  }

  /** A 32-bit number has at most ten digits, so they fit the 16-character buffer tmp. */
  lemma {:induction false} DigitsFit(n: nat, k: nat, radix: nat, large: bool)
    requires 10 <= radix <= 16 && n < Tens(k)
    ensures |Digits(n, radix, large)| <= k
    decreases k
  {
    if n > 0 {
      assert n / radix <= n / 10 by { DivLess(n, radix); }
      assert n / 10 < Tens(k - 1);
      DigitsFit(n / radix, k - 1, radix, large);
    }
  }

  function Tens(k: nat): nat { if k == 0 then 1 else 10 * Tens(k - 1) }

  lemma DivLess(n: nat, radix: nat)
    requires radix >= 10
    ensures n / radix <= n / 10
  {
    var q := n / radix;
    assert radix * q <= n;
    assert 10 * q <= radix * q by { assert radix * q == 10 * q + (radix - 10) * q; }
  }

  // ---------- Myatoi ----------

  predicate IsDigit(c: char) { '0' <= c <= '9' }

  /** The leading characters Myatoi skips. */
  predicate Skipped(c: char) { c == '-' || c == '+' || c == ' ' }

  function Sign(s: seq<char>): int {
    if s == [] || !Skipped(s[0]) then 1 else (if s[0] == '-' then -1 else 1) * Sign(s[1..])
  }

  function Rest(s: seq<char>): seq<char> {
    if s == [] || !Skipped(s[0]) then s else Rest(s[1..])
  }

  /** Reading on from the number read so far. */
  function Read(s: seq<char>, acc: nat): nat
    decreases |s|
  {
    if s == [] || !IsDigit(s[0]) then acc else Read(s[1..], acc * 10 + (s[0] - '0') as nat)
  }

  function Atoi(s: seq<char>): int { Sign(s) * Read(Rest(s), 0) }

  /** Myatoi.  Values that do not fit an int are undefined in C and not read here. */
  method Myatoi(s: seq<char>) returns (r: int)
    requires Read(Rest(s), 0) < 0x8000_0000
    ensures r == Atoi(s)
  {
    var i, tmp: nat, k := 1, 0, 0;
    assert s[k..] == s;
    while k < |s| && (s[k] == '-' || s[k] == '+' || s[k] == ' ')
      invariant 0 <= k <= |s|
      invariant i == 1 || i == -1
      invariant Sign(s) == (if i == 1 then Sign(s[k..]) else -Sign(s[k..])) && Rest(s) == Rest(s[k..])
    {
      assert s[k..][1..] == s[k + 1..];
      if s[k] == '-' { i := -i; }
      k := k + 1;
    }
    assert Sign(s) == i;
    while k < |s| && IsDigit(s[k])
      invariant 0 <= k <= |s|
      invariant Read(s[k..], tmp) == Read(Rest(s), 0)
    {
      assert s[k..][1..] == s[k + 1..];
      tmp := tmp * 10 + (s[k] - '0') as nat;
      k := k + 1;
    }
    r := tmp * i;
  }

  // ---------- Reading back what was printed ----------

  lemma {:induction false} SkipSpaces(n: int, s: seq<char>)
    ensures Sign(Fill(' ', n) + s) == Sign(s) && Rest(Fill(' ', n) + s) == Rest(s)
    decreases n
  {
    if n > 0 {
      assert (Fill(' ', n) + s)[1..] == Fill(' ', n - 1) + s;
      SkipSpaces(n - 1, s);
    } else {
      assert Fill(' ', n) + s == s;
    }
  }

  lemma {:induction false} ReadZeros(n: int, s: seq<char>)
    ensures Read(Fill('0', n) + s, 0) == Read(s, 0)
    decreases n
  {
    if n > 0 {
      assert (Fill('0', n) + s)[1..] == Fill('0', n - 1) + s;
      ReadZeros(n - 1, s);
    } else {
      assert Fill('0', n) + s == s;
    }
  }

  /** Digits first, then whatever ends the number. */
  lemma {:induction false} ReadConcat(d: seq<char>, s: seq<char>, acc: nat)
    requires forall i :: 0 <= i < |d| ==> IsDigit(d[i])
    ensures Read(d + s, acc) == Read(s, Read(d, acc))
    decreases |d|
  {
    if d == [] {
      assert d + s == s;
    } else {
      assert (d + s)[1..] == d[1..] + s;
      ReadConcat(d[1..], s, acc * 10 + (d[0] - '0') as nat);
    }
  }

  lemma {:induction false} ReadDigits(n: nat, large: bool)
    ensures forall i :: 0 <= i < |Digits(n, 10, large)| ==> IsDigit(Digits(n, 10, large)[i])
    ensures Read(Digits(n, 10, large), 0) == n
  {
    if n > 0 {
      ReadDigits(n / 10, large);
      var last := [Digit(n % 10, large)];
      ReadConcat(Digits(n / 10, 10, large), last, 0);
      assert Read(last, n / 10) == n / 10 * 10 + n % 10 by { assert last[1..] == []; }
    }
  }

  /** After sign characters, a number that starts with a digit. */
  lemma SkipSign(sign: seq<char>, body: seq<char>)
    requires sign == [] || sign == ['-'] || sign == ['+'] || sign == [' ']
    requires body != [] && IsDigit(body[0])
    ensures Sign(sign + body) == (if sign == ['-'] then -1 else 1) && Rest(sign + body) == body
  {
    assert Rest(body) == body && Sign(body) == 1;
    if sign == [] { assert sign + body == body; } else { assert (sign + body)[1..] == body; }
  }

  lemma ReadSpaces(n: int, acc: nat)
    ensures Read(Fill(' ', n), acc) == acc
  {
  }

  lemma NumeralReads(n: nat, large: bool)
    ensures var d := Numeral(n, 10, large); d != [] && (forall i :: 0 <= i < |d| ==> IsDigit(d[i])) && Read(d, 0) == n
  {
    ReadDigits(n, large);
    if n == 0 { assert ['0'][1..] == []; }
  }

  /** A field as spaces, sign, zeros, zeros, digits, spaces. */
  function Parts(front: int, sign: seq<char>, pad: int, zeros: int, digits: seq<char>, back: int): seq<char> {
    Fill(' ', front) + (sign + (Fill('0', pad) + (Fill('0', zeros) + (digits + Fill(' ', back)))))
  }

  lemma FieldParts(num: int, base: nat, width: int, precision: int, flags: Flags) returns (front: int, pad: int, zeros: int, back: int)
    requires Long(num) && precision != 0
    ensures Field(num, base, width, precision, flags) ==
      Parts(front, SignOf(num, flags), pad, zeros, Numeral(Magnitude(num, flags), Radix(base), flags.large), back)
  {
    hide Numeral;
    var d, sign := Numeral(Magnitude(num, flags), Radix(base), flags.large), SignOf(num, flags);
    var gap := width - Max(|d|, precision) - |sign|;
    var zeropad := flags.zeropad && !flags.left;
    front := if zeropad || flags.left then 0 else gap;
    pad := if zeropad then gap else 0;
    zeros := precision - |d|;
    back := if flags.left then gap else 0;
    FillNone(' ');
    FillNone('0');
    hide Fill;
    Regroup(Fill(' ', front), sign, Fill('0', pad), Fill('0', zeros), d, Fill(' ', back));
  }

  lemma Regroup(a: seq<char>, b: seq<char>, c: seq<char>, d: seq<char>, e: seq<char>, f: seq<char>)
    ensures a + b + c + d + e + f == a + (b + (c + (d + (e + f))))
  {
  }

  /** Myatoi gives back every decimal number whose magnitude fits an int, whatever width, precision and
      padding it was printed with, as long as its digits were not suppressed. */
  lemma RoundTrip(num: int, width: int, precision: int, flags: Flags)
    requires -0x8000_0000 < num < 0x8000_0000 && precision != 0 && (flags.sign || num >= 0)
    ensures Atoi(Field(num, 10, width, precision, flags)) == num
    ensures Read(Rest(Field(num, 10, width, precision, flags)), 0) < 0x8000_0000
  {
    hide Fill, Numeral, Read, Rest, Sign, Field, Parts;
    var front, pad, zeros, back := FieldParts(num, 10, width, precision, flags);
    NumeralReads(Magnitude(num, flags), flags.large);
    PartsRead(front, SignOf(num, flags), pad, zeros, Numeral(Magnitude(num, flags), 10, flags.large), back, Magnitude(num, flags));
  }

  lemma PartsRead(front: int, sign: seq<char>, pad: int, zeros: int, digits: seq<char>, back: int, n: nat)
    requires sign == [] || sign == ['-'] || sign == ['+'] || sign == [' ']
    requires digits != [] && (forall i :: 0 <= i < |digits| ==> IsDigit(digits[i])) && Read(digits, 0) == n
    ensures var s := Parts(front, sign, pad, zeros, digits, back);
      Sign(s) == (if sign == ['-'] then -1 else 1) && Read(Rest(s), 0) == n
  {
    hide Fill, Read, Rest, Sign;
    var body := Fill('0', pad) + (Fill('0', zeros) + (digits + Fill(' ', back)));
    BodyReads(Fill('0', pad), Fill('0', zeros), digits, Fill(' ', back), n, pad, zeros, back);
    SkipSign(sign, body);
    SkipSpaces(front, sign + body);
  }

  lemma FillNone(c: char)
    ensures Fill(c, 0) == []
  {
  }

  lemma BodyReads(z: seq<char>, p: seq<char>, d: seq<char>, tail: seq<char>, n: nat, k: int, m: int, t: int)
    requires z == Fill('0', k) && p == Fill('0', m) && tail == Fill(' ', t)
    requires d != [] && (forall i :: 0 <= i < |d| ==> IsDigit(d[i])) && Read(d, 0) == n
    ensures var body := z + (p + (d + tail)); body != [] && IsDigit(body[0]) && Read(body, 0) == n
  {
    ReadZeros(k, p + (d + tail));
    ReadZeros(m, d + tail);
    ReadConcat(d, tail, 0);
    ReadSpaces(t, n);
  }
}
