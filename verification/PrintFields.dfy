/** What is in a number field, read off its characters. */
module PrintFields {
  import opened PrintModel

  function DigitValue(c: char): nat {
    if '0' <= c <= '9' then (c - '0') as nat else if 'a' <= c <= 'f' then (c - 'a') as nat + 10 else if 'A' <= c <= 'F' then (c - 'A') as nat + 10 else 0
  }

  /** The number that digits stand for. */
  function ReadIn(s: seq<char>, radix: nat): nat {
    if s == [] then 0 else ReadIn(s[..|s| - 1], radix) * radix + DigitValue(s[|s| - 1])
  }

  predicate IsDigitIn(c: char, radix: nat, large: bool) {
    '0' <= c <= '9' || (radix == 16 && if large then 'A' <= c <= 'F' else 'a' <= c <= 'f')
  }

  /** s is n written in that radix, with capitals if large, and without a leading zero unless it is 0. */
  ghost predicate Writes(s: seq<char>, n: nat, radix: nat, large: bool) {
    && s != [] && (forall i :: 0 <= i < |s| ==> IsDigitIn(s[i], radix, large))
    && ReadIn(s, radix) == n && (s[0] == '0' ==> n == 0 && |s| == 1)
  }

  lemma DigitIs(d: nat, radix: nat, large: bool)
    requires d < radix && (radix == 10 || radix == 16)
    ensures IsDigitIn(Digit(d, large), radix, large) && DigitValue(Digit(d, large)) == d && (Digit(d, large) == '0' ==> d == 0)
  {
  }

  lemma Euclid(n: nat, radix: nat)
    requires radix == 10 || radix == 16
    ensures n / radix * radix + n % radix == n && n % radix < radix && (n > 0 ==> n / radix < n)
  {
  }

  lemma OneMore(rest: seq<char>, d: nat, q: nat, radix: nat, large: bool)
    requires (radix == 10 || radix == 16) && d < radix && (rest == [] ==> q == 0 && d > 0) && (rest != [] ==> q > 0 && Writes(rest, q, radix, large))
    ensures Writes(rest + [Digit(d, large)], q * radix + d, radix, large)
  {
    hide Digit, DigitValue, IsDigitIn;
    DigitIs(d, radix, large);
    assert (rest + [Digit(d, large)])[..|rest|] == rest;
  }

  lemma {:induction false} DigitsWrite(n: nat, radix: nat, large: bool)
    requires n > 0 && (radix == 10 || radix == 16)
    ensures Writes(Digits(n, radix, large), n, radix, large)
  {
    hide Digit, Writes;
    Euclid(n, radix);
    var q := n / radix;
    if q > 0 {
      DigitsWrite(q, radix, large);
      WritesSome(Digits(q, radix, large), q, radix, large);
    }
    OneMore(Digits(q, radix, large), n % radix, q, radix, large);
  }

  lemma WritesSome(s: seq<char>, n: nat, radix: nat, large: bool)
    requires Writes(s, n, radix, large)
    ensures s != []
  {
  }

  lemma NumeralWrites(n: nat, radix: nat, large: bool)
    requires radix == 10 || radix == 16
    ensures Writes(Numeral(n, radix, large), n, radix, large)
  {
    if n > 0 { DigitsWrite(n, radix, large); } else { assert ['0'][..0] == []; }
  }

  /** A number field is a sign or none, zeros and digits, with spaces in front or behind.  The sign is a minus for a
      negative signed number, and else what the flags ask for; the digits are those of the number, or of its
      negation, or of its 32 bits; what the width adds are zeros behind the sign if asked for, or spaces, behind
      everything for a left-aligned field; what the precision adds are zeros. */
  lemma FieldIs(num: int, base: nat, width: int, precision: int, flags: Flags) returns (front: nat, zeros: nat, d: seq<char>, back: nat)
    requires Long(num)
    ensures var sign := if flags.sign && num < 0 then "-" else if flags.sign && flags.plus then "+" else if flags.sign && flags.space then " " else "";
      var pad := Max(0, width - |sign| - Max(|d|, precision));
      && Writes(d, if num >= 0 then num else if flags.sign then -num else num + 0x1_0000_0000, if base == 10 then 10 else 16, flags.large)
      && Field(num, base, width, precision, flags) ==
         Fill(' ', front) + sign + Fill('0', zeros) + (if precision == 0 then "" else d) + Fill(' ', back)
      && front == (if flags.left || flags.zeropad then 0 else pad)
      && back == (if flags.left then pad else 0)
      && zeros == Max(0, precision - |d|) + if flags.zeropad && !flags.left then pad else 0
  {
    hide Numeral, Writes, Fill, IsDigitIn, ReadIn, SignOf;
    SignIs(num, flags);
    d := Numeral(Magnitude(num, flags), Radix(base), flags.large);
    NumeralWrites(Magnitude(num, flags), Radix(base), flags.large);
    var sign := SignOf(num, flags);
    var gap := width - Max(|d|, precision) - |sign|;
    var pad, more := Max(0, gap), Max(0, precision - |d|);
    front := if flags.left || flags.zeropad then 0 else pad;
    back := if flags.left then pad else 0;
    var lead := if flags.zeropad && !flags.left then pad else 0;
    zeros := more + lead;
    Blank(' ');
    Blank('0');
    Clipped(' ', gap);
    Clipped('0', gap);
    Clipped('0', precision - |d|);
    ZerosTogether(lead, more);
    Gathered(Fill(' ', front), sign, Fill('0', lead), Fill('0', more), Fill('0', zeros), if precision == 0 then "" else d, Fill(' ', back));
  }

  lemma SignIs(num: int, flags: Flags)
    ensures SignOf(num, flags) == if flags.sign && num < 0 then "-" else if flags.sign && flags.plus then "+" else if flags.sign && flags.space then " " else ""
  {
  }

  lemma Blank(c: char)
    ensures Fill(c, 0) == []
  {
  }

  lemma Clipped(c: char, n: int)
    ensures Fill(c, n) == Fill(c, Max(0, n))
  {
  }

  lemma ZerosTogether(a: nat, b: nat)
    ensures Fill('0', a) + Fill('0', b) == Fill('0', b + a)
  {
  }

  lemma Gathered(a: seq<char>, s: seq<char>, l: seq<char>, m: seq<char>, z: seq<char>, d: seq<char>, b: seq<char>)
    requires l + m == z
    ensures a + s + l + m + d + b == a + s + z + d + b
  {
    assert a + s + l + m == a + s + (l + m);
  }

  /** A field holds a minus sign exactly for a negative signed number, and a plus sign exactly for another signed one
      that is to have it. */
  lemma SignSeen(num: int, base: nat, width: int, precision: int, flags: Flags)
    requires Long(num)
    ensures '-' in Field(num, base, width, precision, flags) <==> flags.sign && num < 0
    ensures '+' in Field(num, base, width, precision, flags) <==> flags.sign && num >= 0 && flags.plus
  {
    var front, zeros, d, back := FieldIs(num, base, width, precision, flags);
    var sign := if flags.sign && num < 0 then "-" else if flags.sign && flags.plus then "+" else if flags.sign && flags.space then " " else "";
    hide Field, ReadIn, Fill;
    SignIn('-', Fill(' ', front), sign, Fill('0', zeros), if precision == 0 then "" else d, Fill(' ', back));
    SignIn('+', Fill(' ', front), sign, Fill('0', zeros), if precision == 0 then "" else d, Fill(' ', back));
  }

  lemma SignIn(c: char, a: seq<char>, s: seq<char>, z: seq<char>, d: seq<char>, b: seq<char>)
    requires c !in a && c !in z && c !in d && c !in b
    ensures c in a + s + z + d + b <==> c in s
  {
  }

  // ---------- Myatoi ----------

  lemma {:induction false} ReadIsValue(d: seq<char>)
    requires forall i :: 0 <= i < |d| ==> '0' <= d[i] <= '9'
    ensures Read(d, 0) == ReadIn(d, 10)
    decreases |d|
  {
    if d != [] {
      var rest, last := d[..|d| - 1], [d[|d| - 1]];
      assert d == rest + last;
      ReadIsValue(rest);
      ReadConcat(rest, last, 0);
      assert last[1..] == [];
    }
  }

  lemma {:induction false} SignCounts(pre: seq<char>, s: seq<char>)
    requires forall i :: 0 <= i < |pre| ==> pre[i] == '-' || pre[i] == '+' || pre[i] == ' '
    requires s == [] || !Skipped(s[0])
    ensures Sign(pre + s) == (if multiset(pre)['-'] % 2 == 0 then 1 else -1) && Rest(pre + s) == s
    decreases |pre|
  {
    if pre == [] {
      assert pre + s == s;
    } else {
      assert (pre + s)[1..] == pre[1..] + s;
      assert pre == [pre[0]] + pre[1..];
      SignCounts(pre[1..], s);
    }
  }

  /** Myatoi skips spaces and signs, reads digits up to the first other character, and negates the number once for
      every minus sign. */
  lemma AtoiIs(pre: seq<char>, d: seq<char>, tail: seq<char>)
    requires forall i :: 0 <= i < |pre| ==> pre[i] == '-' || pre[i] == '+' || pre[i] == ' '
    requires forall i :: 0 <= i < |d| ==> '0' <= d[i] <= '9'
    requires tail == [] || !('0' <= tail[0] <= '9' || (d == [] && (tail[0] == '-' || tail[0] == '+' || tail[0] == ' ')))
    ensures Atoi(pre + (d + tail)) == (if multiset(pre)['-'] % 2 == 0 then 1 else -1) * ReadIn(d, 10)
  {
    hide Read, Rest, Sign, ReadIn;
    SignCounts(pre, d + tail);
    ReadConcat(d, tail, 0);
    ReadIsValue(d);
    ReadStops(tail, Read(d, 0));
  }

  lemma ReadStops(tail: seq<char>, acc: nat)
    requires tail == [] || !('0' <= tail[0] <= '9')
    ensures Read(tail, acc) == acc
  {
  }
}
