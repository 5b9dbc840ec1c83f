/** print_number and rt_vsnprintf of rt-thread/src/kservice.c in place: characters past the end of the
    buffer are counted but not stored. */
module Printer {
  import opened PrintModel

  class Out {
    const buf: array<char>
    const size: nat
    var str: nat                 // the write position, counted from buf
    ghost var text: seq<char>    // everything written so far, stored or not

    constructor (b: array<char>, n: nat)
      requires n <= b.Length
      ensures Valid() && buf == b && size == n && text == []
    {
      buf, size, str, text := b, n, 0, [];
    }

    /** What fits in front of the end is stored. */
    ghost predicate Valid()
      reads this, buf
    {
      size <= buf.Length && str == |text| && forall k :: 0 <= k < str && k < size ==> buf[k] == text[k]
    }

    /** if (str < end) *str = c; ++str; */
    method Put(c: char)
      requires Valid()
      modifies this, buf
      ensures Valid() && text == old(text) + [c]
    {
      if str < size { buf[str] := c; }
      str := str + 1;
      text := text + [c];
    }

    /** while (n-- > 0) ... */
    method PutMany(c: char, n: int)
      requires Valid()
      modifies this, buf
      ensures Valid() && text == old(text) + Fill(c, n)
    {
      var k := n;
      while k > 0
        invariant Valid() && (n >= 0 ==> k >= 0) && (n < 0 ==> k == n)
        invariant text + Fill(c, k) == old(text) + Fill(c, n)
        decreases k
      {
        Put(c);
        k := k - 1;
      }
    }

    method PutAll(s: seq<char>)
      requires Valid()
      modifies this, buf
      ensures Valid() && text == old(text) + s
    {
      var i := 0;
      while i < |s|
        invariant 0 <= i <= |s| && Valid()
        invariant text == old(text) + s[..i]
      {
        Put(s[i]);
        i := i + 1;
      }
      assert s[..i] == s;
    }

    /** The digit loop: tmp receives the digits, lowest first. */
    method Convert(n: nat, radix: nat, large: bool) returns (tmp: seq<char>)
      requires 10 <= radix <= 16 && n < WORD
      ensures Backwards(tmp) == Numeral(n, radix, large) && 1 <= |tmp| <= 10
    {
      tmp := [];
      if n == 0 {
        tmp := ['0'];
        assert tmp[1..] == [];
      } else {
        var num: nat := n;
        BackwardsNone();
        assert Digits(n, radix, large) + [] == Digits(n, radix, large);
        while num != 0
          invariant Digits(n, radix, large) == Digits(num, radix, large) + Backwards(tmp)
          decreases num
        {
          BackwardsAppend(tmp, Digit(num % radix, large));
          Smaller(num, radix);
          tmp := tmp + [Digit(num % radix, large)];
          num := num / radix;
        }
        assert Tens(10) > WORD by { assert Tens(5) == 100000 by { assert Tens(3) == 1000; } assert Tens(8) == 100000000; }
        DigitsFit(n, 10, radix, large);
        BackwardsLength(tmp);
      }
    }

    /** print_number. */
    method PrintNumber(num: int, base: nat, width: int, precision: int, flags: Flags)
      requires Valid() && Long(num)
      modifies this, buf
      ensures Valid() && text == old(text) + Field(num, base, width, precision, flags)
    {
      hide Valid, Fill, Numeral, Backwards, Field, SignOf;
      SignShort(num, flags);
      var zeropad := flags.zeropad && !flags.left;
      var sign := SignOf(num, flags);
      var n := if flags.sign && num < 0 then -num else if num < 0 then num + WORD else num;
      var tmp := Convert(n, Radix(base), flags.large);
      BackwardsLength(tmp);
      var i := |tmp|;
      var prec := if i > precision then i else precision;
      ghost var pad := width - prec - |sign|;
      FieldIs(num, base, width, precision, flags, pad);
      ghost var front := if zeropad || flags.left then [] else Fill(' ', pad);
      ghost var zeros := if zeropad then Fill('0', pad) else [];
      var size := Lead(sign, width - prec, zeropad, flags.left);
      PutTail(tmp, precision, size);
      FillSame(' ', size, if flags.left then pad else 0);
      Gather(old(text), front, sign, zeros, Fill('0', precision - i), if precision == 0 then [] else Backwards(tmp), Fill(' ', size));
    }

    /** Precision zeros, the digits unless precision is 0, and the padding behind them. */
    method PutTail(tmp: seq<char>, precision: int, size: int)
      requires Valid()
      modifies this, buf
      ensures Valid() && text == old(text) + Fill('0', precision - |tmp|) + (if precision == 0 then [] else Backwards(tmp)) + Fill(' ', size)
    {
      hide Valid, Fill, Backwards;
      var prec := if |tmp| > precision then |tmp| else precision;
      FillSame('0', prec - |tmp|, precision - |tmp|);
      PutMany('0', prec - |tmp|);
      PutDigits(tmp, precision);
      PutMany(' ', size);
    }

    method PutDigits(tmp: seq<char>, precision: int)
      requires Valid()
      modifies this, buf
      ensures Valid() && text == old(text) + if precision == 0 then [] else Backwards(tmp)
    {
      if precision != 0 { PutBackwards(tmp); }
    }

    /** The part in front of the digits; what is left of size is for padding behind them. */
    method Lead(sign: seq<char>, size0: int, zeropad: bool, left: bool) returns (size: int)
      requires Valid() && |sign| <= 1 && !(zeropad && left)
      modifies this, buf
      ensures Valid()
      ensures var pad := size0 - |sign|;
        && text == old(text) + (if zeropad || left then [] else Fill(' ', pad)) + sign + (if zeropad then Fill('0', pad) else [])
        && (if left then size == pad else size < 0)
    {
      hide Valid, Fill;
      size := size0;
      ghost var pad := size0 - |sign|;
      if !zeropad && !left {
        if sign != [] && size > 0 { size := size - 1; }
        FillSame(' ', size, pad);
        PutMany(' ', size);
        size := if size > 0 then -1 else size - 1;
      }
      PutSign(sign);
      size := size - |sign|;
      if !left {
        FillSame(if zeropad then '0' else ' ', size, if zeropad then pad else 0);
        FillNothing(if zeropad then '0' else ' ');
        PutMany(if zeropad then '0' else ' ', size);
        size := if size > 0 then -1 else size - 1;
      }
    }

    method PutSign(sign: seq<char>)
      requires Valid() && |sign| <= 1
      modifies this, buf
      ensures Valid() && text == old(text) + sign
    {
      if sign != [] {
        Put(sign[0]);
        assert sign == [sign[0]];
      }
    }

    /** while (i-- > 0) *buf = tmp[i]; */
    method PutBackwards(tmp: seq<char>)
      requires Valid()
      modifies this, buf
      ensures Valid() && text == old(text) + Backwards(tmp)
    {
      var i := |tmp|;
      assert tmp[..i] == tmp;
      while i > 0
        invariant 0 <= i <= |tmp| && Valid()
        invariant text + Backwards(tmp[..i]) == old(text) + Backwards(tmp)
      {
        assert tmp[..i] == tmp[..i - 1] + [tmp[i - 1]];
        BackwardsAppend(tmp[..i - 1], tmp[i - 1]);
        i := i - 1;
        Put(tmp[i]);
      }
    }
  }

  function Backwards(s: seq<char>): seq<char> { if s == [] then [] else Backwards(s[1..]) + [s[0]] }

  lemma BackwardsNone()
    ensures Backwards([]) == []
  {
  }

  lemma {:induction false} BackwardsAppend(s: seq<char>, c: char)
    ensures Backwards(s + [c]) == [c] + Backwards(s)
  {
    if s == [] {
      assert (s + [c])[1..] == [];
    } else {
      assert (s + [c])[1..] == s[1..] + [c];
      BackwardsAppend(s[1..], c);
    }
  }

  lemma {:induction false} BackwardsLength(s: seq<char>)
    ensures |Backwards(s)| == |s|
  {
    if s != [] { BackwardsLength(s[1..]); }
  }

  lemma Smaller(n: nat, radix: nat)
    requires n > 0 && radix >= 2
    ensures n / radix < n
  {
    var q := n / radix;
    assert radix * q <= n;
    assert radix * q >= 2 * q by { assert radix * q == 2 * q + (radix - 2) * q; }
  }

  /** The field once more, with its padding named. */
  lemma FieldIs(num: int, base: nat, width: int, precision: int, flags: Flags, pad: int)
    requires Long(num)
    requires pad == width - Max(|Numeral(Magnitude(num, flags), Radix(base), flags.large)|, precision) - |SignOf(num, flags)|
    ensures
      var digits := Numeral(Magnitude(num, flags), Radix(base), flags.large);
      var zeropad := flags.zeropad && !flags.left;
      Field(num, base, width, precision, flags) ==
        (if zeropad || flags.left then [] else Fill(' ', pad)) + SignOf(num, flags) + (if zeropad then Fill('0', pad) else [])
        + Fill('0', precision - |digits|) + (if precision == 0 then [] else digits) + Fill(' ', if flags.left then pad else 0)
  {
    FillNothing(' ');
  }

  lemma SignShort(num: int, flags: Flags)
    ensures |SignOf(num, flags)| <= 1
  {
  }

  lemma FillSame(c: char, a: int, b: int)
    requires a == b || (a <= 0 && b <= 0)
    ensures Fill(c, a) == Fill(c, b)
  {
  }

  lemma FillNothing(c: char)
    ensures Fill(c, 0) == []
  {
  }

  lemma Gather(o: seq<char>, a: seq<char>, b: seq<char>, c: seq<char>, d: seq<char>, e: seq<char>, f: seq<char>)
    ensures o + a + b + c + d + e + f == o + (a + b + c + d + e + f)
  {
  }
}
