/** What rt_vsnprintf of rt-thread/src/kservice.c:761-1024 prints for a format written as text and directives. */
module FormatText {
  import opened PrintModel
  import opened PrintFields
  import opened Format

  // ---------- A format read from the middle is a shorter format ----------

  lemma {:induction false} FlagsShift(fmt: seq<char>, m: nat, i: nat, f: Flags)
    requires m <= |fmt| && m <= i
    ensures FlagsFrom(fmt, i, f) == (FlagsFrom(fmt[m..], i - m, f).0 + m, FlagsFrom(fmt[m..], i - m, f).1)
    decreases |fmt| - i
  {
    if i < |fmt| && IsFlag(fmt[i]) { FlagsShift(fmt, m, i + 1, AddFlag(f, fmt[i])); }
  }

  lemma {:induction false} NumberShift(fmt: seq<char>, m: nat, i: nat, acc: nat)
    requires m <= |fmt| && m <= i
    ensures Number(fmt, i, acc) == (Number(fmt[m..], i - m, acc).0 + m, Number(fmt[m..], i - m, acc).1)
    decreases |fmt| - i
  {
    if i < |fmt| && IsDigit(fmt[i]) { NumberShift(fmt, m, i + 1, acc * 10 + (fmt[i] - '0') as nat); }
  }

  lemma WidthShift(fmt: seq<char>, m: nat, i: nat, args: seq<Arg>, k: nat, f: Flags)
    requires m <= |fmt| && m <= i
    ensures var s := WidthFrom(fmt[m..], i - m, args, k, f); WidthFrom(fmt, i, args, k, f) == s.(i := s.i + m) && i - m <= s.i
  {
    hide Number, WordOf, Signed;
    NumberShift(fmt, m, i, 0);
    NumberAdvance(fmt, i, 0);
  }

  lemma PrecisionShift(fmt: seq<char>, m: nat, s: Spec, args: seq<Arg>)
    requires m <= |fmt| && m <= s.i
    ensures var r := PrecisionFrom(fmt[m..], s.(i := s.i - m), args); PrecisionFrom(fmt, s, args) == r.(i := r.i + m) && s.i - m <= r.i
  {
    hide Number, WordOf, Signed;
    NumberShift(fmt, m, s.i + 1, 0);
    NumberAdvance(fmt, s.i + 1, 0);
  }

  lemma SpecShift(fmt: seq<char>, m: nat, i: nat, args: seq<Arg>, k: nat)
    requires m <= |fmt| && m <= i
    ensures var s := SpecFrom(fmt[m..], i - m, args, k); SpecFrom(fmt, i, args, k) == s.(i := s.i + m)
  {
    hide FlagsFrom, WidthFrom, PrecisionFrom;
    FlagsShift(fmt, m, i, NO_FLAGS);
    FlagsAdvance(fmt, i, NO_FLAGS);
    var (j, f) := FlagsFrom(fmt, i, NO_FLAGS);
    WidthShift(fmt, m, j, args, k, f);
    var s := WidthFrom(fmt, j, args, k, f);
    PrecisionShift(fmt, m, s, args);
  }

  lemma ConversionShift(fmt: seq<char>, m: nat, s: Spec, args: seq<Arg>)
    requires m <= |fmt| && m <= s.i
    ensures var (text, j, k) := Conversion(fmt[m..], s.(i := s.i - m), args); Conversion(fmt, s, args) == (text, j + m, k)
  {
    hide Field, StringField, CharField, WordOf, TextOf, Value;
  }

  lemma TextAt(fmt: seq<char>, i: nat, args: seq<Arg>, k: nat)
    ensures i >= |fmt| ==> Rendered(fmt, i, args, k) == []
    ensures i < |fmt| && fmt[i] != '%' ==> Rendered(fmt, i, args, k) == [fmt[i]] + Rendered(fmt, i + 1, args, k)
  {
    hide Conversion, SpecFrom;
  }

  lemma DirectiveAt(fmt: seq<char>, i: nat, args: seq<Arg>, k: nat)
    requires i < |fmt| && fmt[i] == '%'
    ensures var (text, j, n) := Conversion(fmt, SpecFrom(fmt, i + 1, args, k), args);
      Rendered(fmt, i, args, k) == text + Rendered(fmt, j, args, n) && i < j <= |fmt|
  {
    SpecAdvance(fmt, i + 1, args, k);
    ConversionAdvance(fmt, SpecFrom(fmt, i + 1, args, k), args);
    hide Conversion, SpecFrom;
  }

  lemma {:induction false} RenderedShift(fmt: seq<char>, m: nat, i: nat, args: seq<Arg>, k: nat)
    requires m <= |fmt| && m <= i
    ensures Rendered(fmt, i, args, k) == Rendered(fmt[m..], i - m, args, k)
    decreases |fmt| - i
  {
    hide Conversion, SpecFrom, Rendered;
    TextAt(fmt, i, args, k);
    TextAt(fmt[m..], i - m, args, k);
    if i < |fmt| && fmt[i] != '%' {
      RenderedShift(fmt, m, i + 1, args, k);
    } else if i < |fmt| {
      DirectiveAt(fmt, i, args, k);
      DirectiveAt(fmt[m..], i - m, args, k);
      SpecAdvance(fmt, i + 1, args, k);
      SpecShift(fmt, m, i + 1, args, k);
      var s := SpecFrom(fmt, i + 1, args, k);
      ConversionShift(fmt, m, s, args);
      var (text, j, n) := Conversion(fmt, s, args);
      RenderedShift(fmt, m, j, args, n);
    }
  }

  // ---------- Plain text ----------

  /** Text without percent signs is printed as it stands, and the rest of the format as if it stood alone. */
  lemma {:induction false} TextThen(a: seq<char>, b: seq<char>, args: seq<Arg>, k: nat)
    requires '%' !in a
    ensures Rendered(a + b, 0, args, k) == a + Rendered(b, 0, args, k)
    decreases |a|
  {
    hide Conversion, SpecFrom;
    if a == [] {
      assert a + b == b;
    } else {
      assert a == [a[0]] + a[1..];
      assert (a + b)[1..] == a[1..] + b;
      RenderedShift(a + b, 1, 1, args, k);
      TextThen(a[1..], b, args, k);
      assert [a[0]] + (a[1..] + Rendered(b, 0, args, k)) == a + Rendered(b, 0, args, k);
    }
  }

  lemma PlainText(a: seq<char>, args: seq<Arg>)
    requires '%' !in a
    ensures Rendered(a, 0, args, 0) == a
  {
    TextThen(a, [], args, 0);
    assert a + [] == a;
  }

  // ---------- Directives ----------

  /** An argument as an int. */
  function IntArg(args: seq<Arg>, k: nat): (r: int)
    ensures Long(r)
  {
    if k < |args| && args[k].Word? then (args[k].w + 0x8000_0000) % 0x1_0000_0000 - 0x8000_0000 else 0
  }

  /** The width and precision, the flags and the position of the argument of a directive with flags fs, width w and
      precision p. */
  datatype Meaning = Meaning(width: int, precision: int, flags: Flags, k: nat)

  function Meant(fs: seq<char>, w: seq<char>, p: seq<char>, args: seq<Arg>, k: nat): Meaning {
    var n := if w == "*" then IntArg(args, k) else 0;
    var k1 := if w == "*" then k + 1 else k;
    Meaning(
      if w == "" then -1 else if w == "*" then (if n < 0 then -n else n) else ReadIn(w, 10),
      if p == "" then -1 else if p == ".*" then Max(0, IntArg(args, k1)) else ReadIn(p[1..], 10),
      Flags('0' in fs, false, '+' in fs, ' ' in fs, '-' in fs || n < 0, false),
      if p == ".*" then k1 + 1 else k1)
  }

  predicate Decimal(s: seq<char>) { s != [] && forall i :: 0 <= i < |s| ==> '0' <= s[i] <= '9' }

  predicate IsWidth(w: seq<char>) { w == "" || w == "*" || (Decimal(w) && w[0] != '0') }

  predicate IsPrecision(p: seq<char>) { p == "" || p == "." || p == ".*" || (p[0] == '.' && Decimal(p[1..])) }

  /** A character that ends a directive. */
  predicate Ends(c: char) { !IsFlag(c) && !IsDigit(c) && c != '*' && c != '.' && c != 'h' && c != 'l' && c != '\0' }

  /** Flags f with those of fs added, in whatever order they stand. */
  function Adding(f: Flags, fs: seq<char>): Flags {
    f.(zeropad := f.zeropad || '0' in fs, plus := f.plus || '+' in fs, space := f.space || ' ' in fs, left := f.left || '-' in fs)
  }

  lemma AddingFirst(f: Flags, fs: seq<char>)
    requires fs != [] && IsFlag(fs[0])
    ensures Adding(AddFlag(f, fs[0]), fs[1..]) == Adding(f, fs)
  {
    assert fs == [fs[0]] + fs[1..];
  }

  lemma {:induction false} FlagsAre(fmt: seq<char>, i: nat, fs: seq<char>, t: seq<char>, f: Flags)
    requires i <= |fmt| && fmt[i..] == fs + t && (forall j :: 0 <= j < |fs| ==> IsFlag(fs[j])) && (t != [] ==> !IsFlag(t[0]))
    ensures FlagsFrom(fmt, i, f) == (i + |fs|, Adding(f, fs))
    decreases |fs|
  {
    hide AddFlag, Adding;
    if fs != [] {
      assert fmt[i] == fmt[i..][0] == fs[0];
      assert fmt[i + 1..] == fmt[i..][1..] == fs[1..] + t;
      AddingFirst(f, fs);
      FlagsAre(fmt, i + 1, fs[1..], t, AddFlag(f, fs[0]));
    } else {
      assert t != [] ==> fmt[i] == fmt[i..][0];
      AddingNone(f, fs);
    }
  }

  lemma AddingNone(f: Flags, fs: seq<char>)
    requires fs == []
    ensures Adding(f, fs) == f
  {
  }

  lemma {:induction false} NumberIs(fmt: seq<char>, i: nat, d: seq<char>, t: seq<char>, acc: nat)
    requires i <= |fmt| && fmt[i..] == d + t && (forall j :: 0 <= j < |d| ==> '0' <= d[j] <= '9') && (t != [] ==> !IsDigit(t[0]))
    ensures Number(fmt, i, acc) == (i + |d|, Read(d, acc))
    decreases |d|
  {
    if d != [] {
      assert fmt[i] == fmt[i..][0] == d[0];
      assert fmt[i + 1..] == fmt[i..][1..] == d[1..] + t;
      NumberIs(fmt, i + 1, d[1..], t, acc * 10 + (d[0] - '0') as nat);
    } else {
      assert t != [] ==> fmt[i] == fmt[i..][0];
    }
  }

  lemma IntArgIs(args: seq<Arg>, k: nat)
    ensures Signed(WordOf(args, k)) == IntArg(args, k)
  {
  }

  /** The pieces behind the flags start as they should. */
  lemma Starts(w: seq<char>, p: seq<char>, q: seq<char>, t: seq<char>)
    requires IsWidth(w) && IsPrecision(p) && (q == "" || q == "h" || q == "l") && (t != [] ==> Ends(t[0]))
    ensures var r := w + (p + (q + t)); r != [] ==> !IsFlag(r[0])
    ensures var r := p + (q + t); r != [] ==> !IsDigit(r[0]) && r[0] != '*' && (p == "" ==> r[0] != '.')
    ensures var r := q + t; r != [] ==> !IsDigit(r[0]) && r[0] != '*' && r[0] != '.'
    ensures q == "" && t != [] ==> t[0] != 'h' && t[0] != 'l'
  {
  }

  lemma WidthIs(fmt: seq<char>, i: nat, w: seq<char>, r: seq<char>, args: seq<Arg>, k: nat, f: Flags)
    requires i <= |fmt| && fmt[i..] == w + r && IsWidth(w) && (r != [] ==> !IsDigit(r[0]) && r[0] != '*')
    ensures var n := if w == "*" then IntArg(args, k) else 0;
      WidthFrom(fmt, i, args, k, f) ==
      Spec(i + |w|, if w == "*" then k + 1 else k, if w == "" then -1 else if w == "*" then (if n < 0 then -n else n) else ReadIn(w, 10), -1,
           if n < 0 then f.(left := true) else f, '\0')
  {
    hide Number, Read, ReadIn, WordOf, Signed, IntArg;
    IntArgIs(args, k);
    assert fmt[i..] != [] ==> fmt[i] == fmt[i..][0];
    if Decimal(w) {
      NumberIs(fmt, i, w, r, 0);
      ReadIsValue(w);
    } else if w == "" {
      assert fmt[i..] == r;
    }
  }

  lemma PrecisionIs(fmt: seq<char>, s: Spec, p: seq<char>, r: seq<char>, args: seq<Arg>)
    requires s.i <= |fmt| && fmt[s.i..] == p + r && IsPrecision(p) && (r != [] ==> !IsDigit(r[0]) && r[0] != '*' && (p == "" ==> r[0] != '.'))
    ensures PrecisionFrom(fmt, s, args) ==
      if p == "" then s
      else s.(i := s.i + |p|, k := if p == ".*" then s.k + 1 else s.k, precision := if p == ".*" then Max(0, IntArg(args, s.k)) else ReadIn(p[1..], 10))
  {
    hide Number, Read, ReadIn, WordOf, Signed, IntArg;
    IntArgIs(args, s.k);
    assert fmt[s.i..] != [] ==> fmt[s.i] == fmt[s.i..][0];
    if p == "" {
      assert fmt[s.i..] == r;
    } else {
      assert fmt[s.i + 1..] == fmt[s.i..][1..] == p[1..] + r;
      assert fmt[s.i + 1..] != [] ==> fmt[s.i + 1] == fmt[s.i + 1..][0];
      if p == "." {
        assert p[1..] == [] && fmt[s.i + 1..] == r;
        NoDigits();
      } else if Decimal(p[1..]) {
        NumberIs(fmt, s.i + 1, p[1..], r, 0);
        ReadIsValue(p[1..]);
      }
    }
  }

  lemma NoDigits()
    ensures ReadIn([], 10) == 0
  {
  }

  lemma Behind(fmt: seq<char>, i: nat, a: seq<char>, r: seq<char>)
    requires i <= |fmt| && fmt[i..] == a + r
    ensures i + |a| <= |fmt| && fmt[i + |a|..] == r && (r != [] ==> i + |a| < |fmt| && fmt[i + |a|] == r[0]) && (r == [] ==> i + |a| == |fmt|)
  {
    assert fmt[i + |a|..] == fmt[i..][|a|..];
  }

  /** What stands between the percent sign and the end of a directive is read as it is meant. */
  lemma DirectiveRead(fmt: seq<char>, fs: seq<char>, w: seq<char>, p: seq<char>, q: seq<char>, t: seq<char>, args: seq<Arg>, k: nat)
    requires (forall i :: 0 <= i < |fs| ==> IsFlag(fs[i])) && IsWidth(w) && IsPrecision(p) && (q == "" || q == "h" || q == "l")
    requires t != [] ==> Ends(t[0])
    requires fmt == "%" + (fs + (w + (p + (q + t))))
    ensures var m := Meant(fs, w, p, args, k);
      SpecFrom(fmt, 1, args, k) == Spec(1 + |fs| + |w| + |p| + |q|, m.k, m.width, m.precision, m.flags, if q == "" then '\0' else q[0])
  {
    hide ReadIn, IntArg, FlagsFrom, WidthFrom, PrecisionFrom, QualifierFrom, IsWidth, IsPrecision, Ends, IsFlag, IsDigit, Meant;
    Starts(w, p, q, t);
    assert fmt[1..] == fs + (w + (p + (q + t)));
    FlagsAre(fmt, 1, fs, w + (p + (q + t)), NO_FLAGS);
    Behind(fmt, 1, fs, w + (p + (q + t)));
    RestRead(fmt, 1 + |fs|, w, p, q, t, args, k, FlagsFrom(fmt, 1, NO_FLAGS).1);
    MeantIs(fs, w, p, args, k);
  }

  lemma MeantIs(fs: seq<char>, w: seq<char>, p: seq<char>, args: seq<Arg>, k: nat)
    ensures Meant(fs, w, p, args, k) == Sized(w, p, args, k, NO_FLAGS.(zeropad := '0' in fs, plus := '+' in fs, space := ' ' in fs, left := '-' in fs))
  {
    hide IntArg, ReadIn;
  }

  /** Width and precision on top of flags f. */
  function Sized(w: seq<char>, p: seq<char>, args: seq<Arg>, k: nat, f: Flags): Meaning {
    var n := if w == "*" then IntArg(args, k) else 0;
    var k1 := if w == "*" then k + 1 else k;
    Meaning(
      if w == "" then -1 else if w == "*" then (if n < 0 then -n else n) else ReadIn(w, 10),
      if p == "" then -1 else if p == ".*" then Max(0, IntArg(args, k1)) else ReadIn(p[1..], 10),
      if n < 0 then f.(left := true) else f,
      if p == ".*" then k1 + 1 else k1)
  }

  lemma RestRead(fmt: seq<char>, i: nat, w: seq<char>, p: seq<char>, q: seq<char>, t: seq<char>, args: seq<Arg>, k: nat, f: Flags)
    requires i <= |fmt| && fmt[i..] == w + (p + (q + t))
    requires IsWidth(w) && IsPrecision(p) && (q == "" || q == "h" || q == "l") && (t != [] ==> Ends(t[0]))
    ensures var m := Sized(w, p, args, k, f);
      QualifierFrom(fmt, PrecisionFrom(fmt, WidthFrom(fmt, i, args, k, f), args)) ==
      Spec(i + |w| + |p| + |q|, m.k, m.width, m.precision, m.flags, if q == "" then '\0' else q[0])
  {
    hide ReadIn, IntArg, WidthFrom, PrecisionFrom, QualifierFrom, IsWidth, IsPrecision, Ends, IsFlag, IsDigit;
    Starts(w, p, q, t);
    WidthIs(fmt, i, w, p + (q + t), args, k, f);
    Behind(fmt, i, w, p + (q + t));
    PrecisionRead(fmt, WidthFrom(fmt, i, args, k, f), p, q, t, args);
  }

  lemma PrecisionRead(fmt: seq<char>, s: Spec, p: seq<char>, q: seq<char>, t: seq<char>, args: seq<Arg>)
    requires s.i <= |fmt| && fmt[s.i..] == p + (q + t) && s.precision == -1 && s.qualifier == '\0'
    requires IsPrecision(p) && (q == "" || q == "h" || q == "l") && (t != [] ==> Ends(t[0]))
    ensures QualifierFrom(fmt, PrecisionFrom(fmt, s, args)) ==
      Spec(s.i + |p| + |q|, if p == ".*" then s.k + 1 else s.k, s.width,
           if p == "" then -1 else if p == ".*" then Max(0, IntArg(args, s.k)) else ReadIn(p[1..], 10), s.flags, if q == "" then '\0' else q[0])
  {
    hide ReadIn, IntArg, PrecisionFrom, QualifierFrom, IsPrecision, Ends, IsFlag, IsDigit;
    Starts("", p, q, t);
    PrecisionIs(fmt, s, p, q + t, args);
    Behind(fmt, s.i, p, q + t);
    QualifierIs(fmt, PrecisionFrom(fmt, s, args), q, t);
  }

  lemma QualifierIs(fmt: seq<char>, s: Spec, q: seq<char>, t: seq<char>)
    requires s.i <= |fmt| && fmt[s.i..] == q + t && (q == "" || q == "h" || q == "l") && (q == "" && t != [] ==> t[0] != 'h' && t[0] != 'l')
    requires s.qualifier == '\0'
    ensures QualifierFrom(fmt, s) == s.(i := s.i + |q|, qualifier := if q == "" then '\0' else q[0])
  {
    assert q + t != [] ==> fmt[s.i] == fmt[s.i..][0] == (q + t)[0];
  }

  /** The number an integer directive prints. */
  function Printed(args: seq<Arg>, k: nat, q: seq<char>, signed: bool): (r: int)
    ensures Long(r)
  {
    if q != "h" then IntArg(args, k)
    else if signed then (IntArg(args, k) + 0x8000) % 0x1_0000 - 0x8000
    else IntArg(args, k) % 0x1_0000
  }

  /** The text of a directive that ends with c. */
  ghost predicate Prints(text: seq<char>, c: char, q: seq<char>, m: Meaning, args: seq<Arg>) {
    var pad := if m.width > 1 then m.width - 1 else 0;
    match c
    case '%' => text == "%"
    case 'c' =>
      var one := [(IntArg(args, m.k) % 256) as char];
      text == if m.flags.left then one + Fill(' ', pad) else Fill(' ', pad) + one
    case 's' => PrintsText(text, if m.k < |args| && args[m.k].Text? then args[m.k].s else "(NULL)", m)
    case 'p' =>
      text == Field(IntArg(args, m.k), 16, if m.width == -1 then 8 else m.width, m.precision, m.flags.(zeropad := m.flags.zeropad || m.width == -1))
    case 'd' => text == Field(Printed(args, m.k, q, true), 10, m.width, m.precision, m.flags.(sign := true))
    case 'i' => text == Field(Printed(args, m.k, q, true), 10, m.width, m.precision, m.flags.(sign := true))
    case 'u' => text == Field(Printed(args, m.k, q, false), 10, m.width, m.precision, m.flags)
    case 'o' => text == Field(Printed(args, m.k, q, false), 8, m.width, m.precision, m.flags)
    case 'x' => text == Field(Printed(args, m.k, q, false), 16, m.width, m.precision, m.flags)
    case 'X' => text == Field(Printed(args, m.k, q, false), 16, m.width, m.precision, m.flags.(large := true))
    case _ => text == ['%', c]
  }

  /** A string is cut to the width and to a positive precision, and filled up to the width. */
  ghost predicate PrintsText(text: seq<char>, s: seq<char>, m: Meaning) {
    exists n: nat ::
      && n <= |s| && (m.width >= 0 ==> n <= m.width) && (m.precision > 0 ==> n <= m.precision)
      && (n == |s| || n == m.width || (m.precision > 0 && n == m.precision))
      && text == if m.flags.left then s[..n] + Fill(' ', m.width - n) else Fill(' ', m.width - n) + s[..n]
  }

  lemma TextPrints(s: seq<char>, m: Meaning)
    ensures PrintsText(StringField(s, m.width, m.precision, m.flags.left), s, m)
  {
    var n := StringLength(s, m.width, m.precision);
    assert n <= |s|;
  }

  lemma PrintedIs(args: seq<Arg>, k: nat, q: seq<char>, sign: bool)
    requires q == "" || q == "h" || q == "l"
    ensures Value(WordOf(args, k), if q == "" then '\0' else q[0], sign) == Printed(args, k, q, sign)
  {
    hide WordOf, Signed, IntArg;
    IntArgIs(args, k);
    WordIs(args, k);
    var w, n := WordOf(args, k), IntArg(args, k);
    if q == "h" && sign { HalfWord(n); }
  }

  lemma HalfWord(n: int)
    ensures (n + 0x8000) % 0x1_0000 - 0x8000 == var h := n % 0x1_0000; if h >= 0x8000 then h - 0x1_0000 else h
  {
  }

  lemma IntegerPrints(c: char, s: Spec, q: seq<char>, m: Meaning, args: seq<Arg>)
    requires c in "oxXdiu" && (q == "" || q == "h" || q == "l") && !m.flags.sign && !m.flags.large
    requires s == Spec(s.i, m.k, m.width, m.precision, m.flags, if q == "" then '\0' else q[0])
    ensures Prints(IntegerField(c, WordOf(args, m.k), s), c, q, m, args)
  {
    hide Field, WordOf, Value, Printed;
    PrintedIs(args, m.k, q, true);
    PrintedIs(args, m.k, q, false);
  }

  lemma ConversionPrints(fmt: seq<char>, s: Spec, q: seq<char>, m: Meaning, args: seq<Arg>)
    requires s.i < |fmt| && Ends(fmt[s.i]) && (q == "" || q == "h" || q == "l")
    requires s == Spec(s.i, m.k, m.width, m.precision, m.flags, if q == "" then '\0' else q[0])
    requires !m.flags.sign && !m.flags.large
    ensures var (text, j, k) := Conversion(fmt, s, args); Prints(text, fmt[s.i], q, m, args) && j == s.i + 1
    ensures Conversion(fmt, s, args).2 == if fmt[s.i] in "cspoxXdiu" then m.k + 1 else m.k
  {
    var c := fmt[s.i];
    if Integral(c) {
      hide IntegerField, Prints, WordOf;
      IntegerPrints(c, s, q, m, args);
    } else {
      hide Field, StringField, PrintsText, WordOf, Fill, IntArg, Signed;
      IntArgIs(args, m.k);
      WordIs(args, m.k);
      TextPrints(TextOf(args, m.k), m);
      FillClips(m.width - 1);
    }
  }

  lemma FillClips(n: int)
    ensures Fill(' ', n) == Fill(' ', if n > 0 then n else 0)
  {
  }

  lemma WordIs(args: seq<Arg>, k: nat)
    ensures WordOf(args, k) % 256 == IntArg(args, k) % 256 && WordOf(args, k) % 0x1_0000 == IntArg(args, k) % 0x1_0000
  {
    IntArgIs(args, k);
    var w, n := WordOf(args, k), IntArg(args, k);
    hide WordOf, IntArg;
    SameLow(w);
  }

  lemma SameLow(w: nat)
    requires w < WORD
    ensures Signed(w) % 256 == w % 256 && Signed(w) % 0x1_0000 == w % 0x1_0000
  {
    if w >= 0x8000_0000 {
      assert w - WORD == w - 0x1_0000 * 0x1_0000 && w - WORD == w - 256 * 0x100_0000;
    }
  }

  /** A directive prints what it means, and the rest of the format goes on as if it stood alone, with the arguments
      that are left. */
  lemma Directive(fs: seq<char>, w: seq<char>, p: seq<char>, q: seq<char>, c: char, rest: seq<char>, args: seq<Arg>, k: nat) returns (text: seq<char>)
    requires (forall i :: 0 <= i < |fs| ==> IsFlag(fs[i])) && IsWidth(w) && IsPrecision(p) && (q == "" || q == "h" || q == "l") && Ends(c)
    ensures var m := Meant(fs, w, p, args, k);
      && Prints(text, c, q, m, args)
      && Rendered("%" + (fs + (w + (p + (q + ([c] + rest))))), 0, args, k) ==
         text + Rendered(rest, 0, args, if c in "cspoxXdiu" then m.k + 1 else m.k)
  {
    hide Conversion, SpecFrom, Prints, Meant, IsWidth, IsPrecision, Ends, Rendered, IsFlag;
    var fmt := "%" + (fs + (w + (p + (q + ([c] + rest)))));
    var m := Meant(fs, w, p, args, k);
    DirectiveRead(fmt, fs, w, p, q, [c] + rest, args, k);
    MeantPlain(fs, w, p, args, k);
    var s := SpecFrom(fmt, 1, args, k);
    DirectiveAt(fmt, 0, args, k);
    assert fmt[s.i..] == [c] + rest;
    assert fmt[s.i] == fmt[s.i..][0];
    ConversionPrints(fmt, s, q, m, args);
    text := Conversion(fmt, s, args).0;
    var j, n := s.i + 1, Conversion(fmt, s, args).2;
    RenderedShift(fmt, j, j, args, n);
    assert fmt[j..] == fmt[s.i..][1..] == rest;
  }

  lemma MeantPlain(fs: seq<char>, w: seq<char>, p: seq<char>, args: seq<Arg>, k: nat)
    ensures !Meant(fs, w, p, args, k).flags.sign && !Meant(fs, w, p, args, k).flags.large
  {
  }

  /** A directive that the format cuts off prints its percent sign. */
  lemma CutOff(fs: seq<char>, w: seq<char>, p: seq<char>, q: seq<char>, args: seq<Arg>, k: nat)
    requires (forall i :: 0 <= i < |fs| ==> IsFlag(fs[i])) && IsWidth(w) && IsPrecision(p) && (q == "" || q == "h" || q == "l")
    ensures Rendered("%" + (fs + (w + (p + q))), 0, args, k) == "%"
  {
    hide SpecFrom, Meant, IsWidth, IsPrecision;
    var fmt := "%" + (fs + (w + (p + q)));
    assert q + [] == q;
    DirectiveRead(fmt, fs, w, p, q, [], args, k);
    SpecAdvance(fmt, 1, args, k);
    var s := SpecFrom(fmt, 1, args, k);
    assert Conversion(fmt, s, args) == ("%", s.i, s.k);
    assert Rendered(fmt, s.i, args, s.k) == [];
    assert "%" + [] == "%";
  }
}
