/** rt_vsnprintf of rt-thread/src/kservice.c:764-1024: how a format is read and what a conversion prints,
    and the program that prints into a bounded buffer. */
module Format {
  import opened PrintModel
  import opened Printer

  /** An argument is a 32-bit word or a string; a null string prints as (NULL). */
  datatype Arg = Word(w: nat) | Text(s: seq<char>) | Null

  function WordOf(args: seq<Arg>, k: nat): (w: nat)
    ensures w < WORD
  {
    if k < |args| && args[k].Word? then args[k].w % WORD else 0
  }

  function TextOf(args: seq<Arg>, k: nat): seq<char> { if k < |args| && args[k].Text? then args[k].s else "(NULL)" }

  /** A 32-bit word read as signed. */
  function Signed(w: nat): (r: int)
    requires w < WORD
    ensures Long(r)
  {
    if w < 0x8000_0000 then w else w - WORD
  }

  /** The value an integer conversion passes to print_number. */
  function Value(w: nat, qualifier: char, sign: bool): (r: int)
    requires w < WORD
    ensures Long(r)
  {
    if qualifier == 'h' then
      var h := w % 0x1_0000;
      if sign && h >= 0x8000 then h - 0x1_0000 else h
    else Signed(w)
  }

  /** The character at i, or the terminator. */
  function At(fmt: seq<char>, i: nat): char { if i < |fmt| then fmt[i] else '\0' }

  const NO_FLAGS := Flags(false, false, false, false, false, false)

  predicate IsFlag(c: char) { c == '-' || c == '+' || c == ' ' || c == '#' || c == '0' }

  function AddFlag(f: Flags, c: char): Flags {
    if c == '-' then f.(left := true) else if c == '+' then f.(plus := true) else if c == ' ' then f.(space := true)
    else if c == '0' then f.(zeropad := true) else f
  }

  function FlagsFrom(fmt: seq<char>, i: nat, f: Flags): (nat, Flags)
    decreases |fmt| - i
  {
    if i < |fmt| && IsFlag(fmt[i]) then FlagsFrom(fmt, i + 1, AddFlag(f, fmt[i])) else (i, f)
  }

  /** skip_atoi */
  function Number(fmt: seq<char>, i: nat, acc: nat): (nat, nat)
    decreases |fmt| - i
  {
    if i < |fmt| && IsDigit(fmt[i]) then Number(fmt, i + 1, acc * 10 + (fmt[i] - '0') as nat) else (i, acc)
  }

  datatype Spec = Spec(i: nat, k: nat, width: int, precision: int, flags: Flags, qualifier: char)

  function WidthFrom(fmt: seq<char>, i: nat, args: seq<Arg>, k: nat, f: Flags): Spec {
    if IsDigit(At(fmt, i)) then Spec(Number(fmt, i, 0).0, k, Number(fmt, i, 0).1, -1, f, '\0')
    else if At(fmt, i) == '*' then
      var w := Signed(WordOf(args, k));
      Spec(i + 1, k + 1, if w < 0 then -w else w, -1, if w < 0 then f.(left := true) else f, '\0')
    else Spec(i, k, -1, -1, f, '\0')
  }

  function PrecisionFrom(fmt: seq<char>, s: Spec, args: seq<Arg>): Spec {
    if At(fmt, s.i) != '.' then s
    else if IsDigit(At(fmt, s.i + 1)) then s.(i := Number(fmt, s.i + 1, 0).0, precision := Number(fmt, s.i + 1, 0).1)
    else if At(fmt, s.i + 1) == '*' then
      var p := Signed(WordOf(args, s.k));
      s.(i := s.i + 2, k := s.k + 1, precision := if p < 0 then 0 else p)
    else s.(i := s.i + 1, precision := 0)
  }

  function QualifierFrom(fmt: seq<char>, s: Spec): Spec {
    if At(fmt, s.i) == 'h' || At(fmt, s.i) == 'l' then s.(i := s.i + 1, qualifier := At(fmt, s.i)) else s
  }

  /** Everything between the percent sign and the conversion character. */
  function SpecFrom(fmt: seq<char>, i: nat, args: seq<Arg>, k: nat): Spec {
    var (j, f) := FlagsFrom(fmt, i, NO_FLAGS);
    QualifierFrom(fmt, PrecisionFrom(fmt, WidthFrom(fmt, j, args, k, f), args))
  }

  function CharField(c: char, width: int, left: bool): seq<char> {
    if left then [c] + Fill(' ', width - 1) else Fill(' ', width - 1) + [c]
  }

  /** A non-negative width bounds a string from above as well as from below. */
  function StringLength(s: seq<char>, width: int, precision: int): nat {
    var len := if 0 <= width < |s| then width else |s|;
    if precision > 0 && len > precision then precision else len
  }

  function StringField(s: seq<char>, width: int, precision: int, left: bool): seq<char> {
    var len := StringLength(s, width, precision);
    if left then s[..len] + Fill(' ', width - len) else Fill(' ', width - len) + s[..len]
  }

  predicate Integral(c: char) { c == 'o' || c == 'x' || c == 'X' || c == 'd' || c == 'i' || c == 'u' }

  function IntegerField(c: char, w: nat, s: Spec): seq<char>
    requires w < WORD
  {
    var f := if c == 'X' then s.flags.(large := true) else if c == 'd' || c == 'i' then s.flags.(sign := true) else s.flags;
    Field(Value(w, s.qualifier, f.sign), if c == 'o' then 8 else if c == 'x' || c == 'X' then 16 else 10, s.width, s.precision, f)
  }

  /** One conversion: its text, and where the format and the arguments go on. */
  function Conversion(fmt: seq<char>, s: Spec, args: seq<Arg>): (seq<char>, nat, nat) {
    var c := At(fmt, s.i);
    if c == 'c' then (CharField((WordOf(args, s.k) % 256) as char, s.width, s.flags.left), s.i + 1, s.k + 1)
    else if c == 's' then (StringField(TextOf(args, s.k), s.width, s.precision, s.flags.left), s.i + 1, s.k + 1)
    else if c == 'p' then
      (Field(Signed(WordOf(args, s.k)), 16, if s.width == -1 then 8 else s.width, s.precision,
             if s.width == -1 then s.flags.(zeropad := true) else s.flags), s.i + 1, s.k + 1)
    else if c == '%' then ("%", s.i + 1, s.k)
    else if Integral(c) then (IntegerField(c, WordOf(args, s.k), s), s.i + 1, s.k + 1)
    else if c == '\0' then ("%", s.i, s.k)
    else (['%', c], s.i + 1, s.k)
  }

  lemma {:induction false} FlagsAdvance(fmt: seq<char>, i: nat, f: Flags)
    ensures i <= FlagsFrom(fmt, i, f).0 && (i <= |fmt| ==> FlagsFrom(fmt, i, f).0 <= |fmt|)
    decreases |fmt| - i
  {
    if i < |fmt| && IsFlag(fmt[i]) { FlagsAdvance(fmt, i + 1, AddFlag(f, fmt[i])); }
  }

  lemma {:induction false} NumberAdvance(fmt: seq<char>, i: nat, acc: nat)
    ensures i <= Number(fmt, i, acc).0 && (i <= |fmt| ==> Number(fmt, i, acc).0 <= |fmt|)
    decreases |fmt| - i
  {
    if i < |fmt| && IsDigit(fmt[i]) { NumberAdvance(fmt, i + 1, acc * 10 + (fmt[i] - '0') as nat); }
  }

  lemma SpecAdvance(fmt: seq<char>, i: nat, args: seq<Arg>, k: nat)
    ensures i <= SpecFrom(fmt, i, args, k).i && (i <= |fmt| ==> SpecFrom(fmt, i, args, k).i <= |fmt|)
  {
    var (j, f) := FlagsFrom(fmt, i, NO_FLAGS);
    FlagsAdvance(fmt, i, NO_FLAGS);
    NumberAdvance(fmt, j, 0);
    var s := WidthFrom(fmt, j, args, k, f);
    NumberAdvance(fmt, s.i + 1, 0);
  }

  /** The unbounded output of a format from position i and argument k on. */
  function Rendered(fmt: seq<char>, i: nat, args: seq<Arg>, k: nat): seq<char>
    decreases |fmt| - i
  {
    if i >= |fmt| then []
    else if fmt[i] != '%' then [fmt[i]] + Rendered(fmt, i + 1, args, k)
    else
      SpecAdvance(fmt, i + 1, args, k);
      var (text, j, m) := Conversion(fmt, SpecFrom(fmt, i + 1, args, k), args);
      text + Rendered(fmt, j, args, m)
  }

  // ---------- The program ----------

  /** The loop over flag characters. */
  method ScanFlags(fmt: seq<char>, i: nat) returns (j: nat, f: Flags)
    ensures (j, f) == FlagsFrom(fmt, i, NO_FLAGS)
  {
    j, f := i, NO_FLAGS;
    while j < |fmt| && IsFlag(fmt[j])
      invariant i <= j && FlagsFrom(fmt, j, f) == FlagsFrom(fmt, i, NO_FLAGS)
      decreases |fmt| - j
    {
      f := AddFlag(f, fmt[j]);
      j := j + 1;
    }
  }

  /** skip_atoi */
  method SkipAtoi(fmt: seq<char>, i: nat) returns (j: nat, n: nat)
    ensures (j, n) == Number(fmt, i, 0)
  {
    j, n := i, 0;
    while j < |fmt| && IsDigit(fmt[j])
      invariant i <= j && Number(fmt, j, n) == Number(fmt, i, 0)
      decreases |fmt| - j
    {
      n := n * 10 + (fmt[j] - '0') as nat;
      j := j + 1;
    }
  }

  method ScanSpec(fmt: seq<char>, i: nat, args: seq<Arg>, k: nat) returns (s: Spec)
    ensures s == SpecFrom(fmt, i, args, k)
  {
    hide FlagsFrom, Number, WordOf, Signed;
    var j, f := ScanFlags(fmt, i);
    s := Spec(j, k, -1, -1, f, '\0');
    if IsDigit(At(fmt, j)) {
      var e, w := SkipAtoi(fmt, j);
      s := s.(i := e, width := w);
    } else if At(fmt, j) == '*' {
      var w := Signed(WordOf(args, k));
      s := s.(i := j + 1, k := k + 1, width := w);
      if w < 0 { s := s.(width := -w, flags := f.(left := true)); }
    }
    if At(fmt, s.i) == '.' {
      s := s.(i := s.i + 1);
      if IsDigit(At(fmt, s.i)) {
        var e, p := SkipAtoi(fmt, s.i);
        s := s.(i := e, precision := p);
      } else if At(fmt, s.i) == '*' {
        s := s.(i := s.i + 1, k := s.k + 1, precision := Signed(WordOf(args, s.k)));
      }
      if s.precision < 0 { s := s.(precision := 0); }
    }
    if At(fmt, s.i) == 'h' || At(fmt, s.i) == 'l' { s := s.(qualifier := At(fmt, s.i), i := s.i + 1); }
  }

  method PutCharField(out: Out, c: char, width: int, left: bool)
    requires out.Valid()
    modifies out, out.buf
    ensures out.Valid() && out.text == old(out.text) + CharField(c, width, left)
  {
    hide Fill;
    if !left { out.PutMany(' ', width - 1); }
    out.Put(c);
    if left { out.PutMany(' ', width - 1); }
  }

  method PutStringField(out: Out, s: seq<char>, width: int, precision: int, left: bool)
    requires out.Valid()
    modifies out, out.buf
    ensures out.Valid() && out.text == old(out.text) + StringField(s, width, precision, left)
  {
    hide Fill;
    var len := 0;
    while len != width && len < |s|
      invariant 0 <= len <= |s| && (width >= 0 ==> len <= width)
      decreases |s| - len
    {
      len := len + 1;
    }
    if precision > 0 && len > precision { len := precision; }
    if !left { out.PutMany(' ', width - len); }
    out.PutAll(s[..len]);
    if left { out.PutMany(' ', width - len); }
  }

  method PutIntegerField(out: Out, c: char, w: nat, s: Spec)
    requires out.Valid() && w < WORD
    modifies out, out.buf
    ensures out.Valid() && out.text == old(out.text) + IntegerField(c, w, s)
  {
    hide Field;
    var f, base := s.flags, 10;
    if c == 'o' {
      base := 8;
    } else if c == 'X' {
      f, base := f.(large := true), 16;
    } else if c == 'x' {
      base := 16;
    } else if c == 'd' || c == 'i' {
      f := f.(sign := true);
    }
    out.PrintNumber(Value(w, s.qualifier, f.sign), base, s.width, s.precision, f);
  }

  /** The switch over the conversion character. */
  method Convert(out: Out, fmt: seq<char>, s: Spec, args: seq<Arg>) returns (j: nat, m: nat)
    requires out.Valid()
    modifies out, out.buf
    ensures out.Valid() && out.text == old(out.text) + Conversion(fmt, s, args).0
    ensures j == Conversion(fmt, s, args).1
    ensures m == Conversion(fmt, s, args).2
  {
    hide Field, IntegerField, StringField, CharField;
    var c, w := At(fmt, s.i), WordOf(args, s.k);
    j, m := s.i + 1, s.k + 1;
    if c == 'c' {
      PutCharField(out, (w % 256) as char, s.width, s.flags.left);
    } else if c == 's' {
      PutStringField(out, TextOf(args, s.k), s.width, s.precision, s.flags.left);
    } else if c == 'p' {
      var f, width := s.flags, s.width;
      if width == -1 { f, width := f.(zeropad := true), 8; }
      out.PrintNumber(Signed(w), 16, width, s.precision, f);
    } else if Integral(c) {
      PutIntegerField(out, c, w, s);
    } else {
      out.Put('%');
      m := s.k;
      if c == '\0' {
        j := s.i;
      } else if c != '%' {
        out.Put(c);
        assert ['%'] + [c] == ['%', c];
      }
    }
  }

  /** The loop over the format. */
  method PutFormat(out: Out, fmt: seq<char>, args: seq<Arg>)
    requires out.Valid()
    modifies out, out.buf
    ensures out.Valid() && out.text == old(out.text) + Rendered(fmt, 0, args, 0)
  {
    hide Conversion, SpecFrom, Out.Valid;
    var i, k := 0, 0;
    while i < |fmt|
      invariant i <= |fmt| && out.Valid()
      invariant out.text + Rendered(fmt, i, args, k) == old(out.text) + Rendered(fmt, 0, args, 0)
      decreases |fmt| - i
    {
      if fmt[i] != '%' {
        out.Put(fmt[i]);
        i := i + 1;
      } else {
        SpecAdvance(fmt, i + 1, args, k);
        var s := ScanSpec(fmt, i + 1, args, k);
        ConversionAdvance(fmt, s, args);
        i, k := Convert(out, fmt, s, args);
      }
    }
  }

  /** rt_vsnprintf: for a buffer of size n > 0 it stores the first n - 1 characters of the unbounded output
      and a terminator, and whatever n is returns the unbounded length. */
  method Vsnprintf(buf: array<char>, fmt: seq<char>, args: seq<Arg>) returns (len: nat)
    modifies buf
    ensures var text := Rendered(fmt, 0, args, 0);
      && len == |text|
      && (buf.Length > 0 ==>
            var kept := if len < buf.Length then len else buf.Length - 1;
            buf[..kept] == text[..kept] && buf[kept] == '\0')
  {
    hide Rendered;
    var out := new Out(buf, buf.Length);
    PutFormat(out, fmt, args);
    len := out.str;
    assert out.text == Rendered(fmt, 0, args, 0);
    if buf.Length > 0 {
      if len < buf.Length { buf[len] := '\0'; } else { buf[buf.Length - 1] := '\0'; }
    }
  }

  lemma ConversionAdvance(fmt: seq<char>, s: Spec, args: seq<Arg>)
    requires s.i <= |fmt|
    ensures s.i <= Conversion(fmt, s, args).1 <= |fmt|
  {
  }

  /** Printing an int with %d and reading it with Myatoi gives it back. */
  lemma PercentDRoundTrip(w: nat)
    requires w < WORD && Signed(w) != -0x8000_0000
    ensures Atoi(Rendered("%d", 0, [Word(w)], 0)) == Signed(w)
  {
    hide Field, Atoi, Read, Rest;
    var fmt, args := "%d", [Word(w)];
    assert FlagsFrom(fmt, 1, NO_FLAGS) == (1, NO_FLAGS);
    var s := SpecFrom(fmt, 1, args, 0);
    assert s == Spec(1, 0, -1, -1, NO_FLAGS, '\0');
    var text := Conversion(fmt, s, args).0;
    assert Rendered(fmt, 2, args, 1) == [];
    assert Rendered(fmt, 0, args, 0) == text + [] == text;
    RoundTrip(Signed(w), -1, -1, NO_FLAGS.(sign := true));
  }
}
