/** The text form of the window bounds put into the upstream query strings:
    Python's `datetime.isoformat()` of a naive date-time followed by "Z".

    `ParseIsoZ` reads that text back; the two lemmas at the end show that the text
    determines the date-time and that every text the parser accepts is one the
    formatter produces. */
module IsoFormat {

  import opened Wrappers
  import opened Clock

  function Pow10(n: nat): nat {
    if n == 0 then 1 else 10 * Pow10(n - 1)
  }

  predicate IsDigit(c: char) {
    '0' <= c <= '9'
  }

  predicate AllDigits(s: string) {
    forall i :: 0 <= i < |s| ==> IsDigit(s[i])
  }

  function DigitChar(d: int): (c: char)
    requires 0 <= d < 10
    ensures IsDigit(c) && c as int - '0' as int == d
  {
    ('0' as int + d) as char
  }

  /** `n` written in decimal with exactly `width` digits, zero-padded on the left
      (the `%0<width>d` of Python's formatting); only the low `width` digits of a
      larger `n` are kept. */
  function Digits(n: nat, width: nat): (s: string)
    ensures |s| == width && AllDigits(s)
  {
    if width == 0 then [] else Digits(n / 10, width - 1) + [DigitChar(n % 10)]
  }

  /** The number a string of decimal digits denotes. */
  function DigitsValue(s: string): nat
    requires AllDigits(s)
  {
    if s == [] then 0
    else DigitsValue(s[..|s| - 1]) * 10 + (s[|s| - 1] as int - '0' as int)
  }

  lemma {:induction false} DigitsValueOfDigits(n: nat, width: nat)
    requires n < Pow10(width)
    ensures DigitsValue(Digits(n, width)) == n
  {
    if width > 0 {
      var s := Digits(n, width);
      assert s[..|s| - 1] == Digits(n / 10, width - 1);
      DigitsValueOfDigits(n / 10, width - 1);
    }
  }

  lemma {:induction false} DigitsOfDigitsValue(s: string)
    requires AllDigits(s)
    ensures DigitsValue(s) < Pow10(|s|)
    ensures Digits(DigitsValue(s), |s|) == s
  {
    if s != [] {
      var init := s[..|s| - 1];
      DigitsOfDigitsValue(init);
      var d := s[|s| - 1] as int - '0' as int;
      assert (DigitsValue(init) * 10 + d) / 10 == DigitsValue(init);
      assert (DigitsValue(init) * 10 + d) % 10 == d;
      assert s == init + [s[|s| - 1]];
    }
  }

  /** "YYYY-MM-DD", each field zero-padded. */
  function IsoDate(t: DateTime): (d: string)
    requires Valid(t)
    ensures |d| == 10 && d[4] == '-' && d[7] == '-'
    ensures d[0..4] == Digits(t.year, 4) && d[5..7] == Digits(t.month, 2)
    ensures d[8..10] == Digits(t.day, 2)
  {
    Digits(t.year, 4) + "-" + Digits(t.month, 2) + "-" + Digits(t.day, 2)
  }

  /** "HH:MM:SS", each field zero-padded. */
  function IsoTime(t: DateTime): (c: string)
    requires Valid(t)
    ensures |c| == 8 && c[2] == ':' && c[5] == ':'
    ensures c[0..2] == Digits(t.hour, 2) && c[3..5] == Digits(t.minute, 2)
    ensures c[6..8] == Digits(t.second, 2)
  {
    Digits(t.hour, 2) + ":" + Digits(t.minute, 2) + ":" + Digits(t.second, 2)
  }

  /** ".ffffff" when the microsecond is not zero, and nothing when it is. */
  function IsoFraction(t: DateTime): (f: string)
    requires Valid(t)
    ensures |f| == (if t.microsecond == 0 then 0 else 7)
    ensures t.microsecond != 0 ==> f[0] == '.' && f[1..7] == Digits(t.microsecond, 6)
  {
    if t.microsecond == 0 then "" else "." + Digits(t.microsecond, 6)
  }

  /** `t.isoformat() + "Z"`: "YYYY-MM-DDTHH:MM:SS", then ".ffffff" only when the
      microsecond is not zero, then the "Z" appended at backend/main.py:27-28. */
  function IsoZ(t: DateTime): (s: string)
    requires Valid(t)
    ensures |s| == (if t.microsecond == 0 then 20 else 27)
    ensures s[|s| - 1] == 'Z'
  {
    IsoDate(t) + "T" + IsoTime(t) + IsoFraction(t) + "Z"
  }

  lemma SliceOfConcat<T>(a: seq<T>, b: seq<T>, i: nat, j: nat)
    requires i <= j <= |a| + |b|
    ensures j <= |a| ==> (a + b)[i..j] == a[i..j]
    ensures |a| <= i ==> (a + b)[i..j] == b[i - |a|..j - |a|]
  {
  }

  /** The number written by the `width` characters of `s` starting at `from`, if they
      are all digits. */
  function Field(s: string, from: nat, width: nat): (r: Option<nat>)
    requires from + width <= |s|
    ensures r.Some? <==> AllDigits(s[from..from + width])
    ensures r.Some? ==> Digits(r.value, width) == s[from..from + width]
  {
    var part := s[from..from + width];
    if AllDigits(part) then
      DigitsOfDigitsValue(part);
      Some(DigitsValue(part))
    else
      None
  }

  predicate Punctuated(s: string)
    requires |s| == 20 || |s| == 27
  {
    && s[4] == '-' && s[7] == '-' && s[10] == 'T' && s[13] == ':' && s[16] == ':'
    && s[|s| - 1] == 'Z'
    && (|s| == 27 ==> s[19] == '.')
  }

  /** Reads the text `IsoZ` writes; None for any other text. */
  function ParseIsoZ(s: string): Option<DateTime> {
    if (|s| != 20 && |s| != 27) || !Punctuated(s) then None
    else
      var year, month, day := Field(s, 0, 4), Field(s, 5, 2), Field(s, 8, 2);
      var hour, minute, second := Field(s, 11, 2), Field(s, 14, 2), Field(s, 17, 2);
      var micro := if |s| == 27 then Field(s, 20, 6) else Some(0);
      if year.None? || month.None? || day.None? || hour.None? || minute.None?
         || second.None? || micro.None? then None
      else
        var t := DateTime(year.value, month.value, day.value,
                          hour.value, minute.value, second.value, micro.value);
        if Valid(t) && (|s| == 27 <==> t.microsecond != 0) then Some(t) else None
  }

  lemma FieldsOfValid(t: DateTime)
    requires Valid(t)
    ensures t.year < Pow10(4) && t.month < Pow10(2) && t.day < Pow10(2)
    ensures t.hour < Pow10(2) && t.minute < Pow10(2) && t.second < Pow10(2)
    ensures t.microsecond < Pow10(6)
  {
    assert Pow10(2) == 100;
    assert Pow10(4) == 10000;
    assert Pow10(6) == 1000000;
  }

  /** `s` holds the fields of `t` where `IsoZ` writes them. */
  predicate LaidOut(s: string, t: DateTime)
    requires Valid(t)
  {
    && |s| == (if t.microsecond == 0 then 20 else 27)
    && s[0..4] == Digits(t.year, 4) && s[5..7] == Digits(t.month, 2)
    && s[8..10] == Digits(t.day, 2) && s[11..13] == Digits(t.hour, 2)
    && s[14..16] == Digits(t.minute, 2) && s[17..19] == Digits(t.second, 2)
    && (t.microsecond != 0 ==> s[20..26] == Digits(t.microsecond, 6))
    && Punctuated(s)
  }

  lemma IsoZLayout(t: DateTime)
    requires Valid(t)
    ensures LaidOut(IsoZ(t), t)
  {
    var date, time, frac := IsoDate(t), IsoTime(t), IsoFraction(t);
    var clock := date + "T" + time;
    var s := IsoZ(t);
    assert s == clock + (frac + "Z");
    ClockLayout(date, time, t);
    SliceOfConcat(clock, frac + "Z", 0, 4);
    SliceOfConcat(clock, frac + "Z", 5, 7);
    SliceOfConcat(clock, frac + "Z", 8, 10);
    SliceOfConcat(clock, frac + "Z", 11, 13);
    SliceOfConcat(clock, frac + "Z", 14, 16);
    SliceOfConcat(clock, frac + "Z", 17, 19);
    if t.microsecond != 0 {
      SliceOfConcat(clock, frac + "Z", 20, 26);
      SliceOfConcat(frac, "Z", 1, 7);
    }
  }

  lemma ClockLayout(date: string, time: string, t: DateTime)
    requires Valid(t) && date == IsoDate(t) && time == IsoTime(t)
    ensures var clock := date + "T" + time;
            && |clock| == 19 && clock[4] == '-' && clock[7] == '-' && clock[10] == 'T'
            && clock[13] == ':' && clock[16] == ':'
            && clock[0..4] == Digits(t.year, 4) && clock[5..7] == Digits(t.month, 2)
            && clock[8..10] == Digits(t.day, 2) && clock[11..13] == Digits(t.hour, 2)
            && clock[14..16] == Digits(t.minute, 2) && clock[17..19] == Digits(t.second, 2)
  {
    var head := date + "T";
    assert head + time == date + ("T" + time);
    SliceOfConcat(date, "T" + time, 0, 4);
    SliceOfConcat(date, "T" + time, 5, 7);
    SliceOfConcat(date, "T" + time, 8, 10);
    SliceOfConcat(head, time, 11, 13);
    SliceOfConcat(head, time, 14, 16);
    SliceOfConcat(head, time, 17, 19);
  }

  lemma ParseLaidOut(s: string, t: DateTime)
    requires Valid(t) && LaidOut(s, t)
    ensures ParseIsoZ(s) == Some(t)
  {
    FieldsOfValid(t);
    FieldOfDigits(s, 0, t.year, 4);
    FieldOfDigits(s, 5, t.month, 2);
    FieldOfDigits(s, 8, t.day, 2);
    FieldOfDigits(s, 11, t.hour, 2);
    FieldOfDigits(s, 14, t.minute, 2);
    FieldOfDigits(s, 17, t.second, 2);
    if t.microsecond != 0 {
      FieldOfDigits(s, 20, t.microsecond, 6);
    }
  }

  /** The window bounds in a query string identify the date-time exactly. */
  lemma ParseIsoZOfIsoZ(t: DateTime)
    requires Valid(t)
    ensures ParseIsoZ(IsoZ(t)) == Some(t)
  {
    IsoZLayout(t);
    ParseLaidOut(IsoZ(t), t);
  }

  lemma FieldOfDigits(s: string, from: nat, n: nat, width: nat)
    requires from + width <= |s| && n < Pow10(width)
    requires s[from..from + width] == Digits(n, width)
    ensures Field(s, from, width) == Some(n)
  {
    DigitsValueOfDigits(n, width);
  }

  /** Every text the parser accepts is exactly the formatter's text for its result. */
  lemma IsoZOfParseIsoZ(s: string)
    requires ParseIsoZ(s).Some?
    ensures Valid(ParseIsoZ(s).value) && IsoZ(ParseIsoZ(s).value) == s
  {
    var t := ParseIsoZ(s).value;
    var u := IsoZ(t);
    assert |u| == |s|;
    assert u[0..4] == s[0..4];
    assert u[5..7] == s[5..7];
    assert u[8..10] == s[8..10];
    assert u[11..13] == s[11..13];
    assert u[14..16] == s[14..16];
    assert u[17..19] == s[17..19];
    if |s| == 27 {
      assert u[20..26] == s[20..26];
    }
    forall i | 0 <= i < |s| ensures u[i] == s[i] {
      if i < 4 { assert u[i] == u[0..4][i]; }
      else if 5 <= i < 7 { assert u[i] == u[5..7][i - 5]; }
      else if 8 <= i < 10 { assert u[i] == u[8..10][i - 8]; }
      else if 11 <= i < 13 { assert u[i] == u[11..13][i - 11]; }
      else if 14 <= i < 16 { assert u[i] == u[14..16][i - 14]; }
      else if 17 <= i < 19 { assert u[i] == u[17..19][i - 17]; }
      else if 20 <= i < 26 { assert u[i] == u[20..26][i - 20]; }
    }
  }
}
