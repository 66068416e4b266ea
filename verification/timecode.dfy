/**
 The timecode codec of the timing module: `HH:MM:SS,mmm` text to integer
 milliseconds and back.
 */
module TimeCode {
  import opened Base
  import opened Decimal
  import opened Strings
  import opened Patterns

  /** One hundred hours: the first value whose hour field needs three digits. */
  const Limit: nat := 360000000

  datatype CodecError = WrongTimeCodeFormat

  /** The two-digit number at positions `k` and `k + 1`. */
  function TwoAt(code: string, k: nat): nat
    requires k + 2 <= |code| && IsDigit(code[k]) && IsDigit(code[k + 1])
  {
    10 * DigitValue(code[k]) + DigitValue(code[k + 1])
  }

  function Hours(code: string): nat requires IsTimeCode(code) { TwoAt(code, 0) }
  function Minutes(code: string): nat requires IsTimeCode(code) { TwoAt(code, 3) }
  function Seconds(code: string): nat requires IsTimeCode(code) { TwoAt(code, 6) }
  function Millis(code: string): nat
    requires IsTimeCode(code)
  {
    100 * DigitValue(code[9]) + TwoAt(code, 10)
  }

  /** The value of a well-formed timecode, field by field. */
  function CodeValue(code: string): nat
    requires IsTimeCode(code)
  {
    Hours(code) * 3600000 + Minutes(code) * 60000 + Seconds(code) * 1000 + Millis(code)
  }

  lemma NotInDigits(s: string, c: char)
    requires AllDigits(s) && !IsDigit(c)
    ensures c !in s
  {
  }

  lemma ValueTwo(s: string)
    requires |s| == 2 && AllDigits(s)
    ensures Value(s) == 10 * DigitValue(s[0]) + DigitValue(s[1])
  {
    var p := s[..1];
    assert p[..0] == [] && p[0] == s[0];
    assert Value(p) == DigitValue(s[0]);
  }

  lemma ValueThree(s: string)
    requires |s| == 3 && AllDigits(s)
    ensures Value(s) == 100 * DigitValue(s[0]) + 10 * DigitValue(s[1]) + DigitValue(s[2])
  {
    var p := s[..2];
    assert p[0] == s[0] && p[1] == s[1];
    ValueTwo(p);
  }

  /** How `split(":")` and `split(",")` cut a well-formed timecode. */
  lemma TimeCodePieces(code: string)
    requires IsTimeCode(code)
    ensures Split(code, ':') == [code[0..2], code[3..5], code[6..12]]
    ensures Split(code[6..12], ',') == [code[6..8], code[9..12]]
  {
    assert AllDigits(code[0..2]) && AllDigits(code[3..5]);
    assert AllDigits(code[6..8]) && AllDigits(code[9..12]);
    NotInDigits(code[0..2], ':');
    NotInDigits(code[3..5], ':');
    NotInDigits(code[6..8], ':');
    NotInDigits(code[9..12], ':');
    NotInDigits(code[6..8], ',');
    NotInDigits(code[9..12], ',');
    assert code[6..12] == code[6..8] + [','] + code[9..12];
    SplitNoSeparator(code[6..12], ':');
    assert code[3..] == code[3..5] + [':'] + code[6..12];
    SplitAround(code[3..5], code[6..12], ':');
    assert code == code[0..2] + [':'] + code[3..];
    SplitAround(code[0..2], code[3..], ':');
    SplitNoSeparator(code[9..12], ',');
    SplitAround(code[6..8], code[9..12], ',');
  }

  /**
   `timeCodeToMilliseconds`: refuses anything but `DD:DD:DD,DDD`, then
   reads the four fields out of `split(":")` and `split(",")`.
   */
  function Decode(code: string): (r: Result<nat, CodecError>)
    ensures r.Ok? <==> IsTimeCode(code)
    ensures r.Ok? ==> r.value == Hours(code) * 3600000 + Minutes(code) * 60000
                                 + Seconds(code) * 1000 + Millis(code)
  {
    if !IsTimeCode(code) then Err(WrongTimeCodeFormat)
    else
      TimeCodePieces(code);
      var tms := Split(code, ':');
      var seconds := Split(tms[2], ',');
      ValueTwo(tms[0]);
      ValueTwo(tms[1]);
      ValueTwo(seconds[0]);
      ValueThree(seconds[1]);
      Ok(Value(tms[0]) * 60 * 60 * 1000 + Value(tms[1]) * 60 * 1000
         + Value(seconds[0]) * 1000 + Value(seconds[1]))
  }

  /** A well-formed timecode never fails to decode, and decodes to its value. */
  lemma DecodeValue(code: string)
    requires IsTimeCode(code)
    ensures Decode(code) == Ok(CodeValue(code))
  {
  }

  /** The largest text, `99:99:99,999`, is 362439999 ms. */
  lemma CodeValueBound(code: string)
    requires IsTimeCode(code)
    ensures CodeValue(code) <= 362439999
  {
  }

  /** Two digits of a number below 100. */
  function Two(n: nat): (r: string)
    requires n < 100
    ensures |r| == 2 && IsDigit(r[0]) && IsDigit(r[1]) && TwoAt(r, 0) == n
  {
    [DigitChar(n / 10), DigitChar(n % 10)]
  }

  /** Three digits of a number below 1000. */
  function Three(n: nat): (r: string)
    requires n < 1000
    ensures |r| == 3 && IsDigit(r[0]) && IsDigit(r[1]) && IsDigit(r[2])
    ensures 100 * DigitValue(r[0]) + TwoAt(r, 1) == n
  {
    [DigitChar(n / 100), DigitChar((n / 10) % 10), DigitChar(n % 10)]
  }

  /** `"%02d" % n` for `n < 100` is `Two(n)`. */
  lemma {:induction false} PaddedTwo(n: nat)
    requires n < 100
    ensures Padded(n, 2) == Two(n)
  {
    assert Pow10(2) == 100;
    assert Fixed(n, 2) == Fixed(n / 10, 1) + [DigitChar(n % 10)];
    assert Fixed(n / 10, 1) == Fixed(n / 100, 0) + [DigitChar((n / 10) % 10)];
  }

  /** `"%03d" % n` for `n < 1000` is `Three(n)`. */
  lemma {:induction false} PaddedThree(n: nat)
    requires n < 1000
    ensures Padded(n, 3) == Three(n)
  {
    assert Pow10(3) == 1000;
    assert Fixed(n, 3) == Fixed(n / 10, 2) + [DigitChar(n % 10)];
    assert Fixed(n / 10, 2) == Fixed(n / 100, 1) + [DigitChar((n / 10) % 10)];
    assert Fixed(n / 100, 1) == Fixed(n / 1000, 0) + [DigitChar((n / 100) % 10)];
  }

  /** One `%0Nd` conversion of a format string and the literal text after it. */
  datatype Field = Field(value: int, width: nat, after: string)

  /** Python's `%` formatting of a sequence of zero-padded integer conversions. */
  function Render(fields: seq<Field>): (r: string)
    decreases |fields|
  {
    if |fields| == 0 then ""
    else PaddedInt(fields[0].value, fields[0].width) + fields[0].after + Render(fields[1..])
  }

  /**
   The four components `millisecondsToTimeCode` computes with Python's
   floor division and modulo (which agree with Dafny's for a positive
   divisor), laid out as `%02d:%02d:%02d,%03d`.
   */
  function Clock(ms: int): seq<Field> {
    [Field(ms / 3600000, 2, ":"), Field((ms % 3600000) / 60000, 2, ":"),
     Field((ms % 60000) / 1000, 2, ","), Field(ms % 1000, 3, "")]
  }

  /** `millisecondsToTimeCode`. */
  function Encode(ms: int): string {
    Render(Clock(ms))
  }

  /** The text of four components as `Render` lays them out. */
  lemma RenderClock(ms: int)
    ensures var c := Clock(ms);
            Encode(ms) == PaddedInt(c[0].value, 2) + ":" + Padded(c[1].value, 2) + ":"
                          + Padded(c[2].value, 2) + "," + Padded(c[3].value, 3)
  {
    var c := Clock(ms);
    assert Render(c[3..]) == Padded(c[3].value, 3) + "" + Render(c[4..]);
    assert Render(c[2..]) == Padded(c[2].value, 2) + "," + Render(c[3..]);
    assert Render(c[1..]) == Padded(c[1].value, 2) + ":" + Render(c[2..]);
    assert Render(c) == PaddedInt(c[0].value, 2) + ":" + Render(c[1..]);
    assert c[1..][1..] == c[2..] && c[2..][1..] == c[3..] && c[3..][1..] == c[4..];
  }

  /**
   Printing a time below one hundred hours gives a well-formed timecode
   whose fields are the hours, minutes, seconds and milliseconds.
   */
  lemma EncodeInRange(ms: int)
    requires 0 <= ms < Limit
    ensures var e := Encode(ms);
            && IsTimeCode(e)
            && Hours(e) == ms / 3600000 && Minutes(e) == (ms % 3600000) / 60000
            && Seconds(e) == (ms % 60000) / 1000 && Millis(e) == ms % 1000
  {
    RenderClock(ms);
    PaddedTwo(ms / 3600000);
    PaddedTwo((ms % 3600000) / 60000);
    PaddedTwo((ms % 60000) / 1000);
    PaddedThree(ms % 1000);
  }

  /** A time outside `[0, Limit)` prints as something longer, or with a sign. */
  lemma EncodeOutOfRange(ms: int)
    requires !(0 <= ms < Limit)
    ensures !IsTimeCode(Encode(ms)) && |Encode(ms)| >= 12
  {
    RenderClock(ms);
    var h := ms / 3600000;
    PaddedTwo((ms % 3600000) / 60000);
    PaddedTwo((ms % 60000) / 1000);
    PaddedThree(ms % 1000);
    if h >= 100 {
      assert Pow10(2) == 100;
      assert |PaddedInt(h, 2)| > 2;
    }
  }

  /** A printed time is a timecode exactly when it lies in `[0, Limit)`. */
  lemma EncodeTimeCode(ms: int)
    ensures IsTimeCode(Encode(ms)) <==> 0 <= ms < Limit
    ensures |Encode(ms)| >= 12
  {
    if 0 <= ms < Limit {
      EncodeInRange(ms);
    } else {
      EncodeOutOfRange(ms);
    }
  }

  lemma MulMonotone(a: int, b: int, d: nat)
    requires a <= b
    ensures a * d <= b * d
  {
    assert b * d - a * d == (b - a) * d;
  }

  /** Division with a remainder in `[0, d)` has one answer. */
  lemma DivModUnique(x: int, d: nat, q: int, r: int)
    requires d > 0 && 0 <= r < d && x == q * d + r
    ensures x / d == q && x % d == r
  {
    var q' := x / d;
    if q' > q {
      MulMonotone(q + 1, q', d);
      assert false;
    } else if q' < q {
      MulMonotone(q' + 1, q, d);
      assert false;
    }
  }

  /** Splitting a time into hours, minutes, seconds and milliseconds is unique. */
  lemma Components(x: int, h: int, m: nat, s: nat, f: nat)
    requires m < 60 && s < 60 && f < 1000
    requires x == h * 3600000 + m * 60000 + s * 1000 + f
    ensures x / 3600000 == h && (x % 3600000) / 60000 == m
    ensures (x % 60000) / 1000 == s && x % 1000 == f
  {
    var r1 := m * 60000 + s * 1000 + f;
    DivModUnique(x, 3600000, h, r1);
    DivModUnique(r1, 60000, m, s * 1000 + f);
    var hm := h * 60 + m;
    assert hm * 60000 == h * 3600000 + m * 60000;
    DivModUnique(x, 60000, hm, s * 1000 + f);
    DivModUnique(s * 1000 + f, 1000, s, f);
    var hms := hm * 60 + s;
    assert hms * 1000 == hm * 60000 + s * 1000;
    DivModUnique(x, 1000, hms, f);
  }

  /** Any time is the sum of its printed components. */
  lemma Decomposed(x: int)
    ensures var m := (x % 3600000) / 60000;
            var s := (x % 60000) / 1000;
            && 0 <= m < 60 && 0 <= s < 60
            && x == (x / 3600000) * 3600000 + m * 60000 + s * 1000 + x % 1000
  {
    var h := x / 3600000;
    var r1 := x % 3600000;
    var m := r1 / 60000;
    var r2 := r1 % 60000;
    var s := r2 / 1000;
    var f := r2 % 1000;
    assert x == h * 3600000 + m * 60000 + s * 1000 + f;
    Components(x, h, m, s, f);
  }

  /** The value of a printed time below one hundred hours is that time. */
  lemma ValueEncode(x: nat)
    requires x < Limit
    ensures IsTimeCode(Encode(x)) && CodeValue(Encode(x)) == x
  {
    Decomposed(x);
    EncodeInRange(x);
  }

  /** Printing then reading a time below one hundred hours gives it back. */
  lemma DecodeEncode(x: nat)
    requires x < Limit
    ensures Decode(Encode(x)) == Ok(x)
  {
    ValueEncode(x);
    DecodeValue(Encode(x));
  }

  /** Two timecodes with the same four fields are the same text. */
  lemma SameTimeCode(a: string, b: string)
    requires IsTimeCode(a) && IsTimeCode(b)
    requires Hours(a) == Hours(b) && Minutes(a) == Minutes(b)
    requires Seconds(a) == Seconds(b) && Millis(a) == Millis(b)
    ensures a == b
  {
    TwoSame(a, b, 0);
    TwoSame(a, b, 3);
    TwoSame(a, b, 6);
    MillisSame(a, b);
    TwoSame(a, b, 10);
    forall i | 0 <= i < 12 ensures a[i] == b[i] {
    }
  }

  /** Equal two-digit numbers are written with the same two digits. */
  lemma TwoSame(a: string, b: string, k: nat)
    requires k + 2 <= |a| && k + 2 <= |b|
    requires IsDigit(a[k]) && IsDigit(a[k + 1]) && IsDigit(b[k]) && IsDigit(b[k + 1])
    requires TwoAt(a, k) == TwoAt(b, k)
    ensures a[k] == b[k] && a[k + 1] == b[k + 1]
  {
  }

  lemma MillisSame(a: string, b: string)
    requires IsTimeCode(a) && IsTimeCode(b) && Millis(a) == Millis(b)
    ensures a[9] == b[9] && TwoAt(a, 10) == TwoAt(b, 10)
  {
  }

  /** A timecode with normal minute and second fields is printed back unchanged. */
  lemma EncodeNormal(code: string)
    requires IsTimeCode(code) && Minutes(code) < 60 && Seconds(code) < 60
    ensures Encode(CodeValue(code)) == code
  {
    var x := CodeValue(code);
    Components(x, Hours(code), Minutes(code), Seconds(code), Millis(code));
    CodeValueBound(code);
    EncodeInRange(x);
    SameTimeCode(Encode(x), code);
  }

  /** Whatever is printed has minute and second fields below 60. */
  lemma EncodedFieldsNormal(x: int)
    requires 0 <= x < Limit
    ensures IsTimeCode(Encode(x)) && Minutes(Encode(x)) < 60 && Seconds(Encode(x)) < 60
  {
    Decomposed(x);
    EncodeInRange(x);
  }

  /**
   Reading then printing a timecode gives the same text exactly when its
   minute and second fields are below 60: reading accepts up to 99 there,
   printing always normalises.
   */
  lemma EncodeDecode(code: string)
    requires IsTimeCode(code)
    ensures Decode(code).Ok?
    ensures Encode(Decode(code).value) == code <==> Minutes(code) < 60 && Seconds(code) < 60
  {
    DecodeValue(code);
    if Minutes(code) < 60 && Seconds(code) < 60 {
      EncodeNormal(code);
    } else if Encode(CodeValue(code)) == code {
      EncodeTimeCode(CodeValue(code));
      EncodedFieldsNormal(CodeValue(code));
    }
  }
}
