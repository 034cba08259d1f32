/** Parsing and printing of HH:MM:SS positions (source/player/seek_target.c). */
module SeekTarget {
  import opened Options

  const INT_MAX: int := 0x7FFF_FFFF
  const LLONG_MAX: int := 0x7FFF_FFFF_FFFF_FFFF

  // long long and int; every operation on them is shown not to overflow
  newtype Long = x: int | -LLONG_MAX - 1 <= x <= LLONG_MAX
  newtype Int = x: int | -INT_MAX - 1 <= x <= INT_MAX

  // -------------------------------------------------------------- decimal numbers

  predicate IsDigit(c: char) {
    '0' <= c <= '9'
  }

  predicate AllDigits(s: string) {
    forall i :: 0 <= i < |s| ==> IsDigit(s[i])
  }

  function Digit(c: char): (d: nat)
    requires IsDigit(c)
    ensures d < 10
  {
    (c - '0') as nat
  }

  /** The number a digit string spells. */
  function Number(s: string): nat
    requires AllDigits(s)
  {
    if s == "" then 0 else Number(s[..|s| - 1]) * 10 + Digit(s[|s| - 1])
  }

  lemma NumberStep(s: string, i: nat)
    requires AllDigits(s) && i < |s|
    ensures AllDigits(s[..i]) && AllDigits(s[..i + 1])
    ensures Number(s[..i + 1]) == Number(s[..i]) * 10 + Digit(s[i])
  {
    assert s[..i + 1][..i] == s[..i];
  }

  lemma {:induction false} NumberGrows(s: string, i: nat)
    requires AllDigits(s) && i <= |s|
    ensures AllDigits(s[..i]) && Number(s[..i]) <= Number(s)
    decreases |s| - i
  {
    if i < |s| {
      NumberStep(s, i);
      NumberGrows(s, i + 1);
    } else {
      assert s[..i] == s;
    }
  }

  /** parse_unsigned_ll: every digit string whose number fits, and nothing else. */
  method ParseUnsigned(s: string) returns (result: Option<Long>)
    ensures result.Some? <==> s != "" && AllDigits(s) && Number(s) <= LLONG_MAX
    ensures result.Some? ==> result.value as int == Number(s)
  {
    if s == "" {
      return None;
    }
    var value: Long := 0;
    var cursor := 0;
    while cursor < |s|
      invariant cursor <= |s| && AllDigits(s[..cursor]) && value as int == Number(s[..cursor])
    {
      if !IsDigit(s[cursor]) {
        return None;
      }
      var digit := Digit(s[cursor]) as Long;
      assert s[..cursor + 1] == s[..cursor] + [s[cursor]] && s[..cursor + 1][..cursor] == s[..cursor];
      if value > (0x7FFF_FFFF_FFFF_FFFF - digit) / 10 {
        if AllDigits(s) { NumberGrows(s, cursor + 1); }
        return None;
      }
      value := value * 10 + digit;
      cursor := cursor + 1;
    }
    assert s[..cursor] == s;
    return Some(value);
  }

  // ------------------------------------------------------------------- fractions

  function Power(n: nat): (p: nat)
    ensures p > 0
  {
    if n == 0 then 1 else 10 * Power(n - 1)
  }

  /** m is the number of thousandths nearest to 0.s, half a one counting up:
      m - 1/2 <= 1000 * 0.s < m + 1/2, multiplied out. */
  ghost predicate Nearest(s: string, m: nat)
    requires AllDigits(s)
  {
    (2 * m - 1) * Power(|s|) <= 2000 * Number(s) < (2 * m + 1) * Power(|s|)
  }

  /** What parse_fraction_ms looks at. */
  predicate FractionText(s: string) {
    AllDigits(if |s| <= 4 then s else s[..4])
  }

  /** The value it gives: three digits, and one more if the fourth is 5 or more. */
  function Thousandths(s: string): nat
    requires FractionText(s)
  {
    if |s| == 0 then 0
    else if |s| == 1 then 100 * Digit(s[0])
    else if |s| == 2 then 100 * Digit(s[0]) + 10 * Digit(s[1])
    else
      100 * Digit(s[0]) + 10 * Digit(s[1]) + Digit(s[2]) + if |s| > 3 && s[3] >= '5' then 1 else 0
  }

  /** The loop that makes up for missing digits. */
  method ToThousandths(read: Int, count: nat) returns (millis: Int)
    requires 0 <= read < (if count == 1 then 10 else if count == 2 then 100 else 1000)
    ensures millis as int == read as int * (if count == 1 then 100 else if count == 2 then 10 else 1)
  {
    millis := read;
    var digits := count;
    while 0 < digits < 3
      invariant count >= 3 ==> digits == count
      invariant count < 3 ==> digits <= 3 && (digits == 0 <==> count == 0)
      invariant millis as int * (if digits == 1 then 100 else if digits == 2 then 10 else 1)
                == read as int * (if count == 1 then 100 else if count == 2 then 10 else 1) < 1000
      decreases 3 - digits
    {
      millis := millis * 10;
      digits := digits + 1;
    }
  }

  method ParseFraction(s: string) returns (result: Option<Int>)
    ensures result.Some? <==> FractionText(s)
    ensures result.Some? ==> result.value as int == Thousandths(s) <= 1000
  {
    var millis: Int := 0;
    var digits := 0;
    var roundUp := false;
    var cursor := 0;
    while cursor < |s|
      invariant digits == cursor <= 3 && cursor <= |s| && !roundUp
      invariant AllDigits(s[..cursor]) && millis as int == Number(s[..cursor]) < 1000
    {
      if !IsDigit(s[cursor]) {
        assert (if |s| <= 4 then s else s[..4])[cursor] == s[cursor];
        return None;
      }
      assert s[..cursor + 1] == s[..cursor] + [s[cursor]] && s[..cursor + 1][..cursor] == s[..cursor];
      if digits < 3 {
        FewDigits(s[..cursor]);
        millis := millis * 10 + Digit(s[cursor]) as Int;
      } else {
        roundUp := s[cursor] >= '5';
        break;
      }
      digits := digits + 1;
      cursor := cursor + 1;
    }
    FewDigits(s[..cursor]);
    assert |s| <= 3 ==> s[..cursor] == s;
    millis := ToThousandths(millis, digits);
    if roundUp {
      millis := millis + 1;
    }
    return Some(millis);
  }

  lemma FewDigits(s: string)
    requires AllDigits(s) && |s| <= 3
    ensures Number(s) == (if |s| == 0 then 0 else if |s| == 1 then Digit(s[0])
                          else if |s| == 2 then 10 * Digit(s[0]) + Digit(s[1])
                          else 100 * Digit(s[0]) + 10 * Digit(s[1]) + Digit(s[2]))
  {
    if |s| > 0 { FewDigits(s[..|s| - 1]); }
  }

  lemma {:induction false} NumberBound(s: string)
    requires AllDigits(s)
    ensures Number(s) < Power(|s|)
  {
    if s != "" { NumberBound(s[..|s| - 1]); }
  }

  lemma Shifted(a: nat, p: nat, q: nat, d: nat)
    ensures (a * p + q) * 10 + d == a * (10 * p) + (q * 10 + d)
  {}

  lemma {:induction false} NumberSplit(s: string, k: nat)
    requires AllDigits(s) && k <= |s|
    ensures AllDigits(s[..k]) && AllDigits(s[k..])
    ensures Number(s) == Number(s[..k]) * Power(|s| - k) + Number(s[k..])
    decreases |s|
  {
    if k == |s| {
      assert s[..k] == s && s[k..] == "";
    } else {
      var n := |s| - 1;
      NumberSplit(s[..n], k);
      assert s[..n][..k] == s[..k] && s[k..][..n - k] == s[..n][k..] && s[k..][n - k] == s[n];
      Shifted(Number(s[..k]), Power(n - k), Number(s[..n][k..]), Digit(s[n]));
      assert Power(|s| - k) == 10 * Power(n - k);
    }
  }

  lemma {:induction false} PowerSplit(n: nat, k: nat)
    requires k <= n
    ensures Power(n) == Power(k) * Power(n - k)
  {
    if k > 0 {
      PowerSplit(n - 1, k - 1);
      assert 10 * (Power(k - 1) * Power(n - k)) == (10 * Power(k - 1)) * Power(n - k);
    }
  }

  /** Scaling a comparison by a positive factor. */
  lemma Scaled(a: int, b: int, p: nat)
    requires a <= b
    ensures a * p <= b * p
  {}

  lemma FirstFour(s: string)
    requires AllDigits(s) && |s| >= 4
    ensures AllDigits(s[..4])
    ensures Number(s[..4]) == 1000 * Digit(s[0]) + 100 * Digit(s[1]) + 10 * Digit(s[2]) + Digit(s[3])
  {
    assert s[..4][..3] == s[..3];
    FewDigits(s[..3]);
  }

  lemma FewAreNearest(s: string)
    requires AllDigits(s) && |s| <= 3
    ensures Nearest(s, Thousandths(s))
  {
    FewDigits(s);
    assert Power(0) == 1 && Power(1) == 10 && Power(2) == 100 && Power(3) == 1000;
  }

  /** Four digits decide how the rest is rounded: for a fraction of digits the
      value is the nearest number of thousandths. */
  lemma ThousandthsAreNearest(s: string)
    requires AllDigits(s)
    ensures FractionText(s) && Nearest(s, Thousandths(s))
  {
    if |s| <= 3 {
      FewAreNearest(s);
    } else {
      var m := Thousandths(s);
      FirstFour(s);
      NumberSplit(s, 4);
      NumberBound(s[4..]);
      PowerSplit(|s|, 4);
      assert Power(4) == 10000;
      var a, p, r := Number(s[..4]), Power(|s| - 4), Number(s[4..]);
      assert 10 * m <= a + 5 && a + 1 <= 10 * m + 5;
      hide Number, Power, Thousandths;
      NearestByFour(m, a, p, r);
    }
  }

  lemma NearestByFour(m: nat, a: nat, p: nat, r: nat)
    requires 10 * m <= a + 5 && a + 1 <= 10 * m + 5 && r < p
    ensures (2 * m - 1) * (10000 * p) <= 2000 * (a * p + r) < (2 * m + 1) * (10000 * p)
  {
    Scaled(10 * m - 5, a, p);
    Scaled(a + 1, 10 * m + 5, p);
    assert (2 * m - 1) * (10000 * p) == 2000 * ((10 * m - 5) * p);
    assert (2 * m + 1) * (10000 * p) == 2000 * ((10 * m + 5) * p);
    assert (a + 1) * p == a * p + p;
  }

  // -------------------------------------------------------------------- HH:MM:SS

  /** memchr: the first place of c, or the length. */
  function Find(s: string, c: char): (k: nat)
    ensures k <= |s| && (k < |s| ==> s[k] == c)
  {
    if s == "" || s[0] == c then 0 else Find(s[1..], c) + 1
  }

  /** What is before and after the first c. */
  function Cut(s: string, c: char): Option<(string, string)> {
    var k := Find(s, c);
    if k == |s| then None else Some((s[..k], s[k + 1..]))
  }

  lemma {:induction false} FindIs(a: string, c: char, b: string)
    requires c !in a
    ensures Find(a + [c] + b, c) == |a|
  {
    if a != "" {
      assert (a + [c] + b)[1..] == a[1..] + [c] + b;
      FindIs(a[1..], c, b);
    }
  }

  lemma {:induction false} FindFirst(s: string, c: char)
    ensures c !in s[..Find(s, c)]
  {
    if s != "" && s[0] != c {
      FindFirst(s[1..], c);
      var k := Find(s[1..], c);
      assert s[..k + 1] == [s[0]] + s[1..][..k];
    }
  }

  lemma CutExactly(s: string, c: char, a: string, b: string)
    ensures Cut(s, c) == Some((a, b)) <==> s == a + [c] + b && c !in a
    ensures Cut(s, c) == None <==> c !in s
  {
    FindFirst(s, c);
    var k := Find(s, c);
    assert s[..|s|] == s;
    if s == a + [c] + b && c !in a {
      FindIs(a, c, b);
      assert s[..|a|] == a && s[|a| + 1..] == b;
    }
    if k < |s| { assert s == s[..k] + [c] + s[k + 1..]; }
  }

  datatype Fields = Fields(hour: string, minute: string, second: string, fraction: Option<string>)

  function SplitSeconds(hour: string, minute: string, tail: string): Option<Fields> {
    if ':' in tail then None
    else
      match Cut(tail, '.')
      case None => Some(Fields(hour, minute, tail, None))
      case Some((second, fraction)) => Some(Fields(hour, minute, second, Some(fraction)))
  }

  function SplitMinutes(hour: string, rest: string): Option<Fields> {
    match Cut(rest, ':')
    case None => None
    case Some((minute, tail)) => SplitSeconds(hour, minute, tail)
  }

  /** The searches of parse_hhmmss_ms. */
  function SplitFields(s: string): Option<Fields> {
    match Cut(s, ':')
    case None => None
    case Some((hour, rest)) => SplitMinutes(hour, rest)
  }

  function SpelledSeconds(f: Fields): string {
    if f.fraction.Some? then f.second + "." + f.fraction.value else f.second
  }

  function Spelled(f: Fields): string {
    f.hour + ":" + (f.minute + ":" + SpelledSeconds(f))
  }

  predicate Splittable(f: Fields) {
    ':' !in f.hour && ':' !in f.minute && ':' !in SpelledSeconds(f) && '.' !in f.second
  }

  lemma SecondsExactly(tail: string, f: Fields)
    ensures SplitSeconds(f.hour, f.minute, tail) == Some(f) <==>
      tail == SpelledSeconds(f) && ':' !in tail && '.' !in f.second
  {
    hide Cut;
    CutExactly(tail, '.', f.second, if f.fraction.Some? then f.fraction.value else "");
  }

  lemma MinutesExactly(rest: string, f: Fields)
    ensures SplitMinutes(f.hour, rest) == Some(f) <==>
      && rest == f.minute + ":" + SpelledSeconds(f) && ':' !in f.minute
      && ':' !in SpelledSeconds(f) && '.' !in f.second
  {
    hide Cut, SpelledSeconds, SplitSeconds;
    var tail := SpelledSeconds(f);
    CutExactly(rest, ':', f.minute, tail);
    SecondsExactly(tail, f);
    if cut: (string, string) :| Cut(rest, ':') == Some(cut) {
      SecondsKeep(f.hour, cut.0, cut.1);
      SecondsExactly(cut.1, f);
    }
  }

  lemma SecondsKeep(hour: string, minute: string, tail: string)
    ensures var f := SplitSeconds(hour, minute, tail); f.Some? ==> f.value.hour == hour && f.value.minute == minute
  {}

  lemma MinutesKeep(hour: string, rest: string)
    ensures var f := SplitMinutes(hour, rest); f.Some? ==> f.value.hour == hour
  {}

  /** The text splits into these fields exactly when it spells them, with two
      colons and at most a point after them. */
  lemma SplitExactly(s: string, f: Fields)
    ensures SplitFields(s) == Some(f) <==> s == Spelled(f) && Splittable(f)
  {
    hide Cut, SpelledSeconds, SplitMinutes;
    var rest := f.minute + ":" + SpelledSeconds(f);
    CutExactly(s, ':', f.hour, rest);
    MinutesExactly(rest, f);
    if cut: (string, string) :| Cut(s, ':') == Some(cut) {
      MinutesKeep(cut.0, cut.1);
      MinutesExactly(cut.1, f);
    }
  }

  predicate Readable(f: Fields) {
    && f.hour != "" && AllDigits(f.hour) && f.minute != "" && AllDigits(f.minute)
    && f.second != "" && AllDigits(f.second) && (f.fraction.Some? ==> FractionText(f.fraction.value))
  }

  /** The whole position in milliseconds. */
  function Total(f: Fields): nat
    requires Readable(f)
  {
    Number(f.hour) * 3600000 + Number(f.minute) * 60000 + Number(f.second) * 1000
    + if f.fraction.Some? then Thousandths(f.fraction.value) else 0
  }

  /** The text is readable and its total is an int. */
  predicate Fits(s: string) {
    SplitFields(s).Some? && Readable(SplitFields(s).value) && Total(SplitFields(s).value) <= INT_MAX
  }

  /** Hours, minutes and seconds in digits, with or without a fraction in digits. */
  predicate DigitFields(f: Fields) {
    && f.hour != "" && AllDigits(f.hour) && f.minute != "" && AllDigits(f.minute)
    && f.second != "" && AllDigits(f.second) && (f.fraction.Some? ==> AllDigits(f.fraction.value))
  }

  /** ms is the position that the fields name: 3600, 60 and 1 seconds for each hour,
      minute and second, and of a fraction the nearest thousandth. */
  ghost predicate Names(f: Fields, ms: int)
    requires DigitFields(f)
  {
    var whole := 1000 * (3600 * Number(f.hour) + 60 * Number(f.minute) + Number(f.second));
    if f.fraction.Some? then ms >= whole && Nearest(f.fraction.value, ms - whole) else ms == whole
  }

  /** No two numbers are nearest to one fraction. */
  lemma NearestIsOne(s: string, m: nat, n: nat)
    requires AllDigits(s) && Nearest(s, m) && Nearest(s, n)
    ensures m == n
  {
    hide Number, Power;
    if m < n {
      Scaled(2 * m + 1, 2 * n - 1, Power(|s|));
    } else if n < m {
      Scaled(2 * n + 1, 2 * m - 1, Power(|s|));
    }
  }

  lemma FractionNames(s: string, whole: nat, ms: int)
    requires AllDigits(s)
    ensures FractionText(s)
    ensures ms >= whole && Nearest(s, ms - whole) <==> ms == whole + Thousandths(s)
  {
    ThousandthsAreNearest(s);
    if ms >= whole && Nearest(s, ms - whole) { NearestIsOne(s, ms - whole, Thousandths(s)); }
    hide Nearest, Thousandths;
  }

  /** Digit fields are always read as themselves: they name exactly one position,
      and that is the total, whether or not it fits. */
  lemma TotalIsNamed(f: Fields, ms: int)
    requires DigitFields(f)
    ensures Splittable(f) && SplitFields(Spelled(f)) == Some(f) && Readable(f)
    ensures Names(f, ms) <==> ms == Total(f)
  {
    DigitFieldsAreRead(f);
    NamesTotal(f, ms);
  }

  lemma NamesTotal(f: Fields, ms: int)
    requires DigitFields(f) && Readable(f)
    ensures Names(f, ms) <==> ms == Total(f)
  {
    var h, m, s := Number(f.hour), Number(f.minute), Number(f.second);
    if f.fraction.Some? { FractionNames(f.fraction.value, 1000 * (3600 * h + 60 * m + s), ms); }
    hide Nearest, Number, Thousandths, AllDigits, FractionText;
    assert Total(f) == 1000 * (3600 * h + 60 * m + s) + if f.fraction.Some? then Thousandths(f.fraction.value) else 0;
  }

  /** The answer for digit fields: the position they name, or none when it is no
      int. */
  ghost predicate Answers(f: Fields, result: Option<Int>)
    requires DigitFields(f)
  {
    if result.Some? then Names(f, result.value as int) else forall ms: int :: Names(f, ms) ==> ms > INT_MAX
  }

  lemma TotalAnswers(f: Fields, result: Option<Int>)
    requires DigitFields(f)
    requires result == if Fits(Spelled(f)) then Some(Total(SplitFields(Spelled(f)).value) as Int) else None
    ensures Answers(f, result)
  {
    TotalIsNamed(f, Total(f));
    forall ms: int ensures Names(f, ms) <==> ms == Total(f) { TotalIsNamed(f, ms); }
    hide Total, Names, SplitFields, Spelled;
  }

  /** Characters of a fraction after the fourth make no difference. */
  lemma FourMatter(s: string)
    requires |s| > 4
    ensures FractionText(s) <==> AllDigits(s[..4])
    ensures FractionText(s) ==> Thousandths(s) == Thousandths(s[..4]) && Nearest(s[..4], Thousandths(s))
  {
    if FractionText(s) { ThousandthsAreNearest(s[..4]); }
  }

  /** parse_hhmmss_ms: exactly the readable texts whose total is an int. */
  method ParseHhmmss(s: string) returns (result: Option<Int>)
    ensures result.Some? <==> Fits(s)
    ensures result.Some? ==> result.value as int == Total(SplitFields(s).value)
    ensures forall f: Fields :: DigitFields(f) && Spelled(f) == s ==> Answers(f, result)
  {
    result := ParseFields(s);
    forall f: Fields | DigitFields(f) && Spelled(f) == s { TotalAnswers(f, result); }
  }

  method ParseFields(s: string) returns (result: Option<Int>)
    ensures result.Some? <==> Fits(s)
    ensures result.Some? ==> result.value as int == Total(SplitFields(s).value)
  {
    var split := SplitFields(s);
    if split.None? {
      return None;
    }
    var f := split.value;
    var hour := ParseUnsigned(f.hour);
    if hour.None? {
      return None;
    }
    var minute := ParseUnsigned(f.minute);
    if minute.None? {
      return None;
    }
    var second := ParseUnsigned(f.second);
    if second.None? {
      return None;
    }
    var fraction: Int := 0;
    if f.fraction.Some? {
      var parsed := ParseFraction(f.fraction.value);
      if parsed.None? {
        return None;
      }
      fraction := parsed.value;
    }
    result := AddUp(hour.value, minute.value, second.value, fraction);
  }

  /** The guarded sums at the end of parse_hhmmss_ms. */
  method AddUp(hour: Long, minute: Long, second: Long, fraction: Int) returns (total: Option<Int>)
    requires hour >= 0 && minute >= 0 && second >= 0 && fraction >= 0
    ensures var sum := hour as int * 3600000 + minute as int * 60000 + second as int * 1000 + fraction as int;
      total == if sum <= INT_MAX then Some(sum as Int) else None
  {
    var max: Long := 0x7FFF_FFFF;
    if hour > max / 3600000 {
      return None;
    }
    var sum := hour * 3600000;
    if minute > (max - sum) / 60000 {
      return None;
    }
    sum := sum + minute * 60000;
    if second > (max - sum) / 1000 {
      return None;
    }
    sum := sum + second * 1000;
    if fraction as Long > max - sum {
      return None;
    }
    sum := sum + fraction as Long;
    return Some(sum as Int);
  }

  /** isspace() in the C locale. */
  predicate IsSpace(c: char) {
    c == ' ' || '\t' <= c <= '\r'
  }

  /** Blank, and what C writes \t, \n, \v, \f and \r. */
  lemma SpacesAre(c: char)
    ensures IsSpace(c) <==> c as int in {0x20, 0x09, 0x0A, 0x0B, 0x0C, 0x0D}
  {}

  /** s[a..b] is the text without the white space around it. */
  ghost predicate Trims(s: string, a: nat, b: nat) {
    && a <= b <= |s|
    && (forall i :: 0 <= i < a || b <= i < |s| ==> IsSpace(s[i]))
    && (a < b ==> !IsSpace(s[a]) && !IsSpace(s[b - 1]))
  }

  /** What becomes of a target: Seconds is handed to strtod(). */
  datatype Outcome = Position(ms: Int) | Refused | Seconds(text: string)

  /** player_seek_target_parse_ms; a null target is None. */
  method ParseTarget(target: Option<string>) returns (outcome: Outcome, ghost a: nat, ghost b: nat)
    ensures target == None ==> outcome == Refused
    ensures target.Some? ==>
      && Trims(target.value, a, b)
      && var text := target.value[a..b];
         && (text == "" ==> outcome == Refused)
         && (text != "" && ':' !in text ==> outcome == Seconds(text))
         && (':' in text ==> outcome == if Fits(text) then Position(Total(SplitFields(text).value) as Int) else Refused)
         && forall f: Fields :: DigitFields(f) && Spelled(f) == text ==>
              outcome != Seconds(text) && Answers(f, if outcome.Position? then Some(outcome.ms) else None)
  {
    a, b := 0, 0;
    if target == None {
      return Refused, a, b;
    }
    var s := target.value;
    var start := 0;
    while start < |s| && IsSpace(s[start])
      invariant start <= |s| && forall i :: 0 <= i < start ==> IsSpace(s[i])
    {
      start := start + 1;
    }
    var end := |s|;
    while end > start && IsSpace(s[end - 1])
      invariant start <= end <= |s| && forall i :: end <= i < |s| ==> IsSpace(s[i])
    {
      end := end - 1;
    }
    a, b := start, end;
    var text := s[start..end];
    if text == "" {
      return Refused, a, b;
    }
    if Find(text, ':') < |text| {
      var position := ParseHhmmss(text);
      CutExactly(text, ':', "", "");
      return if position.Some? then Position(position.value) else Refused, a, b;
    }
    CutExactly(text, ':', "", "");
    return Seconds(text), a, b;
  }

  /** Hours, minutes and seconds in digits, with or without a fraction in digits,
      are read as exactly that, the fraction to the nearest thousandth. */
  lemma DigitFieldsAreRead(f: Fields)
    requires DigitFields(f)
    ensures Splittable(f) && SplitFields(Spelled(f)) == Some(f) && Readable(f)
    ensures f.fraction.Some? ==> Nearest(f.fraction.value, Thousandths(f.fraction.value))
  {
    assert Splittable(f);
    SplitExactly(Spelled(f), f);
    if f.fraction.Some? { ThousandthsAreNearest(f.fraction.value); }
  }

  // -------------------------------------------------------------------- printing

  function Decimal(n: nat): (s: string)
    ensures s != "" && AllDigits(s) && Number(s) == n
  {
    if n < 10 then
      var s := ['0' + n as char];
      assert s[..0] == "";
      s
    else
      var s := Decimal(n / 10) + ['0' + (n % 10) as char];
      assert s[..|s| - 1] == Decimal(n / 10);
      s
  }

  /** "%02d" of a number that is not negative. */
  function TwoDigits(n: nat): (s: string)
    ensures |s| >= 2 && AllDigits(s) && Number(s) == n
  {
    if n < 10 then
      var s := "0" + Decimal(n);
      assert s[..1] == "0" && "0"[..0] == "" && Number("0") == 0;
      NumberStep(s, 1);
      s
    else
      var s := Decimal(n);
      s
  }

  function Printed(seconds: nat): Fields {
    Fields(TwoDigits(seconds / 3600), TwoDigits(seconds % 3600 / 60), TwoDigits(seconds % 60), None)
  }

  /** A clock that shows so many seconds: minute and second below sixty in two
      digits, the hour in two or, from 100 on, in as few as it takes. */
  ghost predicate ShowsClock(f: Fields, seconds: nat) {
    && DigitFields(f) && f.fraction == None
    && |f.hour| >= 2 && |f.minute| == 2 && |f.second| == 2 && (|f.hour| > 2 ==> f.hour[0] != '0')
    && Number(f.minute) < 60 && Number(f.second) < 60
    && 3600 * Number(f.hour) + 60 * Number(f.minute) + Number(f.second) == seconds
  }

  lemma {:induction false} DecimalIsShort(n: nat)
    ensures n < 10 ==> |Decimal(n)| == 1
    ensures n >= 10 ==> |Decimal(n)| >= 2 && Decimal(n)[0] != '0'
    ensures 10 <= n < 100 ==> |Decimal(n)| == 2
  {
    if n >= 10 {
      DecimalIsShort(n / 10);
      assert Decimal(n)[0] == Decimal(n / 10)[0];
      if n < 100 { assert Decimal(n / 10) == ['0' + (n / 10) as char]; }
    }
  }

  lemma TwoDigitsAreTwo(n: nat)
    ensures n < 100 ==> |TwoDigits(n)| == 2
    ensures |TwoDigits(n)| > 2 ==> TwoDigits(n)[0] != '0'
  {
    DecimalIsShort(n);
  }

  lemma PrintedShows(seconds: nat)
    ensures ShowsClock(Printed(seconds), seconds)
  {
    TwoDigitsAreTwo(seconds / 3600);
    TwoDigitsAreTwo(seconds % 3600 / 60);
    TwoDigitsAreTwo(seconds % 60);
    SecondsAddUp(seconds);
    hide Number, TwoDigits;
  }

  method Format(positionMs: Int, memoryOk: bool) returns (text: Option<string>)
    ensures text == if memoryOk then Some(Spelled(Printed(if positionMs < 0 then 0 else positionMs as int / 1000)))
                    else None
    ensures text.Some? ==> exists f: Fields ::
      text.value == Spelled(f) && ShowsClock(f, if positionMs < 0 then 0 else positionMs as int / 1000)
  {
    PrintedShows(if positionMs < 0 then 0 else positionMs as int / 1000);
    var position := if positionMs < 0 then 0 else positionMs;
    var seconds := position / 1000;
    var hour, minute, second := seconds / 3600, seconds % 3600 / 60, seconds % 60;
    if !memoryOk {
      return None;
    }
    text := Some(TwoDigits(hour as nat) + ":" + (TwoDigits(minute as nat) + ":" + TwoDigits(second as nat)));
  }

  lemma SecondsAddUp(n: nat)
    ensures n / 3600 * 3600 + n % 3600 / 60 * 60 + n % 60 == n
  {
    assert n % 60 == (n % 3600) % 60;
  }

  /** Reading what was printed gives the position back, to the whole second. */
  lemma PrintedIsRead(ms: nat)
    requires ms <= INT_MAX
    ensures var s := Spelled(Printed(ms / 1000));
      Fits(s) && Total(SplitFields(s).value) == 1000 * (ms / 1000)
  {
    var f := Printed(ms / 1000);
    DigitFieldsAreRead(f);
    SecondsAddUp(ms / 1000);
    assert Total(f) == 1000 * (ms / 1000);
    hide *;
  }
}
