/** The date-token scanner of the Ask-Gemini query: the leftmost match of the
    regular expression `\d{4}-\d{2}-\d{2}` in free text, with no calendar check. */
module DateToken {
  import opened Optional
  import opened Text

  /** A decimal digit (ASCII `0`..`9` only). */
  predicate IsDigit(c: char)
  {
    '0' <= c <= '9'
  }

  /** The length of every string the pattern matches. */
  const TokenLength: nat := 10

  /** `w` has the shape `DDDD-DD-DD`: four digits, a dash, two digits, a dash, two digits. */
  predicate IsDateShape(w: string)
  {
    |w| == TokenLength
    && IsDigit(w[0]) && IsDigit(w[1]) && IsDigit(w[2]) && IsDigit(w[3])
    && w[4] == '-'
    && IsDigit(w[5]) && IsDigit(w[6])
    && w[7] == '-'
    && IsDigit(w[8]) && IsDigit(w[9])
  }

  /** The pattern matches `s` at index `i`. */
  predicate DateAt(s: string, i: int)
  {
    0 <= i && i + TokenLength <= |s| && IsDateShape(s[i..i + TokenLength])
  }

  /** `i` is the leftmost index at which the pattern matches `s`. */
  predicate FirstDateAt(s: string, i: int)
  {
    DateAt(s, i) && forall j :: 0 <= j < i ==> !DateAt(s, j)
  }

  /** The scan of `re.search`: the first match position at or after `from`. */
  function SearchFrom(s: string, from: nat): (k: Option<nat>)
    requires from <= |s|
    ensures k.None? ==> forall j :: from <= j ==> !DateAt(s, j)
    ensures k.Some? ==> from <= k.value && DateAt(s, k.value)
                        && forall j :: from <= j < k.value ==> !DateAt(s, j)
    decreases |s| - from
  {
    if from + TokenLength > |s| then None
    else if IsDateShape(s[from..from + TokenLength]) then Some(from)
    else SearchFrom(s, from + 1)
  }

  /** `extract_date_from_input`: the matched text of the leftmost match, or `None`. */
  function ExtractDateFromInput(userInput: string): (r: Option<string>)
    ensures r.None? <==> forall i :: !DateAt(userInput, i)
    ensures r.Some? ==> |r.value| == TokenLength && IsDateShape(r.value)
    ensures r.Some? ==> exists i :: FirstDateAt(userInput, i) && r.value == userInput[i..i + TokenLength]
  {
    match SearchFrom(userInput, 0)
    case None => None
    case Some(k) =>
      assert FirstDateAt(userInput, k);
      Some(userInput[k..k + TokenLength])
  }

  /** The leftmost match is unique, so the token the scanner returns is determined. */
  lemma FirstDateIsUnique(s: string, i: int, j: int)
    requires FirstDateAt(s, i) && FirstDateAt(s, j)
    ensures i == j
  {
  }

  /** The scanner returns the text at the leftmost match position. */
  lemma ExtractsFirstDate(s: string, i: int)
    requires FirstDateAt(s, i)
    ensures ExtractDateFromInput(s) == Some(s[i..i + TokenLength])
  {
  }

  /** A date-shaped word after a prefix without digits is the token found. */
  lemma DateAfterDigitFreePrefix(p: string, w: string, q: string)
    requires forall j :: 0 <= j < |p| ==> !IsDigit(p[j])
    requires IsDateShape(w)
    ensures ExtractDateFromInput(p + w + q) == Some(w)
  {
    var s := p + w + q;
    assert s[|p|..|p| + TokenLength] == w;
    forall j | 0 <= j < |p| ensures !DateAt(s, j) {
      assert s[j] == p[j];
      if j + TokenLength <= |s| {
        assert s[j..j + TokenLength][0] == s[j];
      }
    }
    ExtractsFirstDate(s, |p|);
  }

  /** Any text of the right shape is accepted as it stands, whatever its digits:
      no calendar validation is done, so `9999-99-99` is passed through. */
  lemma ShapeIsAcceptedUnchecked(w: string)
    requires IsDateShape(w)
    ensures ExtractDateFromInput(w) == Some(w)
  {
    assert w[0..TokenLength] == w;
    assert FirstDateAt(w, 0);
  }

  lemma NoCalendarValidation()
    ensures ExtractDateFromInput("9999-99-99") == Some("9999-99-99")
  {
    ShapeIsAcceptedUnchecked("9999-99-99");
  }

  function DigitValue(c: char): nat
    requires IsDigit(c)
  {
    c as int - '0' as int
  }

  function Pow10(n: nat): nat
  {
    if n == 0 then 1 else 10 * Pow10(n - 1)
  }

  predicate AllDigits(s: string)
  {
    forall i :: 0 <= i < |s| ==> IsDigit(s[i])
  }

  /** The decimal number a string of digits denotes, most significant digit first. */
  function Number(s: string): nat
    requires AllDigits(s)
  {
    if s == [] then 0 else DigitValue(s[0]) * Pow10(|s| - 1) + Number(s[1..])
  }

  lemma MulMonotone(x: nat, y: nat, p: nat)
    requires x <= y
    ensures x * p <= y * p
  {
  }

  lemma {:induction false} NumberBelowPower(s: string)
    requires AllDigits(s)
    ensures Number(s) < Pow10(|s|)
  {
    if s != [] {
      assert AllDigits(s[1..]);
      NumberBelowPower(s[1..]);
      var p := Pow10(|s| - 1);
      var d := DigitValue(s[0]);
      assert Number(s) == d * p + Number(s[1..]);
      assert d * p + p == (d + 1) * p;
      MulMonotone(d + 1, 10, p);
    }
  }

  lemma LeadingDigitDecides(x: nat, y: nat, p: nat, rx: nat, ry: nat)
    requires x < y && rx < p
    ensures x * p + rx < y * p + ry
  {
    assert x * p + p == (x + 1) * p;
    MulMonotone(x + 1, y, p);
  }

  /** On digit strings of one length, string order is numeric order. */
  lemma {:induction false} DigitOrderIsNumeric(a: string, b: string)
    requires AllDigits(a) && AllDigits(b) && |a| == |b|
    ensures LexLess(a, b) <==> Number(a) < Number(b)
  {
    if a != [] {
      assert AllDigits(a[1..]) && AllDigits(b[1..]);
      var p := Pow10(|a| - 1);
      var da, db := DigitValue(a[0]), DigitValue(b[0]);
      assert Number(a) == da * p + Number(a[1..]);
      assert Number(b) == db * p + Number(b[1..]);
      if da < db {
        NumberBelowPower(a[1..]);
        LeadingDigitDecides(da, db, p, Number(a[1..]), Number(b[1..]));
        assert a[0] < b[0];
      } else if db < da {
        NumberBelowPower(b[1..]);
        LeadingDigitDecides(db, da, p, Number(b[1..]), Number(a[1..]));
        assert b[0] < a[0];
      } else {
        assert a[0] == b[0];
        DigitOrderIsNumeric(a[1..], b[1..]);
      }
    }
  }

  /** Comparing two strings whose first parts have one length: the first parts
      decide, and only when they are equal do the rest. */
  lemma {:induction false} LexLessOfConcat(p: string, q: string, p': string, q': string)
    requires |p| == |p'|
    ensures LexLess(p + q, p' + q') <==> LexLess(p, p') || (p == p' && LexLess(q, q'))
  {
    if p == [] {
      assert p + q == q && p' + q' == q';
    } else {
      var s, s' := p + q, p' + q';
      assert s[0] == p[0] && s'[0] == p'[0];
      assert s[1..] == p[1..] + q && s'[1..] == p'[1..] + q';
      if p[0] == p'[0] {
        LexLessOfConcat(p[1..], q, p'[1..], q');
        assert p == [p[0]] + p[1..] && p' == [p'[0]] + p'[1..];
        assert p == p' <==> p[1..] == p'[1..];
      }
    }
  }

  /** The year, month and day fields of a date-shaped token. */
  function Year(w: string): nat
    requires IsDateShape(w)
  {
    Number(w[..4])
  }

  function Month(w: string): nat
    requires IsDateShape(w)
  {
    Number(w[5..7])
  }

  function Day(w: string): nat
    requires IsDateShape(w)
  {
    Number(w[8..])
  }

  /** Two digit strings of one length are equal exactly when their numbers are. */
  lemma SameNumberSameDigits(a: string, b: string)
    requires AllDigits(a) && AllDigits(b) && |a| == |b|
    ensures a == b <==> Number(a) == Number(b)
  {
    if a != b {
      LexTotal(a, b);
      DigitOrderIsNumeric(a, b);
      DigitOrderIsNumeric(b, a);
    }
  }

  /** Ordering date keys as strings orders them by (year, month, day): string order
      on `YYYY-MM-DD` keys is chronological order. */
  lemma DateOrderIsChronological(a: string, b: string)
    requires IsDateShape(a) && IsDateShape(b)
    ensures LexLess(a, b) <==>
      Year(a) < Year(b)
      || (Year(a) == Year(b) && (Month(a) < Month(b)
      || (Month(a) == Month(b) && Day(a) < Day(b))))
  {
    var ya, ma, da := a[..4], a[5..7], a[8..];
    var yb, mb, db := b[..4], b[5..7], b[8..];
    assert a == ya + ("-" + (ma + ("-" + da)));
    assert b == yb + ("-" + (mb + ("-" + db)));
    LexLessOfConcat(ya, "-" + (ma + ("-" + da)), yb, "-" + (mb + ("-" + db)));
    LexLessOfConcat("-", ma + ("-" + da), "-", mb + ("-" + db));
    LexLessOfConcat(ma, "-" + da, mb, "-" + db);
    LexLessOfConcat("-", da, "-", db);
    LexIrreflexive("-");
    DigitOrderIsNumeric(ya, yb);
    DigitOrderIsNumeric(ma, mb);
    DigitOrderIsNumeric(da, db);
    SameNumberSameDigits(ya, yb);
    SameNumberSameDigits(ma, mb);
  }
}
