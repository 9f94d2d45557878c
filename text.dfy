/** The pieces of Python's string semantics that the reminder core relies on:
    `sep.join(parts)`, `str.strip()` and the ordering `<` on `str`. */
module Text {

  /** Python's `sep.join(parts)`: the parts in order, with `sep` between neighbours. */
  function Join(sep: string, parts: seq<string>): (r: string)
    ensures |parts| == 0 ==> r == ""
  {
    if |parts| == 0 then ""
    else if |parts| == 1 then parts[0]
    else Join(sep, parts[..|parts| - 1]) + sep + parts[|parts| - 1]
  }

  /** Appending one part to a non-empty join adds the separator and that part. */
  lemma JoinSnoc(sep: string, parts: seq<string>, p: string)
    ensures Join(sep, parts + [p]) == if parts == [] then p else Join(sep, parts) + sep + p
  {
  }

  /** A non-empty join starts with its first part. */
  lemma {:induction false} JoinStartsWithFirstPart(sep: string, parts: seq<string>)
    requires |parts| > 0
    ensures var j := Join(sep, parts); |parts[0]| <= |j| && j[..|parts[0]|] == parts[0]
    decreases |parts|
  {
    var n := |parts|;
    if n > 1 {
      var front := parts[..n - 1];
      JoinStartsWithFirstPart(sep, front);
      assert front[0] == parts[0];
      var j := Join(sep, front);
      assert (j + sep + parts[n - 1])[..|parts[0]|] == j[..|parts[0]|];
    }
  }

  /** A non-empty join ends with its last part. */
  lemma JoinEndsWithLastPart(sep: string, parts: seq<string>)
    requires |parts| > 0
    ensures var j := Join(sep, parts); var last := parts[|parts| - 1];
      |last| <= |j| && j[|j| - |last|..] == last
      && (|last| > 0 ==> j[|j| - 1] == last[|last| - 1])
  {
    var n := |parts|;
    if n > 1 {
      var j := Join(sep, parts[..n - 1]) + sep;
      assert Join(sep, parts) == j + parts[n - 1];
      assert (j + parts[n - 1])[|j|..] == parts[n - 1];
    }
  }

  /** `a` occurs in `b` starting at index `k`. */
  predicate OccursAt(a: string, b: string, k: int)
  {
    0 <= k && k + |a| <= |b| && b[k..k + |a|] == a
  }

  /** Python's `a in b` for strings. */
  predicate IsSubstring(a: string, b: string)
  {
    exists k :: 0 <= k <= |b| && OccursAt(a, b, k)
  }

  lemma OccursInExtension(a: string, b: string, c: string, k: int)
    requires OccursAt(a, b, k)
    ensures OccursAt(a, b + c, k) && OccursAt(a, c + b, |c| + k)
  {
  }

  /** An occurrence in `b` is an occurrence in `x + b + y`, shifted by `|x|`. */
  lemma OccursInMiddle(a: string, x: string, b: string, y: string, k: int)
    requires OccursAt(a, b, k)
    ensures OccursAt(a, x + b + y, |x| + k)
  {
    assert (x + b + y)[|x| + k..|x| + k + |a|] == b[k..k + |a|];
  }

  /** Every part of a join can be found in the joined string. */
  lemma {:induction false} JoinContainsParts(sep: string, parts: seq<string>, i: int)
    requires 0 <= i < |parts|
    ensures IsSubstring(parts[i], Join(sep, parts))
    decreases |parts|
  {
    var n := |parts|;
    if n == 1 {
      assert OccursAt(parts[0], Join(sep, parts), 0);
    } else {
      var front := Join(sep, parts[..n - 1]);
      assert Join(sep, parts) == front + sep + parts[n - 1];
      if i == n - 1 {
        assert OccursAt(parts[i], Join(sep, parts), |front| + |sep|);
      } else {
        JoinContainsParts(sep, parts[..n - 1], i);
        var k :| OccursAt(parts[i], front, k);
        OccursInExtension(parts[i], front, sep + parts[n - 1], k);
        assert front + (sep + parts[n - 1]) == Join(sep, parts);
      }
    }
  }

  /** The characters for which Python's `str.isspace()` holds. */
  predicate IsSpace(c: char)
  {
    var n := c as int;
    9 <= n <= 13 || 28 <= n <= 32 || n == 0x85 || n == 0xA0 || n == 0x1680
    || 0x2000 <= n <= 0x200A || n == 0x2028 || n == 0x2029 || n == 0x202F
    || n == 0x205F || n == 0x3000
  }

  /** `s` with its leading whitespace removed: a suffix of `s`, everything before it
      whitespace, and it does not start with whitespace. */
  function TrimLeft(s: string): (r: string)
    ensures |r| <= |s| && r == s[|s| - |r|..]
    ensures forall i :: 0 <= i < |s| - |r| ==> IsSpace(s[i])
    ensures |r| > 0 ==> !IsSpace(r[0])
  {
    if |s| > 0 && IsSpace(s[0]) then TrimLeft(s[1..]) else s
  }

  /** `s` with its trailing whitespace removed: a prefix of `s`, everything after it
      whitespace, and it does not end with whitespace. */
  function TrimRight(s: string): (r: string)
    ensures |r| <= |s| && r == s[..|r|]
    ensures forall i :: |r| <= i < |s| ==> IsSpace(s[i])
    ensures |r| > 0 ==> !IsSpace(r[|r| - 1])
  {
    if |s| > 0 && IsSpace(s[|s| - 1]) then TrimRight(s[..|s| - 1]) else s
  }

  /** Python's `s.strip()` with no argument: whitespace removed from both ends. */
  function Strip(s: string): (r: string)
    ensures IsSubstring(r, s)
    ensures |s| > 0 && !IsSpace(s[0]) && !IsSpace(s[|s| - 1]) ==> r == s
  {
    StripWindow(s);
    TrimLeft(TrimRight(s))
  }

  /** What `Strip` promises, about the two trims in turn. */
  lemma StripWindow(s: string)
    ensures var r := TrimLeft(TrimRight(s));
      IsSubstring(r, s) && (|s| > 0 && !IsSpace(s[0]) && !IsSpace(s[|s| - 1]) ==> r == s)
  {
    StripIsWindow(s);
    if |s| > 0 && !IsSpace(s[0]) && !IsSpace(s[|s| - 1]) {
      NothingToTrim(s);
    }
  }

  /** Trimming the right end and then the left end leaves a window of `s`. */
  lemma StripIsWindow(s: string)
    ensures var t := TrimRight(s); var r := TrimLeft(t); OccursAt(r, s, |t| - |r|)
  {
    var t := TrimRight(s);
    var r := TrimLeft(t);
    assert s[..|t|][|t| - |r|..|t|] == s[|t| - |r|..|t|];
  }

  /** Trimming the left end keeps the last character of what remains. */
  lemma TrimLeftKeepsLast(t: string)
    ensures var r := TrimLeft(t); |r| > 0 ==> r[|r| - 1] == t[|t| - 1]
  {
    var r := TrimLeft(t);
    if |r| > 0 {
      var k := |t| - |r|;
      assert r[|r| - 1] == t[k..][|r| - 1];
    }
  }

  /** The window left by both trims starts and ends with non-space characters. */
  lemma StripEnds(s: string)
    ensures var r := TrimLeft(TrimRight(s)); |r| > 0 ==> !IsSpace(r[0]) && !IsSpace(r[|r| - 1])
  {
    TrimLeftKeepsLast(TrimRight(s));
  }

  /** A string with non-space characters at both ends is left as it is. */
  lemma NothingToTrim(s: string)
    requires |s| > 0 && !IsSpace(s[0]) && !IsSpace(s[|s| - 1])
    ensures TrimRight(s) == s && TrimLeft(s) == s
  {
  }

  /** What `strip()` leaves starts and ends with a non-space character. */
  lemma StripLeavesNoSpaceAtEnds(s: string)
    ensures var r := Strip(s); |r| > 0 ==> !IsSpace(r[0]) && !IsSpace(r[|r| - 1])
  {
    StripEnds(s);
  }

  /** What `strip()` does to the daily summary: when the text proper starts and ends
      with a non-space character, only the one trailing newline goes. */
  lemma StripTrailingNewline(s: string)
    requires |s| > 0 && !IsSpace(s[0]) && !IsSpace(s[|s| - 1])
    ensures Strip(s + "\n") == s
  {
    var t := s + "\n";
    assert IsSpace(t[|t| - 1]) && t[..|t| - 1] == s;
    assert TrimRight(t) == TrimRight(s) == s;
    assert TrimLeft(s) == s;
  }

  /** Python's `a < b` on `str`: code point by code point, a proper prefix first. */
  predicate LexLess(a: string, b: string)
    ensures |a| < |b| && b[..|a|] == a ==> LexLess(a, b)
    ensures |b| <= |a| && a[..|b|] == b ==> !LexLess(a, b)
  {
    if |a| == 0 then |b| > 0
    else |b| > 0 && (if a[0] == b[0] then LexLess(a[1..], b[1..]) else a[0] < b[0])
  }

  /** Where two strings first differ, the characters there decide the order. */
  lemma {:induction false} LexLessAtFirstDifference(a: string, b: string, k: int)
    requires 0 <= k < |a| && k < |b| && a[..k] == b[..k] && a[k] != b[k]
    ensures LexLess(a, b) <==> a[k] < b[k]
  {
    if k > 0 {
      assert a[0] == a[..k][0] == b[..k][0] == b[0];
      assert a[1..][..k - 1] == a[..k][1..] == b[..k][1..] == b[1..][..k - 1];
      LexLessAtFirstDifference(a[1..], b[1..], k - 1);
    }
  }

  lemma {:induction false} LexIrreflexive(a: string)
    ensures !LexLess(a, a)
  {
    if |a| > 0 {
      LexIrreflexive(a[1..]);
    }
  }

  lemma {:induction false} LexTransitive(a: string, b: string, c: string)
    requires LexLess(a, b) && LexLess(b, c)
    ensures LexLess(a, c)
  {
    if |a| > 0 && a[0] == b[0] && b[0] == c[0] {
      LexTransitive(a[1..], b[1..], c[1..]);
    }
  }

  lemma {:induction false} LexTotal(a: string, b: string)
    requires a != b
    ensures LexLess(a, b) || LexLess(b, a)
  {
    if |a| > 0 && |b| > 0 && a[0] == b[0] {
      assert a == [a[0]] + a[1..] && b == [b[0]] + b[1..];
      LexTotal(a[1..], b[1..]);
    }
  }

  lemma LexAsymmetric(a: string, b: string)
    requires LexLess(a, b)
    ensures !LexLess(b, a)
  {
  }
}
