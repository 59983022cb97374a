/**
 * The few Python string built-ins the scanner relies on, restricted to ASCII:
 * `str.split` on one character, `sep.join`, `str.isdigit`, `str.strip`,
 * `str.upper`, `str(int)` and `int(str)` in base 10.
 */
module Strings {
  import opened Wrappers

  // ---------------------------------------------------------------------------
  // Splitting and joining
  // ---------------------------------------------------------------------------

  /** `s.split(c)`: the pieces between occurrences of `c`; never empty. */
  function Split(s: string, c: char): (pieces: seq<string>)
    ensures |pieces| >= 1
    ensures forall k :: 0 <= k < |pieces| ==> c !in pieces[k]
    decreases |s|
  {
    if |s| == 0 then [""]
    else
      var rest := Split(s[1..], c);
      if s[0] == c then [""] + rest
      else [[s[0]] + rest[0]] + rest[1..]
  }

  /** `sep.join(xs)`. */
  function Join(xs: seq<string>, sep: string): string
    decreases |xs|
  {
    if |xs| == 0 then ""
    else if |xs| == 1 then xs[0]
    else xs[0] + sep + Join(xs[1..], sep)
  }

  lemma {:induction false} SplitWithout(s: string, c: char)
    requires c !in s
    ensures Split(s, c) == [s]
    decreases |s|
  {
    if |s| > 0 {
      SplitWithout(s[1..], c);
      assert [s[0]] + s[1..] == s;
    }
  }

  /** Splitting at one occurrence of the separator splits the two sides independently. */
  lemma {:induction false} SplitAt(a: string, b: string, c: char)
    ensures Split(a + [c] + b, c) == Split(a, c) + Split(b, c)
    decreases |a|
  {
    var s := a + [c] + b;
    if |a| == 0 {
      assert s[1..] == b;
    } else {
      assert s[1..] == a[1..] + [c] + b;
      SplitAt(a[1..], b, c);
    }
  }

  /** Appending a character other than the separator only extends the last piece. */
  lemma {:induction false} SplitAppend(s: string, d: char, c: char)
    requires d != c
    ensures var p := Split(s, c);
            Split(s + [d], c) == p[..|p| - 1] + [p[|p| - 1] + [d]]
    decreases |s|
  {
    if |s| == 0 {
      var t := s + [d];
      assert t[1..] == [];
      assert Split(t[1..], c) == [""];
      assert Split(t, c) == [[d] + ""];
      assert [d] + "" == [d];
      var p := Split(s, c);
      assert p == [""];
      assert p[..|p| - 1] == [];
      assert p[|p| - 1] + [d] == [d];
    } else {
      SplitAppend(s[1..], d, c);
      if s[0] == c {
        ExtendsLastSeparator(s, d, c);
      } else {
        ExtendsLastLetter(s, d, c);
      }
    }
  }

  /** The property of `SplitAppend`, for one string. */
  ghost predicate ExtendsLast(s: string, d: char, c: char)
  {
    var p := Split(s, c);
    Split(s + [d], c) == p[..|p| - 1] + [p[|p| - 1] + [d]]
  }

  lemma ExtendsLastSeparator(s: string, d: char, c: char)
    requires |s| > 0 && s[0] == c && d != c && ExtendsLast(s[1..], d, c)
    ensures ExtendsLast(s, d, c)
  {
    var t := s + [d];
    assert t[1..] == s[1..] + [d];
    var p, q := Split(s, c), Split(s[1..], c);
    assert p == [""] + q;
    assert p[..|p| - 1] == [""] + q[..|q| - 1];
  }

  lemma ExtendsLastLetter(s: string, d: char, c: char)
    requires |s| > 0 && s[0] != c && d != c && ExtendsLast(s[1..], d, c)
    ensures ExtendsLast(s, d, c)
  {
    var t := s + [d];
    assert t[1..] == s[1..] + [d];
    var p, q := Split(s, c), Split(s[1..], c);
    var n := |q|;
    if n == 1 {
      assert p == [[s[0]] + q[0]];
      assert Split(t[1..], c) == [q[0] + [d]];
      assert [s[0]] + (q[0] + [d]) == ([s[0]] + q[0]) + [d];
    } else {
      assert p == [[s[0]] + q[0]] + q[1..];
      assert p[..|p| - 1] == [[s[0]] + q[0]] + q[1..n - 1];
      assert Split(t, c) == [[s[0]] + q[0]] + (q[1..n - 1] + [q[n - 1] + [d]]);
    }
  }

  /** A character other than the separator that no piece contains does not occur in `s`. */
  lemma {:induction false} SplitLacks(s: string, c: char, d: char)
    requires d != c
    requires forall k :: 0 <= k < |Split(s, c)| ==> d !in Split(s, c)[k]
    ensures d !in s
    decreases |s|
  {
    if |s| > 0 {
      var p, rest := Split(s, c), Split(s[1..], c);
      if s[0] == c {
        assert forall k :: 0 <= k < |rest| ==> rest[k] == p[k + 1];
      } else {
        assert p[0] == [s[0]] + rest[0];
        assert forall k :: 1 <= k < |rest| ==> rest[k] == p[k];
      }
      SplitLacks(s[1..], c, d);
      assert s == [s[0]] + s[1..];
    }
  }

  lemma JoinCons(x: string, xs: seq<string>, sep: string)
    requires |xs| > 0
    ensures Join([x] + xs, sep) == x + sep + Join(xs, sep)
  {
    assert ([x] + xs)[1..] == xs;
  }

  /** `sep.join(s.split(sep)) == s`. */
  lemma {:induction false} JoinSplit(s: string, c: char)
    ensures Join(Split(s, c), [c]) == s
    decreases |s|
  {
    if |s| > 0 {
      var rest := Split(s[1..], c);
      JoinSplit(s[1..], c);
      if s[0] == c {
        JoinCons("", rest, [c]);
      } else {
        var p := Split(s, c);
        if |rest| == 1 {
          assert p == [[s[0]] + rest[0]];
        } else {
          assert p == [[s[0]] + rest[0]] + rest[1..];
          JoinCons([s[0]] + rest[0], rest[1..], [c]);
          JoinCons(rest[0], rest[1..], [c]);
          assert [rest[0]] + rest[1..] == rest;
        }
      }
    }
  }

  /** Joining pieces free of the separator and splitting again gives the pieces back. */
  lemma {:induction false} SplitJoin(xs: seq<string>, c: char)
    requires |xs| > 0
    requires forall k :: 0 <= k < |xs| ==> c !in xs[k]
    ensures Split(Join(xs, [c]), c) == xs
    decreases |xs|
  {
    if |xs| == 1 {
      SplitWithout(xs[0], c);
    } else {
      SplitJoin(xs[1..], c);
      SplitAt(xs[0], Join(xs[1..], [c]), c);
      SplitWithout(xs[0], c);
      assert [xs[0]] + xs[1..] == xs;
    }
  }

  // ---------------------------------------------------------------------------
  // Digits and decimal text
  // ---------------------------------------------------------------------------

  predicate IsDigit(c: char) { '0' <= c <= '9' }

  predicate AllDigits(s: string) { forall i :: 0 <= i < |s| ==> IsDigit(s[i]) }

  /** `s.isdigit()` for ASCII text: non-empty and every character a decimal digit. */
  predicate IsDigits(s: string) { |s| > 0 && AllDigits(s) }

  /** The value of a run of decimal digits; leading zeros are allowed, as in `int("007")`. */
  function DigitsValue(s: string): nat
    requires AllDigits(s)
    decreases |s|
  {
    if |s| == 0 then 0
    else 10 * DigitsValue(s[..|s| - 1]) + (s[|s| - 1] as int - '0' as int)
  }

  function DigitChar(d: nat): (c: char)
    requires d < 10
    ensures IsDigit(c)
  {
    ('0' as int + d) as char
  }

  /** `str(n)` for a natural number: canonical decimal, no leading zeros. */
  function NatToString(n: nat): (s: string)
    ensures IsDigits(s)
    ensures s[0] == '0' ==> n == 0 && |s| == 1
    decreases n
  {
    if n < 10 then [DigitChar(n)] else NatToString(n / 10) + [DigitChar(n % 10)]
  }

  /** `str(i)` for any integer. */
  function IntToString(i: int): string
  {
    if i < 0 then "-" + NatToString(-i) else NatToString(i)
  }

  /** Reading back the decimal text of `n` gives `n`. */
  lemma {:induction false} NatToStringValue(n: nat)
    ensures DigitsValue(NatToString(n)) == n
    decreases n
  {
    if n >= 10 {
      NatToStringValue(n / 10);
      var s := NatToString(n);
      assert s[..|s| - 1] == NatToString(n / 10);
    }
  }

  lemma NatToStringShort(n: nat)
    requires n < 1000
    ensures |NatToString(n)| <= 3
  {
    if n >= 10 {
      assert |NatToString(n / 10)| <= 2 by {
        if n / 10 >= 10 { assert |NatToString(n / 100)| == 1; }
      }
    }
  }

  // ---------------------------------------------------------------------------
  // Python's int() on text
  // ---------------------------------------------------------------------------

  /** The ASCII characters for which `str.isspace()` holds. */
  predicate IsSpace(c: char) { c == ' ' || 9 <= c as int <= 13 || 28 <= c as int <= 31 }

  function TrimStart(s: string): string
    decreases |s|
  {
    if |s| > 0 && IsSpace(s[0]) then TrimStart(s[1..]) else s
  }

  function TrimEnd(s: string): string
    decreases |s|
  {
    if |s| > 0 && IsSpace(s[|s| - 1]) then TrimEnd(s[..|s| - 1]) else s
  }

  /** `s.strip()`. */
  function Strip(s: string): string { TrimEnd(TrimStart(s)) }

  /** The body of a base-10 integer literal: digits, with single underscores between digits. */
  predicate IsDecimalBody(s: string)
  {
    && |s| > 0 && IsDigit(s[0]) && IsDigit(s[|s| - 1])
    && (forall i :: 0 <= i < |s| ==> IsDigit(s[i]) || s[i] == '_')
    && (forall i :: 0 <= i < |s| - 1 ==> s[i] != '_' || s[i + 1] != '_')
  }

  function DropUnderscores(s: string): (r: string)
    ensures (forall i :: 0 <= i < |s| ==> IsDigit(s[i]) || s[i] == '_') ==> AllDigits(r)
    ensures AllDigits(s) ==> r == s
    decreases |s|
  {
    if |s| == 0 then ""
    else (if s[0] == '_' then "" else [s[0]]) + DropUnderscores(s[1..])
  }

  /**
   * `int(s)`: surrounding white space is ignored, an optional sign is allowed,
   * and the rest must be a decimal literal body; anything else raises (None).
   */
  function ParseInt(s: string): Option<int>
  {
    var t := Strip(s);
    if |t| > 0 && (t[0] == '+' || t[0] == '-') then
      if IsDecimalBody(t[1..]) then
        var v: int := DigitsValue(DropUnderscores(t[1..]));
        Some(if t[0] == '-' then -v else v)
      else None
    else if IsDecimalBody(t) then Some(DigitsValue(DropUnderscores(t)))
    else None
  }

  /** `int` accepts a plain run of digits and reads its value. */
  lemma ParseIntDigits(s: string)
    requires IsDigits(s)
    ensures ParseInt(s) == Some(DigitsValue(s))
  {
    assert TrimStart(s) == s;
    assert TrimEnd(s) == s;
  }

  /** A final newline after the digits is white space to `int`. */
  lemma ParseIntDigitsNewline(s: string)
    requires IsDigits(s)
    ensures ParseInt(s + "\n") == Some(DigitsValue(s))
  {
    var t := s + "\n";
    assert TrimStart(t) == t;
    assert t[..|t| - 1] == s;
    assert TrimEnd(t) == TrimEnd(s) == s;
    ParseIntDigits(s);
  }

  /** `int(str(i)) == i` for every integer. */
  lemma ParseIntRoundTrip(i: int)
    ensures ParseInt(IntToString(i)) == Some(i)
  {
    var n: nat := if i < 0 then -i else i;
    var d := NatToString(n);
    NatToStringValue(n);
    if i < 0 {
      ParseIntNegative(d);
    } else {
      ParseIntDigits(d);
    }
  }

  lemma StripUnspaced(t: string)
    requires |t| > 0 && !IsSpace(t[0]) && !IsSpace(t[|t| - 1])
    ensures Strip(t) == t
  {
    assert TrimStart(t) == t;
  }

  /** A run of digits is a decimal literal body without underscores. */
  lemma DigitsBody(d: string)
    requires IsDigits(d)
    ensures IsDecimalBody(d) && DropUnderscores(d) == d
  {
  }

  /** `int` accepts a minus sign followed by a run of digits. */
  lemma ParseIntNegative(d: string)
    requires IsDigits(d)
    ensures ParseInt("-" + d) == Some(-(DigitsValue(d) as int))
  {
    var t := "-" + d;
    assert t[1..] == d;
    StripUnspaced(t);
    DigitsBody(d);
  }

  /** `int("")` raises: an empty piece of a port list is an error, not a skipped entry. */
  lemma ParseIntEmpty()
    ensures ParseInt("") == None
  {
  }

  // ---------------------------------------------------------------------------
  // Case and character removal
  // ---------------------------------------------------------------------------

  function UpperChar(c: char): char
  {
    if 'a' <= c <= 'z' then (c as int - 32) as char else c
  }

  /** `s.upper()` for ASCII text. */
  function Upper(s: string): (u: string)
    ensures |u| == |s|
  {
    seq(|s|, i requires 0 <= i < |s| => UpperChar(s[i]))
  }

  /** `s.replace(c, '')`. */
  function Remove(s: string, c: char): (r: string)
    ensures c !in r
    ensures forall i :: 0 <= i < |r| ==> r[i] in s
    decreases |s|
  {
    if |s| == 0 then "" else (if s[0] == c then "" else [s[0]]) + Remove(s[1..], c)
  }
}
