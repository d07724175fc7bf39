/**
 * The string handling the readers rely on: Python's str.split() without
 * arguments, the substring test `t in s`, int() on a token, and the decimal
 * rendering of an integer that int() reads back.
 */
module Text {
  import opened Outcomes

  /** The separators of str.split() and str.strip(): ASCII whitespace, the
      information separators U+001C..U+001F, NEL, and the Unicode spaces and
      line and paragraph separators. */
  predicate IsSpace(c: char) {
    c == ' ' || ('\t' <= c <= '\r') || ('\U{1C}' <= c <= '\U{1F}') || c == '\U{85}' || c == '\U{A0}'
    || c == '\U{1680}' || ('\U{2000}' <= c <= '\U{200A}') || c == '\U{2028}' || c == '\U{2029}'
    || c == '\U{202F}' || c == '\U{205F}' || c == '\U{3000}'
  }

  /** A line that str.strip() reduces to "". */
  predicate Blank(s: string) {
    forall i :: 0 <= i < |s| ==> IsSpace(s[i])
  }

  /** What str.split() can yield: a non-empty run of non-separators. */
  predicate Token(w: string) {
    |w| > 0 && forall i :: 0 <= i < |w| ==> !IsSpace(w[i])
  }

  /** The longest prefix of `s` free of separators. */
  function Word(s: string): (w: string)
    ensures |w| <= |s| && w == s[..|w|]
    ensures forall i :: 0 <= i < |w| ==> !IsSpace(w[i])
    ensures |w| == |s| || IsSpace(s[|w|])
  {
    if |s| == 0 || IsSpace(s[0]) then "" else [s[0]] + Word(s[1..])
  }

  /** str.split(): the maximal separator-free runs of `s`, left to right. */
  function Split(s: string): (ws: seq<string>)
    ensures forall k :: 0 <= k < |ws| ==> Token(ws[k])
    decreases |s|
  {
    if |s| == 0 then []
    else if IsSpace(s[0]) then Split(s[1..])
    else
      var w := Word(s);
      [w] + Split(s[|w|..])
  }

  /** `t in s` for strings: `t` occurs in `s` as a contiguous substring. */
  predicate Contains(s: string, t: string) {
    exists i :: 0 <= i && i + |t| <= |s| && OccursAt(s, t, i)
  }

  predicate OccursAt(s: string, t: string, i: int)
    requires 0 <= i && i + |t| <= |s|
  {
    s[i..i + |t|] == t
  }

  /** The tokens joined by single spaces, the way a line of a table is written. */
  function Join(ws: seq<string>): string {
    if |ws| == 0 then "" else if |ws| == 1 then ws[0] else ws[0] + " " + Join(ws[1..])
  }

  predicate IsDigit(c: char) {
    '0' <= c <= '9'
  }

  predicate AllDigits(s: string) {
    forall i :: 0 <= i < |s| ==> IsDigit(s[i])
  }

  /** The value of a string of decimal digits, most significant first. */
  function DigitsValue(ds: string): nat
    requires AllDigits(ds)
  {
    if |ds| == 0 then 0 else DigitsValue(ds[..|ds| - 1]) * 10 + (ds[|ds| - 1] as int - '0' as int)
  }

  /** int(token): an optional sign followed by at least one decimal digit;
      None where Python raises ValueError. */
  function ParseInt(s: string): Option<int> {
    if |s| > 0 && (s[0] == '-' || s[0] == '+') then
      if |s| > 1 && AllDigits(s[1..]) then
        Some(if s[0] == '-' then -(DigitsValue(s[1..]) as int) else DigitsValue(s[1..]))
      else None
    else if |s| > 0 && AllDigits(s) then Some(DigitsValue(s))
    else None
  }

  function DigitChar(d: nat): (c: char)
    requires d < 10
    ensures IsDigit(c) && c as int - '0' as int == d
  {
    ('0' as int + d) as char
  }

  /** str(n) for a non-negative integer. */
  function NatToString(n: nat): (s: string)
    ensures |s| > 0 && AllDigits(s)
  {
    if n < 10 then [DigitChar(n)] else NatToString(n / 10) + [DigitChar(n % 10)]
  }

  /** str(k) for any integer. */
  function IntToString(k: int): string {
    if k < 0 then "-" + NatToString(-k) else NatToString(k)
  }

  lemma {:induction false} DigitsRoundTrip(n: nat)
    ensures DigitsValue(NatToString(n)) == n
  {
    if n >= 10 {
      var s := NatToString(n);
      assert s[..|s| - 1] == NatToString(n / 10);
      DigitsRoundTrip(n / 10);
    }
  }

  /** int(str(k)) == k. */
  lemma ParseIntRoundTrip(k: int)
    ensures ParseInt(IntToString(k)) == Some(k)
  {
    var s := IntToString(k);
    if k < 0 {
      var ds := NatToString(-k);
      assert s == "-" + ds;
      assert s[1..] == ds;
      DigitsRoundTrip(-k);
      assert s[0] == '-' && |s| > 1 && AllDigits(s[1..]);
    } else {
      var ds := NatToString(k);
      DigitsRoundTrip(k);
      assert s[0] != '-' && s[0] != '+' by { assert IsDigit(ds[0]); }
    }
  }

  /** The decimal rendering of an integer is a single token. */
  lemma IntToStringIsToken(k: int)
    ensures Token(IntToString(k))
  {
    var s := IntToString(k);
    if k < 0 {
      assert forall i :: 1 <= i < |s| ==> s[i] == NatToString(-k)[i - 1];
    }
  }

  /** A blank line splits into no tokens, and only a blank line does. */
  lemma {:induction false} SplitEmptyIffBlank(s: string)
    ensures Split(s) == [] <==> Blank(s)
    decreases |s|
  {
    if |s| > 0 {
      if IsSpace(s[0]) {
        SplitEmptyIffBlank(s[1..]);
        assert Blank(s) <==> Blank(s[1..]) by {
          if Blank(s[1..]) {
            forall i | 0 <= i < |s| ensures IsSpace(s[i]) {
              if i > 0 { assert s[i] == s[1..][i - 1]; }
            }
          }
        }
      }
    }
  }

  lemma {:induction false} WordOfTokenThenSpace(w: string, rest: string)
    requires Token(w)
    requires |rest| == 0 || IsSpace(rest[0])
    ensures Word(w + rest) == w
    decreases |w|
  {
    var s := w + rest;
    if |w| > 1 {
      assert s[1..] == w[1..] + rest;
      WordOfTokenThenSpace(w[1..], rest);
    } else {
      assert s[1..] == rest;
    }
  }

  /** Splitting a line built by Join gives back its tokens. */
  lemma {:induction false} SplitJoin(ws: seq<string>)
    requires forall k :: 0 <= k < |ws| ==> Token(ws[k])
    ensures Split(Join(ws)) == ws
    decreases |ws|
  {
    if |ws| == 1 {
      WordOfTokenThenSpace(ws[0], "");
      assert ws[0] + "" == ws[0];
      assert Join(ws)[|ws[0]|..] == "";
    } else if |ws| > 1 {
      var rest := " " + Join(ws[1..]);
      var s := Join(ws);
      assert s == ws[0] + rest;
      WordOfTokenThenSpace(ws[0], rest);
      assert s[|ws[0]|..] == rest;
      assert rest[1..] == Join(ws[1..]);
      SplitJoin(ws[1..]);
      assert Split(s) == [ws[0]] + Split(rest);
      assert Split(rest) == Split(Join(ws[1..]));
    }
  }
}
