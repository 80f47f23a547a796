/** Python's string methods: find, split, join, strip, replace, and decimal integers as text. */
module Text {
  import opened Wrappers

  // ---- Finding and splitting ----------------------------------------------

  predicate At(s: string, sub: string, i: nat) {
    i + |sub| <= |s| && s[i..i + |sub|] == sub
  }

  /** The first occurrence, or the length of s. */
  function Find(s: string, sub: string): (i: nat)
    requires sub != ""
    ensures i <= |s|
    ensures i < |s| ==> At(s, sub, i)
    ensures forall k :: 0 <= k < i ==> !At(s, sub, k)
  {
    FindFrom(s, sub, 0)
  }

  function FindFrom(s: string, sub: string, i: nat): (r: nat)
    requires sub != "" && i <= |s|
    ensures i <= r <= |s|
    ensures r < |s| ==> At(s, sub, r)
    ensures forall k :: i <= k < r ==> !At(s, sub, k)
    decreases |s| - i
  {
    if i == |s| || At(s, sub, i) then i else FindFrom(s, sub, i + 1)
  }

  predicate Contains(s: string, sub: string)
    requires sub != ""
  {
    Find(s, sub) < |s|
  }

  /** `s.split(sep)` */
  function Split(s: string, sep: string): (parts: seq<string>)
    requires sep != ""
    ensures |parts| >= 1
  {
    var i := Find(s, sep);
    if i == |s| then [s] else [s[..i]] + Split(s[i + |sep|..], sep)
  }

  /** `s.split(sep, 1)` */
  function SplitOnce(s: string, sep: string): (parts: seq<string>)
    requires sep != ""
    ensures 1 <= |parts| <= 2
  {
    var i := Find(s, sep);
    if i == |s| then [s] else [s[..i], s[i + |sep|..]]
  }

  /** `s.split(sep, 2)` */
  function SplitTwice(s: string, sep: string): (parts: seq<string>)
    requires sep != ""
    ensures 1 <= |parts| <= 3
  {
    var once := SplitOnce(s, sep);
    if |once| == 1 then once else [once[0]] + SplitOnce(once[1], sep)
  }

  /** `sep.join(parts)` */
  function Join(parts: seq<string>, sep: string): string {
    if parts == [] then ""
    else if |parts| == 1 then parts[0]
    else parts[0] + sep + Join(parts[1..], sep)
  }

  /** `s.replace(sub, with)` */
  function Replace(s: string, sub: string, with: string): string
    requires sub != ""
  {
    Join(Split(s, sub), with)
  }

  /** The separator is found where it was put. */
  lemma FindAfter(a: string, sep: string, rest: string)
    requires sep != "" && forall k :: 0 <= k < |a| ==> !At(a + sep, sep, k)
    ensures Find(a + sep + rest, sep) == |a| && At(a + sep + rest, sep, |a|)
  {
    var s := a + sep + rest;
    assert s[|a|..|a| + |sep|] == sep;
    assert At(s, sep, |a|);
    forall k | 0 <= k < |a|
      ensures !At(s, sep, k)
    {
      assert s[..|a| + |sep|] == a + sep;
      assert s[k..k + |sep|] == s[..|a| + |sep|][k..k + |sep|];
      assert !At(a + sep, sep, k);
    }
  }

  /** A separator of one character: none in a. */
  lemma FindAfterChar(a: string, c: char, rest: string)
    requires c !in a
    ensures Find(a + [c] + rest, [c]) == |a|
  {
    forall k | 0 <= k < |a|
      ensures !At(a + [c], [c], k)
    {
      assert (a + [c])[k] == a[k];
    }
    FindAfter(a, [c], rest);
  }

  lemma FindNone(s: string, sub: string)
    requires sub != "" && forall k :: 0 <= k < |s| ==> !At(s, sub, k)
    ensures Find(s, sub) == |s| && Split(s, sub) == [s] && SplitOnce(s, sub) == [s]
  {
  }

  lemma FindNoChar(s: string, c: char)
    requires c !in s
    ensures Find(s, [c]) == |s| && Split(s, [c]) == [s] && SplitOnce(s, [c]) == [s]
  {
    forall k | 0 <= k < |s|
      ensures !At(s, [c], k)
    {
      assert s[k] in s;
    }
    FindNone(s, [c]);
  }

  lemma SplitOnceAt(a: string, c: char, rest: string)
    requires c !in a
    ensures SplitOnce(a + [c] + rest, [c]) == [a, rest]
  {
    FindAfterChar(a, c, rest);
    var s := a + [c] + rest;
    assert s[..|a|] == a && s[|a| + 1..] == rest;
  }

  lemma SplitAt(a: string, sep: string, rest: string)
    requires sep != "" && forall k :: 0 <= k < |a| ==> !At(a + sep, sep, k)
    ensures Split(a + sep + rest, sep) == [a] + Split(rest, sep)
  {
    FindAfter(a, sep, rest);
    var s := a + sep + rest;
    assert s[..|a|] == a && s[|a| + |sep|..] == rest;
  }

  lemma SplitAtChar(a: string, c: char, rest: string)
    requires c !in a
    ensures Split(a + [c] + rest, [c]) == [a] + Split(rest, [c])
  {
    forall k | 0 <= k < |a|
      ensures !At(a + [c], [c], k)
    {
      assert (a + [c])[k] == a[k];
    }
    SplitAt(a, [c], rest);
  }

  /** Joining what splitting gave returns the text. */
  lemma {:induction false} JoinSplit(s: string, sep: string)
    requires sep != ""
    ensures Join(Split(s, sep), sep) == s
    decreases |s|
  {
    hide Find;
    var i := Find(s, sep);
    if i < |s| {
      JoinSplit(s[i + |sep|..], sep);
      var rest := Split(s[i + |sep|..], sep);
      assert Split(s, sep)[1..] == rest;
      assert s[..i] + s[i..i + |sep|] + s[i + |sep|..] == s;
    }
  }

  // ---- Stripping ----------------------------------------------------------

  /** What `strip()` removes */
  predicate White(c: char) {
    || '\U{9}' <= c <= '\U{D}' || '\U{1C}' <= c <= '\U{20}' || c == '\U{85}' || c == '\U{A0}' || c == '\U{1680}'
    || '\U{2000}' <= c <= '\U{200A}' || c == '\U{2028}' || c == '\U{2029}' || c == '\U{202F}' || c == '\U{205F}'
    || c == '\U{3000}'
  }

  function StripLeft(s: string, drop: char -> bool): string {
    if s != "" && drop(s[0]) then StripLeft(s[1..], drop) else s
  }

  function StripRight(s: string, drop: char -> bool): string {
    if s != "" && drop(s[|s| - 1]) then StripRight(s[..|s| - 1], drop) else s
  }

  function StripBy(s: string, drop: char -> bool): string {
    StripRight(StripLeft(s, drop), drop)
  }

  /** `s.strip()` */
  function Strip(s: string): string {
    StripBy(s, White)
  }

  predicate Quote(c: char) {
    c == '"'
  }

  /** `s.strip('"')` */
  function StripQuotes(s: string): string {
    StripBy(s, Quote)
  }

  /** Strip leaves it alone. */
  predicate Trimmed(s: string) {
    s == "" || (!White(s[0]) && !White(s[|s| - 1]))
  }

  lemma {:induction false} StripLeftAll(pad: string, s: string, drop: char -> bool)
    requires forall c :: c in pad ==> drop(c)
    requires s != "" ==> !drop(s[0])
    ensures StripLeft(pad + s, drop) == s
  {
    if pad != "" {
      assert (pad + s)[1..] == pad[1..] + s;
      StripLeftAll(pad[1..], s, drop);
    } else {
      assert pad + s == s;
    }
  }

  lemma {:induction false} StripRightAll(s: string, pad: string, drop: char -> bool)
    requires forall c :: c in pad ==> drop(c)
    requires s != "" ==> !drop(s[|s| - 1])
    ensures StripRight(s + pad, drop) == s
  {
    if pad != "" {
      assert (s + pad)[..|s + pad| - 1] == s + pad[..|pad| - 1];
      StripRightAll(s, pad[..|pad| - 1], drop);
    } else {
      assert s + pad == s;
    }
  }

  lemma StripPadded(left: string, s: string, right: string, drop: char -> bool)
    requires forall c :: c in left || c in right ==> drop(c)
    requires s != "" ==> !drop(s[0]) && !drop(s[|s| - 1])
    ensures StripBy(left + s + right, drop) == s
  {
    if s == "" {
      assert left + s + right == (left + right) + "";
      StripLeftAll(left + right, "", drop);
    } else {
      assert left + s + right == left + (s + right);
      StripLeftAll(left, s + right, drop);
      StripRightAll(s, right, drop);
    }
  }

  lemma StripTrimmed(s: string)
    requires Trimmed(s)
    ensures Strip(s) == s
    ensures Strip(" " + s) == s
  {
    StripPadded("", s, "", White);
    StripPadded(" ", s, "", White);
    assert "" + s + "" == s && " " + s + "" == " " + s;
  }

  // ---- Case ---------------------------------------------------------------

  /** `lower()`, for ASCII letters */
  function Lower(s: string): (r: string)
    ensures |r| == |s|
  {
    seq(|s|, i requires 0 <= i < |s| => if 'A' <= s[i] <= 'Z' then (s[i] as int + 32) as char else s[i])
  }

  // ---- Decimal integers ---------------------------------------------------

  function DigitChar(d: nat): (c: char)
    requires d < 10
    ensures '0' <= c <= '9'
  {
    (d + '0' as int) as char
  }

  /** `str(n)` for a natural number */
  function NatText(n: nat): (s: string)
    ensures s != "" && forall c :: c in s ==> '0' <= c <= '9'
  {
    (if n < 10 then "" else NatText(n / 10)) + [DigitChar(n % 10)]
  }

  /** `str(n)` */
  function IntText(n: int): (s: string)
    ensures s != "" && forall c :: c in s ==> '0' <= c <= '9' || c == '-'
  {
    if n < 0 then "-" + NatText(-n) else NatText(n)
  }

  /** Digits with single underscores between them */
  function DigitsValue(s: string, sum: nat, afterDigit: bool): Option<nat> {
    if s == "" then (if afterDigit then Some(sum) else None)
    else if '0' <= s[0] <= '9' then DigitsValue(s[1..], 10 * sum + (s[0] as int - '0' as int), true)
    else if s[0] == '_' && afterDigit then DigitsValue(s[1..], sum, false)
    else None
  }

  /** `int(s)`, for ASCII digits; None is its ValueError. */
  function ParseInt(s: string): Option<int> {
    var t := Strip(s);
    if t != "" && t[0] == '-' then
      match DigitsValue(t[1..], 0, false)
      case Some(n) => Some(0 - n)
      case None => None
    else
      match DigitsValue(if t != "" && t[0] == '+' then t[1..] else t, 0, false)
      case Some(n) => Some(n as int)
      case None => None
  }

  lemma {:induction false} DigitsValueAppend(s: string, c: char, sum: nat, start: bool)
    requires '0' <= c <= '9' && DigitsValue(s, sum, start).Some?
    ensures DigitsValue(s + [c], sum, start) == Some(10 * DigitsValue(s, sum, start).value + (c as int - '0' as int))
  {
    if s == "" {
      assert s + [c] == [c];
      assert [c][1..] == "";
    } else {
      assert (s + [c])[1..] == s[1..] + [c];
      if '0' <= s[0] <= '9' {
        DigitsValueAppend(s[1..], c, 10 * sum + (s[0] as int - '0' as int), true);
      } else {
        DigitsValueAppend(s[1..], c, sum, false);
      }
    }
  }

  lemma {:induction false} NatTextValue(n: nat)
    ensures DigitsValue(NatText(n), 0, false) == Some(n)
  {
    var c := DigitChar(n % 10);
    if n >= 10 {
      NatTextValue(n / 10);
      DigitsValueAppend(NatText(n / 10), c, 0, false);
    } else {
      assert NatText(n) == [c];
      assert DigitsValue([c][1..], n, true) == Some(n);
    }
  }

  /** `int(str(n)) == n` */
  lemma ParseIntText(n: int)
    ensures ParseInt(IntText(n)) == Some(n)
  {
    var s := IntText(n);
    NatTextValue(if n < 0 then -n else n);
    forall c | '0' <= c <= '9' || c == '-'
      ensures !White(c)
    {
    }
    StripTrimmed(s);
  }
}
