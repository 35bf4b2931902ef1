/** The client's small formatters: the `mm:ss` clock, thousands separators,
    and the client copy of `sanitizeFileName`. */
module Formatters {

  import opened Wrappers
  import opened JsText
  import opened JsValue
  import opened Sanitize

  // ----- formatTime -----

  /** `Math.trunc`. */
  function Trunc(y: real): int {
    if y >= 0.0 then y.Floor else -((-y).Floor)
  }

  /** JavaScript's `%` on numbers: the remainder takes the sign of the
      dividend. */
  function JsMod(x: real, m: real): real
    requires m != 0.0
  {
    x - m * (Trunc(x / m) as real)
  }

  /** `formatTime(seconds)`; `None` is NaN. */
  function FormatTime(seconds: Option<real>): string {
    match seconds
    case None => "00:00"
    case Some(x) =>
      var mins := (x / 60.0).Floor;
      var secs := JsMod(x, 60.0).Floor;
      PadStart(IntToString(mins), 2, '0') + ":" + PadStart(IntToString(secs), 2, '0')
  }

  /** Reading a `mm:ss` clock back as seconds. */
  function ClockSeconds(s: string): nat
    requires |s| == 5 && AllDigits(s[..2]) && AllDigits(s[3..])
  {
    60 * ParseDigits(s[..2]) + ParseDigits(s[3..])
  }

  /** Below 100 minutes the clock is `mm:ss` with two-digit fields, the
      seconds field is below 60, and it reads back as the whole seconds. */
  lemma FormatTimeRoundTrip(x: real)
    requires 0.0 <= x < 6000.0
    ensures var s := FormatTime(Some(x));
      && |s| == 5 && s[2] == ':' && AllDigits(s[..2]) && AllDigits(s[3..])
      && ParseDigits(s[3..]) < 60
      && ClockSeconds(s) == x.Floor
  {
    var mins, secs := (x / 60.0).Floor, JsMod(x, 60.0).Floor;
    ClockFields(x);
    TwoDigits(mins);
    TwoDigits(secs);
    var s := FormatTime(Some(x));
    var a, b := PadStart(IntToString(mins), 2, '0'), PadStart(IntToString(secs), 2, '0');
    assert s == a + ":" + b;
    assert s[..2] == a && s[3..] == b;
  }

  /** The minutes and seconds fields of a time below 100 minutes. */
  lemma ClockFields(x: real)
    requires 0.0 <= x < 6000.0
    ensures var mins, secs := (x / 60.0).Floor, JsMod(x, 60.0).Floor;
      0 <= mins < 100 && 0 <= secs < 60 && 60 * mins + secs == x.Floor
  {
    var mins := (x / 60.0).Floor;
    var f := x.Floor;
    assert 0 <= mins < 100;
    assert 60 * mins <= f < 60 * mins + 60;
    assert Trunc(x / 60.0) == mins;
    var r := JsMod(x, 60.0);
    assert r == x - 60.0 * (mins as real);
    assert (f - 60 * mins) as real <= r < (f - 60 * mins + 1) as real;
  }

  /** A number below 100, padded to two digits, reads back as itself. */
  lemma TwoDigits(n: int)
    requires 0 <= n < 100
    ensures var p := PadStart(IntToString(n), 2, '0');
      |p| == 2 && AllDigits(p) && ParseDigits(p) == n
  {
    var d := NatToString(n);
    ParseNatToString(n);
    NatToStringLength(n, 2);
    if |d| == 1 {
      var p := PadStart(d, 2, '0');
      assert p == ['0'] + d;
      assert p[..1] == ['0'] && p[..1][..0] == [];
      assert d[..0] == [];
    }
  }

  /** NaN shows as "00:00". */
  lemma FormatTimeNaN()
    ensures FormatTime(None) == "00:00"
  {
  }

  /** A negative time shows both fields negative: `Math.floor` rounds the
      minutes down while `%` keeps the sign of the seconds. */
  lemma FormatTimeNegative()
    ensures FormatTime(Some(-30.0)) == "-1:-30"
  {
    assert (-30.0 / 60.0).Floor == -1;
    assert Trunc(-30.0 / 60.0) == 0;
    assert JsMod(-30.0, 60.0).Floor == -30;
    assert NatToString(1) == "1";
    assert NatToString(30) == "30" by {
      assert NatToString(3) == "3";
    }
  }

  // ----- formatNumber -----

  /** A character `\w` matches. */
  predicate IsWordChar(c: char) {
    ('a' <= c <= 'z') || ('A' <= c <= 'Z') || IsDigit(c) || c == '_'
  }

  /** The number of consecutive digits starting at `i`. */
  function DigitRun(s: string, i: nat): (r: nat)
    ensures i + r <= |s| || r == 0
    decreases |s| - i
  {
    if i >= |s| || !IsDigit(s[i]) then 0 else 1 + DigitRun(s, i + 1)
  }

  /** `/\B(?=(\d{3})+(?!\d))/` matches at `i` (just before `s[i]`): not a
      word boundary, and the digits from `i` to the end of their run come in
      whole groups of three. */
  predicate CommaAt(s: string, i: nat)
    requires i < |s|
  {
    i > 0 && IsWordChar(s[i - 1]) && DigitRun(s, i) >= 3 && DigitRun(s, i) % 3 == 0
  }

  /** `s[..j]` with a comma before every position where the regex matches;
      the global replace visits every position once. */
  function Commas(s: string, j: nat): string
    requires j <= |s|
  {
    if j == 0 then []
    else Commas(s, j - 1) + (if CommaAt(s, j - 1) then "," else "") + [s[j - 1]]
  }

  /** `num.toString().replace(/\B(?=(\d{3})+(?!\d))/g, ',')` on an integer. */
  function FormatNumber(num: int): string {
    var s := IntToString(num);
    Commas(s, |s|)
  }

  /** The reference grouping: a comma before each group of three digits,
      counted from the right. */
  function GroupDigits(d: string): string {
    if |d| <= 3 then d else GroupDigits(d[..|d| - 3]) + "," + d[|d| - 3..]
  }

  function RemoveCommas(s: string): string {
    if s == [] then [] else RemoveCommas(s[..|s| - 1]) + (if s[|s| - 1] == ',' then "" else [s[|s| - 1]])
  }

  /** The digits of `num` grouped in threes from the right, after the sign;
      no comma follows the minus sign. */
  lemma FormatNumberSpec(num: int)
    ensures num >= 0 ==> FormatNumber(num) == GroupDigits(NatToString(num))
    ensures num < 0 ==> FormatNumber(num) == "-" + GroupDigits(NatToString(-num))
  {
    if num >= 0 {
      CommasGroup("", NatToString(num));
      assert "" + NatToString(num) == NatToString(num);
    } else {
      CommasGroup("-", NatToString(-num));
    }
  }

  /** With an empty or minus-sign prefix followed by digits, the replace
      groups the digits. */
  lemma {:induction false} CommasGroup(p: string, d: string)
    requires p == "" || p == "-"
    requires d != [] && AllDigits(d)
    ensures Commas(p + d, |p + d|) == p + GroupDigits(d)
    decreases |d|
  {
    if |d| <= 3 {
      ShortNumber(p, d);
    } else {
      var d' := d[..|d| - 3];
      CommasGroup(p, d');
      CommasSplit(p, d);
      assert p + GroupDigits(d) == (p + GroupDigits(d')) + "," + d[|d| - 3..];
    }
  }

  /** The commas of a number of more than three digits are those of the
      number without its last three digits, a comma, and those digits. */
  lemma CommasSplit(p: string, d: string)
    requires p == "" || p == "-"
    requires |d| > 3 && AllDigits(d)
    ensures Commas(p + d, |p + d|) == Commas(p + d[..|d| - 3], |p + d[..|d| - 3]|) + "," + d[|d| - 3..]
  {
    var s, d' := p + d, d[..|d| - 3];
    var s' := p + d';
    var n := |s|;
    assert Commas(s, n - 3) == Commas(s', |s'|) by {
      RunToEnd(p, d);
      RunToEnd(p, d');
      assert s[..|s'|] == s';
      CommasPrefix(s, s', |s'|, |p|);
    }
    assert Commas(s, n) == Commas(s, n - 3) + "," + d[|d| - 3..] by {
      RunToEnd(p, d);
      assert s[n - 4] == d[|d| - 4];
      LastGroup(s);
      assert s[n - 3..] == d[|d| - 3..];
    }
  }

  /** Three digits or fewer get no comma. */
  lemma ShortNumber(p: string, d: string)
    requires p == "" || p == "-"
    requires AllDigits(d) && |d| <= 3
    ensures Commas(p + d, |p + d|) == p + d
  {
    var s := p + d;
    RunToEnd(p, d);
    NoCommas(s, |s|, |p|);
    assert s[..|s|] == s;
  }

  /** The last three digits get a comma in front of them. */
  lemma LastGroup(s: string)
    requires |s| >= 4 && IsWordChar(s[|s| - 4])
    requires DigitRun(s, |s| - 3) == 3 && DigitRun(s, |s| - 2) == 2 && DigitRun(s, |s| - 1) == 1
    ensures Commas(s, |s|) == Commas(s, |s| - 3) + "," + s[|s| - 3..]
  {
    var n := |s|;
    assert CommaAt(s, n - 3) && !CommaAt(s, n - 2) && !CommaAt(s, n - 1);
    assert Commas(s, n - 2) == Commas(s, n - 3) + "," + [s[n - 3]];
    assert Commas(s, n - 1) == Commas(s, n - 2) + [s[n - 2]];
    assert s[n - 3..] == [s[n - 3], s[n - 2], s[n - 1]];
  }

  /** In the prefix there are no digits; in the digits, the run reaches the end. */
  lemma {:induction false} RunToEnd(p: string, d: string)
    requires p == "" || p == "-"
    requires AllDigits(d)
    ensures forall k :: 0 <= k < |p| ==> DigitRun(p + d, k) == 0
    ensures forall k :: |p| <= k <= |p + d| ==> DigitRun(p + d, k) == |p + d| - k
  {
    var s := p + d;
    var k := |s|;
    while k > |p|
      invariant |p| <= k <= |s|
      invariant forall m :: k <= m <= |s| ==> DigitRun(s, m) == |s| - m
    {
      k := k - 1;
      assert s[k] == d[k - |p|];
    }
    if p == "-" {
      assert s[0] == '-';
    }
  }

  /** With no digit run of three or more after the prefix, nothing is
      inserted. */
  lemma {:induction false} NoCommas(s: string, j: nat, start: nat)
    requires j <= |s| && start <= 1 && start <= |s|
    requires forall k :: 0 <= k < start ==> !IsWordChar(s[k]) && DigitRun(s, k) == 0
    requires forall k :: start <= k < |s| ==> DigitRun(s, k) == |s| - k
    requires |s| - start <= 3
    ensures Commas(s, j) == s[..j]
    decreases j
  {
    if j > 0 {
      NoCommas(s, j - 1, start);
      assert !CommaAt(s, j - 1);
      assert s[..j] == s[..j - 1] + [s[j - 1]];
    }
  }

  /** Cutting the last three digits leaves every earlier decision alone:
      each run shrinks by three, which keeps it a multiple of three or not. */
  lemma {:induction false} CommasPrefix(s: string, s': string, j: nat, start: nat)
    requires |s'| + 3 == |s| && s[..|s'|] == s' && j <= |s'|
    requires forall k :: 0 <= k < start ==> DigitRun(s, k) == 0 && DigitRun(s', k) == 0
    requires forall k :: start <= k <= |s| ==> DigitRun(s, k) == |s| - k
    requires forall k :: start <= k <= |s'| ==> DigitRun(s', k) == |s'| - k
    ensures Commas(s, j) == Commas(s', j)
    decreases j
  {
    if j > 0 {
      CommasPrefix(s, s', j - 1, start);
      assert s[j - 1] == s'[j - 1];
      assert j - 1 > 0 ==> s[j - 2] == s'[j - 2];
      assert CommaAt(s, j - 1) == CommaAt(s', j - 1);
    }
  }

  /** Removing the commas gives the digits back. */
  lemma {:induction false} GroupDigitsRoundTrip(d: string)
    requires AllDigits(d)
    ensures RemoveCommas(GroupDigits(d)) == d
    decreases |d|
  {
    if |d| <= 3 {
      NoCommaDigits(d);
    } else {
      var d' := d[..|d| - 3];
      GroupDigitsRoundTrip(d');
      RemoveCommasAppend(GroupDigits(d') + ",", d[|d| - 3..]);
      RemoveCommasAppend(GroupDigits(d'), ",");
      NoCommaDigits(d[|d| - 3..]);
      assert [','][..0] == [];
      assert d' + d[|d| - 3..] == d;
    }
  }

  /** One group between commas: no more than three digits, never empty,
      and a comma count of a third. */
  lemma {:induction false} GroupDigitsShape(d: string)
    requires AllDigits(d) && d != []
    ensures var g := GroupDigits(d);
      && |g| == |d| + (|d| - 1) / 3
      && g[0] != ',' && g[|g| - 1] != ','
    decreases |d|
  {
    if |d| > 3 {
      GroupDigitsShape(d[..|d| - 3]);
    }
  }

  lemma {:induction false} NoCommaDigits(d: string)
    requires AllDigits(d)
    ensures RemoveCommas(d) == d
    decreases |d|
  {
    if d != [] {
      NoCommaDigits(d[..|d| - 1]);
      assert d == d[..|d| - 1] + [d[|d| - 1]];
    }
  }

  lemma {:induction false} RemoveCommasAppend(a: string, b: string)
    ensures RemoveCommas(a + b) == RemoveCommas(a) + RemoveCommas(b)
    decreases |b|
  {
    if b == [] {
      assert a + b == a;
    } else {
      var b' := b[..|b| - 1];
      RemoveCommasAppend(a, b');
      assert (a + b)[..|a + b| - 1] == a + b';
    }
  }

  /** 1234567 shows as "1,234,567". */
  lemma FormatNumberExample()
    ensures GroupDigits("1234567") == "1,234,567"
  {
    assert "1234567"[..4] == "1234";
    assert "1234"[..1] == "1";
  }

  // ----- sanitizeFileName (client copy) -----

  /** The client's `sanitizeFileName(fileName)` on any value: falsy values
      give the placeholder, strings are sanitised like on the server, and a
      truthy non-string has no `replace` and throws. */
  function ClientFileName(fileName: Value): (r: Result<string, string>)
    ensures !Truthy(fileName) ==> r == Success(Unknown)
    ensures fileName.Str? ==> r == Success(SanitizeFileName(fileName.s))
    ensures Truthy(fileName) && !fileName.Str? ==> r.Failure?
  {
    if !Truthy(fileName) then Success(Unknown)
    else if fileName.Str? then Success(SanitizeFileName(fileName.s))
    else Failure("fileName.replace is not a function")
  }

  /** The client copy agrees with the server's on strings, so its results
      are safe, trimmed, non-empty and stable under another pass. */
  lemma ClientFileNameSafe(fileName: Value)
    requires ClientFileName(fileName).Success?
    ensures var r := ClientFileName(fileName).value;
      && r != [] && IsSafe(r) && IsTrimmed(r)
      && ClientFileName(Str(r)) == Success(r)
  {
    UnknownIsSanitised();
    if fileName.Str? {
      SanitizeIsSafe(fileName.s);
      SanitizeIdempotent(fileName.s);
    }
  }

  /** The placeholder is its own sanitisation. */
  lemma UnknownIsSanitised()
    ensures Unknown != [] && IsSafe(Unknown) && IsTrimmed(Unknown)
    ensures SanitizeFileName(Unknown) == Unknown
  {
    assert !IsIllegal(Unknown[0]) && !IsIllegal(Unknown[1]);
    assert !IsJsWhitespace(Unknown[0]) && !IsJsWhitespace(Unknown[1]);
    SanitizeFixedPoint(Unknown);
  }
}
