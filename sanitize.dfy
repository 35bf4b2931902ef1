/** `sanitizeFileName`, defined identically in storage-utils.js and
    public/app.js: replace every character Windows or Linux file systems
    refuse by '_', trim, and fall back to the placeholder "未知" ("unknown"). */
module Sanitize {

  import opened JsText

  /** The placeholder "未知" returned for falsy or empty results. */
  const Unknown: string := "未知"

  /** The character class `[<>:"/\\|?*\x00-\x1f]`. */
  predicate IsIllegal(c: char) {
    c == '<' || c == '>' || c == ':' || c == '"' || c == '/' || c == '\\'
    || c == '|' || c == '?' || c == '*' || c as int < 0x20
  }

  predicate IsSafe(s: string) {
    forall i :: 0 <= i < |s| ==> !IsIllegal(s[i])
  }

  /** `fileName.replace(/[...]/g, '_')`. */
  function ReplaceIllegal(s: string): (r: string)
    ensures |r| == |s| && IsSafe(r)
    ensures forall i :: 0 <= i < |s| ==> r[i] == if IsIllegal(s[i]) then '_' else s[i]
  {
    if s == [] then [] else [if IsIllegal(s[0]) then '_' else s[0]] + ReplaceIllegal(s[1..])
  }

  /** `sanitizeFileName(fileName)`; a null or undefined argument is the
      empty string here, since the source only tests it for falsiness. */
  function SanitizeFileName(fileName: string): string {
    if fileName == [] then Unknown
    else
      var t := Trim(ReplaceIllegal(fileName));
      if t == [] then Unknown else t
  }

  /** Sanitisation is total and safe: the result is never empty, contains
      no refused character, and has no whitespace at either end. */
  lemma SanitizeIsSafe(fileName: string)
    ensures var r := SanitizeFileName(fileName);
      r != [] && IsSafe(r) && IsTrimmed(r)
  {
    var t := Trim(ReplaceIllegal(fileName));
    TrimSpec(ReplaceIllegal(fileName));
    assert forall i :: 0 <= i < |t| ==> t[i] == ReplaceIllegal(fileName)[TrimOffset(ReplaceIllegal(fileName)) + i];
  }

  /** A string that is already safe, trimmed and non-empty is its own
      sanitisation. */
  lemma SanitizeFixedPoint(s: string)
    requires s != [] && IsSafe(s) && IsTrimmed(s)
    ensures SanitizeFileName(s) == s
  {
    assert ReplaceIllegal(s) == s;
    TrimOfTrimmed(s);
  }

  /** Sanitisation is idempotent. */
  lemma SanitizeIdempotent(fileName: string)
    ensures SanitizeFileName(SanitizeFileName(fileName)) == SanitizeFileName(fileName)
  {
    SanitizeIsSafe(fileName);
    SanitizeFixedPoint(SanitizeFileName(fileName));
  }

  /** The placeholder comes back exactly when the input is falsy or its
      cleaned, trimmed form is empty or is the placeholder itself. */
  lemma SanitizeUnknown(fileName: string)
    ensures SanitizeFileName(fileName) == Unknown <==>
      fileName == [] || Trim(ReplaceIllegal(fileName)) in {[], Unknown}
  {
  }

  /** The cleaned form trims to nothing exactly when every character is
      whitespace that is not a control character: a tab or a newline is
      turned into '_' before `trim` runs, so "\t" sanitises to "_". */
  lemma SanitizeBlank(fileName: string)
    ensures Trim(ReplaceIllegal(fileName)) == [] <==>
      forall i :: 0 <= i < |fileName| ==> IsJsWhitespace(fileName[i]) && fileName[i] as int >= 0x20
  {
    var c := ReplaceIllegal(fileName);
    TrimEmpty(c);
    forall i | 0 <= i < |c|
      ensures IsJsWhitespace(c[i]) <==> IsJsWhitespace(fileName[i]) && fileName[i] as int >= 0x20
    {
      CleanCharWhitespace(fileName[i]);
    }
  }

  /** One character: after cleaning it is whitespace exactly when it was
      whitespace and not a control character. */
  lemma CleanCharWhitespace(c: char)
    ensures IsJsWhitespace(if IsIllegal(c) then '_' else c) <==> IsJsWhitespace(c) && c as int >= 0x20
  {
  }

  /** A slash between two ordinary characters becomes '_'. */
  lemma SanitizeExample(a: char, b: char)
    requires !IsIllegal(a) && !IsIllegal(b) && !IsJsWhitespace(a) && !IsJsWhitespace(b)
    ensures SanitizeFileName([a, '/', b]) == [a, '_', b]
  {
    var r := ReplaceIllegal([a, '/', b]);
    assert r == [a, '_', b];
    TrimOfTrimmed(r);
  }

  /** A lone space falls back to the placeholder. */
  lemma SanitizeBlankExample(blank: string)
    requires blank == " "
    ensures SanitizeFileName(blank) == Unknown
  {
    var r := ReplaceIllegal(blank);
    assert r[0] == ' ';
    TrimEmpty(r);
  }
}
