/** `LanguageConfig.sanitize`: maps any stored or device language tag onto the supported set. */
module LanguageConfig {
  import opened Wrappers
  import opened Text

  const SUPPORTED: set<string> := {"en", "et", "fi", "sv", "ru", "lv", "lt", "no", "da", "pl", "de"}
  const FALLBACK: string := "en"

  /** The text before the first `-`, when there is a `-` after at least one character. */
  function BaseTag(normalized: string): (r: string)
    ensures |r| <= |normalized| && r == normalized[..|r|]
  {
    if '-' in normalized && IndexOf(normalized, '-') > 0 then normalized[..IndexOf(normalized, '-')] else normalized
  }

  function Sanitize(raw: Option<string>): (r: string)
    ensures r in SUPPORTED
    ensures raw.None? || IsBlank(raw.value) ==> r == FALLBACK
    ensures r == FALLBACK || (raw.Some? && (r == Lower(Trim(raw.value)) || r == BaseTag(Lower(Trim(raw.value)))))
  {
    if raw.None? || IsBlank(raw.value) then FALLBACK
    else
      var normalized := Lower(Trim(raw.value));
      if normalized in SUPPORTED then normalized
      else
        var base := BaseTag(normalized);
        var candidate := if !IsBlank(base) then base else normalized;
        if candidate in SUPPORTED then candidate else FALLBACK
  }

  /** A supported code, after trimming and lowercasing, is kept as it is. */
  lemma SanitizeKeepsSupported(raw: string)
    requires Lower(Trim(raw)) in SUPPORTED
    ensures Sanitize(Some(raw)) == Lower(Trim(raw))
  {
    SupportedAreShort(Lower(Trim(raw)));
    assert Trim(raw) != [];
  }

  lemma SupportedAreShort(c: string)
    requires c in SUPPORTED
    ensures |c| == 2
  {
  }

  /** A tag with a region falls back to its language when that language is supported. */
  lemma SanitizeRegionFallback(raw: string)
    requires !IsBlank(raw)
    requires Lower(Trim(raw)) !in SUPPORTED
    requires BaseTag(Lower(Trim(raw))) in SUPPORTED
    ensures Sanitize(Some(raw)) == BaseTag(Lower(Trim(raw)))
  {
    var base := BaseTag(Lower(Trim(raw)));
    assert !IsBlank(base) by {
      assert |base| > 0;
      var t := Trim(raw);
      assert !IsWhitespace(t[0]);
      assert base[0] == LowerChar(t[0]);
      assert !IsWhitespace(base[0]);
    }
  }

  predicate LowerLetters(s: string) {
    forall i :: 0 <= i < |s| ==> 'a' <= s[i] <= 'z'
  }

  lemma LowerLettersAreNormal(s: string)
    requires |s| > 0 && LowerLetters(s)
    ensures Lower(Trim(s)) == s
  {
    assert !IsWhitespace(s[0]);
    assert !IsWhitespace(s[|s| - 1]);
    assert TrimStart(s) == s;
    assert TrimEnd(s) == s;
    forall i | 0 <= i < |s| ensures Lower(s)[i] == s[i] {
      assert 'a' <= s[i] <= 'z';
    }
    assert Lower(s) == s;
  }

  /** Every supported code is already trimmed and in lower case. */
  lemma SupportedAreNormal(c: string)
    requires c in SUPPORTED
    ensures Lower(Trim(c)) == c
  {
    assert |c| == 2 && LowerLetters(c) by {
      if c == "en" {} else if c == "et" {} else if c == "fi" {} else if c == "sv" {}
      else if c == "ru" {} else if c == "lv" {} else if c == "lt" {} else if c == "no" {}
      else if c == "da" {} else if c == "pl" {} else {}
    }
    LowerLettersAreNormal(c);
  }

  /** Sanitizing twice is sanitizing once. */
  lemma SanitizeIdempotent(raw: Option<string>)
    ensures Sanitize(Some(Sanitize(raw))) == Sanitize(raw)
  {
    var c := Sanitize(raw);
    SupportedAreNormal(c);
    SanitizeKeepsSupported(c);
  }
}
