/** The two identifier guards that stand between configuration or
    catalogue data and SQL text built by interpolation. */
module Identifiers {
  import opened Wrappers
  import opened Text

  /** A character of `[A-Z0-9_]`. */
  predicate IsUpperIdentifierChar(c: char) {
    'A' <= c <= 'Z' || IsDigit(c) || c == '_'
  }

  /** A character of `[A-Za-z0-9_]`. */
  predicate IsIdentifierChar(c: char) {
    IsUpperIdentifierChar(c) || 'a' <= c <= 'z'
  }

  /** `/^[A-Z0-9_]+$/.test(s)` */
  predicate IsUpperIdentifier(s: string) {
    |s| > 0 && forall i :: 0 <= i < |s| ==> IsUpperIdentifierChar(s[i])
  }

  /** `/^[A-Za-z0-9_]+$/.test(s)` */
  predicate IsIdentifier(s: string) {
    |s| > 0 && forall i :: 0 <= i < |s| ==> IsIdentifierChar(s[i])
  }

  /** The clone engine's guard for owner, table and column names: the
      upper-cased name when it is a non-empty run of `[A-Z0-9_]`, otherwise
      an error carrying the name as given. */
  function SanitizeIdentifier(name: string): (r: Result<string, string>)
    ensures r.Ok? ==> IsUpperIdentifier(r.value) && |r.value| == |name|
    ensures r.Err? ==> r.error == name
  {
    var up := Upper(name);
    if IsUpperIdentifier(up) then Ok(up) else Err(name)
  }

  /** A name already in upper-case identifier form sanitises to itself. */
  lemma SanitizeUpperIdentifier(name: string)
    requires IsUpperIdentifier(name)
    ensures SanitizeIdentifier(name) == Ok(name)
  {
    assert Upper(name) == name;
  }

  /** The HTTP layer's guard for configured table and column names: the name
      itself when it is a non-empty run of `[A-Za-z0-9_]`, otherwise an
      error carrying the name of the setting. */
  function SafeIdentifier(value: string, setting: string): (r: Result<string, string>)
    ensures r.Ok? <==> IsIdentifier(value)
    ensures r.Ok? ==> r.value == value
    ensures r.Err? ==> r.error == setting
  {
    if value == "" || !IsIdentifier(value) then Err(setting) else Ok(value)
  }

  /** Sanitising is idempotent: an accepted name is accepted again unchanged. */
  lemma SanitizeIdempotent(name: string)
    requires SanitizeIdentifier(name).Ok?
    ensures SanitizeIdentifier(SanitizeIdentifier(name).value) == SanitizeIdentifier(name)
  {
    UpperIdempotent(name);
  }

  /** The two guards accept the same names, exactly the non-empty runs of
      `[A-Za-z0-9_]`: the HTTP layer's returns the name unchanged, the clone
      engine's the upper-cased spelling. */
  lemma SanitizeAgreesWithSafeIdentifier(name: string, setting: string)
    ensures SanitizeIdentifier(name).Ok? <==> SafeIdentifier(name, setting).Ok?
    ensures IsIdentifier(name) ==> SanitizeIdentifier(name) == Ok(Upper(name)) && SafeIdentifier(name, setting) == Ok(name)
    ensures !IsIdentifier(name) ==> SanitizeIdentifier(name) == Err(name) && SafeIdentifier(name, setting) == Err(setting)
  {
    var up := Upper(name);
    assert forall i :: 0 <= i < |name| ==> (IsUpperIdentifierChar(up[i]) <==> IsIdentifierChar(name[i]));
  }
}
