/**
 * The `validate` callback of the two CID prompts (main.js, in `listOption` and
 * `getOption`): an answer that is missing, or that `String.prototype.trim`
 * reduces to the empty string, is refused with a message and the prompt asks
 * again; any other answer is accepted.
 */
module CidInput {
  import opened Wrappers

  /**
   * The characters `String.prototype.trim` removes: WhiteSpace (section 12.2
   * of ECMAScript 2023: tab, vertical tab, form feed, zero-width no-break
   * space and the Unicode Zs category) and LineTerminator (section 12.3).
   */
  predicate IsWhitespace(c: char) {
    c in {'\U{0009}', '\U{000B}', '\U{000C}', '\U{0020}', '\U{00A0}', '\U{FEFF}',
          '\U{1680}', '\U{2000}', '\U{2001}', '\U{2002}', '\U{2003}', '\U{2004}',
          '\U{2005}', '\U{2006}', '\U{2007}', '\U{2008}', '\U{2009}', '\U{200A}',
          '\U{202F}', '\U{205F}', '\U{3000}',
          '\U{000A}', '\U{000D}', '\U{2028}', '\U{2029}'}
  }

  /** True when every character of `s` is whitespace (vacuously for ""). */
  predicate Blank(s: string) {
    forall i :: 0 <= i < |s| ==> IsWhitespace(s[i])
  }

  /** `s` without its leading whitespace: a suffix of `s` that starts with a non-whitespace character, if any. */
  function TrimStart(s: string): (r: string)
    ensures |r| <= |s| && r == s[|s| - |r|..]
    ensures forall i :: 0 <= i < |s| - |r| ==> IsWhitespace(s[i])
    ensures r == [] || !IsWhitespace(r[0])
  {
    if |s| > 0 && IsWhitespace(s[0]) then
      TrimStart(s[1..])
    else
      s
  }

  /** `s` without its trailing whitespace: a prefix of `s` that ends with a non-whitespace character, if any. */
  function TrimEnd(s: string): (r: string)
    ensures |r| <= |s| && r == s[..|r|]
    ensures forall i :: |r| <= i < |s| ==> IsWhitespace(s[i])
    ensures r == [] || !IsWhitespace(r[|r| - 1])
  {
    if |s| > 0 && IsWhitespace(s[|s| - 1]) then
      TrimEnd(s[..|s| - 1])
    else
      s
  }

  /** `String.prototype.trim`: whitespace removed at both ends. */
  function Trim(s: string): (r: string)
  {
    TrimEnd(TrimStart(s))
  }

  /** Trimming leaves nothing exactly when the answer consists of whitespace only. */
  lemma TrimEmptyIffBlank(s: string)
    ensures Trim(s) == "" <==> Blank(s)
  {
    var t := TrimStart(s);
    if !Blank(s) {
      var i :| 0 <= i < |s| && !IsWhitespace(s[i]);
      assert t[i - (|s| - |t|)] == s[i];
    }
  }

  /** What `validate` hands back to the prompt. */
  datatype Validation = Accepted | Refused(message: string)

  /** The message shown when an answer is refused. */
  const InvalidCidMessage: string := "Please enter a valid CID"

  /**
   * The prompt's validator: a missing answer or a blank one is refused with
   * the fixed message; an answer holding at least one non-whitespace
   * character is accepted.
   */
  function Validate(value: Option<string>): (v: Validation)
    ensures v.Accepted? <==> value.Some? && !Blank(value.value)
    ensures v.Refused? ==> v.message == InvalidCidMessage
  {
    if value.None? then
      Refused(InvalidCidMessage)
    else
      TrimEmptyIffBlank(value.value);
      if Trim(value.value) == "" then Refused(InvalidCidMessage) else Accepted
  }

  /** An accepted answer is never the empty string, so the navigation loop's guard holds at once. */
  lemma AcceptedIsNonEmpty(value: string)
    requires Validate(Some(value)).Accepted?
    ensures value != ""
  {
  }
}
