/**
 * The part of JavaScript's string semantics the chat view relies on:
 * `String.prototype.trim` and the truthiness of its result.
 */
module JsText {

  /**
   * The code points ECMAScript counts as WhiteSpace or LineTerminator
   * (sections 12.2 and 12.3 of ECMA-262): these are what `trim` removes.
   * The space separators of Unicode category Zs are listed one by one.
   */
  predicate IsJsWhitespace(c: char) {
    c == '\t' || c == '\U{000B}' || c == '\U{000C}' || c == ' ' || c == '\U{00A0}' || c == '\U{FEFF}'
    || c == '\U{1680}' || ('\U{2000}' <= c <= '\U{200A}') || c == '\U{202F}' || c == '\U{205F}'
    || c == '\U{3000}'
    || c == '\n' || c == '\r' || c == '\U{2028}' || c == '\U{2029}'
  }

  /** Drops the leading whitespace. */
  function TrimStart(s: string): (r: string)
    ensures |r| <= |s|
    decreases |s|
  {
    if s == [] then []
    else if IsJsWhitespace(s[0]) then TrimStart(s[1..])
    else s
  }

  /** Drops the trailing whitespace. */
  function TrimEnd(s: string): (r: string)
    ensures |r| <= |s|
    ensures s != [] && !IsJsWhitespace(s[0]) ==> r != []
    decreases |s|
  {
    if s == [] then []
    else if IsJsWhitespace(s[|s| - 1]) then TrimEnd(s[..|s| - 1])
    else s
  }

  /** `s.trim()`: never longer, and a string with no whitespace at either end is kept as it is. */
  function Trim(s: string): (r: string)
    ensures |r| <= |s|
    ensures s != [] && !IsJsWhitespace(s[0]) && !IsJsWhitespace(s[|s| - 1]) ==> r == s
  {
    TrimEnd(TrimStart(s))
  }

  /** `!s.trim()`: the trimmed string is the empty, falsy string. */
  predicate IsBlank(s: string)
    ensures s == [] ==> IsBlank(s)
    ensures s != [] && !IsJsWhitespace(s[0]) ==> !IsBlank(s)
  {
    Trim(s) == []
  }

  /** `TrimStart` keeps the suffix of `s` that starts at its first non-whitespace character. */
  lemma {:induction false} TrimStartSpec(s: string)
    ensures |TrimStart(s)| <= |s| && TrimStart(s) == s[|s| - |TrimStart(s)|..]
    ensures forall i :: 0 <= i < |s| - |TrimStart(s)| ==> IsJsWhitespace(s[i])
    ensures TrimStart(s) == [] || !IsJsWhitespace(TrimStart(s)[0])
    decreases |s|
  {
    if s != [] && IsJsWhitespace(s[0]) {
      TrimStartSpec(s[1..]);
    }
  }

  /** `TrimEnd` keeps the prefix of `s` that ends at its last non-whitespace character. */
  lemma {:induction false} TrimEndSpec(s: string)
    ensures |TrimEnd(s)| <= |s| && TrimEnd(s) == s[..|TrimEnd(s)|]
    ensures forall i :: |TrimEnd(s)| <= i < |s| ==> IsJsWhitespace(s[i])
    ensures TrimEnd(s) == [] || !IsJsWhitespace(TrimEnd(s)[|TrimEnd(s)| - 1])
    decreases |s|
  {
    if s != [] && IsJsWhitespace(s[|s| - 1]) {
      TrimEndSpec(s[..|s| - 1]);
    }
  }

  /**
   * The trimmed string is empty exactly when every character is whitespace;
   * otherwise it starts and ends with a non-whitespace character.
   */
  lemma TrimSpec(s: string)
    ensures Trim(s) == [] <==> forall i :: 0 <= i < |s| ==> IsJsWhitespace(s[i])
    ensures Trim(s) != [] ==> !IsJsWhitespace(Trim(s)[0]) && !IsJsWhitespace(Trim(s)[|Trim(s)| - 1])
  {
    var t := TrimStart(s);
    TrimStartSpec(s);
    TrimEndSpec(t);
    assert forall i :: |s| - |t| <= i < |s| ==> s[i] == t[i - (|s| - |t|)];
    assert Trim(s) != [] ==> Trim(s)[0] == t[0];
  }
}
