/** JavaScript's `String.prototype.trim`, used by the dashboard to decide
    whether a reason is blank. */
module JsText {

  /** The characters `trim` strips: ECMAScript WhiteSpace (tab, vertical
      tab, form feed, space, no-break space, the byte order mark and the
      other Unicode space separators) and LineTerminator (line feed,
      carriage return, line separator, paragraph separator). */
  predicate IsWhitespace(c: char)
  {
    var n := c as int;
    n == 0x09 || n == 0x0A || n == 0x0B || n == 0x0C || n == 0x0D ||
    n == 0x20 || n == 0xA0 || n == 0x1680 || (0x2000 <= n <= 0x200A) ||
    n == 0x2028 || n == 0x2029 || n == 0x202F || n == 0x205F ||
    n == 0x3000 || n == 0xFEFF
  }

  /** Every character of `s` is whitespace (this includes the empty string). */
  predicate IsBlank(s: string)
  {
    forall i :: 0 <= i < |s| ==> IsWhitespace(s[i])
  }

  /** `s` without its leading whitespace. */
  function TrimStart(s: string): (r: string)
    ensures |r| <= |s| && r == s[|s| - |r|..]
    ensures forall i :: 0 <= i < |s| - |r| ==> IsWhitespace(s[i])
    ensures r == [] || !IsWhitespace(r[0])
  {
    if s != [] && IsWhitespace(s[0]) then TrimStart(s[1..]) else s
  }

  /** `s` without its trailing whitespace. */
  function TrimEnd(s: string): (r: string)
    ensures |r| <= |s| && r == s[..|r|]
    ensures forall i :: |r| <= i < |s| ==> IsWhitespace(s[i])
    ensures r == [] || !IsWhitespace(r[|r| - 1])
  {
    if s != [] && IsWhitespace(s[|s| - 1]) then TrimEnd(s[..|s| - 1]) else s
  }

  /** `s.trim()`: the piece of `s` left after its leading and trailing
      whitespace; it neither starts nor ends with whitespace and is empty
      exactly when `s` is blank. */
  function Trim(s: string): (r: string)
    ensures |r| <= |s|
    ensures |s| - |TrimStart(s)| + |r| <= |s|
    ensures r == s[|s| - |TrimStart(s)|..|s| - |TrimStart(s)| + |r|]
    ensures forall i :: 0 <= i < |s| && !(|s| - |TrimStart(s)| <= i < |s| - |TrimStart(s)| + |r|) ==> IsWhitespace(s[i])
    ensures r == [] || (!IsWhitespace(r[0]) && !IsWhitespace(r[|r| - 1]))
    ensures r == [] <==> IsBlank(s)
  {
    var t := TrimStart(s);
    assert t == [] ==> IsBlank(s);
    TrimEnd(t)
  }

  /** Trimming drops whitespace only: every other character of `s` is
      still there, at the same distance from the first one kept. */
  lemma TrimKeepsContent(s: string, i: nat)
    requires i < |s| && !IsWhitespace(s[i])
    ensures |s| - |TrimStart(s)| <= i < |s| - |TrimStart(s)| + |Trim(s)|
    ensures Trim(s)[i - (|s| - |TrimStart(s)|)] == s[i]
  {
  }

  /** Trimming twice is trimming once. */
  lemma TrimIdempotent(s: string)
    ensures Trim(Trim(s)) == Trim(s)
  {
    var r := Trim(s);
    assert TrimStart(r) == r;
    assert TrimEnd(r) == r;
  }
}
