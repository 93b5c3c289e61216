/** String helpers the server and the browser script both rely on: the
    whitespace classes of the two runtimes, `Trim`, and the blank test
    behind `string.IsNullOrWhiteSpace`. */
module Text {

  /** The two runtimes whose `Trim` appears in the system: the server's
      `string.Trim()` and the browser's `String.prototype.trim()`. */
  datatype Runtime = DotNet | JavaScript

  /** Unicode category Zs (space separators). */
  predicate IsSpaceSeparator(c: char) {
    || c == ' ' || c == '\U{A0}' || c == '\U{1680}'
    || ('\U{2000}' <= c <= '\U{200A}')
    || c == '\U{202F}' || c == '\U{205F}' || c == '\U{3000}'
  }

  /** Tab, line feed, vertical tab, form feed, carriage return and the two
      Unicode line/paragraph separators: whitespace in both runtimes. */
  predicate IsLineBreakOrTab(c: char) {
    ('\t' <= c <= '\r') || c == '\U{2028}' || c == '\U{2029}'
  }

  /** The runtime's whitespace test: `char.IsWhiteSpace` on .NET adds
      U+0085 to the two classes above; the JavaScript `WhiteSpace`
      production adds U+FEFF instead. */
  predicate IsWhiteSpace(rt: Runtime, c: char) {
    || IsSpaceSeparator(c)
    || IsLineBreakOrTab(c)
    || (if rt == DotNet then c == '\U{85}' else c == '\U{FEFF}')
  }

  /** `string.IsNullOrWhiteSpace` (a null string is the empty string here). */
  predicate IsBlank(rt: Runtime, s: string) {
    forall i :: 0 <= i < |s| ==> IsWhiteSpace(rt, s[i])
  }

  /** The first position at or after `i` that does not hold whitespace,
      or `|s|` when there is none. */
  function SkipForward(rt: Runtime, s: string, i: nat): (n: nat)
    requires i <= |s|
    ensures i <= n <= |s|
    ensures forall k :: i <= k < n ==> IsWhiteSpace(rt, s[k])
    ensures n == |s| || !IsWhiteSpace(rt, s[n])
    decreases |s| - i
  {
    if i == |s| || !IsWhiteSpace(rt, s[i]) then i else SkipForward(rt, s, i + 1)
  }

  /** Walking back from `j`, the position just after the last character at
      or after `lo` that is not whitespace, or `lo` when there is none. */
  function SkipBackward(rt: Runtime, s: string, lo: nat, j: nat): (n: nat)
    requires lo <= j <= |s|
    ensures lo <= n <= j
    ensures forall k :: n <= k < j ==> IsWhiteSpace(rt, s[k])
    ensures n == lo || !IsWhiteSpace(rt, s[n - 1])
  {
    if j == lo || !IsWhiteSpace(rt, s[j - 1]) then j else SkipBackward(rt, s, lo, j - 1)
  }

  /** How many whitespace characters `Trim` removes at the start. */
  function LeadingCount(rt: Runtime, s: string): (n: nat)
    ensures n <= |s|
  {
    SkipForward(rt, s, 0)
  }

  /** `Trim`: the slice of `s` left after cutting whitespace at both ends;
      everything cut away is whitespace and the slice neither starts nor ends
      with whitespace. */
  function Trim(rt: Runtime, s: string): (r: string)
    ensures LeadingCount(rt, s) + |r| <= |s|
    ensures r == s[LeadingCount(rt, s)..LeadingCount(rt, s) + |r|]
    ensures forall i :: 0 <= i < LeadingCount(rt, s) ==> IsWhiteSpace(rt, s[i])
    ensures forall i :: LeadingCount(rt, s) + |r| <= i < |s| ==> IsWhiteSpace(rt, s[i])
    ensures r == [] || (!IsWhiteSpace(rt, r[0]) && !IsWhiteSpace(rt, r[|r| - 1]))
  {
    var a := SkipForward(rt, s, 0);
    s[a..SkipBackward(rt, s, a, |s|)]
  }

  /** A string is blank exactly when trimming leaves nothing, so the server's
      blank check and "trimmed text is empty" agree. */
  lemma BlankIffTrimEmpty(rt: Runtime, s: string)
    ensures IsBlank(rt, s) <==> Trim(rt, s) == []
  {
    var r := Trim(rt, s);
    var a := LeadingCount(rt, s);
    if r == [] {
      forall i | 0 <= i < |s| ensures IsWhiteSpace(rt, s[i]) {
        if i >= a {} else {}
      }
    } else {
      assert s[a] == r[0];
    }
  }

  /** Trimming twice is trimming once. */
  lemma TrimIdempotent(rt: Runtime, s: string)
    ensures Trim(rt, Trim(rt, s)) == Trim(rt, s)
  {
    var r := Trim(rt, s);
    if r != [] {
      assert SkipForward(rt, r, 0) == 0;
      assert SkipBackward(rt, r, 0, |r|) == |r|;
      assert r[0..|r|] == r;
    }
  }
}
