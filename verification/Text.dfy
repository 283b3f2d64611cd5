/** C text as the client sees it: byte strings, line ends, blanks and the NUL byte. */
module Text {

  datatype Option<+T> = None | Some(value: T)

  const CRLF: string := "\r\n"

  /** The domain of the C string functions: `strncmp`, `strchr` and `%.*s` treat NUL specially. */
  predicate NoNul(s: string) {
    forall i :: 0 <= i < |s| ==> s[i] != '\0'
  }

  /** `strchr(" \t", c)` is also non-null for the terminating NUL of its first argument. */
  predicate IsBlank(c: char) {
    c == ' ' || c == '\t' || c == '\0'
  }

  predicate CrlfAt(s: string, i: int) {
    0 <= i && i + 1 < |s| && s[i] == '\r' && s[i + 1] == '\n'
  }

  predicate EndsCrlf(s: string) { CrlfAt(s, |s| - 2) }

  /** The first line end at or after `from`; `|s|` when there is none. */
  function FindCrlf(s: string, from: nat): (r: nat)
    requires from <= |s|
    ensures from <= r <= |s|
    ensures r < |s| ==> CrlfAt(s, r)
    ensures forall j :: from <= j < r ==> !CrlfAt(s, j)
    decreases |s| - from
  {
    if from == |s| || CrlfAt(s, from) then from else FindCrlf(s, from + 1)
  }

  /** The first occurrence of `c` at or after `from`; `|s|` when there is none. */
  function FindChar(s: string, c: char, from: nat): (r: nat)
    requires from <= |s|
    ensures from <= r <= |s|
    ensures r < |s| ==> s[r] == c
    ensures forall j :: from <= j < r ==> s[j] != c
    decreases |s| - from
  {
    if from == |s| || s[from] == c then from else FindChar(s, c, from + 1)
  }

  /** What `%.*s` prints of a counted string: everything before its first NUL. */
  function CString(s: string): (r: string)
    ensures r <= s
    ensures NoNul(s) ==> r == s
  {
    s[..FindChar(s, '\0', 0)]
  }

  /** `strncmp(a, b, n) == 0` for two strings of the same length `n`. */
  predicate SameBytes(a: string, b: string) {
    |a| == |b| && CString(a) == CString(b)
  }

  /** The text is empty or its last line is terminated. */
  predicate Terminated(s: string) {
    s == [] || EndsCrlf(s)
  }

  /** Line ends of a concatenation whose left part is terminated are those of its parts. */
  lemma CrlfOfTerminated(a: string, b: string, i: int)
    requires Terminated(a)
    ensures CrlfAt(a + b, i) <==> CrlfAt(a, i) || CrlfAt(b, i - |a|)
  {
  }

  lemma Assoc(a: string, b: string, c: string)
    ensures a + b + c == a + (b + c)
  {
  }

  /** On NUL-free text `strncmp` over equal lengths is equality. */
  lemma SameBytesIsEquality(a: string, b: string)
    requires NoNul(a) && NoNul(b)
    ensures SameBytes(a, b) <==> a == b
  {
  }
}
