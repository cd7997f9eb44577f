/**
 * Character classes and string scanning used by the intent classifier: Python's
 * whitespace, `str.strip()`, ASCII case folding, and the behaviour of the regex
 * suffix `(.+)$`.
 */
module Text {
  import opened Wrappers

  /** Python's whitespace: `str.isspace()`, which is also what `\s` matches in a `str` pattern. */
  predicate IsSpace(c: char) {
    var n := c as int;
    (0x09 <= n <= 0x0D) || (0x1C <= n <= 0x20) || n == 0x85 || n == 0xA0 || n == 0x1680
    || (0x2000 <= n <= 0x200A) || n == 0x2028 || n == 0x2029 || n == 0x202F || n == 0x205F
    || n == 0x3000
  }

  predicate IsAsciiDigit(c: char) {
    '0' <= c <= '9'
  }

  predicate IsAsciiLetter(c: char) {
    ('a' <= c <= 'z') || ('A' <= c <= 'Z')
  }

  /** The characters `\w` matches; `\b` sits between a word character and a non-word one. */
  predicate IsWordChar(c: char) {
    IsAsciiLetter(c) || IsAsciiDigit(c) || c == '_'
  }

  function Lower(c: char): char {
    if 'A' <= c <= 'Z' then (c as int + 32) as char else c
  }

  function Upper(c: char): char {
    if 'a' <= c <= 'z' then (c as int - 32) as char else c
  }

  /** `str.upper()` on ASCII text (exact on a matched app id, which is all ASCII). */
  function UpperString(s: string): string {
    seq(|s|, k requires 0 <= k < |s| => Upper(s[k]))
  }

  predicate AllSpace(s: string) {
    forall k | 0 <= k < |s| :: IsSpace(s[k])
  }

  /**
   * Case-insensitive test that `lit` (written in lower case) occurs in `s` at
   * position `i`, as a literal of a pattern compiled with `re.IGNORECASE`.
   */
  predicate CiAt(s: string, i: nat, lit: string) {
    i + |lit| <= |s| && forall k | 0 <= k < |lit| :: Lower(s[i + k]) == lit[k]
  }

  /** What a case-insensitive match of a lower-case literal upper-cases to. */
  lemma CiAtUpper(s: string, i: nat, lit: string)
    requires CiAt(s, i, lit)
    ensures UpperString(s[i..i + |lit|]) == UpperString(lit)
  {
    forall k | 0 <= k < |lit|
      ensures Upper(s[i + k]) == Upper(lit[k])
    {
      assert Lower(s[i + k]) == lit[k];
    }
  }

  /** The end of the longest run of characters satisfying `P` that starts at `j`. */
  function RunEnd(s: string, j: nat, P: char -> bool): (e: nat)
    requires j <= |s|
    ensures j <= e <= |s|
    ensures forall k | j <= k < e :: P(s[k])
    ensures e < |s| ==> !P(s[e])
    decreases |s| - j
  {
    if j < |s| && P(s[j]) then RunEnd(s, j + 1, P) else j
  }

  /** A run that ends where `P` first fails is the one `RunEnd` finds. */
  lemma RunEndUnique(s: string, j: nat, P: char -> bool, e: nat)
    requires j <= e <= |s|
    requires forall k | j <= k < e :: P(s[k])
    requires e < |s| ==> !P(s[e])
    ensures RunEnd(s, j, P) == e
  {
  }

  /** The start of the longest run of characters satisfying `P` that ends at `j`. */
  function RunStart(s: string, j: nat, P: char -> bool): (b: nat)
    requires j <= |s|
    ensures b <= j
    ensures forall k | b <= k < j :: P(s[k])
    ensures 0 < b ==> !P(s[b - 1])
  {
    if 0 < j && P(s[j - 1]) then RunStart(s, j - 1, P) else j
  }

  /** `str.strip()`: `s` without its leading and trailing whitespace. */
  function Strip(s: string): (r: string)
    ensures |r| <= |s|
    ensures r == [] <==> AllSpace(s)
    ensures r != [] ==> !IsSpace(r[0]) && !IsSpace(r[|r| - 1])
    ensures exists a, b | 0 <= a <= b <= |s| :: r == s[a..b] && AllSpace(s[..a]) && AllSpace(s[b..])
  {
    var a := RunEnd(s, 0, IsSpace);
    var b := RunStart(s, |s|, IsSpace);
    if b <= a then
      assert AllSpace(s[..|s|]);
      assert s[..|s|] == s;
      assert s[0..0] == [] && AllSpace(s[..0]) && AllSpace(s[0..]);
      []
    else
      assert AllSpace(s[..a]) && AllSpace(s[b..]);
      s[a..b]
  }

  /**
   * Where `$` (without MULTILINE) can match last: at the end of the string, or
   * just before a newline that ends it.
   */
  function LineEnd(s: string): (e: nat)
    ensures e <= |s|
  {
    if 0 < |s| && s[|s| - 1] == '\n' then |s| - 1 else |s|
  }

  /**
   * The suffix `(.+)$` matches from position `p`: at least one character, and no
   * newline (which `.` does not match) before the place where `$` matches.
   */
  predicate TailAt(s: string, p: nat) {
    p < LineEnd(s) && forall k | p <= k < LineEnd(s) :: s[k] != '\n'
  }

  /** The text captured by `(.+)$` from position `p`. */
  function Tail(s: string, p: nat): string
    requires p <= LineEnd(s)
  {
    s[p..LineEnd(s)]
  }

  /**
   * Where a greedy repetition followed by `(.+)$` starts its capture: the largest
   * `p` with `lo < p <= hi` from which `(.+)$` matches, or None if there is none.
   * The repetition has consumed `s[lo..hi]` and gives characters back one at a time.
   */
  function GreatestTail(s: string, lo: nat, hi: nat): (r: Option<nat>)
    ensures r.Some? ==> lo < r.value <= hi && TailAt(s, r.value)
    ensures r.Some? ==> forall p | r.value < p <= hi :: !TailAt(s, p)
    ensures r.None? ==> forall p | lo < p <= hi :: !TailAt(s, p)
  {
    var e := LineEnd(s);
    if e == 0 then None
    else
      var c := if hi < e then hi else e - 1;
      if lo < c && TailAt(s, c) then Some(c) else None
  }
}
