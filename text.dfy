/**
 * Character classes, trimming and case folding used by the endpoints and the client.
 * Case folding covers ASCII and the basic Cyrillic alphabet (А..Я, Ё), which is
 * all the game's vocabulary uses; other scripts are left as they are.
 */
module Text {

  /** Characters PHP's `trim` strips: space, tab, newline, carriage return, NUL, vertical tab. */
  predicate IsPhpSpace(c: char)
  {
    c == ' ' || c == '\t' || c == '\n' || c == '\r' || c == '\0' || c == '\U{0B}'
  }

  /** Characters PostgreSQL's one-argument `TRIM` strips: the space only. */
  predicate IsSqlSpace(c: char)
  {
    c == ' '
  }

  /** Characters JavaScript's `trim` strips and `\s` matches (WhiteSpace and LineTerminator). */
  predicate IsJsSpace(c: char)
  {
    || c == ' ' || c == '\t' || c == '\n' || c == '\U{0B}' || c == '\U{0C}' || c == '\r'
    || c == '\U{A0}' || c == '\U{1680}' || ('\U{2000}' <= c <= '\U{200A}')
    || c == '\U{2028}' || c == '\U{2029}' || c == '\U{202F}' || c == '\U{205F}'
    || c == '\U{3000}' || c == '\U{FEFF}'
  }

  /** `s` without its leading characters of class `ws`. */
  function DropLeading(s: string, ws: char -> bool): (r: string)
    ensures |r| <= |s| && r == s[|s| - |r|..]
    ensures r == [] || !ws(r[0])
    ensures forall i :: 0 <= i < |s| - |r| ==> ws(s[i])
  {
    if s != [] && ws(s[0]) then DropLeading(s[1..], ws) else s
  }

  /** `s` without its trailing characters of class `ws`. */
  function DropTrailing(s: string, ws: char -> bool): (r: string)
    ensures |r| <= |s| && r == s[..|r|]
    ensures r == [] || !ws(r[|r| - 1])
    ensures forall i :: |r| <= i < |s| ==> ws(s[i])
  {
    if s != [] && ws(s[|s| - 1]) then DropTrailing(s[..|s| - 1], ws) else s
  }

  /** Only characters of class `ws` lie before index `i` and from index `j` on. */
  predicate CutAt(s: string, ws: char -> bool, i: int, j: int)
  {
    && 0 <= i <= j <= |s|
    && (forall k :: 0 <= k < i ==> ws(s[k]))
    && (forall k :: j <= k < |s| ==> ws(s[k]))
  }

  /** Cutting the class off both ends leaves a slice of `s` with only class characters cut. */
  lemma TrimSlice(s: string, ws: char -> bool)
    ensures exists i, j :: CutAt(s, ws, i, j) && DropTrailing(DropLeading(s, ws), ws) == s[i..j]
  {
    var a := DropLeading(s, ws);
    var r := DropTrailing(a, ws);
    var i := |s| - |a|;
    var j := i + |r|;
    assert r == s[i..j] by {
      assert a == s[i..];
      assert r == a[..|r|];
    }
    assert CutAt(s, ws, i, j) by {
      forall k | j <= k < |s| ensures ws(s[k]) {
        assert s[k] == a[k - i];
      }
    }
  }

  /** An input made only of class characters is cut to nothing. */
  lemma TrimAllBlank(s: string, ws: char -> bool)
    requires forall k :: 0 <= k < |s| ==> ws(s[k])
    ensures DropTrailing(DropLeading(s, ws), ws) == []
  {
  }

  /** An input with no class character at either end is kept. */
  lemma TrimKeeps(s: string, ws: char -> bool)
    requires s == [] || (!ws(s[0]) && !ws(s[|s| - 1]))
    ensures DropTrailing(DropLeading(s, ws), ws) == s
  {
  }

  /**
   * `s` without leading and trailing characters of class `ws`: the slice of `s` left
   * after cutting characters of the class off both ends, ending in none of them.
   */
  function Trim(s: string, ws: char -> bool): (r: string)
    ensures |r| <= |s|
    ensures exists i, j :: CutAt(s, ws, i, j) && r == s[i..j]
    ensures r == [] || (!ws(r[0]) && !ws(r[|r| - 1]))
    ensures (forall i :: 0 <= i < |s| ==> ws(s[i])) ==> r == []
    ensures (s == [] || (!ws(s[0]) && !ws(s[|s| - 1]))) ==> r == s
  {
    TrimSlice(s, ws);
    assert (forall i :: 0 <= i < |s| ==> ws(s[i])) ==> DropTrailing(DropLeading(s, ws), ws) == [] by {
      if forall i :: 0 <= i < |s| ==> ws(s[i]) { TrimAllBlank(s, ws); }
    }
    assert (s == [] || (!ws(s[0]) && !ws(s[|s| - 1]))) ==> DropTrailing(DropLeading(s, ws), ws) == s by {
      if s == [] || (!ws(s[0]) && !ws(s[|s| - 1])) { TrimKeeps(s, ws); }
    }
    DropTrailing(DropLeading(s, ws), ws)
  }

  /** PHP `trim($s)`. */
  function PhpTrim(s: string): string
  {
    Trim(s, IsPhpSpace)
  }

  /** PostgreSQL `TRIM(s)`. */
  function SqlTrim(s: string): string
  {
    Trim(s, IsSqlSpace)
  }

  /** JavaScript `s.trim()`. */
  function JsTrim(s: string): string
  {
    Trim(s, IsJsSpace)
  }

  predicate IsAsciiUpper(c: char)
  {
    'A' <= c <= 'Z'
  }

  /** ASCII-only lower-casing, as PHP's `strcasecmp` folds. */
  function AsciiLower(c: char): (r: char)
    ensures IsAsciiUpper(c) ==> r as int == c as int + 32
    ensures !IsAsciiUpper(c) ==> r == c
  {
    if IsAsciiUpper(c) then (c as int + 32) as char else c
  }

  predicate IsUpper(c: char)
  {
    IsAsciiUpper(c) || ('\U{0410}' <= c <= '\U{042F}') || c == '\U{0401}'
  }

  /**
   * Lower-casing of one character as `mb_strtolower`, SQL `lower` and JavaScript
   * `toLowerCase` do it on ASCII and on the basic Cyrillic alphabet.
   */
  function Lower(c: char): (r: char)
    ensures IsAsciiUpper(c) || ('\U{0410}' <= c <= '\U{042F}') ==> r as int == c as int + 32
    ensures c == '\U{0401}' ==> r == '\U{0451}'
    ensures !IsUpper(r)
    ensures !IsUpper(c) ==> r == c
  {
    if IsAsciiUpper(c) || ('\U{0410}' <= c <= '\U{042F}') then (c as int + 32) as char
    else if c == '\U{0401}' then '\U{0451}'
    else c
  }

  function LowerStr(s: string): (r: string)
    ensures |r| == |s| && forall i :: 0 <= i < |s| ==> r[i] == Lower(s[i])
  {
    seq(|s|, i requires 0 <= i < |s| => Lower(s[i]))
  }

  function AsciiLowerStr(s: string): (r: string)
    ensures |r| == |s| && forall i :: 0 <= i < |s| ==> r[i] == AsciiLower(s[i])
  {
    seq(|s|, i requires 0 <= i < |s| => AsciiLower(s[i]))
  }

  /** PHP `strcasecmp($a, $b) === 0`: equal after ASCII case folding. */
  predicate StrCaseEq(a: string, b: string)
  {
    AsciiLowerStr(a) == AsciiLowerStr(b)
  }

  lemma LowerIdempotent(c: char)
    ensures Lower(Lower(c)) == Lower(c)
  {
  }
}
