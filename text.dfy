/**
 * The JavaScript string operations the wizard relies on (`trim`, `includes`,
 * `startsWith`, `endsWith`, `lastIndexOf`, `toLowerCase`, `split`, number
 * formatting), written over `seq<char>`.
 */
module Text {
  import opened Common

  /** ECMAScript WhiteSpace and LineTerminator code points: what `trim` removes. */
  predicate IsJsWhitespace(c: char) {
    || c == '\t' || c == '\n' || c == '\U{000B}' || c == '\U{000C}' || c == '\r' || c == ' '
    || c == '\U{00A0}' || c == '\U{1680}' || ('\U{2000}' <= c <= '\U{200A}')
    || c == '\U{2028}' || c == '\U{2029}' || c == '\U{202F}' || c == '\U{205F}'
    || c == '\U{3000}' || c == '\U{FEFF}'
  }

  /** `!s.trim()`: the string holds nothing but white space. */
  predicate IsBlank(s: string) {
    forall i :: 0 <= i < |s| ==> IsJsWhitespace(s[i])
  }

  /** The first index at or after `i` whose character is not white space,
      or `|s|`. */
  function SkipBlank(s: string, i: nat): (k: nat)
    requires i <= |s|
    ensures i <= k <= |s|
    ensures forall j :: i <= j < k ==> IsJsWhitespace(s[j])
    ensures k < |s| ==> !IsJsWhitespace(s[k])
    decreases |s| - i
  {
    if i < |s| && IsJsWhitespace(s[i]) then SkipBlank(s, i + 1) else i
  }

  /** The index just past the last character in `s[lo..e]` that is not
      white space, or `lo`. */
  function SkipBlankBack(s: string, lo: nat, e: nat): (k: nat)
    requires lo <= e <= |s|
    ensures lo <= k <= e
    ensures forall j :: k <= j < e ==> IsJsWhitespace(s[j])
    ensures lo < k ==> !IsJsWhitespace(s[k - 1])
    decreases e - lo
  {
    if lo < e && IsJsWhitespace(s[e - 1]) then SkipBlankBack(s, lo, e - 1) else e
  }

  /** `r` is `s` less `k` characters of white space in front and nothing but
      white space behind. */
  predicate TrimmedAt(s: string, r: string, k: int) {
    0 <= k <= |s| - |r| && r == s[k..k + |r|] && IsBlank(s[..k]) && IsBlank(s[k + |r|..])
  }

  /** `s.trim()`: the part of `s` left once the white space at both ends is
      removed. It is empty exactly for a blank string, and otherwise neither
      starts nor ends with white space. */
  function Trim(s: string): (r: string)
    ensures exists k :: TrimmedAt(s, r, k)
    ensures r == [] <==> IsBlank(s)
    ensures r != [] ==> !IsJsWhitespace(r[0]) && !IsJsWhitespace(r[|r| - 1])
  {
    var k := SkipBlank(s, 0);
    var e := SkipBlankBack(s, k, |s|);
    TrimBounds(s, k, e);
    s[k..e]
  }

  /** Cutting `s` at the first and past the last character that is not
      white space leaves a slice with blank text on either side, empty
      exactly when `s` is blank. */
  lemma TrimBounds(s: string, k: nat, e: nat)
    requires k <= e <= |s|
    requires forall j :: 0 <= j < k ==> IsJsWhitespace(s[j])
    requires k < |s| ==> !IsJsWhitespace(s[k])
    requires forall j :: e <= j < |s| ==> IsJsWhitespace(s[j])
    requires k < e ==> !IsJsWhitespace(s[e - 1])
    ensures TrimmedAt(s, s[k..e], k) && exists i :: TrimmedAt(s, s[k..e], i)
    ensures s[k..e] == [] <==> IsBlank(s)
  {
    assert IsBlank(s[..k]) by {
      forall j | 0 <= j < k ensures IsJsWhitespace(s[..k][j]) {
        assert s[..k][j] == s[j];
      }
    }
    assert IsBlank(s[e..]) by {
      forall j | 0 <= j < |s| - e ensures IsJsWhitespace(s[e..][j]) {
        assert s[e..][j] == s[e + j];
      }
    }
    assert TrimmedAt(s, s[k..e], k);
    if k == e {
      forall j | 0 <= j < |s| ensures IsJsWhitespace(s[j]) {
      }
    }
  }

  predicate StartsWith(s: string, prefix: string) {
    |prefix| <= |s| && s[..|prefix|] == prefix
  }

  /** `prefix + rest` starts with `prefix`, and slicing it off gives `rest` back. */
  lemma AfterPrefix(prefix: string, rest: string)
    ensures StartsWith(prefix + rest, prefix) && (prefix + rest)[|prefix|..] == rest
  {
    assert (prefix + rest)[..|prefix|] == prefix;
  }

  predicate EndsWith(s: string, suffix: string) {
    |suffix| <= |s| && s[|s| - |suffix|..] == suffix
  }

  /** `t` occurs in `s` starting at index `i`. */
  predicate OccursAt(s: string, t: string, i: int) {
    0 <= i && i + |t| <= |s| && s[i..i + |t|] == t
  }

  /** `s.includes(t)` */
  predicate Contains(s: string, t: string)
    decreases |s|
  {
    |t| <= |s| && (s[..|t|] == t || (s != [] && Contains(s[1..], t)))
  }

  lemma {:induction false} ContainsIff(s: string, t: string)
    ensures Contains(s, t) <==> exists i :: OccursAt(s, t, i)
    decreases |s|
  {
    if |t| <= |s| {
      if s[..|t|] == t {
        assert OccursAt(s, t, 0);
      } else if s != [] {
        ContainsIff(s[1..], t);
        forall i | OccursAt(s[1..], t, i) ensures OccursAt(s, t, i + 1) {
          assert s[1..][i..i + |t|] == s[i + 1..i + 1 + |t|];
        }
        forall i | OccursAt(s, t, i) ensures i >= 1 && OccursAt(s[1..], t, i - 1) {
          assert s[1..][i - 1..i - 1 + |t|] == s[i..i + |t|];
        }
      }
    }
  }

  /** `s.lastIndexOf(t)`, with `None` for -1: the last index at which `t` occurs. */
  function LastIndexOf(s: string, t: string): (r: Option<nat>)
    ensures r.Some? ==> OccursAt(s, t, r.value) && forall j :: r.value < j ==> !OccursAt(s, t, j)
    ensures r.None? ==> forall j :: !OccursAt(s, t, j)
  {
    if |t| > |s| then None else LastIndexFrom(s, t, |s| - |t|)
  }

  function LastIndexFrom(s: string, t: string, i: nat): (r: Option<nat>)
    requires i + |t| <= |s|
    ensures r.Some? ==> r.value <= i && OccursAt(s, t, r.value)
    ensures r.Some? ==> forall j :: r.value < j <= i ==> !OccursAt(s, t, j)
    ensures r.None? ==> forall j :: j <= i ==> !OccursAt(s, t, j)
    decreases i
  {
    if s[i..i + |t|] == t then Some(i)
    else if i == 0 then None
    else LastIndexFrom(s, t, i - 1)
  }

  function ToLowerChar(c: char): char {
    if 'A' <= c <= 'Z' then (c as int + 32) as char else c
  }

  /** `s.toLowerCase()` on the ASCII letters. */
  function ToLowerAscii(s: string): (r: string)
    ensures |r| == |s|
    ensures forall i :: 0 <= i < |s| ==> r[i] == ToLowerChar(s[i])
  {
    seq(|s|, i requires 0 <= i < |s| => ToLowerChar(s[i]))
  }

  function DigitChar(d: nat): char
    requires d < 10
  {
    "0123456789"[d]
  }

  function NatToString(n: nat): (r: string)
    ensures r != []
    decreases n
  {
    if n < 10 then [DigitChar(n)] else NatToString(n / 10) + [DigitChar(n % 10)]
  }

  /** `${n}` for an integer. */
  function IntToString(n: int): (r: string)
    ensures r != []
  {
    if n < 0 then "-" + NatToString(-n) else NatToString(n)
  }

  /** `s.split(sep)` for a one-character separator. */
  function Split(s: string, sep: char): (parts: seq<string>)
    ensures |parts| >= 1
    ensures forall k :: 0 <= k < |parts| ==> sep !in parts[k]
  {
    if s == [] then
      [""]
    else
      var rest := Split(s[1..], sep);
      if s[0] == sep then [""] + rest else [[s[0]] + rest[0]] + rest[1..]
  }

  /** `parts.join(sep)`, the inverse of `Split`. */
  function Join(parts: seq<string>, sep: char): string {
    if |parts| == 0 then ""
    else if |parts| == 1 then parts[0]
    else parts[0] + [sep] + Join(parts[1..], sep)
  }

  lemma {:induction false} JoinSplit(s: string, sep: char)
    ensures Join(Split(s, sep), sep) == s
  {
    if s != [] {
      var rest := Split(s[1..], sep);
      JoinSplit(s[1..], sep);
      if s[0] == sep {
        assert Split(s, sep) == [""] + rest;
        assert ([""] + rest)[1..] == rest;
        assert s == [sep] + s[1..];
      } else if |rest| == 1 {
        assert Split(s, sep) == [[s[0]] + rest[0]];
        assert s == [s[0]] + s[1..];
      } else {
        var parts := [[s[0]] + rest[0]] + rest[1..];
        assert Split(s, sep) == parts;
        assert parts[1..] == rest[1..];
        assert Join(parts, sep) == [s[0]] + (rest[0] + [sep] + Join(rest[1..], sep));
        assert s == [s[0]] + s[1..];
      }
    }
  }

  lemma {:induction false} SplitJoin(parts: seq<string>, sep: char)
    requires |parts| >= 1
    requires forall k :: 0 <= k < |parts| ==> sep !in parts[k]
    ensures Split(Join(parts, sep), sep) == parts
    decreases |Join(parts, sep)|, |parts|
  {
    if |parts| == 1 {
      SplitNoSeparator(parts[0], sep);
    } else {
      var tail := Join(parts[1..], sep);
      SplitJoin(parts[1..], sep);
      SplitPrefix(parts[0], sep, tail);
    }
  }

  lemma {:induction false} SplitNoSeparator(s: string, sep: char)
    requires sep !in s
    ensures Split(s, sep) == [s]
    decreases |s|
  {
    if s != [] {
      SplitNoSeparator(s[1..], sep);
      assert [s[0]] + s[1..] == s;
    }
  }

  /** Splitting `p + [sep] + tail`, where `p` holds no separator, puts `p` first. */
  lemma {:induction false} SplitPrefix(p: string, sep: char, tail: string)
    requires sep !in p
    ensures Split(p + [sep] + tail, sep) == [p] + Split(tail, sep)
    decreases |p|
  {
    var s := p + [sep] + tail;
    if p == [] {
      assert s[0] == sep && s[1..] == tail;
    } else {
      SplitPrefix(p[1..], sep, tail);
      assert s[1..] == p[1..] + [sep] + tail;
      assert [p[0]] + p[1..] == p;
    }
  }

  /** Two lines around an empty one: `a\n\nc` splits into `a`, `""` and `c`. */
  lemma SplitAroundBlankLine(a: string, c: string)
    requires '\n' !in a && '\n' !in c
    ensures Split(a + "\n\n" + c, '\n') == [a, "", c]
  {
    assert a + "\n\n" + c == a + ['\n'] + ("" + ['\n'] + c);
    SplitPrefix(a, '\n', "" + ['\n'] + c);
    SplitPrefix("", '\n', c);
    SplitNoSeparator(c, '\n');
  }

  /** A word with a character that `s` lacks does not occur in `s`. */
  lemma AbsentChar(s: string, t: string, j: nat)
    requires j < |t| && t[j] !in s
    ensures !Contains(s, t)
  {
    ContainsIff(s, t);
    forall i | OccursAt(s, t, i) ensures false {
    }
  }

  /** A word does not occur in `a + [c] + b` when its character `t[j]` is
      `c`, which occurs nowhere else, and the character after `c` differs
      from `t[j + 1]`. */
  lemma AbsentAround(a: string, c: char, b: string, t: string, j: nat)
    requires j + 1 < |t| && t[j] == c && c !in a && c !in b
    requires b == [] || b[0] != t[j + 1]
    ensures !Contains(a + [c] + b, t)
  {
    var s := a + [c] + b;
    ContainsIff(s, t);
    forall i | OccursAt(s, t, i) ensures false {
    }
  }

  /** Lower-casing keeps an occurrence of a word that has no upper-case letter. */
  lemma LowerKeepsOccurrence(s: string, t: string, i: nat)
    requires OccursAt(s, t, i)
    requires forall k :: 0 <= k < |t| ==> !('A' <= t[k] <= 'Z')
    ensures OccursAt(ToLowerAscii(s), t, i)
  {
    var lower := ToLowerAscii(s);
    forall k | 0 <= k < |t| ensures lower[i + k] == t[k] {
      assert s[i + k] == t[k];
    }
    assert lower[i..i + |t|] == t;
  }

  /** `t` occurs in `a + t + b`, right after `a`. */
  lemma ContainsJoin(a: string, t: string, b: string)
    ensures OccursAt(a + t + b, t, |a|) && Contains(a + t + b, t)
  {
    var s := a + t + b;
    assert s[|a|..|a| + |t|] == t;
    assert OccursAt(s, t, |a|);
    ContainsIff(s, t);
  }

  /** Lower-casing works piece by piece. */
  lemma LowerConcat(a: string, b: string)
    ensures ToLowerAscii(a + b) == ToLowerAscii(a) + ToLowerAscii(b)
  {
  }
}
