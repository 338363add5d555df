/** Python string operations the portal relies on, with Python's semantics:
    `str.isspace`, `str.lower` (ASCII part), `str.strip`, `str.split(sep)`,
    `sep.join`, `startswith`, `endswith` and the substring test `in`. */
module Text {

  /** Python's `str.isspace` for one character, by code point. */
  predicate IsSpace(c: char) {
    var n := c as int;
    n == 0x20 || 0x09 <= n <= 0x0D || 0x1C <= n <= 0x1F || n == 0x85 || n == 0xA0 ||
    n == 0x1680 || 0x2000 <= n <= 0x200A || n == 0x2028 || n == 0x2029 ||
    n == 0x202F || n == 0x205F || n == 0x3000
  }

  predicate AllSpace(s: string) {
    forall i :: 0 <= i < |s| ==> IsSpace(s[i])
  }

  /** No whitespace at either end: what `strip` leaves behind. */
  predicate NoOuterSpace(s: string) {
    s == [] || (!IsSpace(s[0]) && !IsSpace(s[|s| - 1]))
  }

  predicate IsUpper(c: char) { 'A' <= c <= 'Z' }

  function LowerChar(c: char): char {
    if IsUpper(c) then (c as int + 32) as char else c
  }

  /** `str.lower`, restricted to the ASCII letters. */
  function Lower(s: string): string {
    seq(|s|, i requires 0 <= i < |s| => LowerChar(s[i]))
  }

  /** `str.lstrip()`: drops leading whitespace (see StripLeftShape). */
  function StripLeft(s: string): (r: string)
    ensures |r| <= |s|
    decreases |s|
  {
    if s != [] && IsSpace(s[0]) then StripLeft(s[1..]) else s
  }

  /** `str.rstrip()`: drops trailing whitespace (see StripRightShape). */
  function StripRight(s: string): (r: string)
    ensures |r| <= |s|
    decreases |s|
  {
    if s != [] && IsSpace(s[|s| - 1]) then StripRight(s[..|s| - 1]) else s
  }

  /** `lstrip` leaves a suffix, after a dropped prefix that is all whitespace,
      and the suffix does not start with whitespace. */
  lemma {:induction false} StripLeftShape(s: string)
    ensures var r := StripLeft(s);
            r == s[|s| - |r|..] && AllSpace(s[..|s| - |r|]) && (r == [] || !IsSpace(r[0]))
    decreases |s|
  {
    if s != [] && IsSpace(s[0]) {
      var r := StripLeft(s[1..]);
      StripLeftShape(s[1..]);
      var n := |s| - |r|;
      SliceOfSuffix(s, 1, |s| - 1 - |r|);
      assert s[..n] == [s[0]] + s[1..][..n - 1];
      AllSpaceConcat([s[0]], s[1..][..n - 1]);
    } else {
      assert s[..0] == [];
    }
  }

  /** `rstrip` leaves a prefix, before a dropped suffix that is all whitespace,
      and the prefix does not end with whitespace. */
  lemma {:induction false} StripRightShape(s: string)
    ensures var r := StripRight(s);
            r == s[..|r|] && AllSpace(s[|r|..]) && (r == [] || !IsSpace(r[|r| - 1]))
    decreases |s|
  {
    if s != [] && IsSpace(s[|s| - 1]) {
      var t := s[..|s| - 1];
      var r := StripRight(t);
      StripRightShape(t);
      assert s[|r|..] == t[|r|..] + [s[|s| - 1]];
      AllSpaceConcat(t[|r|..], [s[|s| - 1]]);
    } else {
      assert s[|s|..] == [];
    }
  }

  /** `str.strip()`. */
  function Strip(s: string): string {
    StripRight(StripLeft(s))
  }

  /** Where `strip` cuts: the length of the whitespace prefix it drops. */
  function StripStart(s: string): (i: nat)
    ensures i <= |s|
  {
    |s| - |StripLeft(s)|
  }

  /** `strip` removes a whitespace prefix and a whitespace suffix and nothing else,
      and what it leaves has no whitespace at either end. */
  lemma StripShape(s: string)
    ensures StripStart(s) + |Strip(s)| <= |s|
    ensures Strip(s) == s[StripStart(s)..StripStart(s) + |Strip(s)|]
    ensures AllSpace(s[..StripStart(s)]) && AllSpace(s[StripStart(s) + |Strip(s)|..])
    ensures NoOuterSpace(Strip(s))
  {
    var l := StripLeft(s);
    StripLeftShape(s);
    StripRightShape(l);
    PeeledShape(s, l, StripRight(l));
  }

  /** The slicing behind StripShape, for a suffix `l` of `s` and a prefix `r` of `l`. */
  lemma PeeledShape(s: string, l: string, r: string)
    requires |l| <= |s| && l == s[|s| - |l|..] && (l == [] || !IsSpace(l[0]))
    requires |r| <= |l| && r == l[..|r|] && AllSpace(l[|r|..])
    requires r == [] || !IsSpace(r[|r| - 1])
    ensures r == s[|s| - |l|..|s| - |l| + |r|]
    ensures AllSpace(s[|s| - |l| + |r|..])
    ensures NoOuterSpace(r)
  {
    var i := |s| - |l|;
    SliceOfSuffix(s, i, |r|);
    if r != [] { assert r[0] == l[0]; }
  }

  lemma SliceOfSuffix(s: string, i: nat, n: nat)
    requires i + n <= |s|
    ensures s[i..][..n] == s[i..i + n] && s[i..][n..] == s[i + n..]
  {
  }

  lemma {:induction false} StripLeftAt(s: string, i: nat)
    requires i <= |s| && AllSpace(s[..i])
    requires i == |s| || !IsSpace(s[i])
    ensures StripLeft(s) == s[i..]
    decreases i
  {
    if i > 0 {
      assert IsSpace(s[..i][0]);
      assert s[1..][..i - 1] == s[1..i];
      StripLeftAt(s[1..], i - 1);
    }
  }

  lemma {:induction false} StripRightAt(s: string, j: nat)
    requires j <= |s| && AllSpace(s[j..])
    requires j == 0 || !IsSpace(s[j - 1])
    ensures StripRight(s) == s[..j]
    decreases |s| - j
  {
    if j < |s| {
      assert IsSpace(s[j..][|s| - 1 - j]);
      assert s[..|s| - 1][j..] == s[j..|s| - 1];
      StripRightAt(s[..|s| - 1], j);
    }
  }

  /** The converse of StripShape: any way of writing `s` as whitespace, a
      core without outer whitespace, and whitespace yields that core. */
  lemma StripUnique(s: string, i: nat, j: nat)
    requires i <= j <= |s|
    requires AllSpace(s[..i]) && AllSpace(s[j..]) && NoOuterSpace(s[i..j])
    ensures Strip(s) == s[i..j]
  {
    if i == j {
      assert s == s[..i] + s[j..];
      AllSpaceConcat(s[..i], s[j..]);
      StripLeftAt(s, |s|);
    } else {
      var core := s[i..j];
      assert core[0] == s[i] && !IsSpace(s[i]);
      StripLeftAt(s, i);
      var l := s[i..];
      SliceOfSuffix(s, i, j - i);
      assert l[j - i - 1] == core[|core| - 1];
      StripRightAt(l, j - i);
    }
  }

  /** Stripping a string that already has no outer whitespace changes nothing. */
  lemma StripOfStripped(s: string)
    requires NoOuterSpace(s)
    ensures Strip(s) == s
  {
    assert s[..0] == [] && s[|s|..] == [] && s[0..|s|] == s;
    StripUnique(s, 0, |s|);
  }

  lemma AllSpaceConcat(a: string, b: string)
    requires AllSpace(a) && AllSpace(b)
    ensures AllSpace(a + b)
  {
    forall k | 0 <= k < |a + b| ensures IsSpace((a + b)[k]) {
      if k < |a| { assert (a + b)[k] == a[k]; } else { assert (a + b)[k] == b[k - |a|]; }
    }
  }

  /** A core without outer whitespace, padded with whitespace on both sides,
      is what `strip` gives back. */
  lemma StripOfParts(a: string, core: string, b: string)
    requires AllSpace(a) && AllSpace(b) && NoOuterSpace(core)
    ensures Strip(a + core + b) == core
  {
    var t := a + core + b;
    var i, j := |a|, |a| + |core|;
    assert t[..i] == a && t[i..j] == core && t[j..] == b;
    StripUnique(t, i, j);
  }

  lemma Thirds(s: string, i: nat, j: nat)
    requires i <= j <= |s|
    ensures s == s[..i] + s[i..j] + s[j..]
  {
  }

  lemma Regroup(pre: string, s: string, post: string, i: nat, j: nat)
    requires i <= j <= |s|
    ensures pre + s + post == (pre + s[..i]) + s[i..j] + (s[j..] + post)
  {
    assert s == s[..i] + s[i..j] + s[j..];
  }

  /** Whitespace added around a string is removed again by `strip`. */
  lemma StripPadded(pre: string, s: string, post: string)
    requires AllSpace(pre) && AllSpace(post)
    ensures Strip(pre + s + post) == Strip(s)
  {
    StripShape(s);
    var i := StripStart(s);
    var j := i + |Strip(s)|;
    var core := s[i..j];
    AllSpaceConcat(pre, s[..i]);
    AllSpaceConcat(s[j..], post);
    Regroup(pre, s, post, i, j);
    StripOfParts(pre + s[..i], core, s[j..] + post);
  }

  /** `strip` is idempotent. */
  lemma StripIdempotent(s: string)
    ensures Strip(Strip(s)) == Strip(s)
  {
    StripShape(s);
    StripOfStripped(Strip(s));
  }

  lemma LowerKeepsSpace(s: string)
    ensures AllSpace(s) ==> AllSpace(Lower(s))
    ensures NoOuterSpace(s) ==> NoOuterSpace(Lower(s))
  {
  }

  lemma LowerConcat(a: string, b: string)
    ensures Lower(a + b) == Lower(a) + Lower(b)
  {
    assert forall k :: 0 <= k < |a + b| ==> Lower(a + b)[k] == (Lower(a) + Lower(b))[k];
  }

  lemma LowerConcat3(a: string, b: string, c: string)
    ensures Lower(a + b + c) == Lower(a) + Lower(b) + Lower(c)
  {
    LowerConcat(a + b, c);
    LowerConcat(a, b);
  }

  /** Lower-casing and stripping commute. */
  lemma LowerStripCommute(s: string)
    ensures Lower(Strip(s)) == Strip(Lower(s))
  {
    StripShape(s);
    var i := StripStart(s);
    var j := i + |Strip(s)|;
    var a, core, b := s[..i], s[i..j], s[j..];
    Thirds(s, i, j);
    LowerConcat3(a, core, b);
    LowerKeepsSpace(a);
    LowerKeepsSpace(b);
    LowerKeepsSpace(core);
    StripOfParts(Lower(a), Lower(core), Lower(b));
  }

  /** A string without upper-case letters is its own lower case. */
  lemma LowerOfLowerFree(s: string)
    requires forall i :: 0 <= i < |s| ==> !IsUpper(s[i])
    ensures Lower(s) == s
  {
    assert forall k :: 0 <= k < |s| ==> Lower(s)[k] == s[k];
  }

  lemma LowerIdempotent(s: string)
    ensures Lower(Lower(s)) == Lower(s)
  {
  }

  function StartsWith(s: string, prefix: string): bool {
    |prefix| <= |s| && s[..|prefix|] == prefix
  }

  function EndsWith(s: string, suffix: string): bool {
    |suffix| <= |s| && s[|s| - |suffix|..] == suffix
  }

  /** `needle` occurs in `s` starting at index `i`. */
  predicate OccursAt(s: string, needle: string, i: int) {
    0 <= i <= |s| - |needle| && s[i..i + |needle|] == needle
  }

  /** Python's `needle in s` for strings. */
  function Contains(s: string, needle: string): (b: bool)
    ensures b <==> exists i :: OccursAt(s, needle, i)
    decreases |s|
  {
    if StartsWith(s, needle) then
      assert OccursAt(s, needle, 0);
      true
    else if s == [] then false
    else
      var r := Contains(s[1..], needle);
      assert forall i :: OccursAt(s, needle, i) ==> i >= 1 && OccursAt(s[1..], needle, i - 1) by {
        forall i | OccursAt(s, needle, i) ensures i >= 1 && OccursAt(s[1..], needle, i - 1) {
          assert s[1..][i - 1..i - 1 + |needle|] == s[i..i + |needle|];
        }
      }
      assert forall i :: OccursAt(s[1..], needle, i) ==> OccursAt(s, needle, i + 1) by {
        forall i | OccursAt(s[1..], needle, i) ensures OccursAt(s, needle, i + 1) {
          assert s[1..][i..i + |needle|] == s[i + 1..i + 1 + |needle|];
        }
      }
      r
  }

  /** `sep.join(parts)`. */
  function Join(parts: seq<string>, sep: char): string
    decreases |parts|
  {
    if |parts| == 0 then ""
    else if |parts| == 1 then parts[0]
    else parts[0] + [sep] + Join(parts[1..], sep)
  }

  /** `s.split(sep)` for a one-character separator: never empty, no piece holds
      the separator, and joining the pieces gives `s` back. */
  function Split(s: string, sep: char): (parts: seq<string>)
    ensures |parts| >= 1
    ensures forall i :: 0 <= i < |parts| ==> sep !in parts[i]
    ensures Join(parts, sep) == s
    decreases |s|
  {
    if s == [] then [""]
    else
      var rest := Split(s[1..], sep);
      if s[0] == sep then
        assert [sep] + Join(rest, sep) == s;
        [""] + rest
      else
        var parts := [[s[0]] + rest[0]] + rest[1..];
        assert Join(parts, sep) == [s[0]] + Join(rest, sep) by {
          if |rest| > 1 {
            assert parts[1..] == rest[1..];
          }
        }
        parts
  }

  /** Splitting distributes over a separator between two strings. */
  lemma {:induction false} SplitConcat(a: string, b: string, sep: char)
    ensures Split(a + [sep] + b, sep) == Split(a, sep) + Split(b, sep)
    decreases |a|
  {
    var s := a + [sep] + b;
    if a == [] {
      assert s[1..] == b;
    } else {
      assert s[1..] == a[1..] + [sep] + b;
      SplitConcat(a[1..], b, sep);
    }
  }

  lemma {:induction false} SplitNoSep(a: string, sep: char)
    requires sep !in a
    ensures Split(a, sep) == [a]
    decreases |a|
  {
    if a != [] {
      SplitNoSep(a[1..], sep);
    }
  }

  /** Splitting joined pieces gives the pieces back when none holds the separator. */
  lemma {:induction false} SplitJoin(parts: seq<string>, sep: char)
    requires |parts| >= 1
    requires forall i :: 0 <= i < |parts| ==> sep !in parts[i]
    ensures Split(Join(parts, sep), sep) == parts
    decreases |parts|
  {
    SplitNoSep(parts[0], sep);
    if |parts| > 1 {
      SplitConcat(parts[0], Join(parts[1..], sep), sep);
      SplitJoin(parts[1..], sep);
      assert [parts[0]] + parts[1..] == parts;
    }
  }
}
