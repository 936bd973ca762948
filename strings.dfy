/** The JavaScript string operations the handlers rely on: truthiness of a
    possibly missing field, `toLowerCase`, `startsWith`/`endsWith`/`includes`,
    `trim`, `split` and `join`. */
module Strings {
  import opened Wrappers

  /** JavaScript truthiness of a possibly missing string: present and not "". */
  predicate Truthy(s: Option<string>) {
    s.Some? && s.value != ""
  }

  /** `s || fallback` for a possibly missing string. */
  function Or(s: Option<string>, fallback: string): string {
    if Truthy(s) then s.value else fallback
  }

  /** Case folding, restricted to ASCII letters. */
  function Lower(c: char): char {
    if 'A' <= c <= 'Z' then (c as int + 32) as char else c
  }

  function ToLower(s: string): (r: string)
    ensures |r| == |s|
    ensures forall i :: 0 <= i < |s| ==> r[i] == Lower(s[i])
  {
    if s == [] then [] else [Lower(s[0])] + ToLower(s[1..])
  }

  /** The characters JavaScript's `trim` and the regex class `\s` treat as white space. */
  predicate IsSpace(c: char) {
    var n := c as int;
    n == 0x09 || n == 0x0A || n == 0x0B || n == 0x0C || n == 0x0D || n == 0x20 ||
    n == 0xA0 || n == 0x1680 || (0x2000 <= n <= 0x200A) || n == 0x2028 || n == 0x2029 ||
    n == 0x202F || n == 0x205F || n == 0x3000 || n == 0xFEFF
  }

  predicate AllSpace(s: string) {
    forall i :: 0 <= i < |s| ==> IsSpace(s[i])
  }

  predicate StartsWith(s: string, prefix: string) {
    |prefix| <= |s| && s[..|prefix|] == prefix
  }

  predicate EndsWith(s: string, suffix: string) {
    |suffix| <= |s| && s[|s| - |suffix|..] == suffix
  }

  /** `s.includes(t)`: `t` occurs in `s` at some position. */
  predicate Contains(s: string, t: string)
    decreases |s|
  {
    StartsWith(s, t) || (|s| > 0 && Contains(s[1..], t))
  }

  /** A case-insensitive `includes`, the model of a `$regex` filter with option `i`. */
  predicate ContainsCI(s: string, t: string) {
    Contains(ToLower(s), ToLower(t))
  }

  /** A `$regex`/`i` condition on a document field: a missing field never matches. */
  predicate FieldContainsCI(field: Option<string>, t: string) {
    field.Some? && ContainsCI(field.value, t)
  }

  function TrimStart(s: string): (r: string)
    ensures |r| <= |s| && r == s[|s| - |r|..]
    ensures r == [] || !IsSpace(r[0])
    ensures AllSpace(s[..|s| - |r|])
    decreases |s|
  {
    if |s| > 0 && IsSpace(s[0]) then
      var r := TrimStart(s[1..]);
      assert s[1..][|s| - 1 - |r|..] == s[|s| - |r|..];
      AllSpaceCons(s, |s| - |r|);
      r
    else s
  }

  lemma AllSpaceCons(s: string, n: int)
    requires 0 < n <= |s| && IsSpace(s[0]) && AllSpace(s[1..][..n - 1])
    ensures AllSpace(s[..n])
  {
    var head, tail := s[..n], s[1..][..n - 1];
    forall i | 0 < i < n ensures IsSpace(head[i]) {
      assert head[i] == tail[i - 1];
    }
  }

  function TrimEnd(s: string): (r: string)
    ensures |r| <= |s| && r == s[..|r|]
    ensures r == [] || !IsSpace(r[|r| - 1])
    ensures AllSpace(s[|r|..])
    decreases |s|
  {
    if |s| > 0 && IsSpace(s[|s| - 1]) then
      var r := TrimEnd(s[..|s| - 1]);
      assert s[..|s| - 1][..|r|] == s[..|r|];
      AllSpaceSnoc(s, |r|);
      r
    else s
  }

  lemma AllSpaceSnoc(s: string, n: int)
    requires 0 <= n < |s| && IsSpace(s[|s| - 1]) && AllSpace(s[..|s| - 1][n..])
    ensures AllSpace(s[n..])
  {
    var whole, init := s[n..], s[..|s| - 1][n..];
    forall i | 0 <= i < |whole| - 1 ensures IsSpace(whole[i]) {
      assert whole[i] == init[i];
    }
    assert whole[|whole| - 1] == s[|s| - 1];
  }

  /** `s.trim()`: the result has no white space at either end, and it is empty
      exactly when `s` is all white space. */
  function Trim(s: string): (r: string)
    ensures r == [] || (!IsSpace(r[0]) && !IsSpace(r[|r| - 1]))
    ensures r == [] <==> AllSpace(s)
  {
    var t := TrimStart(s);
    var r := TrimEnd(t);
    assert r == [] ==> AllSpace(s) by {
      if r == [] {
        assert AllSpace(t);
        assert s == s[..|s| - |t|] + t;
      }
    }
    r
  }

  lemma TrimKeepsTrimmed(s: string)
    requires s == [] || (!IsSpace(s[0]) && !IsSpace(s[|s| - 1]))
    ensures Trim(s) == s
  {
  }

  /** What separates the fields of `split`: one given character, or any white space. */
  datatype Separator = Char(c: char) | Space

  predicate IsSep(sep: Separator, c: char) {
    match sep
    case Char(d) => c == d
    case Space => IsSpace(c)
  }

  predicate NoSep(s: string, sep: Separator) {
    forall i :: 0 <= i < |s| ==> !IsSep(sep, s[i])
  }

  /** `s.split(sep)`: the fields between separators, empty ones included. */
  function SplitOn(s: string, sep: Separator): (parts: seq<string>)
    ensures |parts| >= 1
    ensures forall i :: 0 <= i < |parts| ==> NoSep(parts[i], sep)
    decreases |s|
  {
    if s == [] then [""]
    else
      var rest := SplitOn(s[1..], sep);
      if IsSep(sep, s[0]) then [""] + rest
      else [[s[0]] + rest[0]] + rest[1..]
  }

  function Split(s: string, c: char): (parts: seq<string>)
    ensures |parts| >= 1
    ensures forall i :: 0 <= i < |parts| ==> c !in parts[i]
  {
    var parts := SplitOn(s, Char(c));
    assert forall i :: 0 <= i < |parts| ==> c !in parts[i] by {
      forall i | 0 <= i < |parts| ensures c !in parts[i] {
        assert NoSep(parts[i], Char(c));
      }
    }
    parts
  }

  /** A field followed by a separator splits off as the first field. */
  lemma {:induction false} SplitOnCons(a: string, m: char, b: string, sep: Separator)
    requires NoSep(a, sep) && IsSep(sep, m)
    ensures SplitOn(a + [m] + b, sep) == [a] + SplitOn(b, sep)
    decreases |a|
  {
    var s := a + [m] + b;
    if a == [] {
      assert s[1..] == b;
    } else {
      assert s[1..] == a[1..] + [m] + b;
      SplitOnCons(a[1..], m, b, sep);
      assert [a[0]] + a[1..] == a;
    }
  }

  /** A string without separators is a single field. */
  lemma {:induction false} SplitOnNone(a: string, sep: Separator)
    requires NoSep(a, sep)
    ensures SplitOn(a, sep) == [a]
    decreases |a|
  {
    if a != [] {
      SplitOnNone(a[1..], sep);
      assert [a[0]] + a[1..] == a;
    }
  }

  /** `xs.join(sep)`. */
  function Join(xs: seq<string>, sep: string): string
    decreases |xs|
  {
    if |xs| == 0 then ""
    else if |xs| == 1 then xs[0]
    else xs[0] + sep + Join(xs[1..], sep)
  }

  /** Splitting a join on a character that no part contains gives the parts back. */
  lemma {:induction false} SplitJoin(xs: seq<string>, c: char)
    requires |xs| >= 1
    requires forall i :: 0 <= i < |xs| ==> c !in xs[i]
    ensures Split(Join(xs, [c]), c) == xs
    decreases |xs|
  {
    if |xs| == 1 {
      SplitOnNone(xs[0], Char(c));
    } else {
      SplitJoin(xs[1..], c);
      assert Join(xs, [c]) == xs[0] + [c] + Join(xs[1..], [c]);
      SplitOnCons(xs[0], c, Join(xs[1..], [c]), Char(c));
      assert xs == [xs[0]] + xs[1..];
    }
  }

  /** The first field of a split is the longest prefix without the separator:
      it is followed by the separator or it is the whole string. */
  lemma {:induction false} SplitHead(s: string, c: char)
    ensures var f := Split(s, c)[0];
      StartsWith(s, f) && c !in f && (|f| == |s| || s[|f|] == c)
    decreases |s|
  {
    if s != [] && s[0] != c {
      SplitHead(s[1..], c);
      var f := Split(s[1..], c)[0];
      assert Split(s, c)[0] == [s[0]] + f;
      assert s == [s[0]] + s[1..];
    }
  }

  /** The fields of a string that starts with `/seg/` are "", `seg` and the
      fields of the rest. */
  lemma SplitPrefixed(seg: string, rest: string, c: char)
    requires c !in seg
    ensures Split([c] + seg + [c] + rest, c) == ["", seg] + Split(rest, c)
  {
    assert NoSep(seg, Char(c));
    SplitOnCons(seg, c, rest, Char(c));
    assert [c] + seg + [c] + rest == [] + [c] + (seg + [c] + rest);
    SplitOnCons([], c, seg + [c] + rest, Char(c));
  }

  /** Every field of a split is made of characters of the input, so a
      property of every input character holds of every field character. */
  lemma {:induction false} SplitOnKeeps(s: string, sep: Separator, p: char -> bool)
    requires forall i :: 0 <= i < |s| ==> p(s[i])
    ensures forall i, j :: 0 <= i < |SplitOn(s, sep)| && 0 <= j < |SplitOn(s, sep)[i]| ==> p(SplitOn(s, sep)[i][j])
    decreases |s|
  {
    var parts := SplitOn(s, sep);
    if s != [] {
      var rest := SplitOn(s[1..], sep);
      assert forall i :: 0 <= i < |s[1..]| ==> p(s[1..][i]) by {
        forall i | 0 <= i < |s[1..]| ensures p(s[1..][i]) {
          assert s[1..][i] == s[i + 1];
        }
      }
      SplitOnKeeps(s[1..], sep, p);
      forall i, j | 0 <= i < |parts| && 0 <= j < |parts[i]| ensures p(parts[i][j]) {
        if IsSep(sep, s[0]) {
          assert parts == [""] + rest;
          assert parts[i] == rest[i - 1];
        } else {
          assert parts == [[s[0]] + rest[0]] + rest[1..];
          if i > 0 {
            assert parts[i] == rest[i];
          } else if j > 0 {
            assert parts[i][j] == rest[0][j - 1];
          } else {
            assert parts[i][j] == s[0];
          }
        }
      }
    }
  }

  /** No white space at either end. */
  predicate Trimmed(s: string) {
    s == [] || (!IsSpace(s[0]) && !IsSpace(s[|s| - 1]))
  }

  /** `core` is `s` without the white space at either end: a slice of `s`
      with only white space before and after it, and none at its own ends. */
  predicate TrimOf(core: string, s: string) {
    Trimmed(core) &&
    exists a, b :: 0 <= a <= b <= |s| && core == s[a..b] && AllSpace(s[..a]) && AllSpace(s[b..])
  }

  /** `trim` cuts white space off both ends and nothing else. */
  lemma TrimIsSlice(s: string)
    ensures TrimOf(Trim(s), s)
  {
    var t := TrimStart(s);
    var r := TrimEnd(t);
    assert r == Trim(s);
    var a := |s| - |t|;
    var b := a + |r|;
    assert t == s[a..];
    assert r == t[..|r|];
    assert t[..|r|] == s[a..b];
    assert t[|r|..] == s[b..];
    assert AllSpace(s[..a]) && AllSpace(s[b..]);
  }

  /** Trimming adds no character. */
  lemma TrimChars(s: string, c: char)
    requires c in Trim(s)
    ensures c in s
  {
    var t := TrimStart(s);
    var r := TrimEnd(t);
    assert r == Trim(s);
    var j :| 0 <= j < |r| && r[j] == c;
    assert t[j] == c;
    assert s[|s| - |t| + j] == c;
  }

  /** The first part of a join is its start. */
  lemma JoinStart(xs: seq<string>, sep: string)
    requires |xs| >= 1
    ensures StartsWith(Join(xs, sep), xs[0])
  {
    if |xs| > 1 {
      assert Join(xs, sep) == xs[0] + (sep + Join(xs[1..], sep));
    }
  }
}
