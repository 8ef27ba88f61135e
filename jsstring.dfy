/**
 * The few JavaScript string operations the scripts use: `startsWith`,
 * `split` on a one-character separator, `replace` of the first occurrence
 * of a string, and substring search (used to state what error messages name).
 */
module JsString {

  /** `s.startsWith(prefix)` */
  predicate StartsWith(s: string, prefix: string) {
    |prefix| <= |s| && s[..|prefix|] == prefix
  }

  /** `s` occurs in `t` starting at index `i`. */
  predicate OccursAt(t: string, s: string, i: int) {
    0 <= i && i + |s| <= |t| && t[i..i + |s|] == s
  }

  /** `t.includes(s)`: `s` occurs somewhere in `t`. */
  predicate Contains(t: string, s: string) {
    exists i :: 0 <= i <= |t| - |s| && OccursAt(t, s, i)
  }

  lemma ContainsSelf(s: string)
    ensures Contains(s, s)
  {
    assert s[0..|s|] == s;
    assert OccursAt(s, s, 0);
  }

  lemma ContainsExtendRight(t: string, s: string, c: string)
    requires Contains(t, s)
    ensures Contains(t + c, s)
  {
    var i :| 0 <= i <= |t| - |s| && OccursAt(t, s, i);
    assert (t + c)[i..i + |s|] == t[i..i + |s|];
    assert OccursAt(t + c, s, i);
  }

  lemma ContainsExtendLeft(c: string, t: string, s: string)
    requires Contains(t, s)
    ensures Contains(c + t, s)
  {
    var i :| 0 <= i <= |t| - |s| && OccursAt(t, s, i);
    assert (c + t)[|c| + i..|c| + i + |s|] == t[i..i + |s|];
    assert OccursAt(c + t, s, |c| + i);
  }

  /** `b` occurs in `a + b + c`. */
  lemma ContainsMiddle(a: string, b: string, c: string)
    ensures Contains(a + b + c, b)
  {
    ContainsSelf(b);
    ContainsExtendLeft(a, b, b);
    ContainsExtendRight(a + b, b, c);
  }

  /**
   * `s.split(sep)` for a one-character separator: the pieces between
   * separators, never fewer than one ("".split("\n") is [""]).
   */
  function Split(s: string, sep: char): (parts: seq<string>)
    ensures |parts| >= 1
    ensures forall k :: 0 <= k < |parts| ==> sep !in parts[k]
  {
    if s == [] then [""]
    else
      var rest := Split(s[1..], sep);
      if s[0] == sep then [""] + rest
      else [[s[0]] + rest[0]] + rest[1..]
  }

  /** `parts.join(sep)`, the inverse of Split. */
  function Join(parts: seq<string>, sep: char): string
    requires |parts| >= 1
  {
    if |parts| == 1 then parts[0]
    else parts[0] + [sep] + Join(parts[1..], sep)
  }

  lemma {:induction false} JoinSplit(s: string, sep: char)
    ensures Join(Split(s, sep), sep) == s
  {
    if s != [] {
      JoinSplit(s[1..], sep);
      var rest := Split(s[1..], sep);
      if s[0] != sep && |rest| > 1 {
        assert Join(rest, sep) == rest[0] + [sep] + Join(rest[1..], sep);
        assert rest[1..][1..] == rest[2..];
      }
    }
  }

  lemma {:induction false} SplitWithoutSeparator(a: string, sep: char)
    requires sep !in a
    ensures Split(a, sep) == [a]
  {
    if a != [] {
      SplitWithoutSeparator(a[1..], sep);
      assert [a[0]] + a[1..] == a;
    }
  }

  lemma {:induction false} SplitAtFirstSeparator(a: string, rest: string, sep: char)
    requires sep !in a
    ensures Split(a + [sep] + rest, sep) == [a] + Split(rest, sep)
  {
    var s := a + [sep] + rest;
    if a == [] {
      assert s[1..] == rest;
    } else {
      assert s[1..] == a[1..] + [sep] + rest;
      SplitAtFirstSeparator(a[1..], rest, sep);
      assert [a[0]] + a[1..] == a;
    }
  }

  lemma {:induction false} SplitJoin(parts: seq<string>, sep: char)
    requires |parts| >= 1
    requires forall k :: 0 <= k < |parts| ==> sep !in parts[k]
    ensures Split(Join(parts, sep), sep) == parts
  {
    if |parts| == 1 {
      SplitWithoutSeparator(parts[0], sep);
    } else {
      SplitJoin(parts[1..], sep);
      SplitAtFirstSeparator(parts[0], Join(parts[1..], sep), sep);
    }
  }

  /**
   * `s.replace(pat, rep)` with a string pattern: only the first occurrence
   * is replaced; without any occurrence `s` comes back unchanged.
   */
  function ReplaceFirst(s: string, pat: string, rep: string): (r: string)
    ensures Contains(s, pat) || r == s
  {
    if StartsWith(s, pat) then
      assert OccursAt(s, pat, 0);
      rep + s[|pat|..]
    else if s == [] then s
    else
      var tail := ReplaceFirst(s[1..], pat, rep);
      if Contains(s[1..], pat) then
        var i :| OccursAt(s[1..], pat, i);
        assert OccursAt(s, pat, i + 1);
        [s[0]] + tail
      else
        assert [s[0]] + s[1..] == s;
        [s[0]] + tail
  }

  lemma ReplaceLeadingPrefix(s: string, pat: string)
    requires StartsWith(s, pat)
    ensures ReplaceFirst(s, pat, "") == s[|pat|..]
  {
  }

  /**
   * If a separator that `p` does not contain ends the first field `a`,
   * the whole line starts with `p` exactly when `a` does.
   */
  lemma StartsWithFirstField(a: string, rest: string, sep: char, p: string)
    requires sep !in a && sep !in p
    ensures StartsWith(a + [sep] + rest, p) <==> StartsWith(a, p)
  {
    var s := a + [sep] + rest;
    if |p| <= |a| {
      assert s[..|p|] == a[..|p|];
    } else if |p| <= |s| {
      assert s[..|p|][|a|] == sep != p[|a|];
    }
  }
}
