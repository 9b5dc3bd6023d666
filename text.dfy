/**
 The string operations the script relies on, each with the meaning Python gives it:
 `str.endswith`, the `in` test on strings, `str.split('.')[-1]` and `os.path.join`
 on a POSIX system.
 */
module Text {

  /** Python's `s.endswith(suffix)`. */
  predicate EndsWith(s: string, suffix: string) {
    |suffix| <= |s| && s[|s| - |suffix|..] == suffix
  }

  /** `sub` occurs in `s` starting at index `i`. */
  predicate OccursAt(s: string, sub: string, i: int) {
    0 <= i && i + |sub| <= |s| && s[i..i + |sub|] == sub
  }

  /** An occurrence in `s[1..]` is an occurrence in `s` one position further on, and back. */
  lemma OccursInTail(s: string, sub: string)
    requires |s| > 0
    ensures (exists i :: OccursAt(s[1..], sub, i)) <==> (exists i :: i > 0 && OccursAt(s, sub, i))
  {
    if i :| OccursAt(s[1..], sub, i) {
      assert s[1..][i..i + |sub|] == s[i + 1..i + 1 + |sub|];
      assert OccursAt(s, sub, i + 1);
    }
    if i :| i > 0 && OccursAt(s, sub, i) {
      assert s[1..][i - 1..i - 1 + |sub|] == s[i..i + |sub|];
      assert OccursAt(s[1..], sub, i - 1);
    }
  }

  /** Python's `sub in s`: true exactly when `sub` occurs somewhere in `s`. */
  function Contains(s: string, sub: string): (r: bool)
    ensures r <==> exists i :: OccursAt(s, sub, i)
    decreases |s|
  {
    if |s| < |sub| then
      false
    else if s[..|sub|] == sub then
      assert OccursAt(s, sub, 0);
      true
    else
      assert !OccursAt(s, sub, 0);
      OccursInTail(s, sub);
      Contains(s[1..], sub)
  }

  /** The index of the last `c` in `s`, or -1 when there is none. */
  function LastIndex(s: string, c: char): (i: int)
    ensures -1 <= i < |s|
    ensures 0 <= i ==> s[i] == c
    ensures forall j :: i < j < |s| ==> s[j] != c
    decreases |s|
  {
    if s == [] then -1
    else if s[|s| - 1] == c then |s| - 1
    else LastIndex(s[..|s| - 1], c)
  }

  /**
   Python's `s.split(c)[-1]`: the text after the last `c`, or all of `s` when it
   has none. The contract pins the result down: a suffix of `s` free of `c` that is
   either all of `s` or preceded by a `c`.
   */
  function AfterLast(s: string, c: char): (r: string)
    ensures |r| <= |s| && r == s[|s| - |r|..]
    ensures c !in r
    ensures |r| < |s| ==> s[|s| - |r| - 1] == c
  {
    s[LastIndex(s, c) + 1..]
  }

  /** The text after the last `c` of `stem + [c] + tail` is `tail`, when `tail` has no `c`. */
  lemma AfterLastSeparator(stem: string, c: char, tail: string)
    requires c !in tail
    ensures AfterLast(stem + [c] + tail, c) == tail
  {
    var s := stem + [c] + tail;
    assert s[|s| - |tail| - 1] == c;
    assert s[|s| - |tail|..] == tail;
  }

  /** A path that `os.path.join` keeps as it is. */
  predicate Absolute(p: string) {
    |p| > 0 && p[0] == '/'
  }

  /**
   Python's `os.path.join(a, b)` on POSIX: an absolute `b` replaces `a`; otherwise
   `b` is appended to `a` with one `/` between them unless `a` is empty or already
   ends with one.
   */
  function Join(a: string, b: string): string {
    if Absolute(b) then b
    else if a == [] || a[|a| - 1] == '/' then a + b
    else a + "/" + b
  }

  /**
   The joined path always ends with `b`, so a file keeps its name; an absolute `b`
   is the whole result, a relative one follows `a` and at most one added `/`.
   */
  lemma JoinKeepsName(a: string, b: string)
    ensures EndsWith(Join(a, b), b)
    ensures Join(a, b) == b || Join(a, b) == a + b || Join(a, b) == a + "/" + b
    ensures Absolute(b) ==> Join(a, b) == b
    ensures !Absolute(b) ==> |a| <= |Join(a, b)| <= |a| + 1 + |b| && Join(a, b)[..|a|] == a
  {
    var r := Join(a, b);
    assert r[|r| - |b|..] == b;
  }

  /** `os.path.join('data', 'downloaded', name)` for a relative name. */
  lemma DownloadedPath(name: string)
    requires !Absolute(name)
    ensures Join(Join("data", "downloaded"), name) == "data/downloaded/" + name
  {
  }

  /** Appending a suffix makes the string end with it. */
  lemma EndsWithAppended(stem: string, suffix: string)
    ensures EndsWith(stem + suffix, suffix)
  {
    assert (stem + suffix)[|stem|..] == suffix;
  }

  /** A string that ends with a non-empty suffix ends with that suffix's last character. */
  lemma EndsWithLastChar(s: string, suffix: string)
    requires EndsWith(s, suffix) && |suffix| > 0
    ensures s[|s| - 1] == suffix[|suffix| - 1]
  {
    assert s[|s| - |suffix|..][|suffix| - 1] == s[|s| - 1];
  }
}
