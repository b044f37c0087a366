/** Sequence and string operations with the meaning Python gives them:
    the slice `s[:n]`, the substring test `pat in s`, and `sep.join(parts)`
    together with `s.split(sep)` for a one-character separator, which it undoes. */
module Text {

  function Min(a: int, b: int): (r: int) {
    if a <= b then a else b
  }

  function Max(a: int, b: int): (r: int) {
    if a <= b then b else a
  }

  /** The first `n` elements of `s`: all of `s` when it is shorter than `n`,
      nothing when `n` is not positive. */
  function Take<T>(s: seq<T>, n: int): (r: seq<T>)
    ensures r <= s
    ensures |r| == if n <= 0 then 0 else Min(n, |s|)
    decreases |s|
  {
    if n <= 0 || |s| == 0 then [] else [s[0]] + Take(s[1..], n - 1)
  }

  /** Python's `s[:n]`: a negative bound counts from the end of `s`,
      and a bound past either end is clamped. */
  function SliceTo<T>(s: seq<T>, n: int): (r: seq<T>)
    ensures r <= s
    ensures n >= 0 ==> |r| == Min(n, |s|)
    ensures n < 0 ==> |r| == Max(0, |s| + n)
  {
    if n >= 0 then Take(s, n) else Take(s, |s| + n)
  }

  /** A prefix is determined by its length. */
  lemma PrefixByLength<T>(r: seq<T>, s: seq<T>, n: nat)
    requires r <= s && |r| == n
    ensures r == s[..n]
  {
  }

  lemma PrefixOfAppend<T>(a: seq<T>, b: seq<T>)
    ensures a <= a + b
  {
    assert (a + b)[..|a|] == a;
  }

  lemma SplitAt<T>(s: seq<T>, j: int)
    requires 0 <= j <= |s|
    ensures s[..j] + s[j..] == s
  {
  }

  lemma PrefixTrans<T>(a: seq<T>, b: seq<T>, c: seq<T>)
    requires a <= b && b <= c
    ensures a <= c
  {
    assert c[..|b|] == b;
    assert c[..|a|] == b[..|a|];
  }

  /** `pat` occurs in `s` starting at index `i`. */
  predicate OccursAt(s: string, pat: string, i: int) {
    0 <= i <= |s| && pat <= s[i..]
  }

  /** Python's `pat in s` on strings. */
  predicate Contains(s: string, pat: string)
    decreases |s|
  {
    pat <= s || (|s| > 0 && Contains(s[1..], pat))
  }

  /** `Contains` holds exactly when `pat` occurs somewhere in `s`. */
  lemma {:induction false} ContainsIffOccurs(s: string, pat: string)
    ensures Contains(s, pat) <==> exists i :: OccursAt(s, pat, i)
    decreases |s|
  {
    if Contains(s, pat) {
      if pat <= s {
        assert OccursAt(s, pat, 0);
      } else {
        ContainsIffOccurs(s[1..], pat);
        var i :| OccursAt(s[1..], pat, i);
        assert s[1..][i..] == s[i + 1..];
        assert OccursAt(s, pat, i + 1);
      }
    }
    if exists i :: OccursAt(s, pat, i) {
      var i :| OccursAt(s, pat, i);
      if i > 0 {
        assert s[1..][i - 1..] == s[i..];
        assert OccursAt(s[1..], pat, i - 1);
        ContainsIffOccurs(s[1..], pat);
      }
    }
  }

  /** Python's `sep.join(parts)`. */
  function Join(parts: seq<string>, sep: string): (r: string)
    decreases |parts|
  {
    if |parts| == 0 then ""
    else if |parts| == 1 then parts[0]
    else parts[0] + sep + Join(parts[1..], sep)
  }

  /** Python's `s.split(c)` for a one-character separator: every occurrence
      of `c` ends a piece, so there is always at least one piece. */
  function Split(s: string, c: char): (r: seq<string>)
    ensures |r| >= 1
    decreases |s|
  {
    if |s| == 0 then [""]
    else
      var rest := Split(s[1..], c);
      if s[0] == c then [""] + rest else [[s[0]] + rest[0]] + rest[1..]
  }

  /** Total length of all parts. */
  function TotalLength(parts: seq<string>): (r: nat)
    decreases |parts|
  {
    if |parts| == 0 then 0 else |parts[0]| + TotalLength(parts[1..])
  }

  /** A join is as long as its parts plus one separator between each two. */
  lemma {:induction false} JoinLength(parts: seq<string>, sep: string)
    requires |parts| >= 1
    ensures |Join(parts, sep)| == TotalLength(parts) + (|parts| - 1) * |sep|
    decreases |parts|
  {
    if |parts| > 1 {
      JoinLength(parts[1..], sep);
    }
  }

  /** Joining two non-empty lists of parts one after the other puts one
      separator between the two joins, whatever the parts contain. */
  lemma {:induction false} JoinAppend(a: seq<string>, b: seq<string>, sep: string)
    requires |a| >= 1 && |b| >= 1
    ensures Join(a + b, sep) == Join(a, sep) + sep + Join(b, sep)
    decreases |a|
  {
    assert (a + b)[0] == a[0] && (a + b)[1..] == a[1..] + b;
    if |a| > 1 {
      JoinAppend(a[1..], b, sep);
    } else {
      assert a[1..] + b == b;
    }
  }

  /** Joining the pieces of a split gives back the string. */
  lemma {:induction false} JoinSplit(s: string, c: char)
    ensures Join(Split(s, c), [c]) == s
    decreases |s|
  {
    if |s| > 0 {
      var rest := Split(s[1..], c);
      JoinSplit(s[1..], c);
      if s[0] == c {
        assert ([""] + rest)[1..] == rest;
      } else {
        var r := [[s[0]] + rest[0]] + rest[1..];
        if |rest| > 1 {
          assert r[1..] == rest[1..];
          assert Join(rest, [c]) == rest[0] + [c] + Join(rest[1..], [c]);
        }
      }
    }
  }
}
