/**
 * The POSIX path and string helpers the job service uses to lay out a job's
 * workspace and to build public URLs: `str.rfind`, `os.path.join`,
 * `os.path.basename`, the root half of `os.path.splitext` and `str.rstrip`
 * with a single character.
 */
module Paths {

  /** Index of the last occurrence of `c` in `s`, or -1 when there is none (`str.rfind`). */
  function RFind(s: string, c: char): (i: int)
    ensures -1 <= i < |s|
    ensures 0 <= i ==> s[i] == c
    ensures forall k :: i < k < |s| ==> s[k] != c
  {
    if s == [] then -1
    else if s[|s| - 1] == c then |s| - 1
    else RFind(s[..|s| - 1], c)
  }

  /** True when every character of `s` is a dot. */
  predicate AllDots(s: string) {
    forall k :: 0 <= k < |s| ==> s[k] == '.'
  }

  /**
   * `os.path.join(a, b)`: an absolute `b` replaces `a`; otherwise a separator
   * is inserted unless `a` is empty or already ends with one.
   */
  function Join(a: string, b: string): string {
    if |b| > 0 && b[0] == '/' then b
    else if |a| == 0 || a[|a| - 1] == '/' then a + b
    else a + "/" + b
  }

  /**
   * The shape of a join: the second path always ends the result; an
   * absolute one is the whole result; a relative one follows the first path
   * and exactly one separator between them, whether supplied by the first
   * path or inserted (none when the first path is empty).
   */
  lemma JoinShape(a: string, b: string)
    ensures var r := Join(a, b);
      && |b| <= |r| && r[|r| - |b|..] == b
      && (|b| > 0 && b[0] == '/' ==> r == b)
      && ((|b| == 0 || b[0] != '/') ==>
            && |a| <= |r| && r[..|a|] == a
            && |r| - |b| - |a| == (if |a| > 0 && a[|a| - 1] != '/' then 1 else 0)
            && (|a| > 0 ==> r[|r| - |b| - 1] == '/'))
  {
  }

  /** `os.path.basename(p)`: everything after the last separator. */
  function Basename(p: string): (r: string)
    ensures '/' !in r
    ensures |r| <= |p| && r == p[|p| - |r|..]
    ensures |r| == |p| || p[|p| - |r| - 1] == '/'
  {
    var i := RFind(p, '/');
    NoneAfter(p, '/', i + 1);
    p[i + 1..]
  }

  /**
   * The root half of `os.path.splitext(p)`: `p` without its extension. The
   * extension starts at the last dot of the last path component, provided
   * some character before that dot in the component is not a dot (so
   * leading dots, as in ".profile", never start an extension).
   */
  function SplitExtRoot(p: string): string {
    var sep := RFind(p, '/');
    var dot := RFind(p, '.');
    if dot > sep && !AllDots(p[sep + 1..dot]) then p[..dot] else p
  }

  /**
   * What `SplitExtRoot` removes is exactly an extension: a dot followed by
   * neither dots nor separators, after a non-dot character of the last
   * component; and when nothing is removed, the last component has no dot
   * or only leading dots.
   */
  lemma SplitExtRootCases(p: string)
    ensures var r := SplitExtRoot(p);
      && (r != p ==>
            && p[|r|] == '.'
            && '.' !in p[|r| + 1..]
            && '/' !in p[|r| + 1..]
            && !AllDots(p[RFind(p, '/') + 1..|r|]))
      && (r == p ==>
            || '.' !in p[RFind(p, '/') + 1..]
            || AllDots(p[RFind(p, '/') + 1..RFind(p, '.')]))
  {
    var sep := RFind(p, '/');
    var dot := RFind(p, '.');
    if dot > sep && !AllDots(p[sep + 1..dot]) {
      assert SplitExtRoot(p) == p[..dot];
      NoneAfter(p, '.', dot + 1);
      NoneAfter(p, '/', dot + 1);
    } else if dot <= sep {
      assert SplitExtRoot(p) == p;
      NoneAfter(p, '.', sep + 1);
    } else {
      assert SplitExtRoot(p) == p;
    }
  }

  /** The root is a prefix of the path. */
  lemma SplitExtRootPrefix(p: string)
    ensures |SplitExtRoot(p)| <= |p| && SplitExtRoot(p) == p[..|SplitExtRoot(p)|]
  {
    var sep := RFind(p, '/');
    var dot := RFind(p, '.');
    if dot > sep && !AllDots(p[sep + 1..dot]) {
      assert SplitExtRoot(p) == p[..dot];
    } else {
      assert SplitExtRoot(p) == p;
    }
  }

  /** The root of a name without separators has none either. */
  lemma SplitExtRootNoSeparator(p: string)
    requires '/' !in p
    ensures '/' !in SplitExtRoot(p)
  {
    SplitExtRootPrefix(p);
    NotInPrefix(p, '/', |SplitExtRoot(p)|);
  }

  /** A character that occurs nowhere from index `i` on is absent from the suffix starting there. */
  lemma NoneAfter(s: string, c: char, i: nat)
    requires i <= |s| && forall k :: i <= k < |s| ==> s[k] != c
    ensures c !in s[i..]
  {
    assert forall k :: 0 <= k < |s| - i ==> s[i..][k] == s[i + k];
  }

  /** A character absent from `s` is absent from every prefix of it. */
  lemma NotInPrefix(s: string, c: char, n: nat)
    requires n <= |s| && c !in s
    ensures c !in s[..n]
  {
    assert forall k :: 0 <= k < n ==> s[..n][k] == s[k];
  }

  /** `s.rstrip(c)`: `s` with every trailing `c` removed. */
  function RStrip(s: string, c: char): (r: string)
    ensures |r| <= |s| && r == s[..|r|]
    ensures r == [] || r[|r| - 1] != c
    ensures forall k :: |r| <= k < |s| ==> s[k] == c
  {
    if s != [] && s[|s| - 1] == c then RStrip(s[..|s| - 1], c) else s
  }
}
