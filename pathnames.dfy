/**
 * The Windows path operations (`os.path` as `ntpath`) the program applies to
 * folder and file names: join, basename and splitext. Drive letters are not
 * modelled; both `\` and `/` separate components.
 */
module PathNames {

  predicate IsSep(c: char)
  {
    c == '\\' || c == '/'
  }

  predicate HasSep(s: string)
  {
    exists i :: 0 <= i < |s| && IsSep(s[i])
  }

  /** `os.path.join(a, b)`: an absolute `b` wins, otherwise one separator between. */
  function Join(a: string, b: string): string
  {
    if |b| > 0 && IsSep(b[0]) then b
    else if a == "" then a + b
    else if IsSep(a[|a| - 1]) then a + b
    else a + "\\" + b
  }

  /** Length of the last path component. */
  function BaseLen(p: string): (n: nat)
    ensures n <= |p|
    ensures forall k :: |p| - n <= k < |p| ==> !IsSep(p[k])
    ensures n < |p| ==> IsSep(p[|p| - n - 1])
  {
    if |p| == 0 || IsSep(p[|p| - 1]) then 0 else 1 + BaseLen(p[..|p| - 1])
  }

  /** `os.path.basename(p)`: everything after the last separator. */
  function Basename(p: string): (r: string)
    ensures !HasSep(r)
    ensures EndsWithPath(p, r)
    ensures |r| < |p| ==> IsSep(p[|p| - |r| - 1])
  {
    p[|p| - BaseLen(p)..]
  }

  predicate EndsWithPath(p: string, r: string)
  {
    |r| <= |p| && p[|p| - |r|..] == r
  }

  /** BaseLen is determined by where the last separator stands. */
  lemma BaseLenIs(p: string, n: nat)
    requires n <= |p|
    requires forall k :: |p| - n <= k < |p| ==> !IsSep(p[k])
    requires n < |p| ==> IsSep(p[|p| - n - 1])
    ensures BaseLen(p) == n
  {
  }

  /** A separator-free name joined onto a folder is that entry's basename. */
  lemma BasenameOfJoin(folder: string, name: string)
    requires !HasSep(name)
    ensures Basename(Join(folder, name)) == name
  {
    var p := Join(folder, name);
    assert p[|p| - |name|..] == name;
    BaseLenIs(p, |name|);
  }

  /** Length of the trailing run of the last component that holds no dot. */
  function NoDotTail(b: string): (n: nat)
    ensures n <= |b|
    ensures forall k :: |b| - n <= k < |b| ==> b[k] != '.'
    ensures n < |b| ==> b[|b| - n - 1] == '.'
  {
    if |b| == 0 || b[|b| - 1] == '.' then 0 else 1 + NoDotTail(b[..|b| - 1])
  }

  predicate AllDots(s: string)
  {
    forall k :: 0 <= k < |s| ==> s[k] == '.'
  }

  /**
   * The extension `os.path.splitext(p)[1]`: from the last dot of the last
   * component, provided that dot is preceded by something other than dots in
   * that component (so `.png` alone has no extension).
   */
  function Ext(p: string): (e: string)
    ensures e == "" || (e[0] == '.' && EndsWithPath(p, e))
    ensures e != "" ==> forall k :: 1 <= k < |e| ==> e[k] != '.' && !IsSep(e[k])
  {
    var b := Basename(p);
    var t := NoDotTail(b);
    if t == |b| then ""
    else
      var d := |b| - t - 1;
      if AllDots(b[..d]) then ""
      else
        assert p[|p| - |b|..][d..] == p[|p| - |b| + d..];
        b[d..]
  }

  /** The stem `os.path.splitext(p)[0]`: `p` without its extension. */
  function Stem(p: string): (r: string)
    ensures r + Ext(p) == p
  {
    var n := |p| - |Ext(p)|;
    TakeDrop(p, n);
    p[..n]
  }

  lemma TakeDrop(p: string, n: nat)
    requires n <= |p|
    ensures p[..n] + p[n..] == p
  {
  }

  /** NoDotTail is determined by where the last dot stands. */
  lemma NoDotTailIs(b: string, n: nat)
    requires n <= |b|
    requires forall k :: |b| - n <= k < |b| ==> b[k] != '.'
    requires n < |b| ==> b[|b| - n - 1] == '.'
    ensures NoDotTail(b) == n
  {
  }

  /** A separator-free component is its own basename. */
  lemma BasenameWhole(p: string)
    requires !HasSep(p)
    ensures Basename(p) == p
  {
    BaseLenIs(p, |p|);
  }

  /** Appending a suffix without separators keeps a name free of separators. */
  lemma NoSepAppend(x: string, e: string)
    requires !HasSep(x)
    requires forall k :: 0 <= k < |e| ==> !IsSep(e[k])
    ensures !HasSep(x + e)
  {
    var p := x + e;
    forall i | 0 <= i < |p| ensures !IsSep(p[i]) {
      if i < |x| { assert p[i] == x[i]; } else { assert p[i] == e[i - |x|]; }
    }
  }

  /**
   * A separator-free name that does not start with a dot, followed by a
   * suffix made of one dot and then neither dots nor separators: that suffix
   * is the extension and the name is the stem.
   */
  lemma {:induction false} ExtOfSuffix(x: string, e: string)
    requires !HasSep(x) && |x| > 0 && x[0] != '.'
    requires |e| > 0 && e[0] == '.'
    requires forall k :: 1 <= k < |e| ==> e[k] != '.' && !IsSep(e[k])
    ensures Ext(x + e) == e
    ensures Stem(x + e) == x
  {
    var p := x + e;
    NoSepAppend(x, e);
    BasenameWhole(p);
    forall k | |p| - (|e| - 1) <= k < |p| ensures p[k] != '.' {
      assert p[k] == e[k - |x|];
    }
    assert p[|x|] == e[0];
    NoDotTailIs(p, |e| - 1);
    var head := p[..|x|];
    assert head == x;
    assert !AllDots(head);
    assert p[|x|..] == e;
  }

  /** The extension of a path is decided by its last component alone. */
  lemma ExtOfJoin(folder: string, name: string)
    requires !HasSep(name)
    ensures Ext(Join(folder, name)) == Ext(name)
  {
    BasenameOfJoin(folder, name);
    BasenameWhole(name);
  }

  /** A separator-free name that ends in `.png` after a non-dot character has `.png` as extension and the rest as stem. */
  lemma ExtOfPng(x: string)
    requires !HasSep(x) && |x| > 0 && x[0] != '.'
    ensures Ext(x + ".png") == ".png"
    ensures Stem(x + ".png") == x
  {
    ExtOfSuffix(x, ".png");
  }
}
