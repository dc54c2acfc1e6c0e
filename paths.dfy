/**
 * The POSIX path helpers the core relies on: os.path.join with two
 * arguments and os.path.basename, both on strings.
 */
module Paths {

  /** str.endswith. */
  predicate EndsWith(s: string, suffix: string) {
    |suffix| <= |s| && s[|s| - |suffix|..] == suffix
  }

  /** s ends with suffix exactly when its last |suffix| characters are those of suffix, one by one. */
  lemma EndsWithCharacters(s: string, suffix: string)
    ensures EndsWith(s, suffix) <==> |suffix| <= |s| && forall i :: 0 <= i < |suffix| ==> s[|s| - |suffix| + i] == suffix[i]
  {
    if |suffix| <= |s| && forall i :: 0 <= i < |suffix| ==> s[|s| - |suffix| + i] == suffix[i] {
      assert s[|s| - |suffix|..] == suffix;
    }
  }

  predicate IsAbsolute(p: string) {
    |p| > 0 && p[0] == '/'
  }

  /**
   * os.path.join(a, b): an absolute b replaces a; otherwise b is appended,
   * with a '/' in between unless a is empty or already ends in one.
   */
  function Join(a: string, b: string): (r: string)
    ensures EndsWith(r, b)
    ensures !IsAbsolute(b) ==> |a| <= |r| && r[..|a|] == a
  {
    if IsAbsolute(b) then b
    else if a == [] || a[|a| - 1] == '/' then a + b
    else a + "/" + b
  }

  /** os.path.basename(p): whatever follows the last '/' of p, or p itself when it has none. */
  function Basename(p: string): (b: string)
    ensures '/' !in b
    ensures EndsWith(p, b)
    ensures |b| < |p| ==> p[|p| - |b| - 1] == '/'
    decreases |p|
  {
    if p == [] || p[|p| - 1] == '/' then []
    else Basename(p[..|p| - 1]) + [p[|p| - 1]]
  }

  /** The basename of "<dir>/<name>" is name, as long as name holds no '/'. */
  lemma BasenameAfterSeparator(dir: string, name: string)
    requires '/' !in name
    ensures Basename(dir + "/" + name) == name
  {
    var p := dir + "/" + name;
    var b := Basename(p);
    assert p[|p| - |name| - 1] == '/';
    assert p[|p| - |name|..] == name;
    if |b| != |name| {
      assert false;
    }
  }
}
