/** Node's `path.extname` on POSIX paths: the extension of the last path
    segment, from its last `.` to the end, ignoring trailing slashes; a
    segment whose only `.` is its first character (a dot file) and the
    segment `..` have none. */
module Paths {
  import opened Wrappers

  function DropTrailingSlashes(s: string): (r: string)
    ensures r == [] || r[|r| - 1] != '/'
    decreases |s|
  {
    if s != [] && s[|s| - 1] == '/' then DropTrailingSlashes(s[..|s| - 1]) else s
  }

  /** The text after the last `/`. */
  function LastSegment(s: string): (r: string)
    ensures '/' !in r
    decreases |s|
  {
    if s == [] || s[|s| - 1] == '/' then []
    else LastSegment(s[..|s| - 1]) + [s[|s| - 1]]
  }

  /** The index of the last `.`, if any. */
  function LastDot(s: string): (r: Option<nat>)
    ensures r.Some? ==> r.value < |s| && s[r.value] == '.'
    ensures r.None? ==> '.' !in s
    decreases |s|
  {
    if s == [] then None
    else if s[|s| - 1] == '.' then Some(|s| - 1)
    else
      var r := LastDot(s[..|s| - 1]);
      assert s == s[..|s| - 1] + [s[|s| - 1]];
      r
  }

  /** No `.` follows the last one. */
  lemma {:induction false} LastDotIsLast(s: string)
    requires LastDot(s).Some?
    ensures forall k :: LastDot(s).value < k < |s| ==> s[k] != '.'
    decreases |s|
  {
    if s[|s| - 1] != '.' {
      assert s == s[..|s| - 1] + [s[|s| - 1]];
      LastDotIsLast(s[..|s| - 1]);
    }
  }

  /** The extension is empty or a `.` followed by no other `.` and no
      `/`. */
  function Extname(path: string): (r: string)
    ensures r == [] || (r[0] == '.' && forall k :: 0 < k < |r| ==> r[k] != '.' && r[k] != '/')
  {
    var base := LastSegment(DropTrailingSlashes(path));
    match LastDot(base)
    case None => ""
    case Some(i) =>
      LastDotIsLast(base);
      if i == 0 || base == ".." then "" else base[i..]
  }

  lemma {:induction false} LastSegmentWhole(s: string)
    requires '/' !in s
    ensures LastSegment(s) == s
    decreases |s|
  {
    if s != [] {
      assert s == s[..|s| - 1] + [s[|s| - 1]];
      LastSegmentWhole(s[..|s| - 1]);
    }
  }

  lemma {:induction false} LastDotBefore(a: string, b: string)
    requires '.' !in b
    ensures LastDot(a + "." + b) == Some(|a|)
    decreases |b|
  {
    if b != [] {
      var s := a + "." + b;
      assert s[..|s| - 1] == a + "." + b[..|b| - 1];
      assert s[|s| - 1] == b[|b| - 1];
      LastDotBefore(a, b[..|b| - 1]);
    }
  }

  /** The extension of a plain file name `stem.ext` is `.ext`, whatever
      dots `stem` holds, as long as the name is not `..`. */
  lemma ExtnameOfName(stem: string, ext: string)
    requires stem != [] && '/' !in stem && '/' !in ext && '.' !in ext
    requires !(stem == "." && ext == [])
    ensures Extname(stem + "." + ext) == "." + ext
  {
    var name := stem + "." + ext;
    assert name[|name| - 1] != '/' by {
      if ext == [] { assert name[|name| - 1] == '.'; } else { assert name[|name| - 1] == ext[|ext| - 1]; }
    }
    assert '/' !in name by {
      forall k | 0 <= k < |name| ensures name[k] != '/' {
        if k < |stem| { assert name[k] == stem[k]; }
        else if k > |stem| { assert name[k] == ext[k - |stem| - 1]; }
      }
    }
    LastSegmentWhole(name);
    LastDotBefore(stem, ext);
    assert name[|stem|..] == "." + ext;
  }

  /** A dot file such as `.csv` has no extension. */
  lemma ExtnameDotFile(ext: string)
    requires '/' !in ext && '.' !in ext
    ensures Extname("." + ext) == ""
  {
    var name := "." + ext;
    if ext != [] {
      assert name[|name| - 1] == ext[|ext| - 1];
    }
    assert '/' !in name by {
      forall k | 0 <= k < |name| ensures name[k] != '/' {
        if k > 0 { assert name[k] == ext[k - 1]; }
      }
    }
    LastSegmentWhole(name);
    LastDotBefore("", ext);
    assert "" + "." + ext == name;
  }
}
