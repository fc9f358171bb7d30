/** Node's POSIX `path.extname`, used by Backend/index.js to keep the extension of an
    uploaded file's original name. */
module NodePath {

  /** The index of the last occurrence of `c` in `s`, or -1 when there is none. */
  function LastIndex(s: string, c: char): (i: int)
    ensures -1 <= i < |s|
    ensures i >= 0 ==> s[i] == c
    ensures forall k :: i < k < |s| ==> s[k] != c
  {
    if s == [] then -1
    else if s[|s| - 1] == c then |s| - 1
    else LastIndex(s[..|s| - 1], c)
  }

  /** `p` without the run of '/' at its end (extname ignores trailing separators). */
  function TrimTrailingSlashes(p: string): (t: string)
    ensures |t| <= |p| && t == p[..|t|]
    ensures t == [] || t[|t| - 1] != '/'
    ensures forall k :: |t| <= k < |p| ==> p[k] == '/'
  {
    if p != [] && p[|p| - 1] == '/' then TrimTrailingSlashes(p[..|p| - 1]) else p
  }

  /** The last path component of `p` once trailing separators are removed. */
  function Basename(p: string): (b: string)
    ensures '/' !in b
  {
    var t := TrimTrailingSlashes(p);
    t[LastIndex(t, '/') + 1..]
  }

  /** `path.extname(p)`: from the last '.' of the last component to its end; empty when
      that component has no '.', when its only '.' is its first character, or when it
      is "..". */
  function ExtName(p: string): (e: string)
    ensures e == [] || (e[0] == '.' && '.' !in e[1..])
    ensures '/' !in e
    ensures e == [] || '.' in Basename(p)
  {
    var b := Basename(p);
    var i := LastIndex(b, '.');
    if i <= 0 || b == ".." then [] else b[i..]
  }

  /** A component `stem.ext` whose `ext` holds no '.' has extension ".ext" (the one
      exception being ".." itself). */
  lemma {:induction false} ExtNameOfDotted(stem: string, ext: string)
    requires stem != [] && '/' !in stem && '/' !in ext && '.' !in ext
    requires stem + "." + ext != ".."
    ensures ExtName(stem + "." + ext) == "." + ext
  {
    var name := stem + "." + ext;
    assert name[|stem|] == '.';
    BasenameOfComponent(name);
    forall k | |stem| < k < |name| ensures name[k] != '.' {
      assert name[k] == ext[k - |stem| - 1];
    }
    LastIndexAt(name, '.', |stem|);
    assert name[|stem|..] == "." + ext;
  }

  /** A name without separators is its own last component. */
  lemma BasenameOfComponent(name: string)
    requires '/' !in name
    ensures Basename(name) == name
  {
    LastIndexAbsent(name, '/');
    if name != [] {
      assert name[|name| - 1] in name;
    }
  }

  /** A component with no '.' at all has no extension. */
  lemma ExtNameWithoutDot(p: string)
    requires '.' !in p
    ensures ExtName(p) == []
  {
  }

  /** A component whose only '.' is its first character (a "dotfile") has no extension. */
  lemma {:induction false} ExtNameOfDotfile(rest: string)
    requires '.' !in rest && '/' !in rest
    ensures ExtName("." + rest) == []
  {
    var name := "." + rest;
    BasenameOfComponent(name);
    forall k | 0 < k < |name| ensures name[k] != '.' {
      assert name[k] == rest[k - 1];
    }
    LastIndexAt(name, '.', 0);
  }

  /** Only the last component of a path decides its extension. */
  lemma {:induction false} ExtNameOfNested(dir: string, name: string)
    requires name != [] && '/' !in name
    ensures ExtName(dir + "/" + name) == ExtName(name)
  {
    var p := dir + "/" + name;
    assert p[|p| - 1] == name[|name| - 1];
    assert TrimTrailingSlashes(p) == p;
    assert name[|name| - 1] != '/';
    assert TrimTrailingSlashes(name) == name;
    LastIndexAbsent(name, '/');
    assert p[|dir|] == '/';
    forall k | |dir| < k < |p| ensures p[k] != '/' {
      assert p[k] == name[k - |dir| - 1];
    }
    LastIndexAt(p, '/', |dir|);
    assert p[|dir| + 1..] == name;
  }

  /** The last occurrence is the one with no occurrence after it. */
  lemma LastIndexAt(s: string, c: char, j: int)
    requires 0 <= j < |s| && s[j] == c
    requires forall k :: j < k < |s| ==> s[k] != c
    ensures LastIndex(s, c) == j
  {
  }

  lemma {:induction false} LastIndexAbsent(s: string, c: char)
    requires c !in s
    ensures LastIndex(s, c) == -1
  {
    if s != [] {
      assert c !in s[..|s| - 1];
      LastIndexAbsent(s[..|s| - 1], c);
    }
  }
}
