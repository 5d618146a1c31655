/** Go's path/filepath on a system whose separator is '/': Split, Ext, Base, Clean and Join. */
module Paths {
  import opened Strings

  const Sep: char := '/'

  /** Index of the last c in s, or -1. */
  function LastIndex(s: string, c: char): (i: int)
    ensures -1 <= i < |s|
    ensures i >= 0 ==> s[i] == c
    ensures forall j :: i < j < |s| ==> s[j] != c
  {
    if s == [] then -1 else if s[|s| - 1] == c then |s| - 1 else LastIndex(s[..|s| - 1], c)
  }

  /** filepath.Split: everything up to and including the last separator, and the rest. */
  function SplitDirFile(path: string): (r: (string, string))
    ensures r.0 + r.1 == path && Sep !in r.1
    ensures r.0 == [] || r.0[|r.0| - 1] == Sep
  {
    var i := LastIndex(path, Sep);
    assert path == path[..i + 1] + path[i + 1..];
    (path[..i + 1], path[i + 1..])
  }

  /** filepath.Ext: the suffix of the final element that starts at its last dot, or "" without a dot. */
  function Ext(path: string): (e: string)
    ensures e == [] || (e[0] == '.' && HasSuffix(path, e) && '.' !in e[1..] && Sep !in e)
  {
    var file := SplitDirFile(path).1;
    var d := LastIndex(file, '.');
    if d < 0 then [] else
      ExtSuffix(path, SplitDirFile(path).0, file, d);
      file[d..]
  }

  /** The final element from its last dot on is a suffix of the path with one dot and no separator. */
  lemma ExtSuffix(path: string, dir: string, file: string, d: int)
    requires path == dir + file && Sep !in file
    requires 0 <= d < |file| && file[d] == '.' && forall j :: d < j < |file| ==> file[j] != '.'
    ensures var e := file[d..]; e[0] == '.' && HasSuffix(path, e) && '.' !in e[1..] && Sep !in e
  {
    var e := file[d..];
    assert forall j :: 0 <= j < |e[1..]| ==> e[1..][j] == file[d + 1 + j];
    assert path[|path| - |e|..] == e;
  }

  /** path with its trailing separators removed. */
  function TrimTrailingSeps(path: string): (r: string)
    ensures r <= path && (r == [] || r[|r| - 1] != Sep)
  {
    if path != [] && path[|path| - 1] == Sep then TrimTrailingSeps(path[..|path| - 1]) else path
  }

  /** filepath.Base: the last element after trailing separators are removed; "." for "" and "/" for
      a path of separators only. */
  function Base(path: string): string
  {
    if path == [] then "."
    else
      var t := TrimTrailingSeps(path);
      if t == [] then [Sep] else t[LastIndex(t, Sep) + 1..]
  }

  // ----- filepath.Clean, element by element -----

  /** One step of Clean over the elements kept so far: "" and "." vanish, ".." removes the previous
      element that is not itself "..", or stays (relative path) or vanishes (rooted path). */
  function CleanStep(kept: seq<string>, elem: string, rooted: bool): seq<string>
  {
    if elem == "" || elem == "." then kept
    else if elem == ".." then
      if |kept| > 0 && kept[|kept| - 1] != ".." then kept[..|kept| - 1]
      else if rooted then kept
      else kept + [".."]
    else kept + [elem]
  }

  function CleanElems(elems: seq<string>, rooted: bool, kept: seq<string>): seq<string>
    decreases |elems|
  {
    if elems == [] then kept else CleanElems(elems[1..], rooted, CleanStep(kept, elems[0], rooted))
  }

  /** filepath.Clean: the shortest lexically equivalent path; "." when nothing is left. */
  function Clean(path: string): string
  {
    var rooted := |path| > 0 && path[0] == Sep;
    Assemble(rooted, CleanElems(Split(path, Sep), rooted, []))
  }

  /** The cleaned elements joined by separators, after a leading one for a rooted path. */
  function Assemble(rooted: bool, elems: seq<string>): string
  {
    var out := (if rooted then [Sep] else []) + Join(elems, Sep);
    if out == [] then "." else out
  }

  /** filepath.Join for two elements: empty elements are ignored and the result is cleaned. */
  function JoinPath(dir: string, name: string): string
  {
    if dir != [] then Clean(dir + [Sep] + name)
    else if name != [] then Clean(name)
    else []
  }

  /** A plain file name: one element that Clean keeps as it is. */
  predicate PlainName(name: string)
  {
    name != [] && name != "." && name != ".." && Sep !in name
  }

  lemma {:induction false} CleanElemsSnoc(elems: seq<string>, e: string, rooted: bool, kept: seq<string>)
    ensures CleanElems(elems + [e], rooted, kept) == CleanStep(CleanElems(elems, rooted, kept), e, rooted)
    decreases |elems|
  {
    if elems == [] {
      assert elems + [e] == [e];
    } else {
      assert (elems + [e])[1..] == elems[1..] + [e];
      CleanElemsSnoc(elems[1..], e, rooted, CleanStep(kept, elems[0], rooted));
    }
  }

  lemma LastIndexAfter(a: string, name: string)
    requires Sep !in name
    ensures LastIndex(a + [Sep] + name, Sep) == |a|
  {
    var s := a + [Sep] + name;
    assert s[|a|] == Sep;
  }

  lemma LastIndexNone(name: string)
    requires Sep !in name
    ensures LastIndex(name, Sep) == -1
  {
  }

  /** The path that Clean produces from some directory and a plain name ends with that name, right after
      a separator or at the start. */
  lemma CleanEndsWithName(dir: string, name: string)
    requires PlainName(name)
    ensures exists pre :: Clean(dir + [Sep] + name) == pre + [Sep] + name || Clean(dir + [Sep] + name) == name
  {
    var p := dir + [Sep] + name;
    var rooted := |p| > 0 && p[0] == Sep;
    CleanElemsLast(dir, name, rooted);
    AssembleLast(rooted, CleanElems(Split(dir, Sep), rooted, []), name);
  }

  /** A plain name after the directory is kept as the last element. */
  lemma CleanElemsLast(dir: string, name: string, rooted: bool)
    requires PlainName(name)
    ensures CleanElems(Split(dir + [Sep] + name, Sep), rooted, []) == CleanElems(Split(dir, Sep), rooted, []) + [name]
  {
    SplitAppend(dir, name, Sep);
    SplitNoSep(name, Sep);
    CleanElemsSnoc(Split(dir, Sep), name, rooted, []);
  }

  /** Cleaned elements that end with name are assembled into a path ending with name. */
  lemma AssembleLast(rooted: bool, kept: seq<string>, name: string)
    requires name != []
    ensures exists pre :: Assemble(rooted, kept + [name]) == pre + [Sep] + name || Assemble(rooted, kept + [name]) == name
  {
    var prefix: string := if rooted then [Sep] else [];
    var out := prefix + Join(kept + [name], Sep);
    JoinSnoc(kept, name, Sep);
    if kept == [] && !rooted {
      assert out == name;
      var pre: string := [];
      assert Assemble(rooted, kept + [name]) == pre + [Sep] + name || Assemble(rooted, kept + [name]) == name;
    } else {
      var pre: string := if kept == [] then [] else prefix + Join(kept, Sep);
      assert out == pre + [Sep] + name;
      assert Assemble(rooted, kept + [name]) == pre + [Sep] + name;
    }
  }

  /** A path whose last element is the plain name has that name as Base and its extension as Ext. */
  lemma BaseExtOfLastElem(j: string, pre: string, name: string)
    requires PlainName(name)
    requires j == pre + [Sep] + name || j == name
    ensures Base(j) == name && Ext(j) == Ext(name) && SplitDirFile(j).1 == name
  {
    LastIndexNone(name);
    if j != name {
      LastIndexAfter(pre, name);
    }
    assert name[|name| - 1] != Sep;
    assert TrimTrailingSeps(j) == j;
    assert SplitDirFile(j).1 == name;
  }

  /** Joining a directory and a plain file name keeps the name as the last element, so Base and Ext
      of the joined path are those of the name. */
  lemma JoinKeepsName(dir: string, name: string)
    requires PlainName(name)
    ensures Base(JoinPath(dir, name)) == name
    ensures Ext(JoinPath(dir, name)) == Ext(name)
    ensures SplitDirFile(JoinPath(dir, name)).1 == name
  {
    var j := JoinPath(dir, name);
    if dir == [] {
      SplitNoSep(name, Sep);
      assert CleanElems([name], false, []) == [name];
      BaseExtOfLastElem(j, [], name);
    } else {
      CleanEndsWithName(dir, name);
      var pre :| j == pre + [Sep] + name || j == name;
      BaseExtOfLastElem(j, pre, name);
    }
  }
  /** The last c in a + [c] + b is the one between them when b holds none. */
  lemma LastIndexAt(a: string, c: char, b: string)
    requires c !in b
    ensures LastIndex(a + [c] + b, c) == |a|
  {
    var s := a + [c] + b;
    assert s[|a|] == c;
  }

  /** A single element made of a stem and an extension (a dot followed by no dot) has that extension. */
  lemma ExtOfName(stem: string, e: string)
    requires Sep !in stem && Sep !in e && |e| > 0 && e[0] == '.' && '.' !in e[1..]
    ensures Ext(stem + e) == e
  {
    var x := stem + e;
    assert Sep !in x;
    LastIndexNone(x);
    assert SplitDirFile(x).1 == x;
    assert x == stem + ['.'] + e[1..];
    LastIndexAt(stem, '.', e[1..]);
    assert x[|stem|..] == e;
  }

  /** A path that does not consist of separators only. */
  predicate NamedPath(path: string)
  {
    Base(path) != [Sep]
  }

  /** The base of such a path is a single element. */
  lemma NamedBase(path: string)
    requires NamedPath(path)
    ensures Sep !in Base(path)
  {
    if path != [] {
      var t := TrimTrailingSeps(path);
      var i := LastIndex(t, Sep);
      if t != [] {
        var u := t[i + 1..];
        forall j | 0 <= j < |u|
          ensures u[j] != Sep
        {
          assert u[j] == t[i + 1 + j];
        }
      }
    }
  }

  /** A path whose last character is not a separator names something. */
  lemma EndsInName(path: string)
    requires path != [] && path[|path| - 1] != Sep
    ensures NamedPath(path)
  {
    assert TrimTrailingSeps(path) == path;
    var i := LastIndex(path, Sep);
    assert path[i + 1..][|path| - i - 2] == path[|path| - 1];
  }
}
