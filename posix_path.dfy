/**
 * The functions of Node's `path` module that the formatter calls, with the separator
 * fixed to `/` (the POSIX flavour): `isAbsolute`, `normalize`, `join` of two parts,
 * `dirname`, `extname`, and `basename(p, extname(p))`.
 */
module PosixPath {
  import opened JsString

  const Sep: char := '/'

  /** `path.isAbsolute(p)`: the path starts with the separator, so `indexOf` finds one at 0. */
  function IsAbsolute(p: string): (b: bool)
    ensures b <==> IndexOf(p, Sep) == 0
  {
    |p| > 0 && p[0] == Sep
  }

  /** `p` without its trailing separators. */
  function TrimTrailingSeps(p: string): (r: string)
    ensures |r| <= |p|
    ensures r == [] || r[|r| - 1] != Sep
  {
    if p != [] && p[|p| - 1] == Sep then TrimTrailingSeps(p[..|p| - 1]) else p
  }

  /** Trimming keeps a prefix and drops only separators. */
  lemma {:induction false} TrimmedIsPrefix(p: string)
    ensures var r := TrimTrailingSeps(p);
      && r == p[..|r|]
      && forall k :: |r| <= k < |p| ==> p[k] == Sep
  {
    if p != [] && p[|p| - 1] == Sep {
      var q := p[..|p| - 1];
      TrimmedIsPrefix(q);
      var r := TrimTrailingSeps(q);
      assert TrimTrailingSeps(p) == r;
      assert r == q[..|r|] == p[..|r|];
      assert forall k :: |r| <= k < |q| ==> p[k] == q[k] == Sep;
    }
  }

  /** The last component of `p`, as `basename` and `extname` find it: trailing separators are skipped. */
  function LastComponent(p: string): (r: string)
    ensures Sep !in r
  {
    var t := TrimTrailingSeps(p);
    t[LastIndexOf(t, Sep) + 1..]
  }

  /**
   * The last component ends the trimmed path and is preceded there by a separator, unless
   * it is all of it.
   */
  lemma {:induction false} LastComponentIsSuffix(p: string)
    ensures var t := TrimTrailingSeps(p);
      var r := LastComponent(p);
      && |r| <= |t| && r == t[|t| - |r|..]
      && (|r| < |t| ==> t[|t| - |r| - 1] == Sep)
  {
    var t := TrimTrailingSeps(p);
    var j := LastIndexOf(t, Sep);
    assert LastComponent(p) == t[j + 1..];
  }

  /** A component has an extension when a dot follows some other character, unless it is `..`. */
  predicate HasExtension(c: string)
  {
    c != ".." && exists i :: 0 < i < |c| && c[i] == '.'
  }

  /**
   * `path.extname(p)`: from the last dot of the last component to its end; empty for a
   * component without a dot, for a dotfile such as `.md` and for `..`.
   */
  function Extname(p: string): (r: string)
    ensures var c := LastComponent(p);
      && |r| <= |c| && r == c[|c| - |r|..]
      && (r != [] ==> r[0] == '.' && '.' !in r[1..])
  {
    var c := LastComponent(p);
    var d := LastIndexOf(c, '.');
    if d <= 0 || c == ".." then "" else c[d..]
  }

  /** A component has an extension exactly when its last dot is not its first character and it is not `..`. */
  lemma {:induction false} LastDot(c: string)
    ensures HasExtension(c) <==> LastIndexOf(c, '.') > 0 && c != ".."
  {
    var d := LastIndexOf(c, '.');
    if d > 0 {
      assert c[d] == '.';
    }
    if HasExtension(c) {
      var i :| 0 < i < |c| && c[i] == '.';
      assert i <= d;
    }
  }

  /**
   * The extension is empty exactly when the last component has none, and otherwise is the
   * shorter-than-the-component tail that starts at its last dot.
   */
  lemma {:induction false} ExtnameIsLastDotSuffix(p: string)
    ensures var c := LastComponent(p);
      var r := Extname(p);
      && (r == [] <==> !HasExtension(c))
      && (r != [] ==> |r| < |c| && r == c[|c| - |r|..] && r[0] == '.' && '.' !in r[1..])
  {
    LastDot(LastComponent(p));
  }

  /**
   * `path.basename(p, path.extname(p))`: the last component with its extension removed.
   * The extension is always a proper suffix of the component, so Node's suffix match
   * always succeeds here.
   */
  function Stem(p: string): (r: string)
    ensures Sep !in r
    ensures r <= LastComponent(p)
  {
    var c := LastComponent(p);
    var r := c[..|c| - |Extname(p)|];
    assert forall k :: 0 <= k < |r| ==> r[k] == c[k];
    r
  }

  /** A character that does not occur in `p` does not occur in its stem. */
  lemma {:induction false} StemKeepsOut(p: string, x: char)
    requires x !in p
    ensures x !in Stem(p)
  {
    var c := LastComponent(p);
    var r := Stem(p);
    LastComponentKeepsOut(p, x);
    SliceKeepsOut(c, 0, |r|, x);
    assert c[0..|r|] == r;
  }

  /** A character that does not occur in `p` does not occur in its last component. */
  lemma {:induction false} LastComponentKeepsOut(p: string, x: char)
    requires x !in p
    ensures x !in LastComponent(p)
  {
    var t := TrimTrailingSeps(p);
    var c := LastComponent(p);
    TrimmedIsPrefix(p);
    LastComponentIsSuffix(p);
    SliceKeepsOut(p, 0, |t|, x);
    assert p[0..|t|] == t;
    SliceKeepsOut(t, |t| - |c|, |t|, x);
    assert t[|t| - |c|..|t|] == c;
  }

  /** A character that does not occur in a string does not occur in a slice of it. */
  lemma {:induction false} SliceKeepsOut(s: string, i: nat, j: nat, x: char)
    requires i <= j <= |s| && x !in s
    ensures x !in s[i..j]
  {
    assert forall k :: 0 <= k < j - i ==> s[i..j][k] == s[i + k];
  }

  /**
   * The stem is the last component cut before its extension: the whole component when it
   * has none (a dotfile such as `.md` has none), and otherwise the non-empty text before
   * its last dot.
   */
  lemma {:induction false} StemOfComponent(p: string)
    ensures var c := LastComponent(p);
      var r := Stem(p);
      && r <= c
      && (!HasExtension(c) ==> r == c)
      && (HasExtension(c) ==> 0 < |r| < |c| && c[|r|] == '.' && '.' !in c[|r| + 1..])
  {
    ExtnameIsLastDotSuffix(p);
  }

  /**
   * `path.dirname(p)`: skipping trailing separators (but never the first character), the
   * text before the last separator that precedes a non-separator; `.` or `/` when there is
   * none, and `//` when that separator is the second character of an absolute path.
   */
  function Dirname(p: string): (r: string)
    ensures r != []
    ensures IsAbsolute(r) <==> IsAbsolute(p)
  {
    if p == [] then "."
    else
      var t := TrimTrailingSeps(p[1..]);
      var j := LastIndexOf(t, Sep);
      if j < 0 then (if p[0] == Sep then "/" else ".")
      else if p[0] == Sep && j == 0 then "//"
      else p[..j + 1]
  }

  /**
   * The directory part is `.`, `/` or `//`, or else a non-empty proper prefix of the path
   * that a separator follows.
   */
  lemma {:induction false} DirnameShape(p: string)
    ensures var r := Dirname(p);
      r == "." || r == "/" || r == "//" || (1 <= |r| < |p| && r == p[..|r|] && p[|r|] == Sep)
  {
    if p != [] {
      var t := TrimTrailingSeps(p[1..]);
      TrimmedIsPrefix(p[1..]);
      var j := LastIndexOf(t, Sep);
      if j >= 0 {
        assert p[1..][j] == Sep;
      }
    }
  }

  /**
   * One step of `normalize`'s segment walk: empty and `.` segments vanish; `..` removes the
   * last kept segment unless that is itself `..`, and is otherwise kept only for a
   * relative path.
   */
  function PushSegment(stack: seq<string>, seg: string, aboveRoot: bool): seq<string>
  {
    if seg == "" || seg == "." then stack
    else if seg == ".." then
      if |stack| > 0 && stack[|stack| - 1] != ".." then stack[..|stack| - 1]
      else if aboveRoot then stack + [".."]
      else stack
    else stack + [seg]
  }

  /** The segments that survive `normalize`'s walk over `segs`, left to right. */
  function Resolve(segs: seq<string>, aboveRoot: bool): seq<string>
  {
    if segs == [] then [] else PushSegment(Resolve(segs[..|segs| - 1], aboveRoot), segs[|segs| - 1], aboveRoot)
  }

  /** A segment `normalize` can keep: not empty, not `.`, without a separator. */
  predicate CleanSegment(s: string)
  {
    s != "" && s != "." && Sep !in s
  }

  /**
   * `path.normalize(p)`: the resolved segments joined by `/`, with the leading `/` of an
   * absolute path and a trailing `/` kept; `.` (or `./`, `/`) when nothing is left.
   */
  function Normalize(p: string): (r: string)
    ensures r != []
    ensures IsAbsolute(r) <==> IsAbsolute(p)
  {
    if p == [] then "."
    else
      NormalizedBodyRelative(p);
      Enclose(p[0] == Sep, p[|p| - 1] == Sep, Join(Resolve(Split(p, Sep), p[0] != Sep), [Sep]))
  }

  /**
   * `normalize`'s result from its joined segments: the leading `/` of an absolute path and
   * a trailing `/` put back; `/`, `./` or `.` when no segment is left.
   */
  function Enclose(absolute: bool, trailing: bool, body: string): string
  {
    if body == [] then (if absolute then "/" else if trailing then "./" else ".")
    else (if absolute then "/" else "") + body + (if trailing then "/" else "")
  }

  /** The joined segments that `normalize` keeps never start with a separator. */
  lemma {:induction false} NormalizedBodyRelative(p: string)
    requires p != []
    ensures var body := Join(Resolve(Split(p, Sep), p[0] != Sep), [Sep]);
      body == [] || body[0] != Sep
  {
    ResolvedJoinRelative(Split(p, Sep), p[0] != Sep);
  }

  /** The segments kept from separator-free pieces, joined by `/`, do not start with a separator. */
  lemma {:induction false} ResolvedJoinRelative(pieces: seq<string>, aboveRoot: bool)
    requires forall i :: 0 <= i < |pieces| ==> Sep !in pieces[i]
    ensures var j := Join(Resolve(pieces, aboveRoot), [Sep]);
      j == [] || j[0] != Sep
  {
    ResolveClean(pieces, aboveRoot);
    assert forall i :: 0 <= i < |Resolve(pieces, aboveRoot)| ==> CleanSegment(Resolve(pieces, aboveRoot)[i]);
    CleanJoinRelative(Resolve(pieces, aboveRoot));
  }

  /** Clean segments joined by `/` do not start with a separator. */
  lemma {:induction false} CleanJoinRelative(segs: seq<string>)
    requires forall i :: 0 <= i < |segs| ==> CleanSegment(segs[i])
    ensures var j := Join(segs, [Sep]);
      j == [] || j[0] != Sep
  {
    if segs != [] {
      JoinEnds(segs, [Sep]);
      assert segs[0][0] in segs[0];
    }
  }

  /** `path.join(a, b)`: the non-empty parts joined by `/` and normalized; `.` when both are empty. */
  function JoinPaths(a: string, b: string): (r: string)
    ensures r != []
    ensures a != [] ==> (IsAbsolute(r) <==> IsAbsolute(a))
    ensures a == [] ==> (IsAbsolute(r) <==> IsAbsolute(b))
  {
    var joined := if a == [] then b else if b == [] then a else a + [Sep] + b;
    if joined == [] then "." else Normalize(joined)
  }

  /**
   * The segments `normalize` keeps are clean, `..` only ever forms a leading run, and an
   * absolute path keeps no `..` at all.
   */
  lemma {:induction false} ResolveClean(segs: seq<string>, aboveRoot: bool)
    requires forall i :: 0 <= i < |segs| ==> Sep !in segs[i]
    ensures var r := Resolve(segs, aboveRoot);
      && (forall i :: 0 <= i < |r| ==> CleanSegment(r[i]))
      && (forall i, j :: 0 <= i < j < |r| && r[j] == ".." ==> r[i] == "..")
      && (!aboveRoot ==> ".." !in r)
  {
    if segs != [] {
      ResolveClean(segs[..|segs| - 1], aboveRoot);
    }
  }

  /** Segments that `normalize` keeps as they are: clean, and none of them `..`. */
  predicate PlainSegments(segs: seq<string>)
  {
    forall i :: 0 <= i < |segs| ==> CleanSegment(segs[i]) && segs[i] != ".."
  }

  /** Plain segments after any others pass through `normalize`'s walk unchanged. */
  lemma {:induction false} ResolveAppendPlain(pre: seq<string>, segs: seq<string>, aboveRoot: bool)
    requires PlainSegments(segs)
    ensures Resolve(pre + segs, aboveRoot) == Resolve(pre, aboveRoot) + segs
  {
    if segs == [] {
      assert pre + segs == pre;
    } else {
      var init := segs[..|segs| - 1];
      ResolveAppendPlain(pre, init, aboveRoot);
      assert (pre + segs)[..|pre + segs| - 1] == pre + init;
    }
  }

  /** Joining non-empty parts starts with the first part's first character and ends with the last part's last. */
  lemma {:induction false} JoinEnds(parts: seq<string>, sep: string)
    requires |parts| >= 1 && forall i :: 0 <= i < |parts| ==> parts[i] != ""
    ensures var j := Join(parts, sep);
      var last := parts[|parts| - 1];
      |j| > 0 && j[0] == parts[0][0] && j[|j| - 1] == last[|last| - 1]
  {
    if |parts| > 1 {
      JoinEnds(parts[1..], sep);
    }
  }

  /** `normalize`'s result once the segments its walk keeps are known to be `segs`, not none. */
  lemma {:induction false} NormalizeFromSegments(p: string, segs: seq<string>)
    requires p != [] && segs != [] && Resolve(Split(p, Sep), p[0] != Sep) == segs
    requires forall i :: 0 <= i < |segs| ==> segs[i] != ""
    ensures p[0] != Sep && p[|p| - 1] != Sep ==> Normalize(p) == Join(segs, [Sep])
    ensures p[0] == Sep && p[|p| - 1] != Sep ==> Normalize(p) == [Sep] + Join(segs, [Sep])
  {
    var body := Join(segs, [Sep]);
    JoinEnds(segs, [Sep]);
    assert body != [];
    assert Normalize(p) == Enclose(p[0] == Sep, p[|p| - 1] == Sep, body);
    if p[0] != Sep && p[|p| - 1] != Sep {
      assert Enclose(false, false, body) == "" + body + "" == body;
    }
    if p[0] == Sep && p[|p| - 1] != Sep {
      assert Enclose(true, false, body) == [Sep] + body + "";
    }
  }

  /** Plain segments joined by the separator split back into themselves and start and end without one. */
  lemma {:induction false} PlainJoin(segs: seq<string>)
    requires |segs| >= 1 && PlainSegments(segs)
    ensures var j := Join(segs, [Sep]);
      && Split(j, Sep) == segs
      && j != [] && j[0] != Sep && j[|j| - 1] != Sep
  {
    assert forall i :: 0 <= i < |segs| ==> Sep !in segs[i] && segs[i] != "";
    SplitJoin(segs, Sep);
    JoinEnds(segs, [Sep]);
  }

  /** A relative path made of plain segments is already normal. */
  lemma {:induction false} NormalizePlain(segs: seq<string>)
    requires |segs| >= 1 && PlainSegments(segs)
    ensures Normalize(Join(segs, [Sep])) == Join(segs, [Sep])
  {
    var p := Join(segs, [Sep]);
    PlainJoin(segs);
    ResolveAppendPlain([], segs, true);
    assert [] + segs == segs;
    NormalizeFromSegments(p, segs);
  }

  /** An absolute path made of plain segments is already normal. */
  lemma {:induction false} NormalizeRootedPlain(segs: seq<string>)
    requires |segs| >= 1 && PlainSegments(segs)
    ensures Normalize([Sep] + Join(segs, [Sep])) == [Sep] + Join(segs, [Sep])
  {
    var j := Join(segs, [Sep]);
    var p := [Sep] + j;
    PlainJoin(segs);
    SplitAtFirst("", j, Sep);
    assert "" + [Sep] + j == p;
    ResolveAppendPlain([""], segs, false);
    assert Resolve([""], false) == [];
    assert [] + segs == segs;
    assert p[|p| - 1] == j[|j| - 1];
    NormalizeFromSegments(p, segs);
  }

  /** A relative path that starts `./../` before plain segments normalizes to `../` before them. */
  lemma {:induction false} NormalizeDotUpPlain(segs: seq<string>)
    requires |segs| >= 1 && PlainSegments(segs)
    ensures Normalize("./../" + Join(segs, [Sep])) == "../" + Join(segs, [Sep])
  {
    var j := Join(segs, [Sep]);
    var p := "./../" + j;
    PlainJoin(segs);
    DotUpSplit(j, segs);
    DotUpResolve(segs);
    var kept := [".."] + segs;
    JoinCons("..", segs, [Sep]);
    assert forall i :: 0 <= i < |kept| ==> kept[i] != "";
    DotUpEnds(j, p);
    NormalizeFromSegments(p, kept);
  }

  lemma {:induction false} DotUpEnds(j: string, p: string)
    requires j != [] && j[|j| - 1] != Sep && p == "./../" + j
    ensures p != [] && p[0] != Sep && p[|p| - 1] != Sep
    ensures ".." + [Sep] + j == "../" + j
  {
    assert p[|p| - 1] == j[|j| - 1];
  }

  lemma {:induction false} JoinCons(first: string, rest: seq<string>, sep: string)
    requires rest != []
    ensures Join([first] + rest, sep) == first + sep + Join(rest, sep)
  {
    assert ([first] + rest)[1..] == rest;
  }

  lemma {:induction false} DotUpSplit(j: string, segs: seq<string>)
    requires Split(j, Sep) == segs
    ensures Split("./../" + j, Sep) == [".", ".."] + segs
  {
    var rest := ".." + [Sep] + j;
    SplitAtFirst("..", j, Sep);
    DotUpPrefix(j, rest);
    SplitAtFirst(".", rest, Sep);
  }

  lemma {:induction false} DotUpPrefix(j: string, rest: string)
    requires rest == ".." + [Sep] + j
    ensures "./../" + j == "." + [Sep] + rest
  {
    assert "./../" == "." + [Sep] + ".." + [Sep];
  }

  lemma {:induction false} DotUpResolve(segs: seq<string>)
    requires PlainSegments(segs)
    ensures Resolve([".", ".."] + segs, true) == [".."] + segs
  {
    ResolveAppendPlain([".", ".."], segs, true);
    assert [".", ".."][..1] == ["."];
    assert Resolve([".", ".."], true) == [".."];
  }

  /** The directory of a relative path `d/f`, where the file name `f` holds no separator, is `d`. */
  lemma {:induction false} DirnameOfFile(d: string, f: string)
    requires d != [] && d[0] != Sep && f != [] && Sep !in f
    ensures Dirname(d + [Sep] + f) == d
  {
    var p := d + [Sep] + f;
    var t := p[1..];
    assert t[|t| - 1] == f[|f| - 1];
    assert TrimTrailingSeps(t) == t;
    assert t[|d| - 1] == Sep;
    assert forall k :: |d| - 1 < k < |t| ==> t[k] == f[k - |d|];
    assert LastIndexOf(t, Sep) == |d| - 1;
    assert p[..|d|] == d;
  }

  /** The last component of `d/f`, and of `f` alone, is the file name `f`. */
  lemma {:induction false} LastComponentOfFile(d: string, f: string)
    requires f != [] && Sep !in f
    ensures LastComponent(d + [Sep] + f) == f
    ensures LastComponent(f) == f
  {
    var p := d + [Sep] + f;
    assert p[|p| - 1] == f[|f| - 1];
    assert TrimTrailingSeps(p) == p;
    assert p[|d|] == Sep;
    assert forall k :: |d| < k < |p| ==> p[k] == f[k - |d| - 1];
    assert LastIndexOf(p, Sep) == |d|;
    assert p[|d| + 1..] == f;
    assert TrimTrailingSeps(f) == f;
  }

  /** A last component `stem.ext`, where `ext` has no dot and `stem` is neither empty nor `.`, has stem `stem`. */
  lemma {:induction false} StemOfExtension(p: string, stem: string, ext: string)
    requires LastComponent(p) == stem + "." + ext && stem != [] && stem != "." && '.' !in ext
    ensures Stem(p) == stem
  {
    var c := LastComponent(p);
    LastDotOf(c, stem, ext);
    assert c[..|stem|] == stem;
  }

  /** In `stem.ext` with no dot in `ext` and a stem that is neither empty nor `.`, the last dot follows the stem, and the whole is not `..`. */
  lemma {:induction false} LastDotOf(c: string, stem: string, ext: string)
    requires c == stem + "." + ext && stem != [] && stem != "." && '.' !in ext
    ensures LastIndexOf(c, '.') == |stem| && c != ".."
  {
    assert c[|stem|] == '.';
    assert forall k :: |stem| < k < |c| ==> c[k] == ext[k - |stem| - 1];
    assert stem == c[..|stem|];
  }

  /** A dotfile component `.ext`, and a component without a dot, have no extension: the stem is all of it. */
  lemma {:induction false} StemOfPlainName(p: string)
    requires var c := LastComponent(p); c != ".." && forall k :: 0 < k < |c| ==> c[k] != '.'
    ensures Stem(p) == LastComponent(p)
  {
    StemOfComponent(p);
  }

  /** Joining a plain file name under a plain relative directory puts one separator between them. */
  lemma {:induction false} JoinPathsPlain(dirs: seq<string>, name: string)
    requires |dirs| >= 1 && PlainSegments(dirs + [name])
    ensures JoinPaths(Join(dirs, [Sep]), name) == Join(dirs, [Sep]) + [Sep] + name
  {
    var segs := dirs + [name];
    assert forall i :: 0 <= i < |dirs| ==> segs[i] == dirs[i];
    assert segs[|dirs|] == name;
    JoinSnoc(dirs, name, [Sep]);
    NormalizePlain(segs);
    PlainJoin(dirs);
  }
}
