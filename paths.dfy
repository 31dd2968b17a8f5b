/** POSIX path handling as `pathlib` and `os.path` do it: parsing a string
    into components, joining, lexical resolution of "." and "..", the
    segment-wise `is_relative_to`, `name`, `suffix` and `os.path.basename`.
    An absolute path is represented by its list of components below "/". */
module Paths {
  import opened Strings

  /** A parsed `PurePosixPath`: whether it starts at "/", and its components. */
  datatype Path = Path(absolute: bool, parts: seq<string>)

  /** `s.split('/')`. */
  function SplitSlash(s: string): (r: seq<string>)
    ensures |r| > 0
    decreases |s|
  {
    if |s| == 0 then [""]
    else
      var rest := SplitSlash(s[1..]);
      if s[0] == '/' then [""] + rest else [[s[0]] + rest[0]] + rest[1..]
  }

  /** Splitting loses nothing: joining the pieces with "/" gives the string back,
      and no piece holds a "/". */
  lemma {:induction false} SplitSlashRoundTrip(s: string)
    ensures Join("/", SplitSlash(s)) == s
    ensures forall k :: 0 <= k < |SplitSlash(s)| ==> '/' !in SplitSlash(s)[k]
    decreases |s|
  {
    if |s| > 0 {
      var rest := SplitSlash(s[1..]);
      SplitSlashRoundTrip(s[1..]);
      if s[0] == '/' {
        assert Join("/", [""] + rest) == "" + "/" + Join("/", rest) by {
          assert ([""] + rest)[1..] == rest;
        }
        assert s == "/" + s[1..];
      } else {
        var r := [[s[0]] + rest[0]] + rest[1..];
        assert r[1..] == rest[1..];
        if |rest| == 1 {
          assert Join("/", r) == [s[0]] + rest[0];
        } else {
          assert Join("/", r) == [s[0]] + rest[0] + "/" + Join("/", rest[1..]);
          assert Join("/", rest) == rest[0] + "/" + Join("/", rest[1..]);
        }
        assert s == [s[0]] + s[1..];
        forall k | 0 <= k < |r| ensures '/' !in r[k] {
          if k > 0 { assert r[k] == rest[k]; }
        }
      }
    }
  }

  lemma {:induction false} SplitSlashWithoutSlash(s: string)
    requires '/' !in s
    ensures SplitSlash(s) == [s]
    decreases |s|
  {
    if |s| > 0 {
      assert '/' !in s[1..] by {
        forall i | 0 <= i < |s[1..]| ensures s[1..][i] != '/' { assert s[1..][i] == s[i + 1]; }
      }
      SplitSlashWithoutSlash(s[1..]);
      assert s == [s[0]] + s[1..];
    }
  }

  lemma {:induction false} SplitSlashCons(a: string, b: string)
    requires '/' !in a
    ensures SplitSlash(a + "/" + b) == [a] + SplitSlash(b)
    decreases |a|
  {
    if |a| == 0 {
      assert a + "/" + b == "/" + b;
      assert ("/" + b)[1..] == b;
    } else {
      assert '/' !in a[1..] by {
        forall i | 0 <= i < |a[1..]| ensures a[1..][i] != '/' { assert a[1..][i] == a[i + 1]; }
      }
      SplitSlashCons(a[1..], b);
      assert (a + "/" + b)[1..] == a[1..] + "/" + b;
      assert a[0] in a;
      assert a == [a[0]] + a[1..];
    }
  }

  /** Splitting undoes joining with "/" when no piece holds a "/". */
  lemma {:induction false} SplitJoinRoundTrip(segs: seq<string>)
    requires |segs| > 0
    requires forall k :: 0 <= k < |segs| ==> '/' !in segs[k]
    ensures SplitSlash(Join("/", segs)) == segs
    decreases |segs|
  {
    if |segs| == 1 {
      SplitSlashWithoutSlash(segs[0]);
    } else {
      SplitJoinRoundTrip(segs[1..]);
      SplitSlashCons(segs[0], Join("/", segs[1..]));
      assert segs == [segs[0]] + segs[1..];
    }
  }

  /** The components pathlib keeps: empty and "." components are dropped. */
  function KeptParts(cs: seq<string>): seq<string>
    decreases |cs|
  {
    if |cs| == 0 then []
    else (if cs[0] == "" || cs[0] == "." then [] else [cs[0]]) + KeptParts(cs[1..])
  }

  lemma {:induction false} KeptPartsAppend(x: seq<string>, y: seq<string>)
    ensures KeptParts(x + y) == KeptParts(x) + KeptParts(y)
    decreases |x|
  {
    if |x| > 0 {
      assert (x + y)[0] == x[0];
      assert (x + y)[1..] == x[1..] + y;
      KeptPartsAppend(x[1..], y);
    } else {
      assert x + y == y;
    }
  }

  lemma KeptPartsOne(c: string)
    ensures KeptParts([c]) == if c == "" || c == "." then [] else [c]
  {
    assert [c][1..] == [];
  }

  /** `PurePosixPath(s)`. */
  function ParsePath(s: string): Path
  {
    Path(|s| > 0 && s[0] == '/', KeptParts(SplitSlash(s)))
  }

  /** `base / s`: a right-hand side that is absolute replaces the base. */
  function JoinPath(base: Path, s: string): Path
  {
    var p := ParsePath(s);
    if p.absolute then p else Path(base.absolute, base.parts + p.parts)
  }

  /** A single name that pathlib keeps as one ordinary component. (A name
      holding a NUL character also passes; the operating system would refuse
      it.) */
  predicate PlainName(name: string)
  {
    name != "" && name != "." && name != ".." && '/' !in name
  }

  lemma ParsePlainName(name: string)
    requires PlainName(name)
    ensures ParsePath(name) == Path(false, [name])
  {
    SplitSlashWithoutSlash(name);
    assert name[0] != '/' by { assert name[0] in name; }
    KeptPartsOne(name);
  }

  /** One component of lexical resolution: "" and "." stay, ".." climbs (and
      stays at "/"), anything else descends. */
  function Step(acc: seq<string>, seg: string): seq<string>
  {
    if seg == "" || seg == "." then acc
    else if seg == ".." then (if |acc| == 0 then acc else acc[..|acc| - 1])
    else acc + [seg]
  }

  /** The components, below "/", of the lexically resolved absolute path `parts`. */
  function Normalize(parts: seq<string>): seq<string>
    decreases |parts|
  {
    if |parts| == 0 then [] else Step(Normalize(parts[..|parts| - 1]), parts[|parts| - 1])
  }

  lemma NormalizeSnoc(p: seq<string>, x: string)
    ensures Normalize(p + [x]) == Step(Normalize(p), x)
  {
    assert (p + [x])[..|p|] == p;
  }

  predicate Canonical(p: seq<string>)
  {
    forall i :: 0 <= i < |p| ==> p[i] != "" && p[i] != "." && p[i] != ".."
  }

  /** Resolution leaves no "", "." or ".." behind, and is idempotent. */
  lemma {:induction false} NormalizeIsCanonical(parts: seq<string>)
    ensures Canonical(Normalize(parts))
    ensures Normalize(Normalize(parts)) == Normalize(parts)
    decreases |parts|
  {
    if |parts| > 0 {
      NormalizeIsCanonical(parts[..|parts| - 1]);
      CanonicalIsNormal(Normalize(parts));
    }
  }

  lemma {:induction false} CanonicalIsNormal(p: seq<string>)
    requires Canonical(p)
    ensures Normalize(p) == p
    decreases |p|
  {
    if |p| > 0 {
      var init := p[..|p| - 1];
      var last := p[|p| - 1];
      assert Canonical(init) by {
        forall i | 0 <= i < |init| ensures init[i] != "" && init[i] != "." && init[i] != ".." {
          assert init[i] == p[i];
        }
      }
      CanonicalIsNormal(init);
      assert last != "" && last != "." && last != "..";
      assert Normalize(p) == Step(Normalize(init), last);
      assert p == init + [last];
    }
  }

  /** `Path.resolve()` of `p` in working directory `cwd`, without symbolic links. */
  function Resolve(cwd: seq<string>, p: Path): (r: seq<string>)
    ensures Canonical(r)
  {
    var whole := if p.absolute then p.parts else cwd + p.parts;
    NormalizeIsCanonical(whole);
    Normalize(whole)
  }

  /** Joining a plain name to a path adds exactly that component to its resolution. */
  lemma ResolveJoinPlainName(cwd: seq<string>, base: Path, name: string)
    requires PlainName(name)
    ensures Resolve(cwd, JoinPath(base, name)) == Resolve(cwd, base) + [name]
  {
    ParsePlainName(name);
    var whole := if base.absolute then base.parts else cwd + base.parts;
    assert (whole + [name])[..|whole + [name]| - 1] == whole;
    if !base.absolute {
      assert cwd + (base.parts + [name]) == whole + [name];
    }
  }

  /** `p.is_relative_to(base)`: `base` is a prefix of `p`, component by component. */
  predicate IsRelativeTo(p: seq<string>, base: seq<string>)
  {
    |base| <= |p| && p[..|base|] == base
  }

  /** `str(p)` for an absolute resolved path. */
  function AbsoluteString(p: seq<string>): string
  {
    "/" + Join("/", p)
  }

  /** `p.name`. */
  function Name(p: seq<string>): string
  {
    if |p| == 0 then "" else p[|p| - 1]
  }

  /** `s.rfind(c)`. */
  function RFind(s: string, c: char): (i: int)
    ensures -1 <= i < |s|
    ensures i >= 0 ==> s[i] == c
    ensures forall j :: i < j < |s| ==> s[j] != c
    decreases |s|
  {
    if |s| == 0 then -1
    else if s[|s| - 1] == c then |s| - 1
    else RFind(s[..|s| - 1], c)
  }

  /** `PurePath.suffix` of a name: from its last "." on, unless that dot is
      the first or the last character. */
  function Suffix(name: string): (r: string)
    ensures r != "" ==> |r| >= 2 && |r| < |name| && r == name[|name| - |r|..]
    ensures r != "" ==> r[0] == '.' && '.' !in r[1..]
    ensures 0 < RFind(name, '.') < |name| - 1 ==> r == name[RFind(name, '.')..]
    ensures !(0 < RFind(name, '.') < |name| - 1) ==> r == ""
  {
    var i := RFind(name, '.');
    RFindLast(name, '.');
    if 0 < i < |name| - 1 then name[i..] else ""
  }

  /** Nothing after the position `RFind` returns is the character sought. */
  lemma RFindLast(s: string, c: char)
    ensures c !in s[RFind(s, c) + 1..]
  {
    var i := RFind(s, c);
    var tail := s[i + 1..];
    forall j | 0 <= j < |tail| ensures tail[j] != c {
      assert tail[j] == s[i + 1 + j];
    }
  }

  /** A name without "." has no suffix. */
  lemma SuffixWithoutDot(name: string)
    requires '.' !in name
    ensures Suffix(name) == ""
  {
    assert forall i :: 0 <= i < |name| ==> name[i] in name;
  }

  /** "." denotes the base path itself. */
  lemma ParseDot()
    ensures ParsePath(".") == Path(false, [])
  {
    SplitSlashWithoutSlash(".");
    KeptPartsOne(".");
  }

  /** "./x" denotes the relative path x. */
  lemma ParseDotSlash(name: string)
    requires PlainName(name)
    ensures ParsePath("./" + name) == Path(false, [name])
  {
    assert [".", name][1..] == [name];
    assert "./" + name == Join("/", [".", name]);
    SplitJoinRoundTrip([".", name]);
    assert [".", name] == ["."] + [name];
    KeptPartsAppend(["."], [name]);
    KeptPartsOne(".");
    KeptPartsOne(name);
  }

  /** A name made of a stem, a dot and an extension without dots has that
      extension, with its dot, as suffix. */
  lemma SuffixOfExtension(stem: string, ext: string)
    requires stem != "" && ext != "" && '.' !in ext
    ensures Suffix(stem + "." + ext) == "." + ext
  {
    var name := stem + "." + ext;
    assert name[|stem|] == '.';
    assert name[|stem| + 1..] == ext;
    RFindAt(name, '.', |stem|);
    assert name[|stem|..] == "." + ext;
  }

  /** The position `RFind` returns is the last occurrence. */
  lemma RFindAt(s: string, c: char, i: nat)
    requires i < |s| && s[i] == c && c !in s[i + 1..]
    ensures RFind(s, c) == i
  {
  }

  /** `os.path.basename(s)`: the longest suffix of `s` without "/". */
  function Basename(s: string): (r: string)
    ensures '/' !in r
    ensures |r| <= |s| && r == s[|s| - |r|..]
    ensures |r| < |s| ==> s[|s| - |r| - 1] == '/'
  {
    RFindLast(s, '/');
    s[RFind(s, '/') + 1..]
  }
}
