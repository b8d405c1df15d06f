/** The pieces of Python's `os.path` (POSIX flavour) and `str` that the cleaner
    relies on: `rfind`, `join` of two components, `basename`, `splitext`, and
    an ASCII `lower`. The functions carry only the contracts their callers
    need for well-formedness; what they mean is stated by the lemmas beside
    them, which callers invoke where needed. */
module PathNames {

  /** True when `s` holds no path separator. */
  predicate NoSep(s: string) {
    forall k :: 0 <= k < |s| ==> s[k] != '/'
  }

  /** `s.rfind(c)`: the index of the last `c` in `s`, or -1. */
  function LastIndexOf(s: string, c: char): (r: int)
    ensures -1 <= r < |s|
  {
    if s == [] then -1
    else if s[|s| - 1] == c then |s| - 1
    else LastIndexOf(s[..|s| - 1], c)
  }

  /** `LastIndexOf` finds a `c`, and no `c` follows it. */
  lemma {:induction false} LastIndexOfSpec(s: string, c: char)
    ensures var r := LastIndexOf(s, c);
            (r >= 0 ==> s[r] == c) && forall k :: r < k < |s| ==> s[k] != c
  {
    if s != [] && s[|s| - 1] != c {
      var t := s[..|s| - 1];
      LastIndexOfSpec(t, c);
      assert forall k :: 0 <= k < |t| ==> t[k] == s[k];
    }
  }

  /** The properties of `LastIndexOfSpec` pin its value down. */
  lemma LastIndexOfUnique(s: string, c: char, r: int)
    requires -1 <= r < |s|
    requires r >= 0 ==> s[r] == c
    requires forall k :: r < k < |s| ==> s[k] != c
    ensures LastIndexOf(s, c) == r
  {
    LastIndexOfSpec(s, c);
  }

  /** The last `c` of `a + b` lies in `b` when `b` has one, else it is `a`'s. */
  lemma LastIndexOfConcat(a: string, b: string, c: char)
    ensures LastIndexOf(a + b, c) ==
              if LastIndexOf(b, c) >= 0 then |a| + LastIndexOf(b, c) else LastIndexOf(a, c)
  {
    LastIndexOfSpec(a, c);
    LastIndexOfSpec(b, c);
    var lb := LastIndexOf(b, c);
    if lb >= 0 {
      forall k | |a| + lb < k < |a + b| ensures (a + b)[k] != c {
        assert (a + b)[k] == b[k - |a|];
      }
      LastIndexOfUnique(a + b, c, |a| + lb);
    } else {
      var la := LastIndexOf(a, c);
      forall k | la < k < |a + b| ensures (a + b)[k] != c {
        if k >= |a| { assert (a + b)[k] == b[k - |a|]; }
      }
      LastIndexOfUnique(a + b, c, la);
    }
  }

  /** The text `join(a, b)` puts in front of a relative component `b`. */
  function JoinPrefix(a: string): string {
    if a == [] || a[|a| - 1] == '/' then a else a + "/"
  }

  /** `os.path.join(a, b)`: an absolute `b` replaces `a`; otherwise one
      separator is inserted unless `a` is empty or already ends with one. */
  function Join(a: string, b: string): string {
    if |b| > 0 && b[0] == '/' then b
    else if a == [] || a[|a| - 1] == '/' then a + b
    else a + "/" + b
  }

  /** `join` always ends with its second component; a relative one is
      appended to `a` with exactly one separator between them. */
  lemma JoinSpec(a: string, b: string)
    ensures var r := Join(a, b);
            |b| <= |r| && r[|r| - |b|..] == b
    ensures (b == [] || b[0] != '/') ==> Join(a, b) == JoinPrefix(a) + b
    ensures (b == [] || b[0] != '/') && a != [] && a[|a| - 1] != '/' ==>
              var r := Join(a, b);
              |r| == |a| + 1 + |b| && r[..|a|] == a && r[|a|] == '/'
  {
  }

  /** `os.path.basename(p)`: everything after the last separator. */
  function Basename(p: string): string {
    p[LastIndexOf(p, '/') + 1..]
  }

  /** The base name is the longest separator-free suffix of the path. */
  lemma BasenameSpec(p: string)
    ensures var r := Basename(p);
            NoSep(r) && |r| <= |p| && r == p[|p| - |r|..] &&
            (|r| == |p| || p[|p| - |r| - 1] == '/')
  {
    LastIndexOfSpec(p, '/');
  }

  /** What `join` puts in front of a relative component ends with its last
      separator. */
  lemma JoinPrefixLastSep(a: string)
    ensures LastIndexOf(JoinPrefix(a), '/') == |JoinPrefix(a)| - 1
  {
    var pre := JoinPrefix(a);
    if pre != [] {
      assert pre[|pre| - 1] == '/';
    }
  }

  /** Joining a separator-free name onto a directory and taking the base name
      gives the name back. */
  lemma BasenameOfJoin(dir: string, name: string)
    requires NoSep(name)
    ensures Basename(Join(dir, name)) == name
  {
    var pre := JoinPrefix(dir);
    assert Join(dir, name) == pre + name by {
      JoinSpec(dir, name);
    }
    LastIndexOfUnique(name, '/', -1);
    JoinPrefixLastSep(dir);
    LastIndexOfConcat(pre, name, '/');
    assert (pre + name)[|pre|..] == name;
  }

  /** Filing the base name of `path` under a directory that does not end
      with a separator puts exactly one separator between them, and the
      base name survives. */
  lemma JoinKeepsName(dir: string, path: string)
    requires dir != [] && dir[|dir| - 1] != '/'
    ensures Join(dir, Basename(path)) == dir + "/" + Basename(path)
    ensures Basename(Join(dir, Basename(path))) == Basename(path)
  {
    var b := Basename(path);
    BasenameSpec(path);
    assert b == [] || b[0] != '/';
    BasenameOfJoin(dir, b);
  }

  /** True when some character strictly between `lo` and `hi` is not a dot:
      the part of the base name in front of the last dot is not all dots. */
  predicate HasStem(p: string, lo: int, hi: int)
    requires -1 <= lo && hi <= |p|
  {
    exists k :: lo < k < hi && p[k] != '.'
  }

  /** `os.path.splitext(p)`: the extension runs from the last dot of the base
      name on, provided that dot is preceded in the base name by something
      other than dots (so `.bashrc` has none); otherwise it is empty. */
  function SplitExt(p: string): (string, string) {
    var sep := LastIndexOf(p, '/');
    var dot := LastIndexOf(p, '.');
    if sep < dot && HasStem(p, sep, dot) then (p[..dot], p[dot..]) else (p, [])
  }

  /** The two parts put back together give the path; a non-empty extension
      is one dot followed by neither dots nor separators. */
  lemma SplitExtSpec(p: string)
    ensures var r := SplitExt(p);
            r.0 + r.1 == p &&
            (r.1 == [] || (r.1[0] == '.' && NoSep(r.1))) &&
            forall k :: 0 < k < |r.1| ==> r.1[k] != '.'
  {
    LastIndexOfSpec(p, '/');
    LastIndexOfSpec(p, '.');
  }

  /** When only dots stand in the base name before its last dot (a hidden
      file such as `.bashrc`), there is no extension. */
  lemma LeadingDotsAreNoExtension(p: string)
    requires forall k :: LastIndexOf(p, '/') < k < LastIndexOf(p, '.') ==> p[k] == '.'
    ensures SplitExt(p).1 == []
  {
  }

  /** Whether a stem exists does not depend on text in front of the range. */
  lemma HasStemShift(x: string, b: string, lo: int, hi: int)
    requires -1 <= lo && hi <= |b|
    ensures HasStem(x + b, |x| + lo, |x| + hi) <==> HasStem(b, lo, hi)
  {
    var p := x + b;
    if HasStem(p, |x| + lo, |x| + hi) {
      var k :| |x| + lo < k < |x| + hi && p[k] != '.';
      assert b[k - |x|] == p[k];
    }
    if HasStem(b, lo, hi) {
      var k :| lo < k < hi && b[k] != '.';
      assert p[k + |x|] == b[k];
    }
  }

  /** The extension of a path is the extension of its base name. */
  lemma SplitExtOfBasename(p: string)
    ensures SplitExt(p).1 == SplitExt(Basename(p)).1
  {
    var sep := LastIndexOf(p, '/');
    var x, b := p[..sep + 1], Basename(p);
    assert p == x + b;
    assert LastIndexOf(b, '/') == -1 by {
      LastIndexOfSpec(p, '/');
      assert forall k :: 0 <= k < |b| ==> b[k] == p[sep + 1 + k];
      LastIndexOfUnique(b, '/', -1);
    }
    assert x == [] || x[|x| - 1] == '/' by {
      LastIndexOfSpec(p, '/');
    }
    SplitExtAfterDirectory(x, b);
  }

  /** Putting a directory part `x` (ending in a separator, or empty) in front
      of a separator-free name `b` does not change its extension. */
  lemma SplitExtAfterDirectory(x: string, b: string)
    requires x == [] || x[|x| - 1] == '/'
    requires LastIndexOf(b, '/') == -1
    ensures SplitExt(x + b).1 == SplitExt(b).1
  {
    var p := x + b;
    LastIndexOfConcat(x, b, '/');
    LastIndexOfConcat(x, b, '.');
    if x != [] {
      LastIndexOfUnique(x, '/', |x| - 1);
    }
    assert LastIndexOf(p, '/') == |x| - 1;
    var db := LastIndexOf(b, '.');
    if db >= 0 {
      HasStemShift(x, b, -1, db);
      assert p[|x| + db..] == b[db..];
    } else {
      assert LastIndexOf(p, '.') == LastIndexOf(x, '.') < |x|;
    }
  }

  /** ASCII lower-casing of one character. */
  function LowerChar(c: char): char {
    if 'A' <= c <= 'Z' then (c as int + 32) as char else c
  }

  /** `s.lower()` restricted to ASCII letters. */
  function LowerAscii(s: string): (r: string)
    ensures |r| == |s|
  {
    if s == [] then [] else [LowerChar(s[0])] + LowerAscii(s[1..])
  }

  /** Lower-casing works character by character. */
  lemma {:induction false} LowerAsciiAt(s: string)
    ensures forall k :: 0 <= k < |s| ==> LowerAscii(s)[k] == LowerChar(s[k])
  {
    if s != [] {
      LowerAsciiAt(s[1..]);
    }
  }

  /** Lower-casing twice is lower-casing once. */
  lemma LowerAsciiIdempotent(s: string)
    ensures LowerAscii(LowerAscii(s)) == LowerAscii(s)
  {
    LowerAsciiAt(s);
    LowerAsciiAt(LowerAscii(s));
  }

  /** Lower-casing leaves separators and dots where they were. */
  lemma LastIndexOfLower(s: string, c: char)
    requires c == '/' || c == '.'
    ensures LastIndexOf(LowerAscii(s), c) == LastIndexOf(s, c)
  {
    LowerAsciiAt(s);
    LastIndexOfSpec(s, c);
    LastIndexOfUnique(LowerAscii(s), c, LastIndexOf(s, c));
  }

  /** Taking the extension commutes with lower-casing. */
  lemma SplitExtOfLower(p: string)
    ensures SplitExt(LowerAscii(p)).1 == LowerAscii(SplitExt(p).1)
  {
    var q := LowerAscii(p);
    LowerAsciiAt(p);
    LastIndexOfLower(p, '/');
    LastIndexOfLower(p, '.');
    var sep := LastIndexOf(p, '/');
    var dot := LastIndexOf(p, '.');
    if sep < dot {
      assert HasStem(q, sep, dot) <==> HasStem(p, sep, dot) by {
        if HasStem(p, sep, dot) {
          var k :| sep < k < dot && p[k] != '.';
          assert q[k] != '.';
        }
        if HasStem(q, sep, dot) {
          var k :| sep < k < dot && q[k] != '.';
          assert p[k] != '.';
        }
      }
      LowerAsciiAt(p[dot..]);
      assert q[dot..] == LowerAscii(p[dot..]);
    }
  }
}
