/**
 * The path helpers of python-lib/utils.py (written there as methods of a
 * `Utils` class, and repeated verbatim in the filesystem provider): strip a
 * leading slash, normalise to the canonical `/a/b` form, prefix the root.
 */
module PathUtils {

  /** Python's `s.split('/')`: always at least one piece, none containing '/'. */
  function Split(s: string): (r: seq<string>)
    ensures |r| >= 1
    ensures forall i :: 0 <= i < |r| ==> '/' !in r[i]
    decreases |s|
  {
    if s == [] then [""]
    else
      var rest := Split(s[1..]);
      if s[0] == '/' then [""] + rest
      else [[s[0]] + rest[0]] + rest[1..]
  }

  /** Python's `'/'.join(segs)`. */
  function Join(segs: seq<string>): string
  {
    if segs == [] then ""
    else if |segs| == 1 then segs[0]
    else segs[0] + "/" + Join(segs[1..])
  }

  /** The list comprehension `[e for e in segs if len(e) > 0]`. */
  function NonEmpty(segs: seq<string>): (r: seq<string>)
    ensures |r| <= |segs|
    ensures forall i :: 0 <= i < |r| ==> r[i] != "" && r[i] in segs
  {
    if segs == [] then []
    else if segs[0] == "" then NonEmpty(segs[1..])
    else [segs[0]] + NonEmpty(segs[1..])
  }

  /** `os.path.join(a, seg)` for a slash-free `seg`. */
  function OsJoin(a: string, seg: string): string
  {
    if a == "" then seg
    else if a[|a| - 1] == '/' then a + seg
    else a + "/" + seg
  }

  /** `get_rel_path`: drop one leading slash, if there is one. */
  function RelPath(p: string): string
  {
    if |p| > 0 && p[0] == '/' then p[1..] else p
  }

  /** `get_normalized_path` (utils.py) and `get_lnt_path` (the provider). */
  function NormalizedPath(p: string): string
  {
    if |p| == 0 || p == "/" then "/"
    else "/" + Join(NonEmpty(Split(p)))
  }

  /** `get_full_path`, with the provider's `root_lnt` passed in. */
  function FullPath(rootLnt: string, p: string): string
  {
    var n := NormalizedPath(p);
    if n == "/" then rootLnt else rootLnt + n
  }

  /** `'/'.join(path.split('/')[:-1])`: everything before the last segment. */
  function ParentPath(path: string): string {
    var segs := Split(path);
    Join(segs[..|segs| - 1])
  }

  /** `path.split('/')[-1]`: the last segment. */
  function LastSegment(path: string): string {
    var segs := Split(path);
    segs[|segs| - 1]
  }

  /** A path in the canonical form: a leading slash, no empty segment, no trailing slash. */
  predicate Canonical(r: string) {
    && |r| > 0 && r[0] == '/'
    && (forall i :: 0 <= i < |r| - 1 ==> !(r[i] == '/' && r[i + 1] == '/'))
    && (r[|r| - 1] == '/' ==> r == "/")
  }

  predicate SlashFree(segs: seq<string>) {
    forall i :: 0 <= i < |segs| ==> '/' !in segs[i]
  }

  // ---------------------------------------------------------------- split / join

  lemma {:induction false} JoinSplit(s: string)
    ensures Join(Split(s)) == s
    decreases |s|
  {
    if s != [] {
      var rest := Split(s[1..]);
      JoinSplit(s[1..]);
      if s[0] == '/' {
        assert Join([""] + rest) == "" + "/" + Join(rest) by {
          assert ([""] + rest)[1..] == rest;
        }
      } else {
        var r := [[s[0]] + rest[0]] + rest[1..];
        assert r[1..] == rest[1..];
        if |rest| == 1 {
          assert Join(r) == [s[0]] + rest[0];
          assert Join(rest) == rest[0];
        } else {
          assert Join(rest) == rest[0] + "/" + Join(rest[1..]);
        }
        assert s == [s[0]] + s[1..];
      }
    }
  }

  /** Splitting at a separator splits each side on its own. */
  lemma {:induction false} SplitAround(x: string, y: string)
    ensures Split(x + "/" + y) == Split(x) + Split(y)
    decreases |x|
  {
    var s := x + "/" + y;
    if x == [] {
      assert s[1..] == y;
    } else {
      assert s[1..] == x[1..] + "/" + y;
      SplitAround(x[1..], y);
    }
  }

  lemma {:induction false} SplitSlashFree(a: string)
    requires '/' !in a
    ensures Split(a) == [a]
    decreases |a|
  {
    if a != [] {
      SplitSlashFree(a[1..]);
      assert [a[0]] + a[1..] == a;
    }
  }

  lemma {:induction false} SplitJoin(segs: seq<string>)
    requires |segs| >= 1 && SlashFree(segs)
    ensures Split(Join(segs)) == segs
    decreases |segs|
  {
    if |segs| == 1 {
      SplitSlashFree(segs[0]);
    } else {
      SplitJoin(segs[1..]);
      SplitAround(segs[0], Join(segs[1..]));
      SplitSlashFree(segs[0]);
      assert [segs[0]] + segs[1..] == segs;
    }
  }

  lemma {:induction false} NonEmptyAppend(a: seq<string>, b: seq<string>)
    ensures NonEmpty(a + b) == NonEmpty(a) + NonEmpty(b)
    decreases |a|
  {
    if a == [] {
      assert a + b == b;
    } else {
      var ab := a + b;
      assert ab != [] && ab[1..] == a[1..] + b && ab[0] == a[0];
      NonEmptyAppend(a[1..], b);
      if a[0] == "" {
        assert NonEmpty(ab) == NonEmpty(ab[1..]);
      } else {
        assert NonEmpty(ab) == [a[0]] + NonEmpty(ab[1..]);
        assert [a[0]] + (NonEmpty(a[1..]) + NonEmpty(b)) == ([a[0]] + NonEmpty(a[1..])) + NonEmpty(b);
      }
    }
  }

  lemma {:induction false} NonEmptyOfNonEmpty(segs: seq<string>)
    requires forall i :: 0 <= i < |segs| ==> segs[i] != ""
    ensures NonEmpty(segs) == segs
    decreases |segs|
  {
    if segs != [] {
      NonEmptyOfNonEmpty(segs[1..]);
      assert [segs[0]] + segs[1..] == segs;
    }
  }

  lemma {:induction false} NonEmptySlashFree(segs: seq<string>)
    requires SlashFree(segs)
    ensures SlashFree(NonEmpty(segs))
    decreases |segs|
  {
    if segs != [] {
      NonEmptySlashFree(segs[1..]);
    }
  }

  /** Joining non-empty slash-free segments gives a string with no empty segment at either end or inside. */
  lemma {:induction false} JoinShape(segs: seq<string>)
    requires |segs| >= 1 && SlashFree(segs)
    requires forall i :: 0 <= i < |segs| ==> segs[i] != ""
    ensures var j := Join(segs);
      |j| > 0 && j[0] != '/' && j[|j| - 1] != '/'
      && forall i :: 0 <= i < |j| - 1 ==> !(j[i] == '/' && j[i + 1] == '/')
    decreases |segs|
  {
    var j := Join(segs);
    assert segs[0][0] in segs[0];
    if |segs| == 1 {
      assert segs[0][|segs[0]| - 1] in segs[0];
    } else {
      var t := Join(segs[1..]);
      JoinShape(segs[1..]);
      var h := segs[0];
      assert h[|h| - 1] in h;
      assert j == h + "/" + t;
      forall i | 0 <= i < |j| - 1
        ensures !(j[i] == '/' && j[i + 1] == '/')
      {
        if i < |h| {
          assert j[i] == h[i];
          assert h[i] in h;
        } else if i > |h| {
          assert j[i] == t[i - |h| - 1] && j[i + 1] == t[i - |h|];
        } else {
          assert j[i + 1] == t[0];
        }
      }
    }
  }

  // ---------------------------------------------------------------- normalisation

  /** The segments of a normalised path are the non-empty segments of its input, in order. */
  lemma NormalizedSplit(p: string)
    ensures NormalizedPath(p) == "/" ==> NonEmpty(Split(p)) == []
    ensures NormalizedPath(p) != "/" ==>
      NonEmpty(Split(p)) != [] && Split(NormalizedPath(p)) == [""] + NonEmpty(Split(p))
  {
    var ne := NonEmpty(Split(p));
    if |p| == 0 {
    } else if p == "/" {
      assert Split(p) == [""] + Split("");
    } else {
      NonEmptySlashFree(Split(p));
      if ne == [] {
        assert NormalizedPath(p) == "/";
      } else {
        SplitJoin(ne);
        SplitAround("", Join(ne));
        assert "" + "/" + Join(ne) == NormalizedPath(p);
      }
    }
  }

  lemma NormalizedSegments(p: string)
    ensures NonEmpty(Split(NormalizedPath(p))) == NonEmpty(Split(p))
  {
    NormalizedSplit(p);
    var n := NormalizedPath(p);
    if n == "/" {
      assert Split("/") == [""] + Split("");
    } else {
      var ne := NonEmpty(Split(p));
      NonEmptyAppend([""], ne);
      NonEmptyOfNonEmpty(ne);
    }
  }

  /** The result is `/` for `''` and `/`, and always in canonical form. */
  lemma NormalizedCanonical(p: string)
    ensures p == "" || p == "/" ==> NormalizedPath(p) == "/"
    ensures Canonical(NormalizedPath(p))
  {
    var n := NormalizedPath(p);
    if n != "/" {
      var ne := NonEmpty(Split(p));
      NormalizedSplit(p);
      NonEmptySlashFree(Split(p));
      JoinShape(ne);
      var j := Join(ne);
      assert n == "/" + j;
      forall i | 0 <= i < |n| - 1
        ensures !(n[i] == '/' && n[i + 1] == '/')
      {
        if i > 0 {
          assert n[i] == j[i - 1] && n[i + 1] == j[i];
        }
      }
      assert n[|n| - 1] == j[|j| - 1];
    }
  }

  lemma NormalizedIdempotent(p: string)
    ensures NormalizedPath(NormalizedPath(p)) == NormalizedPath(p)
  {
    var n := NormalizedPath(p);
    if n != "/" {
      NormalizedSegments(p);
      var ne := NonEmpty(Split(p));
      assert NormalizedPath(n) == "/" + Join(NonEmpty(Split(n)));
    }
  }

  /** A canonical path is its own normal form. */
  lemma CanonicalIsNormalized(r: string)
    requires Canonical(r)
    ensures NormalizedPath(r) == r
  {
    if r != "/" {
      var segs := Split(r);
      JoinSplit(r);
      assert r == "/" + r[1..];
      SplitAround("", r[1..]);
      var tail := Split(r[1..]);
      assert segs == [""] + tail;
      forall i | 0 <= i < |tail|
        ensures tail[i] != ""
      {
        CanonicalSegment(r[1..], i);
      }
      NonEmptyAppend([""], tail);
      NonEmptyOfNonEmpty(tail);
      JoinSplit(r[1..]);
    }
  }

  /** Every segment of a string with no `//`, no leading and no trailing slash is non-empty. */
  lemma {:induction false} CanonicalSegment(t: string, i: nat)
    requires |t| > 0 && t[0] != '/' && t[|t| - 1] != '/'
    requires forall k :: 0 <= k < |t| - 1 ==> !(t[k] == '/' && t[k + 1] == '/')
    requires i < |Split(t)|
    ensures Split(t)[i] != ""
    decreases |t|
  {
    var rest := Split(t[1..]);
    if |t| == 1 {
      assert t[1..] == "";
    } else if i > 0 {
      // t[0] is not '/', so Split(t)[i] = rest[i] for i >= 1
      if t[1] == '/' {
        // rest = [""] + Split(t[2..]), and Split(t)[i] == Split(t[2..])[i - 1]
        assert rest == [""] + Split(t[2..]);
        assert t[2..] == t[1..][1..];
        assert |t| > 2 && t[2] != '/';
        forall k | 0 <= k < |t[2..]| - 1 ensures !(t[2..][k] == '/' && t[2..][k + 1] == '/') {
          assert t[2..][k] == t[k + 2];
        }
        CanonicalSegment(t[2..], i - 1);
      } else {
        forall k | 0 <= k < |t[1..]| - 1 ensures !(t[1..][k] == '/' && t[1..][k + 1] == '/') {
          assert t[1..][k] == t[k + 1];
        }
        CanonicalSegment(t[1..], i);
      }
    }
  }

  /** `get_rel_path` drops exactly one leading slash when present and is the identity otherwise. */
  lemma RelPathStrips(p: string)
    ensures |p| > 0 && p[0] == '/' ==> "/" + RelPath(p) == p
    ensures !(|p| > 0 && p[0] == '/') ==> RelPath(p) == p
    ensures RelPath("/" + p) == p
  {
    assert ("/" + p)[1..] == p;
    if |p| > 0 && p[0] == '/' {
      assert p == "/" + p[1..];
    }
  }

  /** Stripping a leading slash never changes the normal form. */
  lemma RelPathNormalized(p: string)
    ensures NormalizedPath(RelPath(p)) == NormalizedPath(p)
  {
    if |p| > 0 && p[0] == '/' {
      var t := p[1..];
      assert p == "" + "/" + t;
      SplitAround("", t);
      NonEmptyAppend([""], Split(t));
      if t == "" {
        assert Split(p) == [""] + Split("");
      }
    }
  }

  /** `get_full_path` puts the root's segments before the path's, with no separator de-duplication. */
  lemma FullPathSegments(rootLnt: string, p: string)
    ensures NonEmpty(Split(FullPath(rootLnt, p))) == NonEmpty(Split(rootLnt)) + NonEmpty(Split(p))
  {
    var n := NormalizedPath(p);
    NormalizedSplit(p);
    var ne := NonEmpty(Split(p));
    if n != "/" {
      NonEmptySlashFree(Split(p));
      assert rootLnt + n == rootLnt + "/" + Join(ne);
      SplitAround(rootLnt, Join(ne));
      SplitJoin(ne);
      NonEmptyAppend(Split(rootLnt), ne);
      NonEmptyOfNonEmpty(ne);
    }
  }

  lemma FullPathShape(rootLnt: string, p: string)
    ensures NormalizedPath(p) == "/" ==> FullPath(rootLnt, p) == rootLnt
    ensures NormalizedPath(p) != "/" ==>
      |FullPath(rootLnt, p)| > |rootLnt| + 1 && FullPath(rootLnt, p)[..|rootLnt| + 1] == rootLnt + "/"
  {
    var n := NormalizedPath(p);
    if n != "/" {
      NormalizedCanonical(p);
      assert n[0] == '/';
      var f := rootLnt + n;
      assert f[..|rootLnt| + 1] == rootLnt + [n[0]];
    }
  }

  /** A relative path whose segments are all non-empty is spelled by `os.path.join` segment by segment. */
  lemma {:induction false} OsJoinPrefix(segs: seq<string>, i: nat)
    requires 1 <= i <= |segs| && SlashFree(segs)
    requires forall k :: 0 <= k < |segs| ==> segs[k] != ""
    ensures OsJoin(Join(segs[..i - 1]), segs[i - 1]) == Join(segs[..i])
    decreases i
  {
    if i == 1 {
      assert segs[..1] == [segs[0]];
    } else {
      JoinSnoc(segs[..i - 1], segs[i - 1]);
      assert segs[..i - 1] + [segs[i - 1]] == segs[..i];
      var a := Join(segs[..i - 1]);
      JoinLast(segs[..i - 1]);
    }
  }

  lemma {:induction false} JoinSnoc(a: seq<string>, x: string)
    requires |a| >= 1
    ensures Join(a + [x]) == Join(a) + "/" + x
    decreases |a|
  {
    if |a| == 1 {
      assert (a + [x])[1..] == [x];
    } else {
      assert (a + [x])[1..] == a[1..] + [x];
      JoinSnoc(a[1..], x);
    }
  }

  lemma {:induction false} JoinLast(a: seq<string>)
    requires |a| >= 1
    requires a[|a| - 1] != "" && '/' !in a[|a| - 1]
    ensures Join(a) != "" && Join(a)[|Join(a)| - 1] != '/'
    decreases |a|
  {
    var last := a[|a| - 1];
    assert last[|last| - 1] in last;
    if |a| > 1 {
      JoinLast(a[1..]);
    }
  }

  /** The last segment of a normal form has no slash and, below the top, is the last non-empty segment. */
  lemma LastOfNormalized(p: string)
    ensures '/' !in LastSegment(NormalizedPath(p))
    ensures NormalizedPath(p) != "/" ==>
      var ne := NonEmpty(Split(p)); LastSegment(NormalizedPath(p)) == ne[|ne| - 1]
  {
    var n := NormalizedPath(p);
    var segs := Split(n);
    assert '/' !in segs[|segs| - 1];
    if n != "/" {
      NormalizedSplit(p);
      var ne := NonEmpty(Split(p));
      assert segs == [""] + ne;
      assert segs[|segs| - 1] == ne[|ne| - 1];
    }
  }
}
