/**
 * `VfsPath` (crates/diaspor-core/src/path.rs): normalisation, parent, name and join.
 *
 * A path is a string. The reference meaning of a path is its sequence of segments;
 * `Render` writes segments back as a canonical path.
 */
module VfsPaths {
  import opened Common

  const ROOT := "/"

  predicate IsSeparator(c: char) { c == '/' || c == '\\' }

  /** A segment that `join` can append without changing the shape of the path. */
  predicate Plain(segment: string)
  {
    segment != "" && forall i :: 0 <= i < |segment| ==> !IsSeparator(segment[i]) && segment[i] != '\0'
  }

  /** A maximal run between separators: non-empty and free of separators. */
  predicate Unbroken(run: string)
  {
    run != "" && forall i :: 0 <= i < |run| ==> !IsSeparator(run[i])
  }

  predicate UnbrokenAll(segments: seq<string>)
  {
    forall i :: 0 <= i < |segments| ==> Unbroken(segments[i])
  }

  predicate PlainAll(segments: seq<string>)
  {
    forall i :: 0 <= i < |segments| ==> Plain(segments[i])
  }

  /** What every `VfsPath` value satisfies: it starts with a slash. */
  predicate Absolute(p: string) { p != "" && p[0] == '/' }

  /** Leading slash, no backslash, no NUL, no doubled slash, no trailing slash except on root. */
  predicate Canonical(p: string)
  {
    && Absolute(p)
    && (forall i :: 0 <= i < |p| ==> p[i] != '\\' && p[i] != '\0')
    && (forall i :: 0 <= i < |p| - 1 ==> p[i] == '/' ==> p[i + 1] != '/')
    && (|p| > 1 ==> Last(p) != '/')
  }

  // ---------------------------------------------------------------- segments

  function SegmentEnd(s: string): (n: nat)
    ensures n <= |s|
    ensures forall i :: 0 <= i < n ==> !IsSeparator(s[i])
    ensures n < |s| ==> IsSeparator(s[n])
  {
    if s == "" || IsSeparator(s[0]) then 0 else 1 + SegmentEnd(s[1..])
  }

  /** The maximal runs of non-separator characters of `s`, in order. */
  function Segments(s: string): (segments: seq<string>)
    ensures UnbrokenAll(segments)
    decreases |s|
  {
    if s == "" then []
    else if IsSeparator(s[0]) then Segments(s[1..])
    else [s[..SegmentEnd(s)]] + Segments(s[SegmentEnd(s)..])
  }

  function Body(segments: seq<string>): string
  {
    if segments == [] then "" else Body(Front(segments)) + "/" + Last(segments)
  }

  function Render(segments: seq<string>): string
  {
    if segments == [] then ROOT else Body(segments)
  }

  /** Result of `VfsPath::new`, stated over segments. */
  function Normalize(s: string): Option<string>
  {
    if s == "" || '\0' in s then None else Some(Render(Segments(s)))
  }

  // Appending one character to `s` either starts, extends or closes a segment.
  lemma {:induction false} SegmentsSnocSeparator(s: string, c: char)
    requires IsSeparator(c)
    ensures Segments(s + [c]) == Segments(s)
    decreases |s|
  {
    if s == "" {
      assert (s + [c])[1..] == "";
    } else if IsSeparator(s[0]) {
      assert (s + [c])[1..] == s[1..] + [c];
      SegmentsSnocSeparator(s[1..], c);
    } else {
      SegmentEndSnoc(s, c);
      var n := SegmentEnd(s);
      assert (s + [c])[..n] == s[..n];
      assert (s + [c])[n..] == s[n..] + [c];
      SegmentsSnocSeparator(s[n..], c);
    }
  }

  lemma {:induction false} SegmentEndSnoc(s: string, c: char)
    ensures SegmentEnd(s + [c]) ==
            if SegmentEnd(s) == |s| && !IsSeparator(c) then |s| + 1 else SegmentEnd(s)
  {
    if s == "" {
      assert (s + [c])[1..] == "";
    } else {
      assert (s + [c])[1..] == s[1..] + [c];
      SegmentEndSnoc(s[1..], c);
    }
  }

  /** The effect on the segments of one more non-separator character. */
  function ExtendRun(s: string, segments: seq<string>, c: char): seq<string>
  {
    if s == "" || IsSeparator(Last(s)) || segments == [] then segments + [[c]]
    else Front(segments) + [Last(segments) + [c]]
  }

  lemma {:induction false} SegmentsNonEmpty(s: string)
    requires s != "" && !IsSeparator(Last(s))
    ensures Segments(s) != []
    decreases |s|
  {
    if IsSeparator(s[0]) {
      SegmentsNonEmpty(s[1..]);
    }
  }

  /** Putting a finished segment in front does not affect where the next character goes. */
  lemma {:induction false} ExtendRunAfter(first: string, s: string, rest: string, segments: seq<string>, c: char)
    requires rest != "" && s != "" && Last(rest) == Last(s)
    requires !IsSeparator(Last(s)) ==> segments != []
    ensures [first] + ExtendRun(rest, segments, c) == ExtendRun(s, [first] + segments, c)
  {
    if !IsSeparator(Last(s)) {
      assert Front([first] + segments) == [first] + Front(segments);
    }
  }

  lemma {:induction false} SegmentsSnocPlain(s: string, c: char)
    requires !IsSeparator(c)
    ensures Segments(s + [c]) == ExtendRun(s, Segments(s), c)
    decreases |s|
  {
    var t := s + [c];
    if s == "" {
      assert t[1..] == "" && t[..1] == [c];
    } else if IsSeparator(s[0]) {
      assert t[1..] == s[1..] + [c];
      SegmentsSnocPlain(s[1..], c);
      assert |s| > 1 ==> Last(s[1..]) == Last(s);
    } else {
      SegmentEndSnoc(s, c);
      var n := SegmentEnd(s);
      if n == |s| {
        assert t[..n + 1] == t && t[n + 1..] == "" && s[n..] == "" && s[..n] == s;
        assert Segments(s) == [s] && Segments(t) == [t];
      } else {
        var rest := s[n..];
        assert t[..n] == s[..n] && t[n..] == rest + [c];
        SegmentsSnocPlain(rest, c);
        if !IsSeparator(Last(s)) {
          SegmentsNonEmpty(rest);
        }
        ExtendRunAfter(s[..n], s, rest, Segments(rest), c);
      }
    }
  }

  lemma {:induction false} SegmentsAppendPlain(s: string, run: string)
    requires s == "" || IsSeparator(Last(s))
    requires Unbroken(run)
    ensures Segments(s + run) == Segments(s) + [run]
    decreases |run|
  {
    var c := Last(run);
    if |run| == 1 {
      assert run == [c];
      SegmentsSnocPlain(s, c);
    } else {
      SegmentsAppendPlain(s, Front(run));
      assert s + run == (s + Front(run)) + [c];
      SegmentsSnocPlain(s + Front(run), c);
      assert Front(run) + [c] == run;
    }
  }

  /** Rendering then splitting loses nothing. */
  lemma {:induction false} SegmentsOfBody(segments: seq<string>)
    requires UnbrokenAll(segments)
    ensures Segments(Body(segments)) == segments
    decreases |segments|
  {
    if segments != [] {
      var init := Front(segments);
      SegmentsOfBody(init);
      SegmentsSnocSeparator(Body(init), '/');
      SegmentsAppendPlain(Body(init) + "/", Last(segments));
      assert Body(segments) == (Body(init) + "/") + Last(segments);
    }
  }

  lemma {:induction false} SegmentsOfRender(segments: seq<string>)
    requires PlainAll(segments)
    ensures Segments(Render(segments)) == segments
  {
    SegmentsOfBody(segments);
    assert Segments("/") == [] by { assert "/"[1..] == ""; }
  }

  lemma {:induction false} BodyShape(segments: seq<string>)
    requires PlainAll(segments) && segments != []
    ensures Canonical(Body(segments)) && |Body(segments)| > 1
    decreases |segments|
  {
    var init := Front(segments);
    if init != [] {
      BodyShape(init);
    }
    assert Last(Body(segments)) == Last(Last(segments));
  }

  lemma {:induction false} RenderIsCanonical(segments: seq<string>)
    requires PlainAll(segments)
    ensures Canonical(Render(segments))
    ensures Render(segments) == ROOT <==> segments == []
  {
    if segments != [] {
      BodyShape(segments);
    }
  }

  /** No character of a segment is invented: NUL-free text has plain segments. */
  lemma {:induction false} SegmentsArePlain(s: string)
    requires '\0' !in s
    ensures PlainAll(Segments(s))
    decreases |s|
  {
    if s != "" {
      if IsSeparator(s[0]) {
        SegmentsArePlain(s[1..]);
      } else {
        SegmentsArePlain(s[SegmentEnd(s)..]);
      }
    }
  }

  /** The canonical paths are exactly the rendered segment sequences. */
  lemma {:induction false} CanonicalIffRendered(p: string)
    ensures Canonical(p) <==> '\0' !in p && p == Render(Segments(p))
  {
    if '\0' !in p && p == Render(Segments(p)) {
      SegmentsArePlain(p);
      RenderIsCanonical(Segments(p));
    }
    if Canonical(p) && p != ROOT {
      CanonicalRoundTrip(p);
    }
    assert Segments("/") == [] by { assert "/"[1..] == ""; }
  }

  lemma {:induction false} CanonicalSplit(p: string)
    requires Canonical(p) && p != ROOT
    ensures var k := LastSlash(p);
            && 0 <= k < |p| - 1
            && Unbroken(p[k + 1..])
            && (k > 0 ==> Canonical(p[..k]) && p[..k] != ROOT)
  {
    var k := LastSlash(p);
    assert k != |p| - 1;
    if k > 0 {
      assert p[k - 1] != '/';
      assert Last(p[..k]) == p[k - 1];
    }
  }

  lemma {:induction false} CanonicalRoundTrip(p: string)
    requires Canonical(p) && p != ROOT
    ensures Segments(p) != [] && p == Body(Segments(p))
    decreases |p|
  {
    CanonicalSplit(p);
    var k := LastSlash(p);
    var dir, run := p[..k], p[k + 1..];
    assert p == (dir + "/") + run;
    SegmentsSnocSeparator(dir, '/');
    SegmentsAppendPlain(dir + "/", run);
    assert Segments(p) == Segments(dir) + [run];
    assert Front(Segments(p)) == Segments(dir) && Last(Segments(p)) == run;
    if k > 0 {
      CanonicalRoundTrip(dir);
    } else {
      assert dir == "";
    }
  }

  lemma {:induction false} BodyExtendRun(s: string, c: char)
    ensures Body(ExtendRun(s, Segments(s), c)) ==
            Body(Segments(s)) + (if s == "" || IsSeparator(Last(s)) then "/" else "") + [c]
  {
    var segments := Segments(s);
    var next := ExtendRun(s, segments, c);
    if s == "" || IsSeparator(Last(s)) {
      assert Front(next) == segments;
    } else {
      SegmentsNonEmpty(s);
      assert Front(next) == Front(segments);
    }
  }

  // ---------------------------------------------------------------- VfsPath operations

  /** Index of the last slash, or -1. */
  function LastSlash(p: string): (k: int)
    ensures -1 <= k < |p|
    ensures k >= 0 ==> p[k] == '/'
    ensures forall i :: k < i < |p| ==> p[i] != '/'
    ensures Absolute(p) ==> k >= 0
  {
    if p == "" then -1
    else if Last(p) == '/' then |p| - 1
    else LastSlash(Front(p))
  }

  function Parent(p: string): Option<string>
  {
    if p == ROOT || LastSlash(p) < 0 then None
    else if LastSlash(p) == 0 then Some(ROOT)
    else Some(p[..LastSlash(p)])
  }

  function Name(p: string): Option<string>
  {
    if p == ROOT || LastSlash(p) < 0 then None else Some(p[LastSlash(p) + 1..])
  }

  function TrimSlashes(s: string): string
    decreases |s|
  {
    if s == "" then ""
    else if s[0] == '/' then TrimSlashes(s[1..])
    else if Last(s) == '/' then TrimSlashes(Front(s))
    else s
  }

  function Join(p: string, segment: string): string
  {
    var s := TrimSlashes(segment);
    if s == "" then p
    else if p == ROOT then "/" + s
    else p + "/" + s
  }

  /** The buffer of `VfsPath::new` after the first `i` characters. */
  ghost function Normalized(s: string, i: nat): string
    requires s != "" && i <= |s|
  {
    if i == 0 then (if IsSeparator(s[0]) then "" else "/")
    else Body(Segments(s[..i])) + (if IsSeparator(s[i - 1]) then "/" else "")
  }

  lemma {:induction false} NormalizedStep(s: string, i: nat)
    requires i < |s|
    ensures IsSeparator(s[i]) && i > 0 && IsSeparator(s[i - 1]) ==> Normalized(s, i + 1) == Normalized(s, i)
    ensures IsSeparator(s[i]) && !(i > 0 && IsSeparator(s[i - 1])) ==> Normalized(s, i + 1) == Normalized(s, i) + "/"
    ensures !IsSeparator(s[i]) ==> Normalized(s, i + 1) == Normalized(s, i) + [s[i]]
  {
    var done := s[..i];
    assert s[..i + 1] == done + [s[i]];
    if IsSeparator(s[i]) {
      SegmentsSnocSeparator(done, s[i]);
    } else {
      SegmentsSnocPlain(done, s[i]);
      BodyExtendRun(done, s[i]);
    }
  }

  lemma {:induction false} NormalizedEnd(s: string)
    requires s != "" && '\0' !in s
    ensures var b := Normalized(s, |s|);
            b != "" && Render(Segments(s)) == (if |b| > 1 && Last(b) == '/' then Front(b) else b)
    ensures Canonical(Render(Segments(s)))
  {
    assert s[..|s|] == s;
    SegmentsArePlain(s);
    RenderIsCanonical(Segments(s));
    if Segments(s) != [] {
      BodyShape(Segments(s));
    } else if !IsSeparator(Last(s)) {
      SegmentsNonEmpty(s);
    }
    assert Front(Body(Segments(s)) + "/") == Body(Segments(s));
  }

  /** `VfsPath::new`: one pass that maps backslashes, collapses slashes and drops a trailing one. */
  method New(s: string) returns (r: Option<string>)
    ensures r.None? <==> s == "" || '\0' in s
    ensures r.Some? ==> Canonical(r.value)
    ensures r == Normalize(s)
  {
    if s == "" || '\0' in s {
      return None;
    }
    var normalized := "";
    if s[0] != '/' && s[0] != '\\' {
      normalized := "/";
    }
    var lastWasSlash := false;
    for i := 0 to |s|
      invariant lastWasSlash == (i > 0 && IsSeparator(s[i - 1]))
      invariant normalized == Normalized(s, i)
    {
      NormalizedStep(s, i);
      var ch := if s[i] == '\\' then '/' else s[i];
      if ch == '/' {
        if lastWasSlash {
          continue;
        }
        lastWasSlash := true;
      } else {
        lastWasSlash := false;
      }
      normalized := normalized + [ch];
    }
    NormalizedEnd(s);
    if |normalized| > 1 && Last(normalized) == '/' {
      normalized := Front(normalized);
    }
    r := Some(normalized);
  }

  // ---------------------------------------------------------------- laws

  /** Normalising twice changes nothing, and the non-empty segments survive in order. */
  lemma {:induction false} NormalizeLaws(s: string)
    requires s != "" && '\0' !in s
    ensures Normalize(s).Some? && Canonical(Normalize(s).value)
    ensures Segments(Normalize(s).value) == Segments(s)
    ensures Normalize(Normalize(s).value) == Normalize(s)
  {
    SegmentsArePlain(s);
    RenderIsCanonical(Segments(s));
    SegmentsOfRender(Segments(s));
  }

  lemma {:induction false} TrimPlain(segment: string)
    requires Plain(segment)
    ensures TrimSlashes(segment) == segment
  {
    assert !IsSeparator(segment[0]) && !IsSeparator(Last(segment));
  }

  /** `trim_matches('/')` removes exactly the slashes at both ends. */
  lemma {:induction false} TrimIsMiddle(s: string) returns (lo: nat, hi: nat)
    ensures lo <= hi <= |s| && TrimSlashes(s) == s[lo..hi]
    ensures forall i :: 0 <= i < |s| && !(lo <= i < hi) ==> s[i] == '/'
    ensures lo < hi ==> s[lo] != '/' && s[hi - 1] != '/'
    decreases |s|
  {
    lo, hi := 0, |s|;
    assert s[0..|s|] == s;
    if s != "" && s[0] == '/' {
      var a, b := TrimIsMiddle(s[1..]);
      lo, hi := a + 1, b + 1;
      assert s[1..][a..b] == s[lo..hi];
      forall i | 0 <= i < |s| && !(lo <= i < hi)
        ensures s[i] == '/'
      {
        if i > 0 {
          assert s[i] == s[1..][i - 1];
        }
      }
    } else if s != "" && Last(s) == '/' {
      lo, hi := TrimIsMiddle(Front(s));
      assert Front(s)[lo..hi] == s[lo..hi];
    }
  }

  /** `join` with a plain segment appends exactly that segment. */
  lemma {:induction false} JoinAppends(segments: seq<string>, segment: string)
    requires PlainAll(segments) && Plain(segment)
    ensures Join(Render(segments), segment) == Render(segments + [segment])
  {
    TrimPlain(segment);
    RenderIsCanonical(segments);
    var longer := segments + [segment];
    assert Front(longer) == segments && Last(longer) == segment;
    assert Body(longer) == Body(segments) + "/" + segment;
  }

  lemma {:induction false} LastSlashOf(prefix: string, name: string)
    requires '/' !in name
    ensures LastSlash(prefix + "/" + name) == |prefix|
  {
    var p := prefix + "/" + name;
    assert p[|prefix|] == '/';
    forall i | |prefix| < i < |p|
      ensures p[i] != '/'
    {
      assert p[i] == name[i - |prefix| - 1];
    }
  }

  /** `parent` drops the last segment and `name` is the last segment. */
  lemma {:induction false} ParentDropsLast(segments: seq<string>)
    requires PlainAll(segments) && segments != []
    ensures Parent(Render(segments)) == Some(Render(Front(segments)))
    ensures Name(Render(segments)) == Some(Last(segments))
  {
    RenderIsCanonical(segments);
    RenderIsCanonical(Front(segments));
    var init := Body(Front(segments));
    assert '/' !in Last(segments);
    LastSlashOf(init, Last(segments));
    var p := init + "/" + Last(segments);
    assert p[..|init|] == init && p[|init| + 1..] == Last(segments);
    if Front(segments) == [] {
      assert init == "";
    } else {
      BodyShape(Front(segments));
    }
  }

  /** `join` of a plain segment has the original path as parent and the segment as name. */
  lemma {:induction false} JoinThenParent(p: string, segment: string)
    requires Canonical(p) && Plain(segment)
    ensures Canonical(Join(p, segment))
    ensures Parent(Join(p, segment)) == Some(p) && Name(Join(p, segment)) == Some(segment)
    ensures |Join(p, segment)| > |p|
  {
    CanonicalIffRendered(p);
    SegmentsArePlain(p);
    var segments := Segments(p);
    JoinAppends(segments, segment);
    RenderIsCanonical(segments + [segment]);
    ParentDropsLast(segments + [segment]);
    assert Front(segments + [segment]) == segments;
    TrimPlain(segment);
  }

  /** `p.parent().join(p.name())` restores every canonical path except root. */
  lemma {:induction false} ParentThenJoin(p: string)
    requires Canonical(p) && p != ROOT
    ensures Parent(p).Some? && Name(p).Some? && Plain(Name(p).value) && Canonical(Parent(p).value)
    ensures Join(Parent(p).value, Name(p).value) == p
  {
    CanonicalIffRendered(p);
    SegmentsArePlain(p);
    ParentDropsLast(Segments(p));
    RestoreRendered(Segments(p));
  }

  lemma {:induction false} RestoreRendered(segments: seq<string>)
    requires PlainAll(segments) && segments != []
    ensures Plain(Last(segments)) && Canonical(Render(Front(segments)))
    ensures Join(Render(Front(segments)), Last(segments)) == Render(segments)
  {
    RenderIsCanonical(Front(segments));
    JoinAppends(Front(segments), Last(segments));
    assert Front(segments) + [Last(segments)] == segments;
  }

  /** The path after `n` parent steps, stopping at root. */
  function Ancestor(p: string, n: nat): string
    decreases n
  {
    if n == 0 || Parent(p).None? then p else Ancestor(Parent(p).value, n - 1)
  }

  /** Walking along a chain of parents. */
  lemma {:induction false} AncestorAlong(paths: seq<string>, n: nat)
    requires n < |paths| && forall i :: 0 <= i < |paths| - 1 ==> Parent(paths[i]) == Some(paths[i + 1])
    ensures Ancestor(paths[0], n) == paths[n]
    decreases n
  {
    if n > 0 {
      var rest := paths[1..];
      assert Parent(paths[0]) == Some(paths[1]);
      assert forall i :: 0 <= i < |rest| ==> rest[i] == paths[i + 1];
      AncestorAlong(rest, n - 1);
    }
  }

  lemma {:induction false} ParentOfPrefix(segments: seq<string>, k: nat)
    requires PlainAll(segments) && 0 < k <= |segments|
    ensures Parent(Render(segments[..k])) == Some(Render(segments[..k - 1]))
  {
    ParentDropsLast(segments[..k]);
    assert Front(segments[..k]) == segments[..k - 1];
  }

  /** The paths from a rendering up to root, one segment shorter each. */
  lemma {:induction false} ParentChain(segments: seq<string>, k: nat) returns (paths: seq<string>)
    requires PlainAll(segments) && k <= |segments|
    ensures |paths| == k + 1
    ensures forall i :: 0 <= i <= k ==> paths[i] == Render(segments[..k - i])
    ensures forall i :: 0 <= i < k ==> Parent(paths[i]) == Some(paths[i + 1])
    decreases k
  {
    if k == 0 {
      paths := [Render(segments[..0])];
    } else {
      var rest := ParentChain(segments, k - 1);
      ParentOfPrefix(segments, k);
      paths := [Render(segments[..k])] + rest;
    }
  }

  /** A canonical path is the rendering of its plain segments. */
  lemma {:induction false} CanonicalSegments(p: string)
    requires Canonical(p)
    ensures p == Render(Segments(p)) && PlainAll(Segments(p))
  {
    CanonicalIffRendered(p);
    SegmentsArePlain(p);
  }

  /** The parent walk from a canonical path drops one segment a step and ends at root. */
  lemma {:induction false} ParentWalk(p: string, n: nat)
    requires Canonical(p) && n <= |Segments(p)|
    ensures Ancestor(p, n) == Render(Segments(p)[..|Segments(p)| - n])
    ensures n == |Segments(p)| ==> Ancestor(p, n) == ROOT
  {
    CanonicalSegments(p);
    var segments := Segments(p);
    assert segments[..|segments|] == segments;
    var paths := ParentChain(segments, |segments|);
    AncestorAlong(paths, n);
  }
}
