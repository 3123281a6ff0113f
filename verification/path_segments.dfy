/** Paths as sequences of segments: splitting a '/'-separated string into
    segments, joining them back, and lexical resolution of `.` and `..`
    segments in the manner of section 5.2.4 of RFC 3986. */
module PathSegments {

  type Segment = string

  /** A location as the list of its segments, outermost first. */
  type Path = seq<Segment>

  predicate NoSlash(seg: Segment) {
    '/' !in seg
  }

  /** Segments that resolution does not append: empty, `.` and `..`. */
  predicate IsDotSegment(seg: Segment) {
    seg == "" || seg == "." || seg == ".."
  }

  /** A path in the form resolution produces: every segment names a child. */
  predicate Canonical(p: Path) {
    forall i :: 0 <= i < |p| ==> !IsDotSegment(p[i]) && NoSlash(p[i])
  }

  /** Splits `s` at every '/': `n` separators give `n + 1` segments. */
  function Split(s: string): (segs: seq<Segment>)
    ensures |segs| >= 1
    ensures forall i :: 0 <= i < |segs| ==> NoSlash(segs[i])
    decreases |s|
  {
    if |s| == 0 then [""]
    else
      var rest := Split(s[1..]);
      if s[0] == '/' then [""] + rest else [[s[0]] + rest[0]] + rest[1..]
  }

  /** Puts the separator back between consecutive segments. */
  function Join(segs: seq<Segment>): string
    requires |segs| >= 1
    decreases |segs|
  {
    if |segs| == 1 then segs[0] else segs[0] + "/" + Join(segs[1..])
  }

  lemma {:induction false} JoinSplit(s: string)
    ensures Join(Split(s)) == s
    decreases |s|
  {
    if |s| > 0 {
      var rest := Split(s[1..]);
      JoinSplit(s[1..]);
      if s[0] == '/' {
        assert ([""] + rest)[1..] == rest;
      } else if |rest| > 1 {
        var segs := [[s[0]] + rest[0]] + rest[1..];
        assert segs[1..] == rest[1..];
        assert Join(rest) == rest[0] + "/" + Join(rest[1..]);
      }
    }
  }

  /** Splitting a slash-free head followed by anything glues the head onto the
      first segment of the rest. */
  lemma {:induction false} SplitSlashFreeHead(a: string, t: string)
    requires NoSlash(a)
    ensures Split(a + t) == [a + Split(t)[0]] + Split(t)[1..]
    decreases |a|
  {
    if |a| == 0 {
      var st := Split(t);
      assert a + t == t;
      assert a + st[0] == st[0];
      assert [st[0]] + st[1..] == st;
    } else {
      assert (a + t)[1..] == a[1..] + t;
      assert a[1..] + t == (a + t)[1..];
      SplitSlashFreeHead(a[1..], t);
      assert [a[0]] + (a[1..] + Split(t)[0]) == a + Split(t)[0];
    }
  }

  lemma {:induction false} SplitJoin(segs: seq<Segment>)
    requires |segs| >= 1
    requires forall i :: 0 <= i < |segs| ==> NoSlash(segs[i])
    ensures Split(Join(segs)) == segs
    decreases |segs|
  {
    if |segs| == 1 {
      SplitSlashFreeHead(segs[0], "");
      assert segs[0] + "" == segs[0];
    } else {
      var t := Join(segs[1..]);
      SplitJoin(segs[1..]);
      assert segs[0] + "/" + t == segs[0] + ("/" + t);
      SplitSlashFreeHead(segs[0], "/" + t);
      assert ("/" + t)[1..] == t;
      assert Split("/" + t) == [""] + segs[1..];
      assert segs[0] + "" == segs[0];
    }
  }

  /** The last segment of `x + "/" + b` is `b`, whatever `x` holds. */
  lemma {:induction false} SplitLast(x: string, b: Segment)
    requires NoSlash(b)
    ensures |Split(x + "/" + b)| >= 2
    ensures Split(x + "/" + b)[|Split(x + "/" + b)| - 1] == b
    decreases |x|
  {
    var s := x + "/" + b;
    if |x| == 0 {
      assert s == "/" + b && s[1..] == b;
      SplitSlashFreeHead(b, "");
      assert b + "" == b;
    } else {
      assert s[1..] == x[1..] + "/" + b;
      SplitLast(x[1..], b);
    }
  }

  /** One segment of resolution: `.` and empty segments stay put, `..` climbs
      to the parent (and stays put at the top), anything else descends. */
  function Step(p: Path, seg: Segment): Path {
    if seg == "" || seg == "." then p
    else if seg == ".." then (if |p| == 0 then p else p[..|p| - 1])
    else p + [seg]
  }

  /** Resolves `segs` against `base`, left to right. */
  function Resolve(base: Path, segs: seq<Segment>): (p: Path)
    requires forall i :: 0 <= i < |segs| ==> NoSlash(segs[i])
    ensures Canonical(base) ==> Canonical(p)
    decreases |segs|
  {
    if |segs| == 0 then base else Resolve(Step(base, segs[0]), segs[1..])
  }

  /** Without a `..` segment, resolution can only descend from `base`. */
  lemma {:induction false} ResolveWithoutDotDot(base: Path, segs: seq<Segment>)
    requires forall i :: 0 <= i < |segs| ==> NoSlash(segs[i])
    requires forall i :: 0 <= i < |segs| ==> segs[i] != ".."
    ensures base <= Resolve(base, segs)
    decreases |segs|
  {
    if |segs| > 0 {
      ResolveWithoutDotDot(Step(base, segs[0]), segs[1..]);
    }
  }

  /** Resolving a canonical path from the top gives it back unchanged. */
  lemma {:induction false} ResolveCanonical(base: Path, p: Path)
    requires Canonical(p)
    ensures Resolve(base, p) == base + p
    decreases |p|
  {
    if |p| > 0 {
      ResolveCanonical(base + [p[0]], p[1..]);
      assert base + [p[0]] + p[1..] == base + p;
    }
  }
}
