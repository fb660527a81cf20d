/** path.resolve on POSIX paths, as the stack walk over the segments between slashes. */
module Paths {
  /** Split, as JavaScript's split does: the empty string has one empty part. */
  function Split(s: string, sep: char): (parts: seq<string>)
    ensures |parts| > 0
    ensures forall i :: 0 <= i < |parts| ==> sep !in parts[i]
  {
    if s == "" then [""]
    else
      var rest := Split(s[1..], sep);
      if s[0] == sep then [""] + rest else [[s[0]] + rest[0]] + rest[1..]
  }

  /** Empty segments and "." are skipped, ".." drops the last one kept. */
  function Walk(parts: seq<string>, stack: seq<string>): seq<string> {
    if parts == [] then stack
    else if parts[0] == "" || parts[0] == "." then Walk(parts[1..], stack)
    else if parts[0] == ".." then Walk(parts[1..], if stack == [] then [] else stack[..|stack| - 1])
    else Walk(parts[1..], stack + [parts[0]])
  }

  /** `cwd` is the absolute path that relative ones start from. */
  function Segments(cwd: string, p: string): seq<string> {
    Walk(Split(if p != "" && p[0] == '/' then p else cwd + "/" + p, '/'), [])
  }

  function JoinTail(segments: seq<string>): string {
    if segments == [] then "" else "/" + segments[0] + JoinTail(segments[1..])
  }

  function Join(segments: seq<string>): string {
    if segments == [] then "/" else JoinTail(segments)
  }

  function Resolve(cwd: string, p: string): string {
    Join(Segments(cwd, p))
  }

  predicate Clean(segment: string) {
    segment != "" && segment != "." && segment != ".." && '/' !in segment
  }

  predicate AllClean(segments: seq<string>) {
    forall i :: 0 <= i < |segments| ==> Clean(segments[i])
  }

  lemma {:induction false} WalkIsClean(parts: seq<string>, stack: seq<string>)
    requires AllClean(stack) && forall i :: 0 <= i < |parts| ==> '/' !in parts[i]
    ensures AllClean(Walk(parts, stack))
  {
    if parts != [] {
      if parts[0] == "" || parts[0] == "." {
        WalkIsClean(parts[1..], stack);
      } else if parts[0] == ".." {
        WalkIsClean(parts[1..], if stack == [] then [] else stack[..|stack| - 1]);
      } else {
        WalkIsClean(parts[1..], stack + [parts[0]]);
      }
    }
  }

  lemma SegmentsAreClean(cwd: string, p: string)
    ensures AllClean(Segments(cwd, p))
  {
    WalkIsClean(Split(if p != "" && p[0] == '/' then p else cwd + "/" + p, '/'), []);
  }

  // --------------------------------------- prefixes of strings and of segments

  /** Two names that end at their first slash agree on it. */
  lemma NamesAgree(x: string, u: string, y: string, v: string)
    requires '/' !in x && '/' !in y
    requires x + ("/" + u) <= y + ("/" + v)
    ensures x == y && "/" + u <= "/" + v
  {
    var l, r := x + ("/" + u), y + ("/" + v);
    assert forall i :: 0 <= i < |x| ==> l[i] == x[i] && l[i] != '/';
    assert forall i :: 0 <= i < |y| ==> r[i] == y[i] && r[i] != '/';
    assert l[|x|] == '/' && r[|y|] == '/';
    assert r[|x|] == l[|x|];
    assert |x| == |y|;
    assert forall i :: 0 <= i < |x| ==> x[i] == l[i] && y[i] == r[i];
    assert x == y;
    assert "/" + u == l[|x|..] && "/" + v == r[|x|..];
  }

  lemma JoinTailStep(a: seq<string>)
    requires a != []
    ensures JoinTail(a) + "/" == "/" + (a[0] + (JoinTail(a[1..]) + "/"))
  {
  }

  lemma SlashFirst(a: seq<string>)
    ensures JoinTail(a) + "/" == "/" + (JoinTail(a) + "/")[1..]
  {
  }

  /** With a trailing slash, being a prefix of a resolved path is being a prefix of its segments. */
  lemma {:induction false} PrefixIff(a: seq<string>, b: seq<string>)
    requires AllClean(a) && AllClean(b)
    ensures JoinTail(b) + "/" <= JoinTail(a) + "/" <==> b <= a
  {
    if b == [] {
      SlashFirst(a);
    } else if a == [] {
      JoinTailStep(b);
      assert |b[0]| > 0;
    } else {
      PrefixIff(a[1..], b[1..]);
      JoinTailStep(a);
      JoinTailStep(b);
      SlashFirst(a[1..]);
      SlashFirst(b[1..]);
      var u, v := (JoinTail(b[1..]) + "/")[1..], (JoinTail(a[1..]) + "/")[1..];
      var l, r := b[0] + ("/" + u), a[0] + ("/" + v);
      assert JoinTail(b) + "/" == "/" + l && JoinTail(a) + "/" == "/" + r;
      assert "/" + l <= "/" + r <==> l <= r by {
        assert ("/" + l)[1..] == l && ("/" + r)[1..] == r;
      }
      if l <= r {
        NamesAgree(b[0], u, a[0], v);
        assert b == [b[0]] + b[1..] && a == [a[0]] + a[1..];
      }
      if b <= a {
        assert b[1..] == a[1..][..|b| - 1];
        assert l <= r;
      }
    }
  }

  /** The guard "starts with base/ or equals base", on segments. */
  lemma UnderIff(a: seq<string>, b: seq<string>)
    requires AllClean(a) && AllClean(b)
    ensures (Join(b) + "/" <= Join(a) || Join(a) == Join(b)) <==> if b == [] then a == [] else b <= a
  {
    PrefixIff(a, b);
    PrefixIff(b, a);
    if b == [] {
      if a != [] {
        assert Clean(a[0]);
        assert Join(a)[1] == a[0][0];
      }
    } else {
      if JoinTail(b) + "/" <= JoinTail(a) + "/" {
        if |JoinTail(b)| == |JoinTail(a)| {
          assert JoinTail(b) == (JoinTail(b) + "/")[..|JoinTail(a)|] == JoinTail(a);
        } else {
          assert JoinTail(b) + "/" == (JoinTail(a) + "/")[..|JoinTail(b)| + 1] == JoinTail(a)[..|JoinTail(b)| + 1];
        }
      }
    }
  }
}
