/** What resolving a path means, in laws about paths as they are written, and what that makes of the guards. */
module PathLaws {
  import opened Wrappers
  import opened Sequences
  import opened Paths
  import opened PathGuards

  // ------------------------------------------------------- splitting and walking

  /** Split cuts at every separator: it takes a separator apart, and leaves what has none whole. */
  lemma {:induction false} SplitApart(a: string, b: string, sep: char)
    ensures Split(a + [sep] + b, sep) == Split(a, sep) + Split(b, sep)
  {
    if a == "" {
      assert (a + [sep] + b)[1..] == b;
    } else {
      assert (a + [sep] + b)[1..] == a[1..] + [sep] + b;
      SplitApart(a[1..], b, sep);
    }
  }

  lemma {:induction false} SplitWhole(x: string, sep: char)
    requires sep !in x
    ensures Split(x, sep) == [x]
  {
    if x != "" {
      SplitWhole(x[1..], sep);
      assert [x[0]] + x[1..] == x;
    }
  }

  lemma {:induction false} WalkOn(a: seq<string>, b: seq<string>, stack: seq<string>)
    ensures Walk(a + b, stack) == Walk(b, Walk(a, stack))
  {
    if a == [] {
      assert a + b == b;
    } else {
      assert (a + b)[1..] == a[1..] + b;
      WalkOn(a[1..], b, if a[0] == "" || a[0] == "." then stack
                        else if a[0] == ".." then (if stack == [] then [] else stack[..|stack| - 1])
                        else stack + [a[0]]);
    }
  }

  /** The path with one more part after a slash. */
  lemma OnePartMore(cwd: string, p: string, x: string)
    requires p != "" && '/' !in x
    ensures Segments(cwd, p + "/" + x) == Walk([x], Segments(cwd, p))
  {
    var whole := if p[0] == '/' then p else cwd + "/" + p;
    assert (p + "/" + x)[0] == p[0];
    assert (if p[0] == '/' then p + "/" + x else cwd + "/" + (p + "/" + x)) == whole + ['/'] + x;
    SplitApart(whole, x, '/');
    SplitWhole(x, '/');
    WalkOn(Split(whole, '/'), [x], []);
  }

  // ----------------------------------------------------------------------- laws

  /** A ".." drops the last segment, and leaves the root. */
  lemma DotDotDropsLast(cwd: string, p: string)
    requires p != ""
    ensures var s := Segments(cwd, p); Segments(cwd, p + "/..") == if s == [] then [] else s[..|s| - 1]
  {
    OnePartMore(cwd, p, "..");
    assert p + "/" + ".." == p + "/..";
    assert [".."][1..] == [];
  }

  /** A "." or a trailing slash changes nothing. */
  lemma DotChangesNothing(cwd: string, p: string)
    requires p != ""
    ensures Segments(cwd, p + "/.") == Segments(cwd, p) && Segments(cwd, p + "/") == Segments(cwd, p)
  {
    OnePartMore(cwd, p, ".");
    OnePartMore(cwd, p, "");
    assert ["."][1..] == [] && [""][1..] == [] && p + "/" + "" == p + "/" && p + "/" + "." == p + "/.";
  }

  /** A name goes below. */
  lemma NameGoesBelow(cwd: string, p: string, x: string)
    requires p != "" && Clean(x)
    ensures Segments(cwd, p + "/" + x) == Segments(cwd, p) + [x]
  {
    OnePartMore(cwd, p, x);
    assert [x][1..] == [];
  }

  /** A path that begins with a slash starts from the root, whatever the current directory. */
  lemma AbsoluteIgnoresCwd(cwd: string, other: string, p: string)
    requires p != "" && p[0] == '/'
    ensures Segments(cwd, p) == Segments(other, p)
    ensures Segments(cwd, "/") == []
  {
    SplitApart("", "", '/');
    assert "" + ['/'] + "" == "/";
    assert Split("/", '/') == ["", ""] && ["", ""][1..] == [""] && [""][1..] == [];
  }

  /** Any other path, the empty one too, starts from the current directory. */
  lemma RelativeStartsFromCwd(cwd: string, p: string)
    requires cwd != "" && cwd[0] == '/' && (p == "" || p[0] != '/')
    ensures Segments(cwd, p) == Segments(cwd, cwd + "/" + p)
    ensures Segments(cwd, "") == Segments(cwd, cwd)
  {
    assert (cwd + "/" + p)[0] == '/';
    DotChangesNothing(cwd, cwd);
    assert cwd + "/" + "" == cwd + "/";
  }

  /** A resolved path resolves to itself. */
  lemma {:induction false} ResolvedIsFixed(cwd: string, segments: seq<string>)
    requires AllClean(segments)
    ensures Segments(cwd, Join(segments)) == segments
  {
    if segments == [] {
      AbsoluteIgnoresCwd(cwd, cwd, "/");
    } else {
      var n := |segments| - 1;
      ResolvedIsFixed(cwd, segments[..n]);
      JoinLast(segments);
      if n == 0 {
        assert segments == [segments[0]] && "/" + "/" + segments[0] == "/" + ("/" + segments[0]);
        NameBelowRoot(cwd, segments[0]);
      } else {
        NameGoesBelow(cwd, JoinTail(segments[..n]), segments[n]);
        assert segments[..n] + [segments[n]] == segments;
      }
    }
  }

  lemma NameBelowRoot(cwd: string, x: string)
    requires Clean(x)
    ensures Segments(cwd, "/" + x) == [x]
  {
    assert "" + ['/'] + x == "/" + x;
    SplitApart("", x, '/');
    SplitWhole(x, '/');
    assert Split("/" + x, '/') == ["", x];
    assert ["", x][1..] == [x] && [x][1..] == [];
    assert Walk(["", x], []) == Walk([x], []) == Walk([], [] + [x]);
  }

  lemma {:induction false} JoinLast(segments: seq<string>)
    requires segments != []
    ensures JoinTail(segments) == JoinTail(segments[..|segments| - 1]) + "/" + segments[|segments| - 1]
  {
    if |segments| == 1 {
      assert segments[1..] == [];
    } else {
      JoinLast(segments[1..]);
      assert segments[1..][..|segments| - 2] == segments[..|segments| - 1][1..];
    }
  }

  /** Resolving twice is resolving once. */
  lemma ResolveIsIdempotent(cwd: string, p: string)
    ensures Resolve(cwd, Resolve(cwd, p)) == Resolve(cwd, p)
  {
    SegmentsAreClean(cwd, p);
    ResolvedIsFixed(cwd, Segments(cwd, p));
  }

  // ------------------------------------------------------------------ the guards

  lemma ClimbsOut(cwd: string, a: string, x: string)
    requires Clean(a) && Clean(x)
    ensures Segments(cwd, "/" + a + "/.." + "/" + x) == [x]
  {
    NameBelowRoot(cwd, a);
    DotDotDropsLast(cwd, "/" + a);
    NameGoesBelow(cwd, "/" + a + "/..", x);
    assert [a][..0] == [] && [] + [x] == [x];
  }

  /** Climbing out of an allowed directory gets past neither guard. */
  lemma ClimbingOutIsSeen(cwd: string, scratch: string, p: string)
    requires scratch == "/s" && p == "/s/../etc"
    ensures Segments(cwd, p) == ["etc"]
    ensures IsPathDenied(cwd, p) && !Inside(cwd, scratch, p)
  {
    ClimbsOut(cwd, "s", "etc");
    assert "/" + "s" + "/.." + "/" + "etc" == p && "/" + "s" == scratch;
    NameBelowRoot(cwd, "s");
    DeniedDirectoriesAre(cwd, p);
  }

  predicate InDenied(s: seq<string>) {
    || (|s| >= 1 && s[0] in {"etc", "usr", "bin", "sbin", "lib", "lib64", "proc", "sys", "dev", "boot"})
    || (|s| >= 2 && s[0] == "run" && s[1] in {"generacy-credhelper", "generacy-control-plane"})
    || (|s| >= 3 && s[0] == "var" && s[1] == "lib" && s[2] == "generacy-credhelper")
  }

  lemma TopDirectory(s: seq<string>, i: nat)
    requires i < 10
    ensures DENIED_DIRECTORIES[i] <= s <==> |s| >= 1 && s[0] == DENIED_DIRECTORIES[i][0]
    ensures |DENIED_DIRECTORIES[i]| == 1
  {
  }

  lemma LowerDirectory(s: seq<string>)
    ensures DENIED_DIRECTORIES[10] <= s <==> |s| >= 2 && s[0] == "run" && s[1] == "generacy-credhelper"
    ensures DENIED_DIRECTORIES[11] <= s <==> |s| >= 3 && s[0] == "var" && s[1] == "lib" && s[2] == "generacy-credhelper"
    ensures DENIED_DIRECTORIES[12] <= s <==> |s| >= 2 && s[0] == "run" && s[1] == "generacy-control-plane"
  {
  }

  lemma TopNames(x: string)
    ensures x in {"etc", "usr", "bin", "sbin", "lib", "lib64", "proc", "sys", "dev", "boot"} <==>
            exists i :: 0 <= i < 10 && DENIED_DIRECTORIES[i][0] == x
  {
    var d := DENIED_DIRECTORIES;
    assert d[0][0] == "etc" && d[1][0] == "usr" && d[2][0] == "bin" && d[3][0] == "sbin" && d[4][0] == "lib";
    assert d[5][0] == "lib64" && d[6][0] == "proc" && d[7][0] == "sys" && d[8][0] == "dev" && d[9][0] == "boot";
  }

  /** The directories denied, written out. */
  lemma DeniedDirectoriesAre(cwd: string, p: string)
    ensures IsPathDenied(cwd, p) <==> Segments(cwd, p) == [] || InDenied(Segments(cwd, p))
  {
    DeniedIff(cwd, p);
    var s := Segments(cwd, p);
    if s != [] {
      TopNames(s[0]);
      LowerDirectory(s);
      forall i | 0 <= i < |DENIED_DIRECTORIES| && DENIED_DIRECTORIES[i] <= s ensures InDenied(s) {
        if i < 10 {
          TopDirectory(s, i);
        }
      }
      if InDenied(s) && exists i :: 0 <= i < 10 && DENIED_DIRECTORIES[i][0] == s[0] {
        var i :| 0 <= i < 10 && DENIED_DIRECTORIES[i][0] == s[0];
        TopDirectory(s, i);
      }
    }
  }

  /** The source of a bind is what stands before its first colon, all of it if there is none. */
  lemma BindSourceIs(bind: string, source: string, rest: string)
    requires ':' !in source
    ensures bind == source ==> Split(bind, ':')[0] == source
    ensures bind == source + ":" + rest ==> Split(bind, ':')[0] == source
  {
    SplitWhole(source, ':');
    SplitApart(source, rest, ':');
    assert source + [':'] + rest == source + ":" + rest;
  }

  /** The sources of the mounts of type bind, in order; one without a source counts as the empty path. */
  lemma {:induction false} MountSourcesAre(mounts: seq<Mount>, isBind: Mount -> bool)
    requires forall m: Mount :: isBind(m) <==> m.kind == Some("bind")
    ensures var binds := Filter(mounts, isBind);
            && |MountSources(mounts)| == |binds|
            && forall i :: 0 <= i < |binds| ==>
                 MountSources(mounts)[i] == if binds[i].source.None? then "" else binds[i].source.value
  {
    if mounts != [] {
      var n := |mounts| - 1;
      MountSourcesAre(mounts[..n], isBind);
      assert mounts == mounts[..n] + [mounts[n]];
      FilterSnoc(mounts[..n], mounts[n], isBind);
    }
  }

  lemma {:induction false} BindSourcesAre(binds: seq<string>)
    ensures |BindSources(binds)| == |binds|
    ensures forall i :: 0 <= i < |binds| ==> BindSources(binds)[i] == Split(binds[i], ':')[0]
  {
    if binds != [] {
      BindSourcesAre(binds[..|binds| - 1]);
    }
  }

  /** Inside is below, by segments; below the root is only the root. */
  lemma InsideIs(cwd: string, scratchDir: string, source: string)
    ensures var scratch, segments := Segments(cwd, scratchDir), Segments(cwd, source);
            Inside(cwd, scratchDir, source) <==> scratch <= segments && (scratch == [] ==> segments == [])
  {
  }

  /** The violations name the sources that are not inside, in order, and what they resolve to. */
  lemma {:induction false} ViolationsAre(cwd: string, scratchDir: string, sources: seq<string>, outside: string -> bool)
    requires forall s :: outside(s) <==> !Inside(cwd, scratchDir, s)
    ensures var failing, bad := Failing(cwd, scratchDir, sources), Filter(sources, outside);
            && |failing| == |bad|
            && forall i :: 0 <= i < |bad| ==> failing[i] == Violation(bad[i], Resolve(cwd, bad[i]))
  {
    if sources != [] {
      var n := |sources| - 1;
      ViolationsAre(cwd, scratchDir, sources[..n], outside);
      assert sources == sources[..n] + [sources[n]];
      FilterSnoc(sources[..n], sources[n], outside);
    }
  }
}
