/** The file path denylist and the Docker bind-mount guard. */
module PathGuards {
  import opened Wrappers
  import opened Paths

  // ------------------------------------------------------------- the denylist

  const CREDHELPER: string := "generacy-credhelper"
  const CONTROL_PLANE: string := "generacy-control-plane"

  const DENIED_PREFIXES: seq<string> := [
    "/etc/", "/usr/", "/bin/", "/sbin/", "/lib/", "/lib64/", "/proc/", "/sys/", "/dev/", "/boot/",
    "/run/" + CREDHELPER + "/", "/var/lib/" + CREDHELPER + "/", "/run/" + CONTROL_PLANE + "/"]

  const DENIED_DIRECTORIES: seq<seq<string>> := [
    ["etc"], ["usr"], ["bin"], ["sbin"], ["lib"], ["lib64"], ["proc"], ["sys"], ["dev"], ["boot"],
    ["run", CREDHELPER], ["var", "lib", CREDHELPER], ["run", CONTROL_PLANE]]

  predicate IsPathDenied(cwd: string, p: string) {
    var resolved := Resolve(cwd, p);
    resolved == "/" ||
    var withSlash := if resolved[|resolved| - 1..] == "/" then resolved else resolved + "/";
    exists i :: 0 <= i < |DENIED_PREFIXES| && HasPrefix(resolved, withSlash, DENIED_PREFIXES[i])
  }

  predicate HasPrefix(resolved: string, withSlash: string, prefix: string) {
    prefix <= withSlash || (prefix != "" && resolved == prefix[..|prefix| - 1])
  }

  /** The prefix is the directory's path with a slash after it. */
  predicate Denotes(prefix: string, dir: seq<string>) {
    prefix == JoinTail(dir) + "/" && AllClean(dir) && dir != []
  }

  lemma OneName(x: string)
    requires Clean(x)
    ensures Denotes("/" + x + "/", [x])
  {
    assert [x][1..] == [];
  }

  lemma TwoNames(x: string, y: string)
    requires Clean(x) && Clean(y)
    ensures Denotes("/" + x + "/" + y + "/", [x, y])
  {
    OneName(y);
    assert [x, y][1..] == [y];
    assert "/" + x + "/" + y + "/" == "/" + x + ("/" + y + "/");
  }

  lemma ThreeNames(x: string, y: string, z: string)
    requires Clean(x) && Clean(y) && Clean(z)
    ensures Denotes("/" + x + "/" + y + "/" + z + "/", [x, y, z])
  {
    TwoNames(y, z);
    assert [x, y, z][1..] == [y, z];
    assert "/" + x + "/" + y + "/" + z + "/" == "/" + x + ("/" + y + "/" + z + "/");
  }

  lemma ShallowDirectory(i: nat)
    requires i < 10
    ensures Denotes(DENIED_PREFIXES[i], DENIED_DIRECTORIES[i])
  {
    if i == 0 { OneName("etc"); }
    else if i == 1 { OneName("usr"); }
    else if i == 2 { OneName("bin"); }
    else if i == 3 { OneName("sbin"); }
    else if i == 4 { OneName("lib"); }
    else if i == 5 { OneName("lib64"); }
    else if i == 6 { OneName("proc"); }
    else if i == 7 { OneName("sys"); }
    else if i == 8 { OneName("dev"); }
    else { OneName("boot"); }
  }

  lemma LongNamesAreClean()
    ensures Clean(CREDHELPER) && Clean(CONTROL_PLANE)
  {
  }

  lemma DeepDirectory(name: string)
    requires Clean(name)
    ensures Denotes("/run/" + name + "/", ["run", name])
    ensures Denotes("/var/lib/" + name + "/", ["var", "lib", name])
  {
    TwoNames("run", name);
    assert "/" + "run" + "/" + name + "/" == "/run/" + name + "/";
    ThreeNames("var", "lib", name);
    assert "/" + "var" + "/" + "lib" + "/" + name + "/" == "/var/lib/" + name + "/";
  }

  lemma DeniedDirectory(i: nat)
    requires i < |DENIED_DIRECTORIES|
    ensures |DENIED_PREFIXES| == |DENIED_DIRECTORIES|
    ensures Denotes(DENIED_PREFIXES[i], DENIED_DIRECTORIES[i])
  {
    if i < 10 {
      ShallowDirectory(i);
    } else {
      LongNamesAreClean();
      DeepDirectory(CREDHELPER);
      DeepDirectory(CONTROL_PLANE);
    }
  }

  lemma JoinEndsClean(a: seq<string>)
    requires AllClean(a) && a != []
    ensures var s := JoinTail(a); |s| > 1 && s[|s| - 1] != '/'
  {
    if |a| == 1 {
      assert a[1..] == [];
      assert Clean(a[0]);
    } else {
      JoinEndsClean(a[1..]);
    }
  }

  /** A path is denied exactly when it resolves to the root or into a denied directory. */
  lemma DeniedIff(cwd: string, p: string)
    ensures IsPathDenied(cwd, p) <==>
            (Segments(cwd, p) == [] ||
             exists i :: 0 <= i < |DENIED_DIRECTORIES| && DENIED_DIRECTORIES[i] <= Segments(cwd, p))
  {
    var a := Segments(cwd, p);
    SegmentsAreClean(cwd, p);
    if a != [] {
      JoinEndsClean(a);
      var resolved := Resolve(cwd, p);
      var withSlash := resolved + "/";
      assert resolved[|resolved| - 1..] == [resolved[|resolved| - 1]];
      forall i | 0 <= i < |DENIED_DIRECTORIES|
        ensures HasPrefix(resolved, withSlash, DENIED_PREFIXES[i]) <==> DENIED_DIRECTORIES[i] <= a
      {
        DeniedDirectory(i);
        PrefixIff(a, DENIED_DIRECTORIES[i]);
        var d := JoinTail(DENIED_DIRECTORIES[i]);
        assert DENIED_PREFIXES[i][..|DENIED_PREFIXES[i]| - 1] == d;
      }
      DeniedDirectory(0);
    }
  }

  // ----------------------------------------------------- the bind-mount guard

  datatype Mount = Mount(kind: Option<string>, source: Option<string>)

  /** The parts of a container create body that name host paths. */
  datatype CreateBody = CreateBody(binds: Option<seq<string>>, mounts: Option<seq<Mount>>)

  datatype Violation = Violation(source: string, resolved: string)

  /** The host paths a body asks for: those of its binds, then those of its mounts of type bind. */
  function Sources(body: CreateBody): seq<string> {
    BindSources(match body.binds case None => [] case Some(bs) => bs)
    + MountSources(match body.mounts case None => [] case Some(ms) => ms)
  }

  function BindSources(binds: seq<string>): seq<string> {
    if binds == [] then [] else BindSources(binds[..|binds| - 1]) + [Split(binds[|binds| - 1], ':')[0]]
  }

  function MountSources(mounts: seq<Mount>): seq<string> {
    if mounts == [] then []
    else
      var m := mounts[|mounts| - 1];
      MountSources(mounts[..|mounts| - 1])
      + (if m.kind == Some("bind") then [match m.source case None => "" case Some(s) => s] else [])
  }

  /** The source lies in the scratch directory. Only the root itself lies in a scratch directory "/". */
  predicate Inside(cwd: string, scratchDir: string, source: string) {
    var scratch, segments := Segments(cwd, scratchDir), Segments(cwd, source);
    if scratch == [] then segments == [] else scratch <= segments
  }

  /** Under a scratch directory of "/" the guard refuses every source but those that resolve to "/", such as "/a". */
  lemma RootScratchRefuses(cwd: string, source: string)
    ensures Inside(cwd, "/", source) <==> Segments(cwd, source) == []
    ensures !Inside(cwd, "/", "/a")
  {
    assert "/"[1..] == "" && "/a"[1..] == "a" && "a"[1..] == "";
    assert Split("", '/') == [""];
    assert Split("/", '/') == ["", ""];
    assert ['a'] + "" == "a";
    assert Split("a", '/') == [['a'] + Split("", '/')[0]] + Split("", '/')[1..];
    assert Split("/a", '/') == ["", "a"];
    assert ["", ""][1..] == [""] && ["", "a"][1..] == ["a"];
    assert Walk(["", ""], []) == Walk([""], []) == Walk([], []);
    assert Walk(["", "a"], []) == Walk(["a"], []);
    assert Walk(["a"], []) == Walk([], ["a"]);
  }

  function Failing(cwd: string, scratchDir: string, sources: seq<string>): seq<Violation> {
    if sources == [] then []
    else
      var s := sources[|sources| - 1];
      Failing(cwd, scratchDir, sources[..|sources| - 1])
      + (if Inside(cwd, scratchDir, s) then [] else [Violation(s, Resolve(cwd, s))])
  }

  lemma {:induction false} FailingConcat(cwd: string, scratchDir: string, a: seq<string>, b: seq<string>)
    ensures Failing(cwd, scratchDir, a + b) == Failing(cwd, scratchDir, a) + Failing(cwd, scratchDir, b)
  {
    if b == [] {
      assert a + b == a;
    } else {
      assert (a + b)[..|a + b| - 1] == a + b[..|b| - 1];
      FailingConcat(cwd, scratchDir, a, b[..|b| - 1]);
    }
  }

  lemma {:induction false} NoneFailingIff(cwd: string, scratchDir: string, sources: seq<string>)
    ensures Failing(cwd, scratchDir, sources) == [] <==>
            forall i :: 0 <= i < |sources| ==> Inside(cwd, scratchDir, sources[i])
  {
    if sources != [] {
      var n := |sources| - 1;
      NoneFailingIff(cwd, scratchDir, sources[..n]);
      assert forall i :: 0 <= i < n ==> sources[..n][i] == sources[i];
    }
  }

  /** The violations are the sources outside the scratch directory, in order. */
  method ValidateBindMounts(cwd: string, body: CreateBody, scratchDir: string)
    returns (valid: bool, violations: seq<Violation>)
    ensures violations == Failing(cwd, scratchDir, Sources(body))
    ensures valid <==> forall i :: 0 <= i < |Sources(body)| ==> Inside(cwd, scratchDir, Sources(body)[i])
  {
    var resolvedScratch := Resolve(cwd, scratchDir);
    violations := [];
    if body.binds.Some? {
      violations := CheckBinds(cwd, scratchDir, resolvedScratch, body.binds.value);
    }
    if body.mounts.Some? {
      var more := CheckMounts(cwd, scratchDir, resolvedScratch, body.mounts.value);
      violations := violations + more;
    }
    FailingConcat(cwd, scratchDir, BindSources(match body.binds case None => [] case Some(bs) => bs),
                  MountSources(match body.mounts case None => [] case Some(ms) => ms));
    valid := violations == [];
    NoneFailingIff(cwd, scratchDir, Sources(body));
  }

  method CheckBinds(cwd: string, ghost scratchDir: string, resolvedScratch: string, binds: seq<string>)
    returns (violations: seq<Violation>)
    requires resolvedScratch == Resolve(cwd, scratchDir)
    ensures violations == Failing(cwd, scratchDir, BindSources(binds))
  {
    violations := [];
    for i := 0 to |binds|
      invariant violations == Failing(cwd, scratchDir, BindSources(binds[..i]))
    {
      var source := Split(binds[i], ':')[0];
      assert binds[..i + 1][..i] == binds[..i];
      FailingConcat(cwd, scratchDir, BindSources(binds[..i]), [source]);
      violations := CheckSource(cwd, scratchDir, resolvedScratch, source, violations);
    }
    assert binds[..|binds|] == binds;
  }

  method CheckMounts(cwd: string, ghost scratchDir: string, resolvedScratch: string, mounts: seq<Mount>)
    returns (violations: seq<Violation>)
    requires resolvedScratch == Resolve(cwd, scratchDir)
    ensures violations == Failing(cwd, scratchDir, MountSources(mounts))
  {
    violations := [];
    for i := 0 to |mounts|
      invariant violations == Failing(cwd, scratchDir, MountSources(mounts[..i]))
    {
      assert mounts[..i + 1][..i] == mounts[..i];
      assert MountSources(mounts[..i]) + [] == MountSources(mounts[..i]);
      if mounts[i].kind != Some("bind") {
        continue;
      }
      var source := match mounts[i].source case None => "" case Some(s) => s;
      FailingConcat(cwd, scratchDir, MountSources(mounts[..i]), [source]);
      violations := CheckSource(cwd, scratchDir, resolvedScratch, source, violations);
    }
    assert mounts[..|mounts|] == mounts;
  }

  /** The guard on one source, as strings. */
  method CheckSource(cwd: string, ghost scratchDir: string, resolvedScratch: string, source: string,
                     violations: seq<Violation>) returns (r: seq<Violation>)
    requires resolvedScratch == Resolve(cwd, scratchDir)
    ensures r == violations + Failing(cwd, scratchDir, [source])
  {
    var resolved := Resolve(cwd, source);
    SegmentsAreClean(cwd, source);
    SegmentsAreClean(cwd, scratchDir);
    UnderIff(Segments(cwd, source), Segments(cwd, scratchDir));
    assert [source][..0] == [];
    if !(resolvedScratch + "/" <= resolved) && resolved != resolvedScratch {
      return violations + [Violation(source, resolved)];
    }
    return violations;
  }
}
