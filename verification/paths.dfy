/** Slash-separated paths: cleaning, joining, and the agreement of client, sidecar and file server on them. */
module Paths {
  import opened Common
  import opened Strings

  const Slash: char := '/'

  predicate Rooted(s: string) { s != "" && s[0] == Slash }

  /** One component of a path applied to the components so far. */
  function Push(rooted: bool, steps: seq<string>, c: string): seq<string> {
    if c == "" || c == "." then steps
    else if c == ".." then
      if steps != [] && steps[|steps| - 1] != ".." then steps[..|steps| - 1]
      else if rooted then steps
      else steps + [".."]
    else steps + [c]
  }

  function Reduce(rooted: bool, steps: seq<string>, cs: seq<string>): seq<string>
    decreases |cs|
  {
    if cs == [] then steps else Reduce(rooted, Push(rooted, steps, cs[0]), cs[1..])
  }

  /** The components of the cleaned path. */
  function Steps(s: string): seq<string> { Reduce(Rooted(s), [], Split(s, Slash)) }

  function Shown(rooted: bool, steps: seq<string>): string {
    if rooted then [Slash] + Join(steps, Slash) else if steps == [] then "." else Join(steps, Slash)
  }

  /** path.Clean and, on Linux, filepath.Clean. */
  function Clean(s: string): string { Shown(Rooted(s), Steps(s)) }

  /** path.Join of two elements: empty ones are left out, and nothing joined is empty. */
  function PathJoin(a: string, b: string): string {
    if a == "" then if b == "" then "" else Clean(b)
    else if b == "" then Clean(a)
    else Clean(a + [Slash] + b)
  }

  // ----- cleaning -----

  lemma {:induction false} ReduceAppend(rooted: bool, steps: seq<string>, a: seq<string>, b: seq<string>)
    ensures Reduce(rooted, steps, a + b) == Reduce(rooted, Reduce(rooted, steps, a), b)
    decreases |a|
  {
    if a == [] {
      assert a + b == b;
    } else {
      assert (a + b)[1..] == a[1..] + b;
      ReduceAppend(rooted, Push(rooted, steps, a[0]), a[1..], b);
    }
  }

  predicate Proper(c: string) { c != "" && c != "." && c != ".." }

  function Propers(cs: seq<string>): (ps: seq<string>)
    ensures forall p | p in ps :: p in cs && Proper(p)
  {
    if cs == [] then [] else Kept(cs[0]) + Propers(cs[1..])
  }

  function Kept(c: string): seq<string> { if Proper(c) then [c] else [] }

  lemma {:induction false} PushForward(rooted: bool, steps: seq<string>, c: string)
    requires c != ".."
    ensures Push(rooted, steps, c) == steps + Kept(c)
  {}

  lemma {:induction false} Regroup(a: seq<string>, b: seq<string>, c: seq<string>)
    ensures a + b + c == a + (b + c)
  {}

  /** Without a step up, reducing appends the proper components. */
  lemma {:induction false} ReduceForward(rooted: bool, steps: seq<string>, cs: seq<string>)
    requires ".." !in cs
    ensures Reduce(rooted, steps, cs) == steps + Propers(cs)
    decreases |cs|
  {
    if cs != [] {
      assert cs[0] in cs && forall c | c in cs[1..] :: c in cs;
      PushForward(rooted, steps, cs[0]);
      ReduceForward(rooted, steps + Kept(cs[0]), cs[1..]);
      Regroup(steps, Kept(cs[0]), Propers(cs[1..]));
    }
  }

  lemma {:induction false} PropersAppend(a: seq<string>, b: seq<string>)
    ensures Propers(a + b) == Propers(a) + Propers(b)
  {
    if a == [] {
      assert a + b == b;
    } else {
      assert (a + b)[1..] == a[1..] + b;
      PropersAppend(a[1..], b);
    }
  }

  /** Components as they are in a cleaned path: steps up only at the start, and only if it is not rooted. */
  predicate Settled(rooted: bool, steps: seq<string>) {
    && Free(steps, Slash)
    && (forall i | 0 <= i < |steps| :: Proper(steps[i]) || (steps[i] == ".." && !rooted))
    && (forall i, j | 0 <= i < j < |steps| && steps[j] == ".." :: steps[i] == "..")
  }

  lemma {:induction false} PushSettled(rooted: bool, steps: seq<string>, c: string)
    requires Settled(rooted, steps) && Slash !in c
    ensures Settled(rooted, Push(rooted, steps, c))
  {}

  lemma {:induction false} ReduceSettled(rooted: bool, steps: seq<string>, cs: seq<string>)
    requires Settled(rooted, steps) && Free(cs, Slash)
    ensures Settled(rooted, Reduce(rooted, steps, cs))
    decreases |cs|
  {
    if cs != [] {
      PushSettled(rooted, steps, cs[0]);
      ReduceSettled(rooted, Push(rooted, steps, cs[0]), cs[1..]);
    }
  }

  lemma {:induction false} StepsSettled(s: string)
    ensures Settled(Rooted(s), Steps(s))
  {
    SplitFree(s, Slash);
    ReduceSettled(Rooted(s), [], Split(s, Slash));
  }

  /** Settled components are reduced to themselves. */
  lemma {:induction false} ReduceAgain(rooted: bool, steps: seq<string>, k: nat)
    requires Settled(rooted, steps) && k <= |steps|
    ensures Reduce(rooted, steps[..k], steps[k..]) == steps
    decreases |steps| - k
  {
    if k == |steps| {
      assert steps[..k] == steps;
    } else {
      var rest := steps[k..];
      assert rest[0] == steps[k] && rest[1..] == steps[k + 1..];
      assert steps[..k + 1] == steps[..k] + [steps[k]];
      assert k > 0 ==> steps[..k][k - 1] == steps[k - 1];
      ReduceAgain(rooted, steps, k + 1);
    }
  }

  lemma {:induction false} ShownSplit(rooted: bool, steps: seq<string>)
    requires Settled(rooted, steps)
    ensures Rooted(Shown(rooted, steps)) == rooted && Steps(Shown(rooted, steps)) == steps
  {
    var s := Shown(rooted, steps);
    ReduceAgain(rooted, steps, 0);
    assert steps[0..] == steps && steps[..0] == [];
    if steps == [] {
      SplitWhole(".", Slash);
      SplitAppend("", "", Slash);
      assert s == if rooted then "" + [Slash] + "" else ".";
      DotsOnly(rooted);
    } else {
      SplitJoin(steps, Slash);
      FirstChar(steps);
      if rooted {
        SplitAppend("", Join(steps, Slash), Slash);
        assert s == "" + [Slash] + Join(steps, Slash);
        assert ([""] + steps)[1..] == steps;
      }
    }
  }

  lemma {:induction false} DotsOnly(rooted: bool)
    ensures Reduce(rooted, [], [""] + [""]) == [] && Reduce(rooted, [], ["."]) == []
  {
    assert ([""] + [""])[1..] == [""] && [""][1..] == [] && ["."][1..] == [];
  }

  lemma {:induction false} FirstChar(steps: seq<string>)
    requires steps != [] && Free(steps, Slash) && steps[0] != ""
    ensures Join(steps, Slash) != "" && Join(steps, Slash)[0] != Slash
  {
    assert steps[0][0] in steps[0] && steps[0] in steps;
  }

  /**
   * Cleaning keeps the components, so it is idempotent, and two paths are cleaned alike exactly if their components
   * agree.
   */
  lemma {:induction false} CleanKeeps(s: string)
    ensures Rooted(Clean(s)) == Rooted(s) && Steps(Clean(s)) == Steps(s) && Clean(Clean(s)) == Clean(s)
  {
    StepsSettled(s);
    ShownSplit(Rooted(s), Steps(s));
  }

  lemma {:induction false} CleanEqual(s: string, t: string)
    ensures Clean(s) == Clean(t) <==> Rooted(s) == Rooted(t) && Steps(s) == Steps(t)
  {
    CleanKeeps(s);
    CleanKeeps(t);
  }

  /** Joining continues from the components of the first element. */
  lemma {:induction false} JoinSteps(a: string, b: string)
    requires a != ""
    ensures Rooted(PathJoin(a, b)) == Rooted(a)
    ensures Steps(PathJoin(a, b)) == Reduce(Rooted(a), Steps(a), Split(b, Slash))
    ensures PathJoin(a, b) == Shown(Rooted(a), Steps(PathJoin(a, b)))
  {
    var s := if b == "" then a else a + [Slash] + b;
    CleanKeeps(s);
    if b == "" {
      assert Split(b, Slash) == [""];
      assert [""][1..] == [];
    } else {
      assert s[0] == a[0];
      SplitAppend(a, b, Slash);
      ReduceAppend(Rooted(a), [], Split(a, Slash), Split(b, Slash));
    }
  }

  /** Joining a path that never steps up appends its proper components. */
  lemma {:induction false} JoinForward(a: string, b: string)
    requires a != "" && ".." !in Split(b, Slash)
    ensures Steps(PathJoin(a, b)) == Steps(a) + Propers(Split(b, Slash))
  {
    JoinSteps(a, b);
    ReduceForward(Rooted(a), Steps(a), Split(b, Slash));
  }

  // ----- the check of the sidecar -----

  /** strings.FieldsFunc at slashes. */
  function Fields(s: string): (fs: seq<string>)
    ensures forall f :: f in fs <==> f in Split(s, Slash) && f != ""
  {
    NonEmpty(Split(s, Slash))
  }

  function NonEmpty(parts: seq<string>): (fs: seq<string>)
    ensures forall f :: f in fs <==> f in parts && f != ""
  {
    if parts == [] then [] else (if parts[0] != "" then [parts[0]] else []) + NonEmpty(parts[1..])
  }

  /**
   * containsDotDot: the shortcut on the substring changes nothing, and what it finds is ".." as a whole
   * component, between slashes or the ends.
   */
  method ContainsDotDot(s: string) returns (r: bool)
    ensures r <==> ".." in Split(s, Slash)
    ensures r <==> Occurs(s, "..", Slash)
  {
    SegmentsOccur(s, "..", Slash);
    var maybe := Search(s, "..");
    if !maybe {
      if Occurs(s, "..", Slash) { OccursContains(s, "..", Slash); }
      return false;
    }
    var fs := Fields(s);
    for i := 0 to |fs|
      invariant ".." !in fs[..i]
    {
      if fs[i] == ".." {
        assert ".." in fs;
        return true;
      }
      assert fs[..i + 1] == fs[..i] + [fs[i]];
    }
    assert fs[..|fs|] == fs;
    return false;
  }

  // ----- agreement -----

  /** Where the sidecar finds a path from a request. */
  function SidecarPath(shared: string, rel: string): string { PathJoin(shared, rel) }

  /** The path of the URL that urlJoin makes and the request then carries; the rest of the URL is opaque. */
  function RequestedPath(base: string, rel: string): string {
    var joined := PathJoin(base, rel);
    if Rooted(joined) then joined else [Slash] + joined
  }

  datatype Answer = Healthy | Refused | At(location: string)

  /** How the file server resolves the path of a request. */
  function Located(root: string, urlPath: string): string { PathJoin(root, Clean(urlPath)) }

  const Nul: string := [0 as char]

  /** Two dots in a row, or a NUL, anywhere. */
  ghost predicate Suspect(s: string) { Contains(s, "..") || Contains(s, Nul) }

  lemma {:induction false} Unsuspected(s: string)
    requires '.' !in s && 0 as char !in s
    ensures !Suspect(s)
  {
    NotWithout(s, "..");
    NotWithout(s, Nul);
  }

  /** Where ServeHTTP looks, once the request is authenticated. */
  method ResolveRequest(root: string, urlPath: string) returns (answer: Answer)
    ensures answer == Healthy <==> Clean(urlPath) == "/healthz"
    ensures answer == Refused <==> Suspect(Clean(urlPath))
    ensures answer.At? ==> answer.location == Located(root, urlPath)
  {
    var upath := Clean(urlPath);
    Unsuspected("/healthz");
    if upath == "/healthz" { return Healthy; }
    var dots := Search(upath, "..");
    var nul := Search(upath, Nul);
    if dots || nul { return Refused; }
    return At(PathJoin(root, upath));
  }

  lemma {:induction false} PrependSlash(s: string)
    ensures Split([Slash] + s, Slash) == [""] + Split(s, Slash)
    ensures Propers([""] + Split(s, Slash)) == Propers(Split(s, Slash))
  {}

  /** Leading steps up taken off. */
  function Grounded(steps: seq<string>): seq<string> {
    if steps != [] && steps[0] == ".." then Grounded(steps[1..]) else steps
  }

  lemma {:induction false} GroundedSnoc(steps: seq<string>, c: string)
    ensures Grounded(steps + [c]) ==
      if Grounded(steps) == [] && c == ".." then [] else Grounded(steps) + [c]
  {
    if steps != [] && steps[0] == ".." {
      assert (steps + [c])[1..] == steps[1..] + [c];
      GroundedSnoc(steps[1..], c);
    } else if steps == [] {
      assert steps + [c] == [c] && [c][1..] == [];
    }
  }

  lemma {:induction false} GroundedProper(steps: seq<string>)
    requires Settled(false, steps)
    ensures forall i | 0 <= i < |Grounded(steps)| :: Proper(Grounded(steps)[i])
    ensures steps != [] ==> (Grounded(steps) == [] <==> steps[|steps| - 1] == "..")
    ensures steps != [] && steps[|steps| - 1] != ".." ==>
              Grounded(steps)[|Grounded(steps)| - 1] == steps[|steps| - 1]
    ensures steps != [] && steps[|steps| - 1] != ".." ==>
              Grounded(steps[..|steps| - 1]) == Grounded(steps)[..|Grounded(steps)| - 1]
  {
    if steps != [] && steps[0] == ".." {
      var rest := steps[1..];
      assert Settled(false, rest);
      GroundedProper(rest);
      if rest != [] { assert steps[..|steps| - 1][1..] == rest[..|rest| - 1]; }
    }
  }

  /** A rooted path drops the steps up that lead nowhere, sooner or later. */
  lemma {:induction false} PushGrounded(steps: seq<string>, c: string)
    requires Settled(false, steps)
    ensures Grounded(Push(false, steps, c)) == Push(true, Grounded(steps), c)
  {
    GroundedProper(steps);
    GroundedSnoc(steps, c);
  }

  lemma {:induction false} ReduceGrounded(steps: seq<string>, cs: seq<string>)
    requires Settled(false, steps) && Free(cs, Slash)
    ensures Grounded(Reduce(false, steps, cs)) == Reduce(true, Grounded(steps), cs)
    decreases |cs|
  {
    if cs != [] {
      PushGrounded(steps, cs[0]);
      PushSettled(false, steps, cs[0]);
      ReduceGrounded(Push(false, steps, cs[0]), cs[1..]);
    }
  }

  /** Rooting a relative path reduces its components from the root. */
  lemma {:induction false} RootedSteps(rel: string)
    requires rel != "" && !Rooted(rel)
    ensures Rooted([Slash] + Clean(rel)) && Steps([Slash] + Clean(rel)) == Reduce(true, [], Split(rel, Slash))
  {
    var c := Clean(rel);
    PrependSlash(c);
    ReduceAppend(true, [], [""], Split(c, Slash));
    assert [""][1..] == [];
    CleanKeeps(rel);
    SplitFree(rel, Slash);
    SplitFree(c, Slash);
    ReduceGrounded([], Split(rel, Slash));
    ReduceGrounded([], Split(c, Slash));
  }

  /** The components that a request for rel asks for: rel followed from those of the base URL, never above the root. */
  lemma {:induction false} RequestedReduced(base: string, rel: string)
    requires (base == "" || Rooted(base)) && rel != "" && !Rooted(rel)
    ensures Rooted(RequestedPath(base, rel))
    ensures Steps(RequestedPath(base, rel)) == Reduce(true, Steps(base), Split(rel, Slash))
  {
    if base == "" {
      CleanKeeps(rel);
      RootedSteps(rel);
      assert Split("", Slash) == [""] && [""][1..] == [];
    } else {
      JoinSteps(base, rel);
    }
  }

  /** Without a step up these are the components of the base URL and then those of rel. */
  lemma {:induction false} RequestedSteps(base: string, rel: string)
    requires (base == "" || Rooted(base)) && rel != "" && !Rooted(rel) && ".." !in Split(rel, Slash)
    ensures Rooted(RequestedPath(base, rel))
    ensures Steps(RequestedPath(base, rel)) == Steps(base) + Propers(Split(rel, Slash))
  {
    RequestedReduced(base, rel);
    ReduceForward(true, Steps(base), Split(rel, Slash));
  }

  /** Cleaning a path that never steps up gives one that never does. */
  lemma {:induction false} CleanForward(s: string)
    requires ".." !in Split(s, Slash)
    ensures ".." !in Split(Clean(s), Slash)
  {
    ReduceForward(Rooted(s), [], Split(s, Slash));
    StepsSettled(s);
    var steps := Steps(s);
    if steps == [] {
      SplitWhole(".", Slash);
      SplitAppend("", "", Slash);
      assert "" + [Slash] + "" == [Slash];
    } else {
      SplitJoin(steps, Slash);
      PrependSlash(Join(steps, Slash));
    }
  }

  /** The components of a rooted, settled path. */
  lemma {:induction false} LocatedSteps(root: string, urlPath: string)
    requires root != "" && Rooted(urlPath)
    ensures Rooted(Located(root, urlPath)) == Rooted(root)
    ensures Steps(Located(root, urlPath)) == Steps(root) + Steps(urlPath)
  {
    StepsSettled(urlPath);
    var steps := Steps(urlPath);
    var c := Clean(urlPath);
    assert c == [Slash] + Join(steps, Slash);
    PrependSlash(Join(steps, Slash));
    if steps == [] {
      assert Split("", Slash) == [""];
      assert [""][1..] == [];
    } else {
      SplitJoin(steps, Slash);
    }
    SettledPropers(steps);
    JoinForward(root, c);
    JoinSteps(root, c);
  }

  lemma {:induction false} SettledPropers(steps: seq<string>)
    requires Settled(true, steps)
    ensures Propers(steps) == steps && ".." !in steps
  {
    if steps != [] {
      assert Settled(true, steps[1..]);
      SettledPropers(steps[1..]);
    }
  }

  /**
   * For a relative path that never steps up, the file server looks where the sidecar does exactly if the path of
   * the base URL has no components, as when it is empty or a slash.
   */
  lemma {:induction false} ServerAgrees(shared: string, base: string, rel: string)
    requires shared != "" && (base == "" || Rooted(base)) && rel != "" && !Rooted(rel) && ".." !in Split(rel, Slash)
    ensures Located(shared, RequestedPath(base, rel)) == SidecarPath(shared, rel) <==> Steps(base) == []
  {
    RequestedSteps(base, rel);
    if Steps(base) == [] {
      assert Steps(base) + Propers(Split(rel, Slash)) == Propers(Split(rel, Slash));
      LocatedAs(shared, RequestedPath(base, rel), rel);
    } else {
      LocatedElsewhere(shared, RequestedPath(base, rel), rel);
    }
  }

  /** The proper components of two paths joined, before cleaning. */
  lemma {:induction false} JoinedPropers(b: string, c: string)
    requires b != "" && ".." !in Split(b, Slash) && ".." !in Split(c, Slash)
    ensures ".." !in Split(PathJoin(b, c), Slash)
    ensures Propers(Split(PathJoin(b, c), Slash)) == Propers(Split(b, Slash)) + Propers(Split(c, Slash))
  {
    var d := if c == "" then b else b + [Slash] + c;
    if c == "" {
      assert Split(c, Slash) == [""] && [""][1..] == [];
      assert Propers(Split(c, Slash)) == [];
    } else {
      SplitAppend(b, c, Slash);
      PropersAppend(Split(b, Slash), Split(c, Slash));
    }
    CleanForward(d);
    CleanPropers(d);
  }

  lemma {:induction false} OneStep(name: string)
    requires Name(name)
    ensures Rooted([Slash] + name) && Steps([Slash] + name) == [name]
  {
    NameSteps(name);
    PrependSlash(name);
    ReduceForward(true, [], [""] + [name]);
  }

  /** With a path in the base URL the server looks elsewhere. */
  lemma {:induction false} BaseMatters(shared: string, rel: string)
    requires shared != "" && rel != "" && !Rooted(rel) && ".." !in Split(rel, Slash)
    ensures Located(shared, RequestedPath("/files", rel)) != SidecarPath(shared, rel)
  {
    OneStep("files");
    assert [Slash] + "files" == "/files";
    ServerAgrees(shared, "/files", rel);
  }

  /** Joining step by step or at once makes no difference for paths that never step up. */
  lemma {:induction false} JoinAssociates(a: string, b: string, c: string)
    requires a != "" && b != "" && ".." !in Split(b, Slash) && ".." !in Split(c, Slash)
    ensures PathJoin(PathJoin(a, b), c) == PathJoin(a, PathJoin(b, c))
  {
    JoinForward(a, b);
    JoinSteps(a, b);
    JoinNonEmpty(a, b);
    JoinForward(PathJoin(a, b), c);
    JoinSteps(PathJoin(a, b), c);
    JoinedPropers(b, c);
    JoinForward(a, PathJoin(b, c));
    JoinSteps(a, PathJoin(b, c));
    Regroup(Steps(a), Propers(Split(b, Slash)), Propers(Split(c, Slash)));
  }

  lemma {:induction false} JoinNonEmpty(a: string, b: string)
    requires a != ""
    ensures PathJoin(a, b) != ""
  {
    JoinSteps(a, b);
    var s := if b == "" then a else a + [Slash] + b;
    StepsSettled(s);
    if Steps(s) != [] { FirstChar(Steps(s)); }
  }

  lemma {:induction false} CleanPropers(s: string)
    requires ".." !in Split(s, Slash)
    ensures Propers(Split(Clean(s), Slash)) == Propers(Split(s, Slash))
  {
    CleanForward(s);
    CleanKeeps(s);
    ReduceForward(Rooted(s), [], Split(s, Slash));
    ReduceForward(Rooted(s), [], Split(Clean(s), Slash));
    assert [] + Propers(Split(s, Slash)) == Propers(Split(s, Slash));
    assert [] + Propers(Split(Clean(s), Slash)) == Propers(Split(Clean(s), Slash));
  }

  /** filepath.Rel, for a target inside its base: what is left of the target. */
  function Rel(base: string, target: string): Option<string> {
    if Rooted(base) == Rooted(target) && Steps(base) <= Steps(target)
    then Some(Shown(false, Steps(target)[|Steps(base)|..]))
    else None
  }

  /** A plain name is one component. */
  predicate Name(s: string) { Proper(s) && Slash !in s }

  lemma {:induction false} NameSteps(name: string)
    requires Name(name)
    ensures !Rooted(name) && Split(name, Slash) == [name] && Propers([name]) == [name] && Steps(name) == [name]
  {
    SplitWhole(name, Slash);
    assert name[0] in name;
    assert [name][1..] == [];
    ReduceForward(false, [], [name]);
  }

  /** The name of a staging directory is what Rel gives back for it. */
  lemma {:induction false} RelOfChild(shared: string, name: string)
    requires shared != "" && Name(name)
    ensures Rel(shared, PathJoin(shared, name)) == Some(name)
  {
    NameSteps(name);
    JoinForward(shared, name);
    JoinSteps(shared, name);
    assert (Steps(shared) + [name])[|Steps(shared)|..] == [name];
    assert Steps(shared) <= Steps(shared) + [name];
  }

  /**
   * All three name the same file: the client when it stages file in its directory, the sidecar when it joins the
   * relative path it is sent, and the file server when it is asked for the URL made of that path.
   */
  lemma {:induction false} AllAgree(shared: string, base: string, name: string, file: string)
    requires shared != "" && (base == "" || base == "/") && Name(name) && Name(file)
    ensures var staged := PathJoin(PathJoin(shared, name), file);
      var rel := PathJoin(name, file);
      SidecarPath(shared, rel) == staged && Located(shared, RequestedPath(base, rel)) == staged
  {
    NameSteps(name);
    NameSteps(file);
    JoinAssociates(shared, name, file);
    TwoNames(name, file);
    BaseSteps(base);
    ServerAgrees(shared, base, PathJoin(name, file));
  }

  lemma {:induction false} TwoShown(s: string, name: string, file: string)
    requires Rooted(s) && Steps(s) == [name, file]
    ensures Clean(s) == [Slash] + name + [Slash] + file
  {
    JoinTwo(name, file);
    assert [Slash] + (name + [Slash] + file) == [Slash] + name + [Slash] + file;
  }

  /** And the path in the request is the two names between slashes: the server refuses it only for what is in them. */
  lemma {:induction false} RequestShown(base: string, name: string, file: string)
    requires (base == "" || base == "/") && Name(name) && Name(file)
    ensures Clean(RequestedPath(base, PathJoin(name, file))) == [Slash] + name + [Slash] + file
  {
    TwoNames(name, file);
    BaseSteps(base);
    var rel := PathJoin(name, file);
    RequestedSteps(base, rel);
    assert Steps(RequestedPath(base, rel)) == [name, file];
    TwoShown(RequestedPath(base, rel), name, file);
  }

  // ----- the two checks -----

  /** The sidecar's check of a path in a request. */
  predicate SidecarRefuses(rel: string) { ".." in Split(rel, Slash) }

  /** The file server's check of the request made of that path. */
  ghost predicate ServerRefuses(base: string, rel: string) { Suspect(Clean(RequestedPath(base, rel))) }

  lemma {:induction false} SuspectShown(steps: seq<string>)
    ensures Suspect([Slash] + Join(steps, Slash)) <==> exists c :: c in steps && Suspect(c)
  {
    var joined := Join(steps, Slash);
    assert "" + [Slash] + joined == [Slash] + joined;
    Unsuspected("");
    ContainsAcross("", joined, "..", Slash);
    ContainsAcross("", joined, Nul, Slash);
    if steps != [] {
      ContainsInPart(steps, "..", Slash);
      ContainsInPart(steps, Nul, Slash);
    }
  }

  /**
   * The server refuses a request exactly if something is suspect in a component that is left after following rel
   * from the base URL: it looks after cleaning, the sidecar before.
   */
  lemma {:induction false} ServerRefusal(base: string, rel: string)
    requires (base == "" || Rooted(base)) && rel != "" && !Rooted(rel)
    ensures ServerRefuses(base, rel) <==> exists c :: c in Reduce(true, Steps(base), Split(rel, Slash)) && Suspect(c)
  {
    RequestedReduced(base, rel);
    SuspectShown(Steps(RequestedPath(base, rel)));
  }

  /** For a path without a step up that is a suspect component of the base URL or of rel. */
  lemma {:induction false} ForwardRefusal(base: string, rel: string)
    requires (base == "" || Rooted(base)) && rel != "" && !Rooted(rel) && ".." !in Split(rel, Slash)
    ensures ServerRefuses(base, rel) <==>
      (exists c :: c in Steps(base) && Suspect(c)) || (exists c :: c in Propers(Split(rel, Slash)) && Suspect(c))
  {
    ServerRefusal(base, rel);
    ReduceForward(true, Steps(base), Split(rel, Slash));
  }

  /** rel has a step up, and nothing suspect is left after following it. */
  ghost predicate StepsUpCleanly(base: string, rel: string) {
    ".." in Split(rel, Slash) && forall c | c in Reduce(true, Steps(base), Split(rel, Slash)) :: !Suspect(c)
  }

  /** rel has no step up, but a component of it or of the base URL is suspect. */
  ghost predicate SuspectForward(base: string, rel: string) {
    && ".." !in Split(rel, Slash)
    && exists c :: (c in Steps(base) || c in Propers(Split(rel, Slash))) && Suspect(c)
  }

  /** The two checks disagree exactly in these two cases; neither is stricter than the other. */
  lemma {:induction false} ChecksDisagree(base: string, rel: string)
    requires (base == "" || Rooted(base)) && rel != "" && !Rooted(rel)
    ensures SidecarRefuses(rel) && !ServerRefuses(base, rel) <==> StepsUpCleanly(base, rel)
    ensures !SidecarRefuses(rel) && ServerRefuses(base, rel) <==> SuspectForward(base, rel)
  {
    ServerRefusal(base, rel);
    if ".." !in Split(rel, Slash) { ForwardRefusal(base, rel); }
  }

  /** The sidecar lets a name with two dots in it pass, and the server refuses it. */
  lemma {:induction false} OnlyServerRefuses()
    ensures !SidecarRefuses("a..b") && ServerRefuses("", "a..b")
  {
    var rel := "a..b";
    NameSteps(rel);
    ReduceForward(true, [], [rel]);
    assert Split("", Slash) == [""] && [""][1..] == [];
    assert FoundAt(rel, "..", 1);
    assert rel in Reduce(true, Steps(""), Split(rel, Slash)) && Suspect(rel);
    ServerRefusal("", rel);
  }

  /** A request is located by the components that are left of it. */
  lemma {:induction false} LocatedAs(shared: string, urlPath: string, rel: string)
    requires shared != "" && Rooted(urlPath) && ".." !in Split(rel, Slash)
    requires Steps(urlPath) == Propers(Split(rel, Slash))
    ensures Located(shared, urlPath) == PathJoin(shared, rel)
  {
    LocatedSteps(shared, urlPath);
    JoinForward(shared, rel);
    JoinSteps(shared, rel);
    JoinSteps(shared, Clean(urlPath));
  }

  /** With more components it is located somewhere else. */
  lemma {:induction false} LocatedElsewhere(shared: string, urlPath: string, rel: string)
    requires shared != "" && Rooted(urlPath) && ".." !in Split(rel, Slash)
    requires |Steps(urlPath)| > |Propers(Split(rel, Slash))|
    ensures Located(shared, urlPath) != PathJoin(shared, rel)
  {
    LocatedSteps(shared, urlPath);
    JoinForward(shared, rel);
    JoinSteps(shared, rel);
  }

  /** The sidecar refuses a step up that is taken back, and the server looks for what is left. */
  lemma {:induction false} OnlySidecarRefuses(shared: string)
    requires Rooted(shared)
    ensures SidecarRefuses("a/../b") && !ServerRefuses("", "a/../b")
    ensures Located(shared, RequestedPath("", "a/../b")) == PathJoin(shared, "b")
  {
    var rel := "a/../b";
    LeadsToB(rel);
    Unsuspected("b");
    assert forall c :: c in ["b"] <==> c == "b";
    ServerRefusal("", rel);
    NameSteps("b");
    LocatedAs(shared, RequestedPath("", rel), "b");
  }

  lemma {:induction false} LeadsToB(rel: string)
    requires rel == "a/../b"
    ensures ".." in Split(rel, Slash) && Rooted(RequestedPath("", rel))
    ensures Steps("") == [] && Reduce(true, [], Split(rel, Slash)) == ["b"] && Steps(RequestedPath("", rel)) == ["b"]
  {
    TakenBack(rel);
    ReducedAway("a", "b");
    RequestedReduced("", rel);
    assert Split("", Slash) == [""] && [""][1..] == [];
  }

  lemma {:induction false} TakenBack(rel: string)
    requires rel == "a/../b"
    ensures Split(rel, Slash) == ["a", "..", "b"]
  {
    SplitWhole("a", Slash);
    SplitWhole("..", Slash);
    SplitWhole("b", Slash);
    assert rel == "a" + [Slash] + (".." + [Slash] + "b");
    SplitAppend("a", ".." + [Slash] + "b", Slash);
    SplitAppend("..", "b", Slash);
  }

  lemma {:induction false} ReducedAway(a: string, b: string)
    requires a !in {"", ".", ".."} && b !in {"", ".", ".."}
    ensures Reduce(true, [], [a, "..", b]) == [b]
  {
    assert [a, "..", b][1..] == ["..", b] && ["..", b][1..] == [b] && [b][1..] == [];
    assert Push(true, [], a) == [a] && Push(true, [a], "..") == [] && Push(true, [], b) == [b];
    assert Reduce(true, [], [a, "..", b]) == Reduce(true, [a], ["..", b]);
    assert Reduce(true, [a], ["..", b]) == Reduce(true, [], [b]);
    assert Reduce(true, [], [b]) == Reduce(true, [b], []);
  }

  lemma {:induction false} JoinTwo(a: string, b: string)
    ensures Join([a, b], Slash) == a + [Slash] + b
  {}

  lemma {:induction false} TwoNames(name: string, file: string)
    requires Name(name) && Name(file)
    ensures var rel := PathJoin(name, file);
      && rel == name + [Slash] + file && !Rooted(rel)
      && Split(rel, Slash) == [name, file] && Propers([name, file]) == [name, file]
  {
    NameSteps(name);
    NameSteps(file);
    JoinSteps(name, file);
    JoinForward(name, file);
    assert [name] + [file] == [name, file];
    JoinTwo(name, file);
    SplitAppend(name, file, Slash);
    PropersAppend([name], [file]);
  }

  lemma {:induction false} BaseSteps(base: string)
    requires base == "" || base == "/"
    ensures Steps(base) == []
  {
    SplitAppend("", "", Slash);
    assert "" + [Slash] + "" == "/";
    DotsOnly(true);
    assert [""][1..] == [];
  }
}
