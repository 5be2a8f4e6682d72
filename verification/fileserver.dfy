/** The file server on the shared volume: uploads create files, and never touch one that is there. */
module FileServer {
  import opened FileSystem
  import opened Staging
  import opened Strings
  import opened Paths

  datatype Verb = Get | Put | OtherVerb

  datatype Status = Healthy | Served(content: Content) | Created | Conflict | NotFound | BadRequest

  /** The longest part of p that is there. */
  function Nearest(t: Tree, p: Path): Path {
    if p == [] || p in t then p else Nearest(t, Parent(p))
  }

  /** What opening a path that is not there fails with: a missing directory, or something in its place. */
  function WhyMissing(t: Tree, p: Path): Status {
    var q := Nearest(t, p);
    if q in t && t[q].Dir? then NotFound else BadRequest
  }

  /** That depends on whether something is in the way. */
  lemma {:induction false} MissingBecause(t: Tree, p: Path)
    requires WellFormed(t) && PlainPath(p)
    ensures WhyMissing(t, p) == if Passable(t, p) then NotFound else BadRequest
  {
    NearestIs(t, p);
    var q := Nearest(t, p);
    PrefixesAreDirs(t, q);
    if t[q].Dir? {
      forall r | r in t && Under(r, p) ensures t[r].Dir? { assert Under(r, q); }
    }
  }

  lemma {:induction false} NearestIs(t: Tree, p: Path)
    requires WellFormed(t)
    ensures Nearest(t, p) in t && Under(Nearest(t, p), p)
    ensures forall r | r in t && Under(r, p) :: Under(r, Nearest(t, p))
    decreases |p|
  {
    if p !in t {
      NearestIs(t, Parent(p));
      forall r | r in t && Under(r, p) ensures Under(r, Nearest(t, p)) { UnderParent(r, p); }
    }
  }

  /**
   * An upload: O_EXCL makes it fail if anything is at p. If copying the body fails, what was written stays, so
   * that a second attempt is a conflict.
   */
  method Upload(disk: Disk, p: Path, body: Content) returns (status: Status)
    requires WellFormed(disk.tree) && PlainPath(p)
    modifies disk`tree
    ensures WellFormed(disk.tree)
    ensures forall q | q in old(disk.tree) :: q in disk.tree && FileSystem.Kept(old(disk.tree)[q], disk.tree[q])
    ensures p != [] ==> SameBut(old(disk.tree), disk.tree, iset{p, Parent(p)})
    ensures forall q | q in disk.tree && q !in old(disk.tree) :: q == p
    ensures status == Conflict <==> p in old(disk.tree)
    ensures status == Conflict || status == NotFound ==> disk.tree == old(disk.tree)
    ensures status == Created ==> p in disk.tree && disk.tree[p].File? && disk.tree[p].content == body
    ensures status == Created ==> disk.tree[p].mode == Masked(0x1B6, disk.umask)
    ensures status in {Created, Conflict, NotFound, BadRequest}
    ensures disk.reliable ==> (status == Created <==> p !in old(disk.tree) && Openable(old(disk.tree), p))
    ensures disk.reliable ==> (status == BadRequest <==> !Passable(old(disk.tree), p) && p !in old(disk.tree))
  {
    if p != [] {
      MissingBecause(disk.tree, Parent(p));
      if p !in disk.tree { PassableParent(disk.tree, p); }
      if Parent(p) in disk.tree { PrefixesAreDirs(disk.tree, Parent(p)); }
    }
    if p in disk.tree { return Conflict; }
    if Parent(p) !in disk.tree || !disk.tree[Parent(p)].Dir? { return WhyMissing(disk.tree, Parent(p)); }
    ghost var t := disk.tree;
    var ok := disk.OpenTruncated(p, 0x1B6);
    PlacedChanges(t, disk.tree, p);
    if !ok { return BadRequest; }
    ok := disk.Write(p, body);
    status := if ok then Created else BadRequest;
  }

  /** The path is not the one for health checks, and has nothing that is refused. */
  predicate Answered(urlPath: string) {
    var c := Clean(urlPath);
    c != "/healthz" && forall i | 0 <= i < |c| :: !Forbidden(c, i)
  }

  /** At i there is a NUL, or a dot followed by another. */
  predicate Forbidden(s: string, i: int) {
    0 <= i < |s| && (s[i] == 0 as char || (i + 1 < |s| && s[i] == '.' && s[i + 1] == '.'))
  }

  lemma {:induction false} SuspectIs(s: string)
    ensures Suspect(s) <==> exists i :: Forbidden(s, i)
  {
    if i: nat :| FoundAt(s, "..", i) {
      assert s[i..i + 2][0] == '.' && s[i..i + 2][1] == '.';
      assert Forbidden(s, i);
    }
    if i: nat :| FoundAt(s, Nul, i) {
      assert s[i..i + 1][0] == 0 as char;
      assert Forbidden(s, i);
    }
    if i :| Forbidden(s, i) {
      if s[i] == 0 as char {
        assert s[i..i + 1] == Nul;
        assert FoundAt(s, Nul, i);
      } else {
        assert s[i..i + 2] == "..";
        assert FoundAt(s, "..", i);
      }
    }
  }

  /** ServeHTTP for an authenticated request, with the root of the server as an absolute path. */
  method ServeHTTP(disk: Disk, root: string, verb: Verb, urlPath: string, body: Content) returns (status: Status)
    requires WellFormed(disk.tree) && Rooted(root)
    modifies disk`tree
    ensures WellFormed(disk.tree)
    ensures forall q | q in old(disk.tree) :: q in disk.tree && FileSystem.Kept(old(disk.tree)[q], disk.tree[q])
    ensures var p := Steps(Located(root, urlPath)); forall q | q in disk.tree && q !in old(disk.tree) :: q == p
    ensures Rooted(urlPath) ==> Under(Steps(root), Steps(Located(root, urlPath)))
    ensures Rooted(urlPath) ==> Steps(Located(root, urlPath)) == Steps(root) + Steps(urlPath)
    ensures status == Status.Healthy <==> Clean(urlPath) == "/healthz"
    ensures (exists i :: Forbidden(Clean(urlPath), i)) ==> status == BadRequest
    ensures disk.reliable && verb == Get && Answered(urlPath) ==> var p := Steps(Located(root, urlPath));
      status == if p in disk.tree && disk.tree[p].File? then Served(disk.tree[p].content) else NotFound
    ensures verb == Put && Answered(urlPath) ==>
              (status == Conflict <==> Steps(Located(root, urlPath)) in old(disk.tree))
    ensures disk.reliable && verb == Put && Answered(urlPath) ==>
      var t, p := old(disk.tree), Steps(Located(root, urlPath));
      && (status == Created <==> p !in t && p != [] && Parent(p) in t && t[Parent(p)].Dir?)
      && (status == NotFound <==> p !in t && Parent(p) !in t && Passable(t, p))
      && (status == BadRequest <==> p !in t && !Passable(t, p))
    ensures verb == OtherVerb && Clean(urlPath) != "/healthz" ==> status == BadRequest
    ensures verb != Put || status !in {Created, BadRequest} ==> disk.tree == old(disk.tree)
    ensures status == Created ==> var p := Steps(Located(root, urlPath));
      p !in old(disk.tree) && p in disk.tree && disk.tree[p].File? && disk.tree[p].content == body
    ensures status.Served? ==> var p := Steps(Located(root, urlPath));
      verb == Get && p in disk.tree && disk.tree[p].File? && disk.tree[p].content == status.content
  {
    if Rooted(urlPath) { LocatedSteps(root, urlPath); }
    SuspectIs(Clean(urlPath));
    var answer := ResolveRequest(root, urlPath);
    match answer {
      case Healthy => status := Status.Healthy;
      case Refused => status := BadRequest;
      case At(location) =>
        var p := Steps(location);
        match verb {
          case Get =>
            var readable := p in disk.tree && disk.tree[p].File?;
            if readable && !disk.reliable { readable := *; }
            status := if readable then Served(disk.tree[p].content) else NotFound;
          case Put =>
            LocationPlain(root, urlPath);
            status := Upload(disk, p, body);
          case OtherVerb => status := BadRequest;
        }
    }
  }

  /** What is resolved below an absolute root has no steps up left in it. */
  lemma {:induction false} LocationPlain(root: string, urlPath: string)
    requires Rooted(root)
    ensures PlainPath(Steps(Located(root, urlPath)))
  {
    var c := Clean(urlPath);
    JoinSteps(root, c);
    StepsSettled(Located(root, urlPath));
  }
}
