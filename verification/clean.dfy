/** The rules by which path.Clean is documented, for any path; with them a path can be taken to its cleaned form. */
module CleanRules {
  import opened Strings
  import opened Paths

  /** A component in the middle that reducing takes away leaves the same path. */
  lemma {:induction false} MiddleGone(a: string, cs: seq<string>, middle: string, b: string)
    requires Split(middle, Slash) == cs
    requires forall rooted, steps :: Reduce(rooted, steps, cs) == steps
    ensures Clean(a + "/" + middle + "/" + b) == Clean(a + "/" + b)
  {
    var s, t := a + "/" + middle + "/" + b, a + "/" + b;
    assert s == a + [Slash] + (middle + [Slash] + b) && t == a + [Slash] + b;
    SplitAppend(a, middle + [Slash] + b, Slash);
    SplitAppend(middle, b, Slash);
    SplitAppend(a, b, Slash);
    assert Rooted(s) == Rooted(t);
    var r := Rooted(s);
    ReduceAppend(r, [], Split(a, Slash), cs + Split(b, Slash));
    ReduceAppend(r, Reduce(r, [], Split(a, Slash)), cs, Split(b, Slash));
    ReduceAppend(r, [], Split(a, Slash), Split(b, Slash));
  }

  /** Two slashes are one. */
  lemma {:induction false} SlashesMerge(a: string, b: string)
    ensures Clean(a + "//" + b) == Clean(a + "/" + b)
  {
    assert Split("", Slash) == [""] && [""][1..] == [];
    MiddleGone(a, [""], "", b);
    assert a + "/" + "" + "/" + b == a + "//" + b;
  }

  /** A single dot goes. */
  lemma {:induction false} DotsGo(a: string, b: string)
    ensures Clean(a + "/./" + b) == Clean(a + "/" + b)
  {
    SplitWhole(".", Slash);
    assert ["."][1..] == [];
    MiddleGone(a, ["."], ".", b);
    assert a + "/" + "." + "/" + b == a + "/./" + b;
  }

  /** A step up goes together with the name before it. */
  lemma {:induction false} StepsUpCancel(a: string, name: string, b: string)
    requires Slash !in name && Proper(name)
    ensures Clean(a + "/" + name + "/../" + b) == Clean(a + "/" + b)
  {
    SplitWhole(name, Slash);
    SplitWhole("..", Slash);
    var middle := name + [Slash] + "..";
    SplitAppend(name, "..", Slash);
    assert [name] + [".."] == [name, ".."];
    forall rooted, steps ensures Reduce(rooted, steps, [name, ".."]) == steps {
      assert [name, ".."][1..] == [".."] && [".."][1..] == [];
      assert Push(rooted, Push(rooted, steps, name), "..") == steps;
    }
    MiddleGone(a, [name, ".."], middle, b);
    assert a + "/" + middle + "/" + b == a + "/" + name + "/../" + b;
  }

  /** Nothing is above the root. */
  lemma {:induction false} RootStays(b: string)
    ensures Clean("/../" + b) == Clean("/" + b)
  {
    var s, t := "/../" + b, "/" + b;
    assert s == "" + [Slash] + (".." + [Slash] + b) && t == "" + [Slash] + b;
    SplitWhole("..", Slash);
    SplitAppend("", ".." + [Slash] + b, Slash);
    SplitAppend("..", b, Slash);
    SplitAppend("", b, Slash);
    assert Split("", Slash) == [""];
    ReduceAppend(true, [], [""], [".."] + Split(b, Slash));
    ReduceAppend(true, Reduce(true, [], [""]), [".."], Split(b, Slash));
    ReduceAppend(true, [], [""], Split(b, Slash));
    assert [""][1..] == [] && [".."][1..] == [];
    assert Rooted(s) && Rooted(t);
  }

  /** The slash at the end goes, except that of the root. */
  lemma {:induction false} LastSlashGoes(a: string)
    requires a != ""
    ensures Clean(a + "/") == Clean(a)
  {
    assert a + "/" == a + [Slash] + "";
    SplitAppend(a, "", Slash);
    assert Split("", Slash) == [""] && [""][1..] == [];
    ReduceAppend(Rooted(a), [], Split(a, Slash), [""]);
  }

  lemma {:induction false} FirstDotGoes(b: string)
    requires !Rooted(b)
    ensures Clean("./" + b) == Clean(b)
  {
    assert "./" + b == "." + [Slash] + b;
    SplitWhole(".", Slash);
    SplitAppend(".", b, Slash);
    ReduceAppend(false, [], ["."], Split(b, Slash));
    assert ["."][1..] == [];
  }

  /** What none of these applies to is left as it is: names, after steps up if it is not rooted. */
  lemma {:induction false} CleanedStays(rooted: bool, steps: seq<string>)
    requires steps != []
    requires forall i | 0 <= i < |steps| :: Slash !in steps[i]
    requires forall i | 0 <= i < |steps| :: Proper(steps[i]) || (steps[i] == ".." && !rooted)
    requires forall i, j | 0 <= i < j < |steps| && steps[j] == ".." :: steps[i] == ".."
    ensures var s := (if rooted then "/" else "") + Join(steps, Slash); Clean(s) == s
  {
    assert Free(steps, Slash);
    ShownSplit(rooted, steps);
    assert "" + Join(steps, Slash) == Join(steps, Slash);
  }

  /** And what has no names. */
  lemma {:induction false} NoNames()
    ensures Clean("") == "." && Clean(".") == "." && Clean("/") == "/"
  {
    assert Split("", Slash) == [""] && [""][1..] == [];
    ShownSplit(false, []);
    ShownSplit(true, []);
    assert [Slash] + "" == "/";
  }
}
