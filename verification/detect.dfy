/** The detect command: which packages this builder takes. */
module DetectCommand {
  import opened Common
  import opened FileSystem
  import opened Staging
  import opened PodSessionOutcome
  import PS = PodSession

  datatype Answer = Accepted | Rejected | Failed

  /** One of the five types, in letters of either case. */
  predicate Known(ccType: string) {
    || Spells(ccType, "golang") || Spells(ccType, "java") || Spells(ccType, "node") || Spells(ccType, "executable")
    || Spells(ccType, "external")
  }

  /** Detect.Run: unlike for the other commands, a file that cannot be read is an error. */
  method Detect(disk: Disk, metadata: Path, typeOf: Content -> Option<string>) returns (answer: Answer)
    ensures answer != Failed ==>
      && metadata + [MetadataJson] in disk.tree && disk.tree[metadata + [MetadataJson]].File?
      && typeOf(disk.tree[metadata + [MetadataJson]].content).Some?
      && (answer == Accepted <==> Known(typeOf(disk.tree[metadata + [MetadataJson]].content).value))
    ensures answer == Failed && disk.reliable ==>
      || metadata + [MetadataJson] !in disk.tree || !disk.tree[metadata + [MetadataJson]].File?
      || typeOf(disk.tree[metadata + [MetadataJson]].content).None?
  {
    var p := metadata + [MetadataJson];
    var ok := p in disk.tree && disk.tree[p].File?;
    if ok && !disk.reliable { ok := *; }
    if !ok { return Failed; }
    match typeOf(disk.tree[p].content) {
      case None => return Failed;
      case Some(ccType) =>
        LowerSpells(ccType, "golang");
        LowerSpells(ccType, "java");
        LowerSpells(ccType, "node");
        LowerSpells(ccType, "executable");
        LowerSpells(ccType, "external");
        var name := Lower(ccType);
        return if name in ["golang", "java", "node", "executable", "external"] then Accepted else Rejected;
    }
  }

  /** What is detected is just what is handled: by the commands as an external package, or by the sidecar. */
  lemma {:induction false} DetectedIsHandled(
    t: Tree, metadata: Path, typeOf: Content -> Option<string>, ccType: string)
    requires metadata + [MetadataJson] in t && t[metadata + [MetadataJson]].File?
    requires typeOf(t[metadata + [MetadataJson]].content) == Some(ccType)
    ensures Known(ccType) <==> VerdictOn(t, metadata, typeOf) == External || PS.Classify(ccType).Buildable?
    ensures VerdictOn(t, metadata, typeOf) == Internal && Known(ccType) ==> PS.Classify(ccType).Buildable?
  {
    VerdictByType(t, metadata, typeOf);
    KindByType(ccType);
  }
}
