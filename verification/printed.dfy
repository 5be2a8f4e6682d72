/** What a reader of the printed text can tell: which lines are from which container. */
module Printed {
  import opened Common
  import opened Strings
  import opened PodSession
  import opened PodSessionInvariant
  import opened PodSessionRuns
  import opened Client

  const Newline: char := '\n'

  /** The complete lines of a text. */
  function Lines(text: string): seq<string> {
    var parts := Split(text, Newline);
    parts[..|parts| - 1]
  }

  function Prefix(name: string): string { Labelled(name, "") }

  /** What follows the name of a container in the lines that start with it. */
  function LinesOf(lines: seq<string>, name: string): seq<string> {
    if lines == [] then []
    else
      var line := lines[|lines| - 1];
      LinesOf(lines[..|lines| - 1], name)
      + (if Prefix(name) <= line then [line[|Prefix(name)|..]] else [])
  }

  /** What a log goroutine has to say, without the name. */
  function Body(t: Text): string {
    match t
    case Line(_, line) => line
    case ScanFailed(_, error) => "scanning log lines failed: " + error
    case _ => ""
  }

  function Bodies(ms: seq<Message>): seq<string> {
    if ms == [] then [] else Bodies(ms[..|ms| - 1]) + [Body(ms[|ms| - 1].text)]
  }

  /** Names of containers and pods have neither colons nor blanks. */
  predicate NameLike(name: string) { ':' !in name && ' ' !in name }

  // ----- messages that are not from log goroutines -----

  /** A message of the handler names at most the pod in front of its colon. */
  predicate FromHandler(cfg: Config, t: Text) {
    !t.Line? && !t.ScanFailed? && (t.LogsRefused? ==> t.pod == cfg.podName)
  }

  ghost predicate TextInv(cfg: Config, s: State) {
    && (s.out.send.Idle? || FromHandler(cfg, s.out.send.message.text))
    && (forall i | 0 <= i < |s.out.sent| ::
          s.out.sent[i].message.origin.Stream? || FromHandler(cfg, s.out.sent[i].message.text))
  }

  lemma {:induction false} TextCall(cfg: Config, s: State, c: CallStep)
    requires TextInv(cfg, s) && CallEnabled(s, c)
    ensures TextInv(cfg, NextCall(cfg, s, c))
  {}

  lemma {:induction false} TextLoop(cfg: Config, s: State, l: LoopStep)
    requires TextInv(cfg, s) && LoopEnabled(s, l)
    ensures TextInv(cfg, NextLoop(cfg, s, l))
  {}

  lemma {:induction false} TextStream(cfg: Config, s: State, i: StreamStep)
    requires TextInv(cfg, s) && StreamerInv(s) && StreamEnabled(s, i)
    ensures TextInv(cfg, NextStream(s, i))
  {
    if i.StreamerSends? { ScriptOrigin(s, i.id); }
  }

  lemma {:induction false} ScriptOrigin(s: State, k: nat)
    requires StreamerInv(s) && k < |s.logs.streamers| && !s.logs.streamers[k].send.Idle?
    ensures s.logs.streamers[k].send.message.origin == Stream(k)
  {}

  lemma {:induction false} RunKeepsText(cfg: Config, states: seq<State>, steps: seq<Action>, i: nat)
    requires IsRun(cfg, states, steps) && i < |states|
    ensures TextInv(cfg, states[i])
  {
    if i > 0 {
      RunKeepsText(cfg, states, steps, i - 1);
      RunKeepsInv(cfg, states, steps, i - 1);
      var s := states[i - 1];
      match steps[i - 1] {
        case Call(c) => TextCall(cfg, s, c);
        case Loop(l) => TextLoop(cfg, s, l);
        case Output(o) => TextStream(cfg, s, o);
      }
    }
  }

  // ----- prefixes -----

  /** What is before the first colon of a line, or all of it. */
  function Lead(line: string): string { Split(line, ':')[0] }

  lemma {:induction false} LeadIs(who: string, rest: string)
    requires ':' !in who
    ensures Lead(Labelled(who, rest)) == who
  {
    assert Labelled(who, rest) == who + [':'] + (" " + rest);
    SplitAppend(who, " " + rest, ':');
    SplitWhole(who, ':');
  }

  lemma {:induction false} PrefixLead(name: string, line: string)
    requires NameLike(name)
    ensures Prefix(name) <= line ==> Lead(line) == name
  {
    if Prefix(name) <= line {
      var rest := line[|Prefix(name)|..];
      assert line == Labelled(name, rest);
      LeadIs(name, rest);
    }
  }

  /** A name is told from what else starts a line by its colon. */
  lemma {:induction false} PrefixTells(name: string, who: string, rest: string)
    requires NameLike(name) && ':' !in who
    ensures Prefix(name) <= Labelled(who, rest) <==> name == who
  {
    PrefixLead(name, Labelled(who, rest));
    LeadIs(who, rest);
    assert Labelled(who, rest) == Prefix(who) + rest;
  }

  lemma {:induction false} LabelsNoNames(name: string)
    requires NameLike(name)
    ensures name != Unowned && name != Deleting && name != "Error closing stream" && name != "pod delete"
    ensures ':' !in Unowned && ':' !in Deleting
  {
    assert Unowned[6] == ' ' && Deleting[6] == ' ';
    assert "Error closing stream"[5] == ' ';
    assert "pod delete"[3] == ' ';
  }

  lemma {:induction false} HandlerLines(cfg: Config, t: Text, name: string)
    requires FromHandler(cfg, t) && NameLike(name) && NameLike(cfg.podName) && name != cfg.podName
    ensures !(Prefix(name) <= Head(t))
  {
    LabelsNoNames(name);
    match t
    case LogsRefused(pod, error) => PrefixTells(name, pod, "get logs: " + error);
    case NoReferenceText(error) => PrefixTells(name, Unowned, error);
    case NotFetched(secret, error) => PrefixTells(name, Unowned, "failed to get " + secret + " secret: " + error);
    case CloseFailed(error) => PrefixTells(name, "Error closing stream", error);
    case DeleteFailed(error) => PrefixTells(name, "pod delete", error);
    case SecretUnowned =>
      PrefixLead(name, Deleting);
      SplitWhole(Deleting, ':');
  }

  // ----- lines -----

  /** Ending in a newline, or empty. */
  predicate Whole(text: string) { text == "" || text[|text| - 1] == Newline }

  lemma {:induction false} LinesMore(text: string, head: string)
    requires Whole(text) && Newline !in head
    ensures Whole(text + (head + "\n")) && Lines(text + (head + "\n")) == Lines(text) + [head]
  {
    SplitWhole(head, Newline);
    SplitWhole("", Newline);
    SplitAppend(head, "", Newline);
    assert head + [Newline] + "" == head + "\n";
    if text == "" {
      assert text + (head + "\n") == head + "\n";
    } else {
      var before := text[..|text| - 1];
      assert text == before + [Newline] + "";
      assert text + (head + "\n") == before + [Newline] + (head + "\n");
      SplitAppend(before, "", Newline);
      SplitAppend(before, head + "\n", Newline);
      assert Split(before, Newline) + [head, ""] == Split(before, Newline) + [head] + [""];
    }
  }

  predicate OneLine(ms: seq<Message>) { forall i | 0 <= i < |ms| :: Newline !in Head(ms[i].text) }

  /** name is what the lines of origin o start with, and no others. */
  ghost predicate Marks(ms: seq<Message>, name: string, o: Origin) {
    forall i | 0 <= i < |ms| ::
      if ms[i].origin == o then Head(ms[i].text) == Labelled(name, Body(ms[i].text))
      else !(Prefix(name) <= Head(ms[i].text))
  }

  lemma {:induction false} LinesOfMore(lines: seq<string>, line: string, name: string)
    ensures LinesOf(lines + [line], name) ==
      LinesOf(lines, name) + (if Prefix(name) <= line then [line[|Prefix(name)|..]] else [])
  {
    assert (lines + [line])[..|lines|] == lines;
  }

  lemma {:induction false} RenderedMore(ms: seq<Message>, m: Message)
    ensures Concat(Rendered(ms + [m])) == Concat(Rendered(ms)) + Render(m.text)
  {
    assert Rendered(ms + [m]) == Rendered(ms) + [Render(m.text)];
    ConcatSnoc(Rendered(ms), Render(m.text));
  }

  lemma {:induction false} BodiesMore(ms: seq<Message>, m: Message, o: Origin)
    ensures Bodies(Of(ms + [m], o)) == Bodies(Of(ms, o)) + (if m.origin == o then [Body(m.text)] else [])
  {
    assert (ms + [m])[..|ms|] == ms;
    if m.origin == o {
      assert (Of(ms, o) + [m])[..|Of(ms, o)|] == Of(ms, o);
    } else {
      assert Of(ms + [m], o) == Of(ms, o);
    }
  }

  lemma {:induction false} TextMore(ms: seq<Message>, m: Message)
    requires Whole(Concat(Rendered(ms))) && Newline !in Head(m.text)
    ensures Whole(Concat(Rendered(ms + [m])))
    ensures Lines(Concat(Rendered(ms + [m]))) == Lines(Concat(Rendered(ms))) + [Head(m.text)]
  {
    RenderedMore(ms, m);
    LinesMore(Concat(Rendered(ms)), Head(m.text));
  }

  lemma {:induction false} MarkedLine(m: Message, name: string, o: Origin)
    requires if m.origin == o then Head(m.text) == Labelled(name, Body(m.text)) else !(Prefix(name) <= Head(m.text))
    ensures (if Prefix(name) <= Head(m.text) then [Head(m.text)[|Prefix(name)|..]] else [])
      == if m.origin == o then [Body(m.text)] else []
  {
    if m.origin == o {
      assert Labelled(name, Body(m.text)) == Prefix(name) + Body(m.text);
      assert Head(m.text)[|Prefix(name)|..] == Body(m.text);
    }
  }

  /** One more message, one more line. */
  lemma {:induction false} LineMore(ms: seq<Message>, m: Message, name: string, o: Origin)
    requires Whole(Concat(Rendered(ms))) && Newline !in Head(m.text)
    requires LinesOf(Lines(Concat(Rendered(ms))), name) == Bodies(Of(ms, o))
    requires if m.origin == o then Head(m.text) == Labelled(name, Body(m.text)) else !(Prefix(name) <= Head(m.text))
    ensures Whole(Concat(Rendered(ms + [m])))
    ensures LinesOf(Lines(Concat(Rendered(ms + [m]))), name) == Bodies(Of(ms + [m], o))
  {
    TextMore(ms, m);
    LinesOfMore(Lines(Concat(Rendered(ms))), Head(m.text), name);
    MarkedLine(m, name, o);
    BodiesMore(ms, m, o);
  }

  lemma {:induction false} MarksBefore(ms: seq<Message>, name: string, o: Origin)
    requires ms != [] && OneLine(ms) && Marks(ms, name, o)
    ensures OneLine(ms[..|ms| - 1]) && Marks(ms[..|ms| - 1], name, o)
    ensures var m := ms[|ms| - 1];
      && Newline !in Head(m.text)
      && if m.origin == o then Head(m.text) == Labelled(name, Body(m.text)) else !(Prefix(name) <= Head(m.text))
  {}

  lemma {:induction false} LinesAreHeads(ms: seq<Message>, name: string, o: Origin)
    requires OneLine(ms) && Marks(ms, name, o)
    ensures Whole(Concat(Rendered(ms)))
    ensures LinesOf(Lines(Concat(Rendered(ms))), name) == Bodies(Of(ms, o))
  {
    if ms == [] {
      SplitWhole("", Newline);
    } else {
      var before, m := ms[..|ms| - 1], ms[|ms| - 1];
      assert ms == before + [m];
      MarksBefore(ms, name, o);
      LinesAreHeads(before, name, o);
      LineMore(before, m, name, o);
    }
  }

  // ----- the streams of a call -----

  lemma {:induction false} OfMember(ms: seq<Message>, o: Origin, i: nat)
    requires i < |ms| && ms[i].origin == o
    ensures ms[i] in Of(ms, o)
  {
    if i < |ms| - 1 { OfMember(ms[..|ms| - 1], o, i); }
  }

  lemma {:induction false} ScriptBody(id: nat, name: string, log: LogStream, m: Message)
    requires m in Script(id, name, log)
    ensures Head(m.text) == Labelled(name, Body(m.text))
    ensures m.text.Line? || m.text.ScanFailed?
  {}

  /** The containers that have a stream can be told by their names, also from the pod. */
  predicate Tellable(cfg: Config, s: State) {
    && NameLike(cfg.podName)
    && forall k: nat | k < |s.logs.streamers| ::
         NameLike(s.logs.streamers[k].name) && s.logs.streamers[k].name != cfg.podName
  }

  lemma {:induction false} StreamMarks(
    cfg: Config, states: seq<State>, steps: seq<Action>, i: nat, k: nat, ms: seq<Message>, j: nat)
    requires IsRun(cfg, states, steps) && i < |states| && Tellable(cfg, states[i]) && k < |states[i].logs.streamers|
    requires forall h: nat :: Of(ms, Stream(h)) == WholeScript(states[i], h)
    requires j < |ms| && (ms[j].origin.Stream? || FromHandler(cfg, ms[j].text))
    ensures var name := states[i].logs.streamers[k].name;
      if ms[j].origin == Stream(k) then Head(ms[j].text) == Labelled(name, Body(ms[j].text))
      else !(Prefix(name) <= Head(ms[j].text))
  {
    var ts := states[i].logs.streamers;
    var name := ts[k].name;
    if ms[j].origin.Stream? {
      var h := ms[j].origin.id;
      OfMember(ms, Stream(h), j);
      ScriptBody(h, ts[h].name, ts[h].log, ms[j]);
      PrefixTells(name, ts[h].name, Body(ms[j].text));
      if ts[h].name == name { OneStreamEach(cfg, states, steps, i, h, k); }
    } else {
      HandlerLines(cfg, ms[j].text, name);
    }
  }

  /** The lines of a stream, and the report of its failed scanning if there was one. */
  function Said(log: LogStream): seq<string> {
    log.lines + (if log.scanError.Some? then ["scanning log lines failed: " + log.scanError.value] else [])
  }

  lemma {:induction false} BodiesAt(ms: seq<Message>, i: nat)
    requires i < |ms|
    ensures |Bodies(ms)| == |ms| && Bodies(ms)[i] == Body(ms[i].text)
  {
    BodiesLength(ms);
    if i < |ms| - 1 { BodiesAt(ms[..|ms| - 1], i); }
  }

  lemma {:induction false} BodiesLength(ms: seq<Message>)
    ensures |Bodies(ms)| == |ms|
  {
    if ms != [] { BodiesLength(ms[..|ms| - 1]); }
  }

  lemma {:induction false} ScriptSays(id: nat, name: string, log: LogStream)
    ensures Bodies(Script(id, name, log)) == Said(log)
  {
    var script := Script(id, name, log);
    BodiesLength(script);
    forall i: nat | i < |script| ensures Bodies(script)[i] == Said(log)[i] { BodiesAt(script, i); }
  }

  /** No line, and no error that is reported, contains a newline. */
  predicate LinesOnly(s: State) { OneLine(Messages(s.out.sent)) }

  /**
   * Log conservation on the printed text alone: in every run in which the transport accepts every message, once the
   * phase of the pod is reported, splitting what the client prints into lines and keeping those that start with the
   * name of a container gives exactly the lines of that container, in order, and the report if reading them failed.
   */
  lemma {:induction false} PrintedLines(cfg: Config, states: seq<State>, steps: seq<Action>, i: nat, k: nat)
    requires IsRun(cfg, states, steps) && i < |states| && PhaseReported(states[i]) && AllAccepted(states[i].out.sent)
    requires Tellable(cfg, states[i]) && LinesOnly(states[i]) && k < |states[i].logs.streamers|
    ensures var t := states[i].logs.streamers[k];
      var printed := Concat(Texts(Understood(Arriving(states[i].out.sent))));
      LinesOf(Lines(printed), t.name) == Said(t.log)
  {
    var s := states[i];
    var ms := LogsReachClient(cfg, states, steps, i);
    var t := s.logs.streamers[k];
    RunKeepsText(cfg, states, steps, i);
    forall j: nat | j < |ms|
      ensures if ms[j].origin == Stream(k) then Head(ms[j].text) == Labelled(t.name, Body(ms[j].text))
        else !(Prefix(t.name) <= Head(ms[j].text))
    {
      StreamMarks(cfg, states, steps, i, k, ms, j);
    }
    LinesAreHeads(ms, t.name, Stream(k));
    ScriptSays(k, t.name, t.log);
  }
}
