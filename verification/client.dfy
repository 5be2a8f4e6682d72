/** The receive loop of the Build and Run commands, and what of a session's messages it prints. */
module Client {
  import opened Common
  import opened PodSession
  import opened PodSessionInvariant
  import opened PodSessionRuns

  datatype Response = StandardOut(text: string) | StandardError(text: string) | UnknownMessage

  /** The responses before the first unknown one. */
  function Understood(responses: seq<Response>): (prefix: seq<Response>)
    ensures prefix <= responses
    ensures UnknownMessage !in prefix
    ensures |prefix| < |responses| ==> responses[|prefix|].UnknownMessage?
  {
    if responses == [] || responses[0].UnknownMessage? then []
    else [responses[0]] + Understood(responses[1..])
  }

  function Texts(responses: seq<Response>): (texts: seq<string>)
    requires UnknownMessage !in responses
    ensures |texts| == |responses|
  {
    seq(|responses|, i requires 0 <= i < |responses| => assert responses[i] in responses; responses[i].text)
  }

  /**
   * The receive loop, over the responses of a stream that ends in EOF or, when broken, in an error. It prints
   * everything up to the first message it does not know and fails if there is one or the stream broke.
   */
  method Receive(responses: seq<Response>, broken: bool) returns (ok: bool, printed: string)
    ensures printed == Concat(Texts(Understood(responses)))
    ensures ok <==> !broken && UnknownMessage !in responses
  {
    printed := "";
    var i := 0;
    while i < |responses|
      invariant 0 <= i <= |responses|
      invariant UnknownMessage !in responses[..i]
      invariant printed == Concat(Texts(responses[..i]))
    {
      match responses[i] {
        case StandardOut(text) => printed := printed + text;
        case StandardError(text) => printed := printed + text;
        case UnknownMessage =>
          UnderstoodIs(responses, i);
          return false, printed;
      }
      assert responses[..i + 1] == responses[..i] + [responses[i]];
      assert Texts(responses[..i + 1]) == Texts(responses[..i]) + [responses[i].text];
      ConcatSnoc(Texts(responses[..i]), responses[i].text);
      i := i + 1;
    }
    assert responses[..|responses|] == responses;
    UnderstoodIs(responses, |responses|);
    ok := !broken;
  }

  lemma {:induction false} UnderstoodIs(responses: seq<Response>, n: nat)
    requires n <= |responses| && UnknownMessage !in responses[..n]
    requires n < |responses| ==> responses[n].UnknownMessage?
    ensures Understood(responses) == responses[..n]
  {}

  // ----- what arrives of a session -----

  /** The responses a client gets from a session: the messages the transport accepted, in order. */
  function Arriving(sent: seq<Sent>): seq<Response> {
    if sent == [] then []
    else
      var last := sent[|sent| - 1];
      Arriving(sent[..|sent| - 1]) + (if last.accepted then [StandardError(Render(last.message.text))] else [])
  }

  function Messages(sent: seq<Sent>): (ms: seq<Message>)
    ensures |ms| == |sent|
  {
    seq(|sent|, i requires 0 <= i < |sent| => sent[i].message)
  }

  function Rendered(ms: seq<Message>): (texts: seq<string>)
    ensures |texts| == |ms|
  {
    seq(|ms|, i requires 0 <= i < |ms| => Render(ms[i].text))
  }

  function Of(ms: seq<Message>, o: Origin): seq<Message> {
    if ms == [] then []
    else Of(ms[..|ms| - 1], o) + (if ms[|ms| - 1].origin == o then [ms[|ms| - 1]] else [])
  }

  predicate AllAccepted(sent: seq<Sent>) { forall i | 0 <= i < |sent| :: sent[i].accepted }

  lemma {:induction false} RenderedMore(ms: seq<Message>, m: Message)
    ensures Rendered(ms + [m]) == Rendered(ms) + [Render(m.text)]
  {}

  lemma {:induction false} MessagesMore(sent: seq<Sent>, last: Sent)
    ensures Messages(sent + [last]) == Messages(sent) + [last.message]
  {}

  lemma {:induction false} ArrivingMore(sent: seq<Sent>, last: Sent)
    requires last.accepted
    ensures Arriving(sent + [last]) == Arriving(sent) + [StandardError(Render(last.message.text))]
  {}

  lemma {:induction false} TextsMore(responses: seq<Response>, text: string)
    requires UnknownMessage !in responses
    ensures UnknownMessage !in responses + [StandardError(text)]
    ensures Texts(responses + [StandardError(text)]) == Texts(responses) + [text]
  {}

  lemma {:induction false} ArrivingAll(sent: seq<Sent>)
    requires AllAccepted(sent)
    ensures UnknownMessage !in Arriving(sent)
    ensures Texts(Arriving(sent)) == Rendered(Messages(sent))
  {
    if sent != [] {
      var before, last := sent[..|sent| - 1], sent[|sent| - 1];
      ArrivingAll(before);
      assert sent == before + [last];
      ArrivingMore(before, last);
      MessagesMore(before, last);
      RenderedMore(Messages(before), last.message);
      TextsMore(Arriving(before), Render(last.message.text));
    }
  }

  lemma {:induction false} ProjectIsOf(sent: seq<Sent>, o: Origin)
    ensures Project(sent, o) == Of(Messages(sent), o)
  {
    if sent != [] {
      ProjectIsOf(sent[..|sent| - 1], o);
      assert Messages(sent)[..|sent| - 1] == Messages(sent[..|sent| - 1]);
    }
  }

  /**
   * Log conservation from pod to terminal: in every run in which the transport accepts every message, once
   * the phase of the pod is reported, what the client prints is a sequence of messages, rendered and joined,
   * whose part from each log stream is that stream's whole script. Nothing is lost, repeated or reordered.
   */
  lemma {:induction false} LogsReachClient(
    cfg: Config, states: seq<State>, steps: seq<Action>, i: nat)
    returns (ms: seq<Message>)
    requires IsRun(cfg, states, steps) && i < |states| && PhaseReported(states[i]) && AllAccepted(states[i].out.sent)
    ensures UnknownMessage !in Arriving(states[i].out.sent)
    ensures Concat(Texts(Understood(Arriving(states[i].out.sent)))) == Concat(Rendered(ms))
    ensures ms == Messages(states[i].out.sent) && forall k: nat :: Of(ms, Stream(k)) == WholeScript(states[i], k)
  {
    var sent := states[i].out.sent;
    ms := Messages(sent);
    ArrivingAll(sent);
    var arriving := Arriving(sent);
    assert arriving[..|arriving|] == arriving;
    UnderstoodIs(arriving, |arriving|);
    LogsComplete(cfg, states, steps, i);
    forall k: nat ensures Of(ms, Stream(k)) == WholeScript(states[i], k) {
      ProjectIsOf(sent, Stream(k));
    }
  }
}
