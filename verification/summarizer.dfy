/**
 * pkg/summarizer: construction with a default model, and the loop that collects a
 * streamed generation into one string.
 *
 * The Ollama client, the producer goroutine and the two channels are not modelled.
 * What remains is the consumer: the sequence of events its `select` observed, in the
 * order it observed them, folded into the returned text and error.
 */
module Summarizer {
  import opened Wrappers
  import opened Errors

  const DefaultModel := "mistral"
  const ClientErrorContext := "failed to create Ollama client"
  const GenerateErrorContext := "failed to generate summary"

  /** The prompt of `SummarizeChanges`; `%s` receives the changes. */
  const ChangesTemplate := "Please analyze this GitHub issue description and create a clear, structured summary suitable for a Jira issue:\n\n%s\n\nPlease format the response as follows:\n1. Issue Overview (1-2 sentences)\n2. Key Details (bullet points)\n3. Technical Requirements (if any)\n4. Dependencies and Impact (if mentioned)\n"

  /** The template `SummarizeWithCustomPrompt` falls back on when given an empty one. */
  const CustomDefaultTemplate := "Please analyze this GitHub issue description and create a clear, structured summary for Jira:\n\n%s\n\nPlease format the response as follows:\n1. Issue Overview (1-2 sentences)\n2. Key Details (bullet points)\n3. Technical Requirements (if any)\n4. Dependencies and Impact (if mentioned)\n"

  datatype Config = Config(model: string, ollamaURL: string)

  /** The Ollama client `api.ClientFromEnvironment` built, identified by the host it talks to. */
  datatype Client = Client(host: string)

  datatype Summarizer = Summarizer(client: Client, config: Config)

  /** `fmt.Sprintf(format, args...)`, kept unevaluated: the prompt the request carries. */
  datatype Prompt = Sprintf(format: string, args: seq<string>)

  datatype GenerateRequest = GenerateRequest(model: string, prompt: Prompt)

  /** The model `New` records: the configured one, or "mistral" when none is given. */
  function EffectiveModel(model: string): (m: string)
    ensures m != ""
    ensures model != "" ==> m == model
    ensures model == "" ==> m == DefaultModel
  {
    if model == "" then DefaultModel else model
  }

  /** The template `SummarizeWithCustomPrompt` formats: the given one, or the built-in one when empty. */
  function EffectiveTemplate(template: string): (t: string)
    ensures t != ""
    ensures template != "" ==> t == template
    ensures template == "" ==> t == CustomDefaultTemplate
  {
    if template == "" then CustomDefaultTemplate else template
  }

  /**
   * `New(config)`, given what `api.ClientFromEnvironment` returned: a summarizer holding
   * that client and the config with its model defaulted, or, when the client could not
   * be built, no summarizer and the client's error wrapped.
   */
  function New(config: Config, fromEnvironment: Result<Client, Error>): (r: Result<Summarizer, Error>)
    ensures fromEnvironment.Failure? ==> r.Failure? && r.error == Wrapped(ClientErrorContext, fromEnvironment.error)
    ensures fromEnvironment.Success? ==> r.Success? && r.value.client == fromEnvironment.value
    ensures r.Success? ==> r.value.config == Config(EffectiveModel(config.model), config.ollamaURL)
  {
    var config := config.(model := EffectiveModel(config.model));
    match fromEnvironment
    case Failure(err) => Failure(Wrapped(ClientErrorContext, err))
    case Success(client) => Success(Summarizer(client, config))
  }

  /** One thing the consumer's `select` observed. */
  datatype Event =
    | Fragment(text: string)         // a response received on `stream`
    | ErrorReceived(err: Error)      // a non-nil error received on `errChan`
    | ErrorChannelClosed             // nil received from the closed `errChan`
    | StreamClosed                   // `stream` received with ok == false
    | ContextDone(err: Error)        // `ctx.Done()` fired; `err` is `ctx.Err()`
  {
    /** The events on which the collect loop returns. */
    predicate Ends()
    {
      ErrorReceived? || StreamClosed? || ContextDone?
    }
  }

  /** Some observed event makes the loop return. */
  predicate Returns(trace: seq<Event>)
  {
    trace != [] && (trace[0].Ends() || Returns(trace[1..]))
  }

  /**
   * The events a call observed up to the one it returned on. Every call returns: the
   * poll cycle gives each call a 30-second deadline, so `ctx.Done()` eventually fires.
   */
  type Trace = t: seq<Event> | Returns(t) witness [StreamClosed]

  /** Position of the event the loop returns on. */
  function FirstEnd(trace: seq<Event>): (k: nat)
    requires Returns(trace)
    ensures k < |trace| && trace[k].Ends()
    ensures forall j :: 0 <= j < k ==> !trace[j].Ends()
  {
    if trace[0].Ends() then 0 else 1 + FirstEnd(trace[1..])
  }

  /** The text a fragment contributes to the response; other events contribute none. */
  function Piece(e: Event): string
  {
    if e.Fragment? then e.text else ""
  }

  /** The in-order concatenation of the fragments among `events`. */
  function Text(events: seq<Event>): string
  {
    if events == [] then "" else Text(events[..|events| - 1]) + Piece(events[|events| - 1])
  }

  /**
   * What the collect loop returns for an observed trace: on stream close, the fragments
   * received before it; on an error from the producer, "" and that error wrapped; on
   * cancellation or deadline, "" and the context's error.
   */
  function Collected(trace: seq<Event>): (string, Option<Error>)
    requires Returns(trace)
  {
    var k := FirstEnd(trace);
    Outcome(Text(trace[..k]), trace[k])
  }

  /** The result of the `select` case that returns on `last`, with `text` accumulated. */
  function Outcome(text: string, last: Event): (string, Option<Error>)
    requires last.Ends()
  {
    if last.StreamClosed? then (text, None)
    else if last.ErrorReceived? then ("", Some(Wrapped(GenerateErrorContext, last.err)))
    else ("", Some(last.err))
  }

  /** The `for { select { ... } }` loop that grows `fullResponse` until it returns. */
  method Collect(trace: Trace) returns (text: string, err: Option<Error>)
    ensures (text, err) == Collected(trace)
  {
    ghost var k := FirstEnd(trace);
    text := "";
    var i := 0;
    while true
      invariant i <= k
      invariant text == Text(trace[..i])
      decreases k - i
    {
      assert trace[..i + 1][..i] == trace[..i];
      match trace[i] {
        case ErrorReceived(e) =>
          return "", Some(Wrapped(GenerateErrorContext, e));
        case ErrorChannelClosed =>
        case StreamClosed =>
          return text, None;
        case Fragment(piece) =>
          text := text + piece;
        case ContextDone(e) =>
          return "", Some(e);
      }
      i := i + 1;
    }
  }

  /**
   * `SummarizeWithCustomPrompt(ctx, content, promptTemplate)`: issues one request with the
   * summarizer's model and the effective template applied to `content`, then collects.
   */
  method SummarizeWithCustomPrompt(s: Summarizer, content: string, promptTemplate: string, trace: Trace)
    returns (request: GenerateRequest, text: string, err: Option<Error>)
    ensures request.model == s.config.model
    ensures request.prompt == Sprintf(EffectiveTemplate(promptTemplate), [content])
    ensures (text, err) == Collected(trace)
  {
    request := GenerateRequest(s.config.model, Sprintf(EffectiveTemplate(promptTemplate), [content]));
    text, err := Collect(trace);
  }

  /** `SummarizeChanges(ctx, changes)`: the same collection, with the fixed changes prompt. */
  method SummarizeChanges(s: Summarizer, changes: string, trace: Trace)
    returns (request: GenerateRequest, text: string, err: Option<Error>)
    ensures request.model == s.config.model
    ensures request.prompt == Sprintf(ChangesTemplate, [changes])
    ensures (text, err) == Collected(trace)
  {
    request := GenerateRequest(s.config.model, Sprintf(ChangesTemplate, [changes]));
    text, err := Collect(trace);
  }

  // ---------------------------------------------------------------------------
  // Properties of the collected result

  /** The events the producer sends for fragments `pieces`, in order. */
  function Fragments(pieces: seq<string>): (events: seq<Event>)
    ensures |events| == |pieces|
    ensures forall i :: 0 <= i < |pieces| ==> events[i] == Fragment(pieces[i])
  {
    if pieces == [] then [] else Fragments(pieces[..|pieces| - 1]) + [Fragment(pieces[|pieces| - 1])]
  }

  /** The concatenation of `pieces`, first to last. */
  function Join(pieces: seq<string>): string
  {
    if pieces == [] then "" else Join(pieces[..|pieces| - 1]) + pieces[|pieces| - 1]
  }

  lemma {:induction false} TextAppend(a: seq<Event>, b: seq<Event>)
    ensures Text(a + b) == Text(a) + Text(b)
    decreases |b|
  {
    if b != [] {
      var b' := b[..|b| - 1];
      assert (a + b)[..|a + b| - 1] == a + b';
      assert (a + b)[|a + b| - 1] == b[|b| - 1];
      TextAppend(a, b');
      calc {
        Text(a + b);
        Text(a + b') + Piece(b[|b| - 1]);
        Text(a) + Text(b') + Piece(b[|b| - 1]);
        Text(a) + (Text(b') + Piece(b[|b| - 1]));
        Text(a) + Text(b);
      }
    } else {
      assert a + b == a;
    }
  }

  lemma {:induction false} TextOfFragments(pieces: seq<string>)
    ensures Text(Fragments(pieces)) == Join(pieces)
    decreases |pieces|
  {
    if pieces != [] {
      var events := Fragments(pieces);
      assert events[..|events| - 1] == Fragments(pieces[..|pieces| - 1]);
      TextOfFragments(pieces[..|pieces| - 1]);
    }
  }

  /** A trace with a returning event at `i` returns, at `i` or earlier. */
  lemma {:induction false} ReturnsAt(trace: seq<Event>, i: nat)
    requires i < |trace| && trace[i].Ends()
    ensures Returns(trace) && FirstEnd(trace) <= i
    decreases i
  {
    if !trace[0].Ends() {
      assert trace[1..][i - 1] == trace[i];
      ReturnsAt(trace[1..], i - 1);
    }
  }

  /** The returning event is the first event that ends the loop, wherever it is. */
  lemma CollectedAt(trace: seq<Event>, k: nat)
    requires k < |trace| && trace[k].Ends()
    requires forall j :: 0 <= j < k ==> !trace[j].Ends()
    ensures Returns(trace) && FirstEnd(trace) == k
    ensures Collected(trace) == Outcome(Text(trace[..k]), trace[k])
  {
    ReturnsAt(trace, k);
  }

  /** Fragments followed by a returning event: the fragments' text meets that event. */
  lemma AfterFragments(pieces: seq<string>, last: Event)
    requires last.Ends()
    ensures Returns(Fragments(pieces) + [last])
    ensures Collected(Fragments(pieces) + [last]) == Outcome(Join(pieces), last)
  {
    var events := Fragments(pieces);
    var trace := events + [last];
    assert trace[..|events|] == events;
    assert forall j :: 0 <= j < |events| ==> trace[j] == events[j];
    CollectedAt(trace, |events|);
    TextOfFragments(pieces);
  }

  /**
   * Stream assembly: fragments followed by the close of `stream` yield exactly their
   * concatenation in arrival order.
   */
  lemma StreamAssembly(pieces: seq<string>)
    ensures Returns(Fragments(pieces) + [StreamClosed])
    ensures Collected(Fragments(pieces) + [StreamClosed]) == (Join(pieces), None)
  {
    AfterFragments(pieces, StreamClosed);
  }

  lemma StreamAssemblyExample()
    ensures Collected([Fragment("Over"), Fragment("view: "), Fragment("fix bug"), StreamClosed])
      == ("Overview: fix bug", None)
  {
    var pieces := ["Over", "view: ", "fix bug"];
    StreamAssembly(pieces);
    ExampleFragments();
    ExampleJoin();
  }

  /** The events of the example stream. */
  lemma ExampleFragments()
    ensures Fragments(["Over", "view: ", "fix bug"]) + [StreamClosed]
      == [Fragment("Over"), Fragment("view: "), Fragment("fix bug"), StreamClosed]
  {
    var events := Fragments(["Over", "view: ", "fix bug"]);
    assert |events| == 3;
    assert events[0] == Fragment("Over") && events[1] == Fragment("view: ") && events[2] == Fragment("fix bug");
    assert events == [Fragment("Over"), Fragment("view: "), Fragment("fix bug")];
  }

  /** The joined text of the example stream. */
  lemma ExampleJoin()
    ensures Join(["Over", "view: ", "fix bug"]) == "Overview: fix bug"
  {
    var pieces := ["Over", "view: ", "fix bug"];
    assert ["Over"][..0] == [];
    assert Join(["Over"]) == "Over";
    assert ["Over", "view: "][..1] == ["Over"];
    assert Join(["Over", "view: "]) == "Over" + "view: ";
    assert pieces[..2] == ["Over", "view: "];
    assert Join(pieces) == "Over" + "view: " + "fix bug";
  }

  /** Cancellation or deadline discards whatever had been received. */
  lemma CancellationDiscardsText(pieces: seq<string>, ctxErr: Error)
    ensures Returns(Fragments(pieces) + [ContextDone(ctxErr)])
    ensures Collected(Fragments(pieces) + [ContextDone(ctxErr)]) == ("", Some(ctxErr))
  {
    AfterFragments(pieces, ContextDone(ctxErr));
  }

  /**
   * A producer error is written to `errChan`, which is then closed, before the deferred
   * close of `stream`; once all three have happened both `select` cases are ready. The
   * consumer may therefore see the error (and fail, discarding the text) or the closed
   * stream (and succeed with the text received so far): a producer error does not
   * determine an error result.
   */
  lemma ProducerErrorRace(pieces: seq<string>, cause: Error)
    ensures Returns(Fragments(pieces) + [ErrorReceived(cause)])
    ensures Collected(Fragments(pieces) + [ErrorReceived(cause)]) == ("", Some(Wrapped(GenerateErrorContext, cause)))
    ensures Returns(Fragments(pieces) + [StreamClosed])
    ensures Collected(Fragments(pieces) + [ErrorReceived(cause)]).1 != Collected(Fragments(pieces) + [StreamClosed]).1
  {
    AfterFragments(pieces, ErrorReceived(cause));
    StreamAssembly(pieces);
  }

  lemma ClosedErrorChannelAddsNoText(a: seq<Event>, b: seq<Event>)
    ensures Text(a + [ErrorChannelClosed] + b) == Text(a + b)
  {
    TextAppend(a + [ErrorChannelClosed], b);
    TextAppend(a, [ErrorChannelClosed]);
    TextAppend(a, b);
    assert [ErrorChannelClosed][..0] == [];
  }

  /**
   * Reading nil from the closed `errChan` neither ends the loop nor changes the text,
   * wherever before the returning event it is observed.
   */
  lemma ErrorChannelClosedIgnored(trace: seq<Event>, j: nat)
    requires Returns(trace)
    requires j <= FirstEnd(trace)
    ensures Returns(trace[..j] + [ErrorChannelClosed] + trace[j..])
    ensures Collected(trace[..j] + [ErrorChannelClosed] + trace[j..]) == Collected(trace)
  {
    var k := FirstEnd(trace);
    var t := trace[..j] + [ErrorChannelClosed] + trace[j..];
    InsertedBeforeEnd(trace, j, k, t);
    CollectedAt(t, k + 1);
    CollectedAt(trace, k);
  }

  /** Inserting `ErrorChannelClosed` at `j <= k` moves the returning event at `k` to `k + 1`. */
  lemma InsertedBeforeEnd(trace: seq<Event>, j: nat, k: nat, t: seq<Event>)
    requires j <= k < |trace| && trace[k].Ends()
    requires forall i :: 0 <= i < k ==> !trace[i].Ends()
    requires t == trace[..j] + [ErrorChannelClosed] + trace[j..]
    ensures k + 1 < |t| && t[k + 1] == trace[k]
    ensures forall i :: 0 <= i < k + 1 ==> !t[i].Ends()
    ensures Text(t[..k + 1]) == Text(trace[..k])
  {
    assert Text(t[..k + 1]) == Text(trace[..k]) by {
      assert t[..k + 1] == trace[..j] + [ErrorChannelClosed] + trace[j..k];
      assert trace[..k] == trace[..j] + trace[j..k];
      ClosedErrorChannelAddsNoText(trace[..j], trace[j..k]);
    }
    forall i | 0 <= i < k + 1
      ensures !t[i].Ends()
    {
      if i < j {
        assert t[i] == trace[i];
      } else if j < i {
        assert t[i] == trace[i - 1];
      }
    }
  }

  /** Once the loop has returned, later events change nothing: the result is frozen. */
  lemma ResultFrozen(trace: seq<Event>, later: seq<Event>)
    requires Returns(trace)
    ensures Returns(trace + later)
    ensures Collected(trace + later) == Collected(trace)
  {
    var k := FirstEnd(trace);
    var t := trace + later;
    assert forall j :: 0 <= j < |trace| ==> t[j] == trace[j];
    assert t[..k] == trace[..k];
    CollectedAt(t, k);
  }
}
