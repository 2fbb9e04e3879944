/**
 The `/payload` endpoint: validate the request, parse the event, run the
 checkbox policy on `issues` events and write the final error, if any, to the
 response body.

 Signature validation and JSON decoding are library code; their outcomes are
 inputs here. Validation yields a payload and an error; parsing is a function
 of the event-type header and the payload it is handed.
 */
module Webhook {
  import opened GitHub
  import opened Checker

  /** The typed event a webhook payload decodes to. */
  datatype Event = IssuesEv(issues: IssuesEvent) | OtherEvent(kind: string)

  /** What validating the request's signature returned: the payload passed on
      to parsing and the validation error (`None` for nil). */
  datatype Validation = Validation(payload: seq<bv8>, err: Option<Error>)

  /** What parsing returned: the decoded event, if any, and the parse error.
      The two are independent: a decoder can hand back an event together
      with an error. */
  datatype Parsed = Parsed(event: Option<Event>, err: Option<Error>)

  /** What one request caused: whether the policy ran, the API calls it
      issued, and the text written to the response body (`None`: nothing). */
  datatype Response = Response(handlerRan: bool, calls: seq<Call>, written: Option<string>)

  /** The parsed value is an `issues` event. */
  predicate IsIssues(p: Parsed)
  {
    p.event.Some? && p.event.value.IssuesEv?
  }

  /** The text `fmt.Fprintln` writes for an error: its message and a newline. */
  function Fprintln(e: Error): (line: string)
    ensures |line| == |e.message| + 1
    ensures line[..|e.message|] == e.message && line[|e.message|] == '\n'
  {
    e.message + "\n"
  }

  /** The request handler. One error variable is threaded through the steps:
      the validation error is overwritten by the parse error, which an
      `issues` event in turn overwrites with the policy's result. */
  function PayloadHandler(eventType: string, validation: Validation,
                          parse: (string, seq<bv8>) -> Parsed, outcomes: CallOutcomes): (r: Response)
    ensures var p := parse(eventType, validation.payload);
      r.handlerRan <==> IsIssues(p)
    ensures var p := parse(eventType, validation.payload);
      IsIssues(p) ==>
        var h := IssuesEventHandler(p.event.value.issues, outcomes);
        && r.calls == h.calls
        && (r.written.Some? <==> ClosedWithUncheckedBox(p.event.value.issues) && outcomes.editErr.Some?)
        && (r.written.Some? ==> r.written == Some(Fprintln(outcomes.editErr.value)))
    ensures var p := parse(eventType, validation.payload);
      !IsIssues(p) ==>
        && r.calls == []
        && (r.written.Some? <==> p.err.Some?)
        && (r.written.Some? ==> r.written == Some(Fprintln(p.err.value)))
  {
    var err := validation.err;  // only logged
    var parsed := parse(eventType, validation.payload);
    var err := parsed.err;      // logged; survives unless an issues event overwrites it
    var dispatched :=
      match parsed.event
      case Some(IssuesEv(ev)) =>
        var h := IssuesEventHandler(ev, outcomes);
        (true, h.calls, h.err)
      case _ => (false, [], err);
    var err := dispatched.2;
    Response(dispatched.0, dispatched.1, if err.Some? then Some(Fprintln(err.value)) else None)
  }

  /** A failed validation neither stops the request nor reaches the
      response: only the payload it returns matters. */
  lemma ValidationErrorIgnored(eventType: string, payload: seq<bv8>, e1: Option<Error>, e2: Option<Error>,
                               parse: (string, seq<bv8>) -> Parsed, outcomes: CallOutcomes)
    ensures PayloadHandler(eventType, Validation(payload, e1), parse, outcomes)
         == PayloadHandler(eventType, Validation(payload, e2), parse, outcomes)
  {
  }

  /** For an `issues` event a parse error is masked: when the policy
      succeeds nothing is written, whatever parsing reported. */
  lemma ParseErrorMaskedForIssues(eventType: string, validation: Validation,
                                  parse: (string, seq<bv8>) -> Parsed, outcomes: CallOutcomes)
    requires IsIssues(parse(eventType, validation.payload))
    requires outcomes.editErr.None?
    ensures PayloadHandler(eventType, validation, parse, outcomes).written.None?
  {
  }

  /** End to end: a request reopens an issue exactly when it parses to an
      `issues` event that closed an issue with an unchecked item; it is then
      the issue named in the event that is commented on and reopened. */
  lemma ReopensExactlyOnClosedUnchecked(eventType: string, validation: Validation,
                                        parse: (string, seq<bv8>) -> Parsed, outcomes: CallOutcomes)
    ensures var p := parse(eventType, validation.payload);
      var r := PayloadHandler(eventType, validation, parse, outcomes);
      (exists i | 0 <= i < |r.calls| :: r.calls[i].Edit?)
        <==> IsIssues(p) && ClosedWithUncheckedBox(p.event.value.issues)
    ensures var p := parse(eventType, validation.payload);
      var r := PayloadHandler(eventType, validation, parse, outcomes);
      IsIssues(p) ==>
        var ev := p.event.value.issues;
        forall c | c in r.calls :: c.Target() == (ev.repo.owner.login, ev.repo.name, ev.issue.number)
  {
  }
}
