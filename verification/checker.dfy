/**
 The checkbox policy applied to every `issues` event: an issue that is closed
 while its description still holds an unchecked task-list item is reopened,
 and the person who closed it is told why.

 The two API calls are not performed here: the handler returns the calls it
 issues, in order, and takes each call's outcome as an input.
 */
module Checker {
  import opened GitHub
  import opened Strings

  /** The only action the policy reacts to. */
  const ClosedAction := "closed"

  /** The markdown token of an unchecked task-list item. */
  const UncheckedMarker := "- [ ]"

  /** The state the issue is put back into. */
  const OpenState := "open"

  /** The fixed part of the comment, following the mention of the sender. */
  const ReminderMessage := " " + "This issue has non-checked checkbox in Description yet.\nPlease try to close this issue after checking all the checkboxes."

  /** What the handler did: the API calls it issued, in order, and the error
      it returned (`None` for nil). */
  datatype HandlerResult = HandlerResult(calls: seq<Call>, err: Option<Error>)

  /** Reference statement of the trigger: the issue was closed and its
      description holds the unchecked marker somewhere. */
  ghost predicate ClosedWithUncheckedBox(ev: IssuesEvent)
  {
    ev.action == ClosedAction && Occurs(ev.issue.body, UncheckedMarker)
  }

  /** The comment posted on the issue, addressed to `login`. */
  function ReminderText(login: string): (text: string)
    ensures |text| > |login| + 1 && text[0] == '@'
    ensures text[1..|login| + 1] == login
    ensures text[|login| + 1] == ' '
    ensures text[|login| + 1..] == ReminderMessage
  {
    "@" + login + ReminderMessage
  }

  /** An edit request that changes the state to open and nothing else. */
  const ReopenRequest := IssueRequest(None, None, None, Some(OpenState), None)

  /** The policy itself. The comment's outcome is ignored
      (`issuesEventHandler` only logs a failure); the edit's outcome is the handler's result. */
  function IssuesEventHandler(ev: IssuesEvent, outcomes: CallOutcomes): (r: HandlerResult)
    ensures ev.action != ClosedAction ==> r == HandlerResult([], None)
    ensures !Occurs(ev.issue.body, UncheckedMarker) ==> r == HandlerResult([], None)
    ensures ClosedWithUncheckedBox(ev) ==>
      && |r.calls| == 2
      && r.calls[0].CreateComment?
      && r.calls[0].comment == "@" + ev.sender.login + ReminderMessage
      && r.calls[1].Edit?
      && r.calls[1].request == IssueRequest(None, None, None, Some("open"), None)
    ensures forall c | c in r.calls :: c.Target() == (ev.repo.owner.login, ev.repo.name, ev.issue.number)
    ensures r.err.Some? <==> ClosedWithUncheckedBox(ev) && outcomes.editErr.Some?
    ensures r.err.Some? ==> r.err == outcomes.editErr
  {
    if ev.action == ClosedAction then
      var body := ev.issue.body;
      if Contains(body, UncheckedMarker) then
        var owner := ev.repo.owner.login;
        var repo := ev.repo.name;
        var number := ev.issue.number;
        var comment := CreateComment(owner, repo, number, ReminderText(ev.sender.login));
        var edit := Edit(owner, repo, number, ReopenRequest);
        match outcomes.editErr
        case Some(e) => HandlerResult([comment, edit], Some(e))
        case None => HandlerResult([comment, edit], None)
      else
        HandlerResult([], None)
    else
      HandlerResult([], None)
  }

  /** A failed comment neither stops the edit nor changes the result: the
      handler behaves the same whatever the comment call returned. */
  lemma CommentFailureSwallowed(ev: IssuesEvent, c1: Option<Error>, c2: Option<Error>, e: Option<Error>)
    ensures IssuesEventHandler(ev, CallOutcomes(c1, e)) == IssuesEventHandler(ev, CallOutcomes(c2, e))
    ensures ClosedWithUncheckedBox(ev) ==> IssuesEventHandler(ev, CallOutcomes(Some(Error("")), e)).calls[1].Edit?
  {
  }

  /** The marker triggers the policy wherever it stands in the description,
      inside a list or not. */
  lemma {:induction false} MarkerAnywhereReopens(ev: IssuesEvent, pre: string, post: string, outcomes: CallOutcomes)
    requires ev.action == ClosedAction
    requires ev.issue.body == pre + UncheckedMarker + post
    ensures IssuesEventHandler(ev, outcomes).calls ==
      [ CreateComment(ev.repo.owner.login, ev.repo.name, ev.issue.number, ReminderText(ev.sender.login)),
        Edit(ev.repo.owner.login, ev.repo.name, ev.issue.number, ReopenRequest) ]
  {
    ContainsInfix(pre, UncheckedMarker, post);
  }

  /** Splits a mention off the front of a text: the login runs up to the
      first space or line break. */
  function TakeLogin(s: string): string
  {
    if |s| == 0 || s[0] == ' ' || s[0] == '\n' then [] else [s[0]] + TakeLogin(s[1..])
  }

  /** The login a comment is addressed to, when it opens with a mention. */
  function MentionedLogin(text: string): Option<string>
  {
    if |text| > 0 && text[0] == '@' then Some(TakeLogin(text[1..])) else None
  }

  /** A GitHub login holds neither spaces nor line breaks. */
  predicate IsLogin(login: string)
  {
    forall i | 0 <= i < |login| :: login[i] != ' ' && login[i] != '\n'
  }

  lemma {:induction false} TakeLoginPrefix(login: string, rest: string)
    requires IsLogin(login)
    requires |rest| > 0 && rest[0] == ' '
    ensures TakeLogin(login + rest) == login
    decreases |login|
  {
    if |login| == 0 {
      assert login + rest == rest;
    } else {
      assert (login + rest)[1..] == login[1..] + rest;
      TakeLoginPrefix(login[1..], rest);
    }
  }

  /** The reminder is addressed to exactly the sender of the event. */
  lemma {:induction false} ReminderAddressesSender(login: string)
    requires IsLogin(login)
    ensures MentionedLogin(ReminderText(login)) == Some(login)
  {
    var text := ReminderText(login);
    assert text[1..] == login + ReminderMessage;
    assert ReminderMessage[0] == ' ';
    TakeLoginPrefix(login, ReminderMessage);
  }

  /** Worked case: a description with one unchecked and one checked item. */
  lemma {:induction false} UncheckedItemScenario(outcomes: CallOutcomes)
    ensures
      var ev := IssuesEvent("closed", Issue(42, "Tasks:\n- [ ] do thing\n- [x] done thing"),
                            Repository(User("acme"), "widgets"), User("alice"));
      IssuesEventHandler(ev, outcomes).calls ==
        [ CreateComment("acme", "widgets", 42, "@alice" + ReminderMessage),
          Edit("acme", "widgets", 42, IssueRequest(None, None, None, Some("open"), None)) ]
  {
    assert "Tasks:\n- [ ] do thing\n- [x] done thing" == "Tasks:\n" + UncheckedMarker + " do thing\n- [x] done thing";
    ContainsInfix("Tasks:\n", UncheckedMarker, " do thing\n- [x] done thing");
    assert ReminderText("alice") == "@alice" + ReminderMessage;
  }

  /** Worked case: a description whose only item is checked. */
  lemma {:induction false} CheckedOnlyScenario(outcomes: CallOutcomes)
    ensures
      var ev := IssuesEvent("closed", Issue(42, "- [x] done thing"),
                            Repository(User("acme"), "widgets"), User("alice"));
      IssuesEventHandler(ev, outcomes) == HandlerResult([], None)
  {
    var body := "- [x] done thing";
    assert body[0..5] != UncheckedMarker by { assert body[3] == 'x'; }
    forall i | 1 <= i <= 11
      ensures body[i] != '-'
    {
    }
    forall i | 0 <= i
      ensures !OccursAt(body, UncheckedMarker, i)
    {
      if 1 <= i <= 11 {
        assert body[i..i + 5][0] == body[i];
      }
    }
  }
}
