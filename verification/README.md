# github-checkbox-checker, modelled in Dafny

The program is a GitHub webhook endpoint. When an issue is closed while its
description still holds an unchecked task-list item (`- [ ]`), it posts a
comment that mentions the person who closed it, then reopens the issue.

Two pieces of `main.go` are modelled as pure functions. The GitHub API and the
webhook library are not called. Their outcomes are inputs instead.

- `Checker.IssuesEventHandler` models `issuesEventHandler`. It takes the
  event and the outcome of each API call. It returns the ordered trace of
  calls issued (`CreateComment`, then `Edit`) and the error returned.
- `Webhook.PayloadHandler` models `payloadHandler`. It takes the outcome of
  signature validation (payload and error), a parse function from the event
  type header and payload, and the API call outcomes. It returns whether the
  policy ran, the calls issued, and the text written to the response.
  The model follows `payloadHandler`'s single `err` variable: the parse error
  overwrites the validation error, and the policy's result overwrites the
  parse error.
- `Strings.Index` and `Strings.Contains` model Go's `strings.Index` and
  `strings.Contains`. Both are plain substring searches over `seq<char>`.
  `Index` returns a character position, where Go returns a byte offset; only
  its sign is used, by `Contains`.
  Their contracts are stated against a separate reference predicate,
  `Strings.Occurs`.

Files: `strings.dfy` (substring search), `github.dfy` (event records, edit
request, call trace entries, call outcomes), `checker.dfy` (the close policy),
`webhook.dfy` (the endpoint's error flow and dispatch).

Dispatch follows the type switch of main.go:78-81. The policy runs whenever the parsed
value is an `issues` event, whether or not parsing also reported an error. A
decoder can return an event together with an error. In that case the parse
error is replaced by the policy's result. It reaches the response only when no
`issues` event came back.

## Model

| member | source | states |
|---|---|---|
| Strings.Index | main.go:50 | the result is -1 or a position where the pattern occurs, and no earlier position holds an occurrence (first occurrence; -1 exactly when there is none) |
| Strings.Contains | main.go:50 | true exactly when the pattern occurs at some position of the text (reference predicate `Occurs`) |
| Strings.ContainsInfix | main.go:50 | a pattern placed anywhere in a text is found, whatever surrounds it: the search is not list-aware |
| Strings.ContainsExtend | main.go:50 | adding text before or after a text that contains the pattern keeps it contained |
| Checker.IssuesEventHandler | main.go:46-67 | any action other than "closed", or a description without "- [ ]", gives no calls and a nil error; otherwise exactly two calls, CreateComment with "@" + sender login + the fixed message, then Edit whose request sets only the state, to "open"; every call targets (owner login, repo name, issue number); the result is an error exactly when the policy acts and the edit fails, and it is that edit's error |
| Checker.CommentFailureSwallowed | main.go:54-62 | the comment call's outcome changes neither the trace nor the result, and the edit is still issued after a failed comment |
| Checker.MarkerAnywhereReopens | main.go:47-62 | a closed issue whose description is any text with "- [ ]" inside it gets the comment and then the reopen edit |
| Checker.ReminderText | main.go:55 | the comment is "@", then the sender's login, then a space that ends the mention, then the fixed message; its partner `ReminderAddressesSender` proves the mention parses back to the login |
| Checker.ReminderAddressesSender | main.go:55 | the comment opens with a mention that parses back to exactly the sender's login |
| Checker.UncheckedItemScenario | main.go:47-62 | issue 42 of acme/widgets closed by alice with "Tasks:\n- [ ] do thing\n- [x] done thing" gives a comment to "@alice" and an edit to state "open" on acme/widgets#42 |
| Checker.CheckedOnlyScenario | main.go:47-66 | the same issue closed with only "- [x] done thing" gives no calls and a nil error |
| Webhook.Fprintln | main.go:83 | the response line is the error's message followed by one newline |
| Webhook.PayloadHandler | main.go:69-85 | the policy runs exactly when the parsed value is an issues event; then the calls are the policy's, and text is written exactly when the policy returned an error (that error's line); otherwise no calls, and text is written exactly when parsing failed (the parse error's line) |
| Webhook.ValidationErrorIgnored | main.go:70-74 | the validation error never changes what happens: only the payload validation returns matters |
| Webhook.ParseErrorMaskedForIssues | main.go:74-84 | for an issues event whose policy succeeds nothing is written, even when parsing reported an error |
| Webhook.ReopensExactlyOnClosedUnchecked | main.go:46-85 | a request issues a reopen edit exactly when it parses to an issues event that closed an issue with "- [ ]" in its description, and every call it issues targets the issue named in that event |

## Left out

- Strings.Index: Go strings are UTF-8 bytes and the model's are characters. Containment and equality agree on valid UTF-8 text, positions do not.
- Signature checking inside `github.ValidatePayload` (main.go:70): library code. Only its returned payload and error are modelled.
- JSON decoding inside `github.ParseWebHook` (main.go:74): library code. It is an injected function from event type and payload to an event and an error.
- The REST calls `Issues.CreateComment` and `Issues.Edit` (main.go:54, main.go:59): network I/O. They are trace entries with an injected outcome.
- Client and context construction in `newGitHubWebHookHandler` (main.go:31-44): oauth2 and HTTP client wiring, no decision logic.
- Start-up in `main` (main.go:87-106): environment reads, route table and HTTP server.
- Logging to standard error (main.go:57, main.go:72, main.go:76): it has no effect on the result.
- Writes to `http.ResponseWriter` (main.go:83): the response is the optional text written. The status code is always the default.
- Nil `Repo`: main.go:51 dereferences `event.Repo` by selecting `Owner`, so a closed event with `- [ ]` and no repository panics. The model always has a repository. The other absent records read as "" or 0 through go-github's accessors, which the model's field values already cover.
- `IssueRequest` fields other than title, body, assignee, state and milestone: `issuesEventHandler` sets none of them.
- Checker.ReminderAddressesSender: holds only for logins without spaces or line breaks. GitHub logins never contain them, and main.go does not check this.
