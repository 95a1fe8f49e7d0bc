# Outreach dispatch engine — a Dafny model

This project models the decision logic of the outreach backend, a service that
runs e-mail and LinkedIn campaigns over the contacts of a campaign. For each
contact it reads the contact and campaign records from a REST backend. It
works out the address (an e-mail address or a LinkedIn profile URL), renders
the message and checks a ledger of earlier outreach. Then it sends, or only
drafts, the message and records the send in the ledger, pausing for a random
time between sends.

Every external effect becomes either an oracle or an entry in a trace:

- HTTP GETs, Gmail, the ledger's "already contacted?" query, the operator's
  login and the browser's page observations live in a `World` or `Browser`
  value.
- Each operation returns the ordered trace of `Effect`s it caused: fetches,
  ledger checks, mails, ledger entries, pauses, page visits, clicks, typing and
  the send key press.

Properties are then stated about those traces. Examples: what is logged, when,
and how often; that nothing is pressed in draft mode; where the pauses fall.

Modules, one per source file plus shared ones:

- `Text` — Python string helpers: `strip`, case mapping, `in`, `replace`,
  `split`/`join`.
- `Values` — loosely typed JSON records (`map<string, Value>`), with Python
  truthiness, `or`, `dict.get` and `str()`.
- `Backend` — the world the service talks to:
  - the effects and their counts;
  - the backend URLs;
  - the method codes of `config.py`;
  - the choice of the pause length.
- `ApiClient` — `api_client.py`: contact pagination, the e-mail subject and
  body, and the LinkedIn message text.
- `EmailSender` — `email_sender.py`: address lookup, HTML personalisation,
  `send_to_contact`, and `run_campaign` with its pauses.
- `LinkedInSender` — `linkedIn_sender.py`:
  - login detection;
  - first-name extraction;
  - profile-URL lookup;
  - message personalisation;
  - the `send_message` session (login, button scan, editor scan, typing, the
    send gate);
  - `send_to_contact` and `run_campaign`.
- `OutreachMain` — `main.py`: the `/run_campaign` route, the two renderers,
  and `run_email` / `run_linkedin`.

The page the browser shows is a set of answers keyed by position. `matches(i)`
is what the `i`-th message selector finds, and `editors(i)` what the `i`-th
editor selector finds, in the order of the source's lists. The selectors in
each list are distinct, so position and selector text name the same element.

Loops in the source are `method`s with loop invariants. Examples: the
pagination walk, the login polling, the selector scans, and the three campaign
loops. Each is proved equal to a specification function, and the properties
are proved about that function. Python exceptions are a `Result` with an
`Error` kind. Integers are unbounded, as in Python.

## Model

| member | source | states |
|---|---|---|
| Backend.RouteCode | outreach-backend/main.py:22-30 | code 2 routes to e-mail and only 2; code 4 routes to LinkedIn and only 4; every other value routes nowhere |
| Backend.CodesDisagree | outreach-backend/config.py:14-15 | the configured LinkedIn code (1) is not a code the route accepts; the configured e-mail code (2) routes to e-mail; no LinkedIn-routed value equals the configured LinkedIn code |
| Backend.JitterDelay | outreach-backend/email_sender.py:54-57 | a delay drawn from the inclusive range [min, max]; a ValueError exactly when the range is empty or the delay would be negative |
| Backend.JitterCovers | outreach-backend/email_sender.py:54-57 | every delay in the range is chosen by some draw |
| Backend.Fetch | outreach-backend/api_client.py:8-11 | a GET succeeds exactly when the URL is served, returns that page, and otherwise raises an HTTP error |
| Backend.GetCampaign | outreach-backend/api_client.py:13-15 | the campaign lookup answers exactly when the campaign's URL is served, with the JSON served there, and otherwise raises an HTTP error |
| Backend.GetContact | outreach-backend/api_client.py:30-32 | the contact lookup answers exactly when the contact's URL is served, with the JSON served there, and otherwise raises an HTTP error |
| Backend.UrlsDistinct | outreach-backend/api_client.py:13-32 | ids with different text have different campaign URLs and different contact URLs, and no campaign URL is a contact URL, so no lookup reads another one's answer |
| ApiClient.GetCampaignContacts | outreach-backend/api_client.py:17-28 | the loop that follows `next` links returns what the crawl specification gives |
| ApiClient.CrawledChain | outreach-backend/api_client.py:22-28 | for a chain of pages linked by `next` and ending in a falsy `next`, the result is the concatenated `results` of every page, in fetch order |
| ApiClient.PageResults | outreach-backend/api_client.py:26-27 | a page without `results` contributes nothing; a page that is not an object raises |
| ApiClient.CrawledFuel | outreach-backend/api_client.py:24-27 | once the walk ends, more fuel does not change its result |
| ApiClient.Subject | outreach-backend/api_client.py:41 | the subject is `email_subject`, else `name`, else "Outreach Campaign", and never falsy |
| ApiClient.EmailContentOf | outreach-backend/api_client.py:34-49 | a truthy non-string body raises an attribute error, and only such a body does; otherwise the subject is the record's subject |
| ApiClient.WrapIffNotDocument | outreach-backend/api_client.py:42-47 | the body is wrapped in `<html><body><p>…</p></body></html>` exactly when its stripped, lower-cased form does not start with `<!doctype` |
| ApiClient.EmptyBodyParagraph | outreach-backend/api_client.py:42-47 | a falsy body gives the wrapping of the empty text, an empty paragraph |
| ApiClient.HtmlBodyStillWrapped | outreach-backend/api_client.py:42-47 | every body starting with `<html>` is not a document and is wrapped all the same |
| ApiClient.HtmlTagIsNotDocument | outreach-backend/api_client.py:42-47 | any text starting with `<h` fails the doctype test, whatever whitespace follows it |
| ApiClient.GetCampaignEmailContent | outreach-backend/api_client.py:34-49 | a failed campaign fetch raises an HTTP error; a non-object campaign raises an attribute error; otherwise the result is the content of the record |
| ApiClient.FirstUsable | outreach-backend/api_client.py:59-62 | nothing exactly when no listed field is a non-blank string; otherwise a non-empty, stripped text |
| ApiClient.FirstUsableAt | outreach-backend/api_client.py:59-62 | the first usable field in priority order wins, stripped |
| ApiClient.CollapseSingleSpaced | outreach-backend/api_client.py:65-73 | after collapsing, no two adjacent characters are both whitespace |
| ApiClient.StripTags | outreach-backend/api_client.py:70 | no `<[^>]+>` match is left (every `<` is followed at once by `>` or by no `>`), and a text without `<` comes back unchanged |
| ApiClient.DerivedShape | outreach-backend/api_client.py:65-73 | text derived from the e-mail body has no leading or trailing whitespace and no whitespace run |
| ApiClient.MessageTextOf | outreach-backend/api_client.py:51-80 | the message is the first usable field, else the derived body text when non-empty, else the default message; it is never empty and always stripped |
| ApiClient.GetCampaignMessageText | outreach-backend/api_client.py:51-80 | fetch failures raise, an object campaign gives its message text, and a returned text is never empty |
| EmailSender.EmailFromContact | outreach-backend/email_sender.py:90-103 | raises a ValueError exactly when none of `email`, `email_address`, `primary_email`, `work_email` is a string with "@"; a result contains "@" and is stripped |
| EmailSender.FirstAddressAt | outreach-backend/email_sender.py:93-103 | the first qualifying field in that order wins, stripped |
| EmailSender.Fill | outreach-backend/email_sender.py:114-124 | a falsy value leaves the text unchanged; a truthy non-string raises a TypeError |
| EmailSender.FillPlaceholder | outreach-backend/email_sender.py:114-124 | a text that is just one placeholder becomes the non-empty value filled in |
| EmailSender.PersonalizeHtml | outreach-backend/email_sender.py:105-126 | raises exactly when a truthy name part is not a string, and then with a TypeError |
| EmailSender.PersonalizeWithoutPlaceholders | outreach-backend/email_sender.py:105-126 | a body with no placeholder comes back unchanged |
| EmailSender.DoubleBraceFirstName | outreach-backend/email_sender.py:112-124 | "{{first_name}}" becomes exactly the first name, because double braces are replaced first |
| EmailSender.NoNameNoChange | outreach-backend/email_sender.py:114-124 | with empty first, last and full names every placeholder is left in place |
| EmailSender.NullFirstNameInFullName | outreach-backend/email_sender.py:112-113 | a null first name appears as "None" in the full name ("None Smith") |
| EmailSender.FullName | outreach-backend/email_sender.py:110-112 | the full name has no whitespace at either end |
| EmailSender.FullNameParts | outreach-backend/email_sender.py:110-112 | the full name is "first last" when both names are non-empty and trimmed, and just the one name, without the space, when the other is empty |
| EmailSender.FillSubstitutes | outreach-backend/email_sender.py:114-124 | a value that is non-empty, has no brace and is not itself a piece of `{key}` leaves neither `{key}` nor `{{key}}` in the filled text |
| EmailSender.FillKeeps | outreach-backend/email_sender.py:114-124 | filling one key leaves every placeholder of another key in place, whatever the value: the filled text holds at least as many `{other}` as before, so at least one when there was one |
| EmailSender.PlaceholdersApart | outreach-backend/email_sender.py:114-124 | occurrences of the placeholders of two different keys, single- or double-braced, never share a character |
| EmailSender.FillAddsNone | outreach-backend/email_sender.py:114-124 | a value that is safe for a pattern creates no occurrence of it |
| EmailSender.EmptyLastNameKept | outreach-backend/email_sender.py:110-124 | an empty or missing last name leaves every `{last_name}` in the personalised body: it holds at least as many as the template |
| EmailSender.EmptyFirstNameKept | outreach-backend/email_sender.py:110-124 | an empty or missing first name leaves every `{first_name}` in the personalised body: it holds at least as many as the template |
| EmailSender.FirstNameOnly | outreach-backend/email_sender.py:110-124 | with a safe first name and an empty last name, the first-name step leaves no first-name placeholder and every `{last_name}` reaches the personalised body (at least as many as the template holds) |
| EmailSender.LastNameFilled | outreach-backend/email_sender.py:110-124 | when the last name and the full name filled in after it are safe for `{last_name}`, the personalised body has no `{last_name}` and no `{{last_name}}` |
| EmailSender.FirstNameFilled | outreach-backend/email_sender.py:110-124 | when the first name and each name filled in after it are safe for `{first_name}`, the personalised body has no `{first_name}` and no `{{first_name}}` |
| EmailSender.FullNameFilled | outreach-backend/email_sender.py:110-124 | a full name that is safe for `{full_name}` leaves neither `{full_name}` nor `{{full_name}}` in the personalised body |
| EmailSender.Delivery | outreach-backend/email_sender.py:205-222 | the trace starts with the send; the attempt reports success exactly when Gmail accepts; the ledger entry follows only an accepted send and records what was sent |
| EmailSender.Attempted | outreach-backend/email_sender.py:172-228 | every attempt starts with the ledger check, never pauses, mails at most once, logs exactly when it reports a send, and then logs last, right after the accepted mail |
| EmailSender.AlreadyContacted | outreach-backend/email_sender.py:186-188 | a contact already in the ledger, or a ledger check that raises, ends the attempt with false after the check alone, with no fetch and no send |
| EmailSender.SendToContact | outreach-backend/email_sender.py:172-228 | the method's result and trace are those of the attempt specification |
| EmailSender.SendAll | outreach-backend/email_sender.py:266-276 | the contact loop's count and trace are those of the campaign-loop specification |
| EmailSender.SendsSucceeds | outreach-backend/email_sender.py:266-282 | with a valid pause range the count is the number of contacts whose attempt reported success |
| EmailSender.SendsPauses | outreach-backend/email_sender.py:274-276 | the loop pauses once between each pair of contacts and never after the last |
| EmailSender.SendsCount | outreach-backend/email_sender.py:266-282 | with a workable pause range the loop returns the number of successful attempts and pauses `len - 1` times, or never for no contacts |
| EmailSender.CampaignCounts | outreach-backend/email_sender.py:230-282 | the run returns at most one success per contact; it pauses `len - 1` times for a non-empty list and never for an empty one |
| EmailSender.RunCampaign | outreach-backend/email_sender.py:230-282 | the method's result and trace are those of the campaign specification; a failed campaign or content fetch returns 0 with no mail sent |
| LinkedInSender.Scan | outreach-backend/linkedIn_sender.py:55-63 | false exactly when every indicator counts zero; true only when some indicator counts above zero |
| LinkedInSender.IsLoggedIn | outreach-backend/linkedIn_sender.py:51-77 | a present indicator means logged in before the URL is looked at; with no indicator, a lower-cased URL decides: "login" or "challenge" gives false, else "/in/" gives true |
| LinkedInSender.IndicatorWins | outreach-backend/linkedIn_sender.py:55-63 | the first indicator found with a positive count makes the page logged in, whatever the URL |
| LinkedInSender.ExtractFirstName | outreach-backend/linkedIn_sender.py:126-147 | the result is "there" or a non-empty, capitalised, stripped token with no digit and none of `-_.+` |
| LinkedInSender.ExtractPaul | outreach-backend/linkedIn_sender.py:131-145 | `https://www.linkedin.com/in/paul-bryzek/` gives "Paul" |
| LinkedInSender.FirstProfileLink | outreach-backend/linkedIn_sender.py:158-161 | nothing exactly when none of `linkedin_url`, `profile_url`, `url` is an http link containing "linkedin.com" |
| LinkedInSender.LinkedInUrlFromContact | outreach-backend/linkedIn_sender.py:149-169 | every result starts with "http"; it raises a ValueError exactly when no field qualifies |
| LinkedInSender.LinkedInFieldFirst | outreach-backend/linkedIn_sender.py:152-155 | an http `linkedin` field wins over every other field |
| LinkedInSender.ProfileFieldNext | outreach-backend/linkedIn_sender.py:156-161 | otherwise the first qualifying profile field wins, and its value contains "linkedin.com" |
| LinkedInSender.SocialsShadowing | outreach-backend/linkedIn_sender.py:162-169 | a truthy but unusable `socials.linkedin` hides a good `socials.linkedin_url`, and the lookup raises |
| LinkedInSender.PersonalizeMessage | outreach-backend/linkedIn_sender.py:171-175 | with no placeholder the result is "Hi " + name + " — " + base; it raises only when there is a placeholder and the name is not a string |
| LinkedInSender.PlaceholdersReplaced | outreach-backend/linkedIn_sender.py:173-175 | with a placeholder every "{first_name}" is replaced, with no prefix added, and none is left |
| LinkedInSender.DoubleBraceKeepsBraces | outreach-backend/linkedIn_sender.py:173-175 | "{{first_name}}" ends up as "{name}" |
| LinkedInSender.LoginSeenIff | outreach-backend/linkedIn_sender.py:79-124 | the wait succeeds exactly when some poll within the time limit shows a logged-in page |
| LinkedInSender.WaitForLogin | outreach-backend/linkedIn_sender.py:79-124 | the polling loop answers as the login specification does |
| LinkedInSender.FirstVisible | outreach-backend/linkedIn_sender.py:286-312 | the first visible element in list order; nothing exactly when none is visible |
| LinkedInSender.SelectorScan | outreach-backend/linkedIn_sender.py:286-312 | the first selector, in list order, whose matches include a visible button wins, with that button; every earlier selector showed none; nothing exactly when no selector shows one |
| LinkedInSender.FindBySelector | outreach-backend/linkedIn_sender.py:286-312 | the selector loop, with its inner loop over the matches and its break on the first visible one, finds what the selector scan names |
| LinkedInSender.TextScan | outreach-backend/linkedIn_sender.py:313-328 | the fallback picks the first button whose text reads "message" |
| LinkedInSender.FindByText | outreach-backend/linkedIn_sender.py:313-328 | the fallback loop returns the first button the text scan names |
| LinkedInSender.ButtonFound | outreach-backend/linkedIn_sender.py:286-330 | a selector match takes precedence over the text fallback |
| LinkedInSender.FindMessageButton | outreach-backend/linkedIn_sender.py:286-330 | the scanning loops find the button the specification names |
| LinkedInSender.EditorScan | outreach-backend/linkedIn_sender.py:366-394 | the first editor selector that is visible; nothing exactly when none is |
| LinkedInSender.FindEditor | outreach-backend/linkedIn_sender.py:366-394 | the editor loop finds the editor the specification names |
| LinkedInSender.Opening | outreach-backend/linkedIn_sender.py:205-273 | opening the profile makes only visits and session saves, and visits the profile first |
| LinkedInSender.Delivering | outreach-backend/linkedIn_sender.py:286-433 | no button exactly when none is found; click only on a found button; the send key is pressed exactly when the outcome is Sent, and only in send mode; a draft ends after click and typing |
| LinkedInSender.Deliver | outreach-backend/linkedIn_sender.py:286-433 | the method's outcome and trace are those of the delivery specification |
| LinkedInSender.MessageSession | outreach-backend/linkedIn_sender.py:179-455 | the session makes browser calls only, and its first call visits the profile |
| LinkedInSender.SendMessage | outreach-backend/linkedIn_sender.py:179-455 | the method's result and trace are those of the session specification |
| LinkedInSender.SendOnlyWhenAsked | outreach-backend/linkedIn_sender.py:418-433 | the send key is pressed exactly when the message is sent, and only when `actually_send` is true |
| LinkedInSender.NoButtonNoMessage | outreach-backend/linkedIn_sender.py:330-337 | without a message button the session only visits and saves; it neither sends nor drafts |
| LinkedInSender.LoginSavesSession | outreach-backend/linkedIn_sender.py:215-258 | after a manual login the session is saved before the message part begins |
| LinkedInSender.LoginOpening | outreach-backend/linkedIn_sender.py:215-258 | a manual login that leads back to a logged-in profile opens it with two visits and then the session save |
| LinkedInSender.OpenedSession | outreach-backend/linkedIn_sender.py:179-455 | once the profile is open, the session returns the message part's outcome, and its calls are the opening's followed by the message part's |
| LinkedInSender.NoLoginNoMessage | outreach-backend/linkedIn_sender.py:215-258 | a login that does not come in time ends the session as not logged in, after the first visit |
| LinkedInSender.Prepare | outreach-backend/linkedIn_sender.py:475-488 | one or two fetches; a ready message means both fetches happened and its URL starts with "http" |
| LinkedInSender.ClosedLogs | outreach-backend/linkedIn_sender.py:491-505 | a session of browser calls followed by the ledger step writes at most one entry; it writes one exactly in send mode when the session returned, as the last call, and the ledger is never consulted |
| LinkedInSender.ClosingLogs | outreach-backend/linkedIn_sender.py:491-505 | after the session at most one ledger entry is written; it is written exactly in send mode when the session returned, and it is the last call |
| LinkedInSender.SendToContact | outreach-backend/linkedIn_sender.py:458-510 | the method's trace is that of the per-contact specification |
| LinkedInSender.DraftLeavesNoTrace | outreach-backend/linkedIn_sender.py:468-505 | draft mode neither consults the ledger, writes to it, nor presses send |
| LinkedInSender.AlreadyMessaged | outreach-backend/linkedIn_sender.py:468-473 | in send mode an already messaged contact gets the ledger check and nothing else |
| LinkedInSender.LoggedWithoutSending | outreach-backend/linkedIn_sender.py:494-505 | in send mode a profile with no message button is still logged as messaged, although nothing was pressed |
| LinkedInSender.LoggedLast | outreach-backend/linkedIn_sender.py:458-510 | at most one ledger entry per contact, only in send mode, written last and carrying the prepared message |
| LinkedInSender.RunCampaign | outreach-backend/linkedIn_sender.py:512-539 | processes every id in order, each with its own browser session; the calls are those of the contacts one after another, and the processed count equals the number of ids |
| LinkedInSender.TurnsLog | outreach-backend/linkedIn_sender.py:512-539 | each contact's turn writes at most one ledger entry, and none in draft mode |
| LinkedInSender.JoinedLogs | outreach-backend/linkedIn_sender.py:512-539 | turns that each write at most `m` ledger entries write at most `n * m` when joined |
| LinkedInSender.DraftCampaignLogsNothing | outreach-backend/linkedIn_sender.py:512-539 | a draft campaign writes no ledger entry |
| LinkedInSender.CampaignLogsAtMostOnce | outreach-backend/linkedIn_sender.py:512-539 | a send campaign writes at most one ledger entry per contact |
| OutreachMain.RouteRequest | outreach-backend/main.py:17-30 | code 2 starts only the e-mail runner and code 4 only the LinkedIn runner, each with its reply; any other code starts nothing and replies "Invalid contact method" |
| OutreachMain.ConfiguredLinkedInCodeRejected | outreach-backend/main.py:22-30 | a request carrying the configured LinkedIn code starts nothing |
| OutreachMain.RenderEmail | outreach-backend/main.py:32-49 | returns the campaign's stored `email_subject` and `email_body` unchanged |
| OutreachMain.RenderEmailIgnoresContact | outreach-backend/main.py:32-49 | the rendered e-mail is the same for every contact |
| OutreachMain.RenderLinkedInParts | outreach-backend/main.py:52-57 | the text reads as the fixed template with the first name and campaign name inserted, and nothing else |
| OutreachMain.RenderLinkedIn | outreach-backend/main.py:52-57 | the message is as long as the fixed template plus the first name and the campaign name |
| OutreachMain.NullFirstNameGreeting | outreach-backend/main.py:52-57 | a null first name is greeted as "Hi None" |
| OutreachMain.RowContact | outreach-backend/main.py:78 | `row["contact"]` raises a TypeError on a non-object row and a KeyError on a missing key |
| OutreachMain.Address | outreach-backend/main.py:79 | the address (`email`, or for LinkedIn `linkedin` then `linkedin_url` as at lines 104-105) is stripped; a non-string field raises an AttributeError |
| OutreachMain.AddressPriority | outreach-backend/main.py:104-105 | the LinkedIn address is read from `linkedin` when that is truthy, else from `linkedin_url`, else it is ""; the e-mail address (line 79) from `email`, else "" |
| OutreachMain.Contact | outreach-backend/main.py:78 | the contact lookup raises an HTTP error exactly when the GET does; a contact comes from an object or from a falsy answer |
| OutreachMain.ContactCases | outreach-backend/main.py:78-79 | a falsy answer reads as the empty record, an object as its fields, and any other truthy answer raises an AttributeError at the first `.get` |
| OutreachMain.RowCases | outreach-backend/main.py:77-87 | a row crashes exactly when its id, contact or address raises; it is skipped exactly when the address is empty; otherwise it fetches the contact and makes one send call |
| OutreachMain.SkippedIffBlank | outreach-backend/main.py:78-83 | a row is skipped exactly when the contact's address field is all whitespace |
| OutreachMain.HandleRow | outreach-backend/main.py:77-87 | the per-row step does what the row specification says |
| OutreachMain.RowsCount | outreach-backend/main.py:74-88 | a loop that returns counts every row that was not skipped; its count equals the send calls made and the pauses taken |
| OutreachMain.RowsPaced | outreach-backend/main.py:84-87 | every send call is followed at once by a pause, and every pause follows a send call, so the last send is also followed by one |
| OutreachMain.EndAt | outreach-backend/main.py:74-88 | the precomputed outcome of each row, in order, is the row specification's |
| OutreachMain.RowCrashed | outreach-backend/main.py:77-80 | a row that raises has made at most the contact fetch |
| OutreachMain.Turn | outreach-backend/main.py:77-87 | one turn stops the runner exactly where the loop specification raises, and otherwise hands on the count and calls it leaves |
| OutreachMain.RunRows | outreach-backend/main.py:77-88 | the row loop's count and trace are those of the loop specification |
| OutreachMain.RunEmail | outreach-backend/main.py:66-88 | `run_email` fetches the e-mail rows of the campaign id, then runs the row loop |
| OutreachMain.RunLinkedIn | outreach-backend/main.py:91-115 | `run_linkedin` does the same for the LinkedIn rows |
| OutreachMain.RunnerCount | outreach-backend/main.py:66-115 | a returning runner counts the rows not skipped, made exactly that many send calls and pauses, and paused after each send |
| OutreachMain.LinkedInRowFlagged | outreach-backend/main.py:104-112 | a LinkedIn row makes no e-mail send, and its send call carries the caller's flag |
| OutreachMain.LinkedInFlagPassed | outreach-backend/main.py:112 | every LinkedIn send call carries the caller's `actually_send` flag |
| OutreachMain.DefaultPausesInRange | outreach-backend/config.py:17-18 | with the default range every pause lasts between 1500 and 3500 ms |

## Left out

- Playwright browser control is reduced to observations and recorded calls. Left out: hovering, the JavaScript click fallback, scrolling, clipboard paste and `press_sequentially`, and the `wait_for_selector` timeouts.
- `storage_state` file I/O is left out. `SessionSaved` is the attempt to save; a save failure is swallowed in the source and changes nothing else.
- Wall-clock time is left out: sleeps, float delays and the random pause between typing and sending. A pause is recorded as `Slept(ms)`, and only the length chosen is modelled.
- The `input()` pauses for the operator are assumed to return, as if the operator pressed ENTER. `KeyboardInterrupt` and `EOFError` are not modelled.
- Gmail OAuth, token refresh and MIME encoding are left out. A send is the `mail` oracle's answer.
- HTTP is a map from URL to JSON value. Headers, status codes and timeouts are not modelled, and any failure is one HTTP error.
- `check_if_already_contacted` and `log_contact_outreach` are called but not defined in `api_client.py`. They are the `contacted` oracle and the `Logged` entries. Every caller swallows a logging failure, so a failed log is not modelled separately.
- `main.py` uses names that do not exist in the repository: `app`, `send_email_campaign`, `send_linkedin_campaign`, `send_email_gmail` and `send_linkedin_message`. The route's effect is modelled as which runner it starts. The two send calls are `DispatchedEmail` / `DispatchedLinkedIn` effects, taken to return normally.
- `main.py`'s `run()` entry point, `linkedIn_sender.py`'s `_ensure_dir`, the environment loading in `config.py`, `csv_client.py`, `utils.py` and the setup and test scripts are not part of this model. The same goes for `run_campaign_emails_for_contacts`, which only forwards to `run_campaign`.
- OutreachMain.RouteRequest: a float code such as `2.0` compares equal to `2` in Python. In this model it is an other-kind value and routes nowhere.
- ApiClient.PageResults: a page whose `results` is an object raises a TypeError in this model. Python would extend the list with the object's keys.
- ApiClient.GetCampaignContacts: the walk is bounded by a ghost fuel argument that must cover the chain of `next` links. A cyclic chain, on which the source loops forever, is excluded by the precondition.
- OutreachMain.RunEmail, OutreachMain.RunLinkedIn, OutreachMain.Runner: the page fetches made by `get_campaign_contacts` are not part of the runner's trace. Only the rows it returns are.
- LinkedInSender.Delivering: an editor's visibility is taken to be the same when it is searched for and when it is checked again.
- LinkedInSender.ExtractFirstName: `Text.RemoveDigits` removes ASCII digits only, and `Text.Capitalize` changes the case of ASCII letters only. Python's `\d` also matches other Unicode digits, so a handle like `٣paul-x` keeps its `٣` here. `str.capitalize` also cases letters outside ASCII and can change the length (`ß` becomes `Ss`), so `élodie-x` gives `élodie` here rather than `Élodie`.
- Text.Lower: case mapping covers ASCII letters only. Every literal that the source lower-cases and compares against is ASCII.
- The LinkedIn `run_campaign` uses one browser session per contact, given by a function of the contact's position, and takes no pause between contacts, as in the source.
