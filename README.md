# Task/issue synchronisation and identity demo — a Dafny model

This project models two programs from the website repository.

The first is the pair of scripts that keep a Notion "Dev Tasks" database and
GitHub issues in step:

- `github-to-notion.js` handles one issue event (number, title, URL, action).
  It creates the task that mirrors the issue. If a task already carries the
  issue's number, it updates the first such task instead. If the issue was
  deleted and there is no task, it does nothing.
- `notion-to-github.js` handles at most ten tasks per run that have no GitHub
  Issue ID. For each, in query order, it creates an issue and then writes the
  issue's number and URL back into the task. The first failing call ends the run.

The second program is the browser side of the identity demo:

- `agent.js` keeps a list of identities and an active one. It validates the
  birthdate and country inputs and sends them to the server. It stores the
  proof the server returns and exports the identity.
- `verifier.js` checks the two pasted JSON texts. It picks the identity id,
  unwraps the proof and builds the verification request.

Layout:

| file | module | content |
|---|---|---|
| `Common.dfy` | `Common` | `Option`, `Result`, exit status |
| `Json.dfy` | `Json` | parsed JSON values, truthiness, `typeof`, property access |
| `NotionStore.dfy` | `NotionStore` | pages and their properties, query filters, update-page merging; the class `TaskTable` |
| `GithubToNotion.dfy` | `GithubToNotion` | the issue-to-task decision and the script as a method |
| `NotionToGithub.dfy` | `NotionToGithub` | title, status and body of an issue; the class `IssueStore`; the batch loop |
| `Dates.dfy` | `Dates` | `Date.UTC` normalisation, the calendar round trip, `calculateAge` |
| `Validation.dfy` | `Validation` | `trim`, `toUpperCase`, the birthdate and country validators |
| `Agent.dfy` | `Agent` | identity records and the class `IdentityState` with the page's handlers |
| `Verifier.dfy` | `Verifier` | the verifier's checks and request |
| `Handoff.dfy` | `Handoff` | an identity exported by the agent passes the verifier's checks exactly when its id is non-empty |

Modelling decisions:

- **The remote services.**
  - The Notion database is a `TaskTable` object holding its pages, the next
    page id and a log of every request made.
  - The GitHub repository is an `IssueStore` object holding its issues, the
    next issue number and a log of every request made.
  - Each call takes an `ok` flag that says whether the response is a success.
    A failed call is logged but changes nothing.
  - A run's failures are given by an explicit oracle: `failAt` names the
    first call that fails.
- **Server replies.** The replies of the identity server (`/identity`,
  `/attributes`, `/proof`) are parameters of the handlers. Each reply is
  success, refusal with an optional `error` text, or a network failure.
- **Values passed in.** "Now" is a parameter: `syncedAt` for the Last Synced
  timestamps (one value per run) and `today` for the birthdate check. A
  created page's URL and GitHub's `html_url` for an issue number are
  parameters too.
- **Dates.** `Date.UTC` is modelled literally:
  - years 0 to 99 become 1900 to 1999;
  - the month is carried into the year with floor division;
  - the day is carried into the month one month at a time.

  So the calendar check rejects the years 0000 to 0099 as well as impossible
  days (`Dates.RoundTripsIff`).
- **Null and undefined.** In identity records and page properties, an
  absent value and a `null` one are both `None`. Parsed JSON keeps them
  apart: `Json.Get` gives `None` for an absent member and `Some(JNull)` for
  a `null` one.

What the scripts do not do:

- `notion-to-github.js` sends only a title and a body when it creates an
  issue (lines 68-88). Nothing in the scripts maps statuses to labels, reads
  type labels or closes issues.

## Model

| member | source | states |
|---|---|---|
| GithubToNotion.Configured | scripts/github-to-notion.js:4-17 | the run goes ahead only when the number, title, URL and action arguments and both Notion variables are present and non-empty; `SyncIssue` proves that otherwise it exits 1 with no request |
| GithubToNotion.CreateTaskProperties | scripts/github-to-notion.js:63-88 | a new task carries all six properties: Name = title, Status from the action, GitHub Issue ID, GitHub URL, Source "GitHub" and Last Synced. `UpsertCreatesTask` proves the created page carries them |
| GithubToNotion.UpdateTaskProperties | scripts/github-to-notion.js:98-116 | an update writes Name, Status, GitHub URL and Last Synced and leaves GitHub Issue ID and Source unwritten. `UpsertUpdatesFirstMatch` proves which properties change |
| GithubToNotion.StatusFromAction | scripts/github-to-notion.js:58-61 | the status is "Done" exactly when the action is "closed", and "Backlog" for every other action |
| GithubToNotion.FindExistingTask | scripts/github-to-notion.js:42-56 | there is no result exactly when no task has the issue number; otherwise the result is the first task in database order that has it |
| NotionStore.SelectHeadIsFirst | scripts/github-to-notion.js:55 | the head of a filtered query (`results[0]`) is the first matching page, and the result is empty exactly when nothing matches |
| GithubToNotion.PlannedWrite | scripts/github-to-notion.js:126-136 | no write happens exactly when no task has the number and the action is "deleted". A create happens exactly when no task has the number and the action is anything else, and it carries the create properties. Otherwise the first matching task is updated with the update properties |
| GithubToNotion.UpsertCreatesTask | scripts/github-to-notion.js:63-96 | with no task for the issue and an action other than "deleted", exactly one page is appended. It carries Name = title, the status from the action, GitHub Issue ID = number, the URL, Source "GitHub" and Last Synced. The old pages are untouched |
| GithubToNotion.UpsertUpdatesFirstMatch | scripts/github-to-notion.js:98-124 | when a task has the number, for any action including "deleted", only the first such task changes. Name, Status, GitHub URL and Last Synced are overwritten; its issue id, Source and every other task stay as they were |
| GithubToNotion.UpsertDeletedWithoutTaskIsNoop | scripts/github-to-notion.js:130-136 | a deleted issue without a task causes no write and leaves the database unchanged |
| GithubToNotion.UpsertTwiceCreatesAtMostOnce | scripts/github-to-notion.js:126-136 | a second run with the same event finds the task the first run wrote and plans an update, so at most one task is ever created |
| GithubToNotion.UpsertKeepsIssueIdsUnique | scripts/github-to-notion.js:126-136 | if no two tasks share a GitHub Issue ID before a run, none do after it |
| GithubToNotion.SyncIssue | scripts/github-to-notion.js:126-141 | a missing argument or environment variable exits 1 with no request (lines 6-17). Otherwise the request log is one query plus at most the planned write. The exit is 0 exactly when no call failed. The database is the upsert result on exit 0 and unchanged on exit 1. The page-id counter moves by one exactly when a create succeeded |
| NotionStore.TaskTable.Query | scripts/github-to-notion.js:22-40 | the query is logged, and the result is the filtered, size-capped page list or a failure |
| NotionStore.TaskTable.Create | scripts/github-to-notion.js:90-93 | on success exactly one page with a fresh id and the given properties is appended; on failure the pages are unchanged; the call is logged |
| NotionStore.TaskTable.Update | scripts/github-to-notion.js:118-121 | it succeeds exactly when the response is a success and the page exists. Then only that page changes, and only in the properties written |
| NotionStore.PatchById | scripts/github-to-notion.js:101-116 | an update-page call keeps every page's id and URL. It merges the written properties into the target page and leaves every other page equal |
| NotionStore.SelectKeepsDistinct | scripts/notion-to-github.js:51-66 | a filtered query over pages with distinct ids returns pages with distinct ids |
| NotionStore.QueryResults | scripts/notion-to-github.js:51-66 | the result is a prefix of the matching pages in database order. It holds min(matches, page size) pages, all of which match |
| NotionToGithub.Configured | scripts/notion-to-github.js:4-12 | the run goes ahead only when all four variables are non-empty; `PushNewIssues` proves that otherwise it exits 1 with no request |
| NotionToGithub.Join | scripts/notion-to-github.js:42 | `join("")` of the pieces; `JoinAppend` and `TitleOfSinglePiece` prove it is in-order concatenation |
| NotionToGithub.IssueBody | scripts/notion-to-github.js:131 | the body template; `IssueBodyEmbeds` proves where the URL and the status sit in it |
| NotionToGithub.LinkProperties | scripts/notion-to-github.js:90-106 | the update writes GitHub Issue ID, GitHub URL, Source "GitHub" and Last Synced, and leaves Name and Status unwritten. `ProcessedTaskIsPaired` proves what a handled task then holds |
| NotionToGithub.TitleFromPage | scripts/notion-to-github.js:37-43 | the Name pieces joined in order, or "Untitled task" when Name is missing or empty |
| NotionToGithub.JoinAppend | scripts/notion-to-github.js:42 | joining distributes over concatenation of the piece lists (the join is in-order concatenation) |
| NotionToGithub.TitleOfSinglePiece | scripts/notion-to-github.js:37-43 | a task whose Name is one piece, as the issue-to-task script writes it, reads back that piece as its title |
| NotionToGithub.StatusFromPage | scripts/notion-to-github.js:45-49 | the selected option's name when it is non-empty, otherwise "Backlog"; never empty |
| NotionToGithub.TasksNeedingIssues | scripts/notion-to-github.js:51-66 | the first 10 tasks with an empty GitHub Issue ID, in query order (all of them when there are at most 10), each distinct. No other task is selected |
| NotionToGithub.IssueBodyEmbeds | scripts/notion-to-github.js:131 | the issue body starts with the fixed introduction, then the task's page URL, and ends with its status |
| NotionToGithub.IssueStore.CreateIssue | scripts/notion-to-github.js:68-88 | the request carries only a title and a body. On success one issue with the next number and its html_url is created and returned. On failure nothing is created |
| NotionToGithub.ProgressOf | scripts/notion-to-github.js:126-144 | how far a run gets for each failure point: the tasks paired, issues created and calls made are ordered, and a run that does not abort handles every task |
| NotionToGithub.PairTask | scripts/notion-to-github.js:126-138 | one task's turn is one issue create followed, only if it succeeded, by one update. The update writes that issue's number and URL into that task. The page-id counter does not move |
| NotionToGithub.PairAll | scripts/notion-to-github.js:126-138 | the tasks are handled in order until the first failure. The final state has the first `paired` tasks linked, with exactly the calls and issues the failure point allows. It exits 1 exactly when some call failed. The page-id counter does not move |
| NotionToGithub.PushNewIssues | scripts/notion-to-github.js:114-145 | missing environment exits 1 with no request. The database, both request logs and the issues equal the in-order pairing of the selected tasks, cut at the first failure. The exit is 1 exactly when a call failed. An empty selection makes no issue call and no update and exits 0. The page-id counter does not move. If the issue ids held were unique and below the store's next number, they still are afterwards, below the store's new next number |
| NotionToGithub.ProcessedTaskIsPaired | scripts/notion-to-github.js:90-112 | after the first k of a list of distinct tasks (such as a run's selection) were handled, the j-th holds issue number first + j, that issue's URL, Source "GitHub" and Last Synced; its name and status are unchanged |
| NotionToGithub.LaterTaskIsUntouched | scripts/notion-to-github.js:126-144 | a task that none of the first k turns handled is left exactly as it was |
| NotionToGithub.PairedPageIsLinked | scripts/notion-to-github.js:137 | when the pairings name distinct tasks, a paired task's properties are its old ones with its own pairing's writes merged in |
| NotionToGithub.UnpairedPageIsUntouched | scripts/notion-to-github.js:137 | a task that no pairing names keeps every property |
| NotionToGithub.RerunSkipsProcessedTask | scripts/notion-to-github.js:51-66 | a handled task now has an issue id, so the next run's selection never includes it again |
| NotionToGithub.PairingKeepsIssueIdsUnique | scripts/notion-to-github.js:90-106 | if every issue id already held is below the store's next number and unique, the ids stay unique after k pairings, and all are below the next number + k |
| NotionToGithub.StoreBoundsIssueIds | scripts/notion-to-github.js:90-106 | when every issue id a task holds names an issue in the repository, all of them are below the repository's next issue number, which is the precondition the uniqueness lemmas need |
| NotionToGithub.NumberedPairingsKeepIssueIdsUnique | scripts/notion-to-github.js:90-106 | the same for any sequence of writes whose issue numbers count up from the store's next number |
| NotionToGithub.LinkedTaskNotSelected | scripts/notion-to-github.js:51-66 | a task that holds an issue id is never selected, and no selected task shares its page id |
| NotionToGithub.PairStep | scripts/notion-to-github.js:126-138 | one task's turn moves the run from "first k paired" to the state its outcome allows: k + 1 paired, or stopped after the create call, or stopped after the update call |
| NotionToGithub.PairNext | scripts/notion-to-github.js:126-138 | the same step on the two stores: it reports success exactly when both calls succeed |
| Dates.MakeFullYear | assets/js/agent.js:215 | `Date.UTC` changes a year exactly when it is 0 to 99 |
| Dates.DateUtc | assets/js/agent.js:215 | the built date is always a valid date, and a valid date in a year outside 0..99 is built as itself |
| Dates.RoundTrips | assets/js/agent.js:216-220 | the three read-back comparisons; `RoundTripsIff` proves they hold exactly for real dates outside years 0..99 |
| Dates.DaysInMonth | assets/js/agent.js:215 | month lengths are 28 to 31. February has 29 days exactly in Gregorian leap years. The 31-day months are January, March, May, July, August, October and December |
| Dates.NormalizeDay | assets/js/agent.js:215 | `Date.UTC`'s carrying of an out-of-range day always yields a real date, and a real date is left as it is |
| Dates.RoundTripsIff | assets/js/agent.js:211-222 | the `Date.UTC` round trip reproduces year, month and day exactly when they name a real calendar day in a year outside 0..99 |
| Dates.CommonYearLeapDay | assets/js/agent.js:211-222 | 2023-02-29 fails the calendar check |
| Dates.LeapYearLeapDay | assets/js/agent.js:211-222 | 2024-02-29 passes the calendar check |
| Dates.MonthRangeExamples | assets/js/agent.js:211-222 | month 00 and month 13 fail the calendar check |
| Dates.DayAndYearExamples | assets/js/agent.js:211-222 | 2024-04-31 and 0050-06-01 fail the calendar check |
| Dates.CalculateAge | assets/js/agent.js:191-201 | the age is the number of the last birthday (same month and day, age years on) that does not fall after the reference; the next one does |
| Dates.AgeOnBirthday | assets/js/agent.js:191-201 | on the n-th birthday the age is n; in particular age(b, b) = 0 |
| Dates.AgeNotNegative | assets/js/agent.js:191-201 | the age is never negative when the birth is not after the reference |
| Dates.AgeMonotone | assets/js/agent.js:191-201 | a later reference date never gives a smaller age |
| Validation.MatchesDatePattern | assets/js/agent.js:5 | `/^\d{4}-\d{2}-\d{2}$/` (line 208 applies it): ten characters, hyphens at positions 4 and 7, digits elsewhere |
| Validation.DateFields | assets/js/agent.js:211-214 | the year, month and day read from text matching the pattern are at most 9999, 99 and 99 |
| Validation.IsCountryCode | assets/js/agent.js:6 | `/^[A-Z]{2}$/` (line 242 applies it): exactly two letters A to Z |
| Validation.Upper | assets/js/agent.js:238 | `toUpperCase` never shortens the text and keeps non-empty text non-empty; `UpperOfUpper` and the country examples pin down the mapping |
| Validation.Trim | assets/js/agent.js:204 | the result has no white space at either end, and it is the part of the input between its leading and trailing white space |
| Validation.TrimIdempotent | assets/js/agent.js:204 | trimming twice is trimming once |
| Validation.TrimUnpadded | assets/js/agent.js:204 | text without white space at its ends is its own trimming |
| Validation.UpperOfUpper | assets/js/agent.js:238 | text of letters A to Z is its own upper case |
| Validation.ValidateBirthdate | assets/js/agent.js:203-235 | each verdict holds exactly when its condition does, in the order the checks run. Required: empty after trim. Format: non-empty and no pattern match. Not a calendar date: the pattern matches but the date is not real. In the future: a real date after today. Too old: a real date not after today with age above 150. Accepted: a real date not after today with age at most 150. The accepted value is the trimmed text, whose date is `Date.UTC` of its fields and at least 0 years back |
| Validation.BirthdateIdempotent | assets/js/agent.js:400-402 | an accepted birthdate, once written back into the input, is accepted again unchanged |
| Validation.BirthdateIgnoresPadding | assets/js/agent.js:204 | surrounding white space never changes the birthdate verdict |
| Validation.AgeOneHundredFiftyAccepted | assets/js/agent.js:231-233 | someone turning exactly 150 today is accepted, even though the message says "under 150" |
| Validation.AgeOneHundredFiftyOneRejected | assets/js/agent.js:231-233 | someone who turned 151 is rejected as too old |
| Validation.TomorrowRejected | assets/js/agent.js:227-229 | a birthdate one day after today is rejected as in the future |
| Validation.CommonYearLeapDayRejected | assets/js/agent.js:215-222 | 29 February of a common year is rejected as not a calendar date |
| Validation.ValidateCountry | assets/js/agent.js:237-249 | empty after trimming is rejected as required (exactly then). Acceptance happens exactly when the trimmed, upper-cased text is two letters A to Z, and it returns that text |
| Validation.CountryIdempotent | assets/js/agent.js:400-403 | an accepted country code, written back into the input, is accepted again unchanged |
| Validation.PaddedLowerCaseExample | assets/js/agent.js:237-249 | " pt " is accepted as "PT" |
| Validation.SharpSCountryExample | assets/js/agent.js:238 | "ß" upper-cases to "SS" and is accepted as that code |
| Validation.RejectedCountryExamples | assets/js/agent.js:237-249 | three letters are rejected as badly formed, and only white space is rejected as missing |
| Agent.ErrorText | assets/js/agent.js:265 | the server's `error` when it is a non-empty string, otherwise the handler's fallback, as `data.error` with a fallback does (also lines 301 and 421) |
| Agent.FindIdentity | assets/js/agent.js:67-72 | the index of the first identity with the id, or none exactly when no identity has it (a null id matches none) |
| Agent.Ensured | assets/js/agent.js:74-79 | the active id after ensure-active, and after a selection (lines 174-179 run the same test), names an identity exactly when there is one; a set, found id is kept |
| Agent.EnsureIdempotent | assets/js/agent.js:74-79 | ensuring twice is ensuring once, so the ensure-active step that `refreshUI` runs after a selection (lines 174-185) never changes what the selection chose |
| Agent.EnsureKeepsConsistent | assets/js/agent.js:74-79 | an active id that is set and names an identity is left unchanged |
| Agent.IdentityState.constructor | assets/js/agent.js:8-9 | the page starts with no identities and no active id |
| Agent.IdentityState.ActiveIndex | assets/js/agent.js:67-72 | the active record, when there is one, carries the active id |
| Agent.IdentityState.EnsureActiveIdentity | assets/js/agent.js:74-79 | the active id becomes the ensure-active choice; a set, found id is unchanged |
| Agent.IdentityState.SetActiveIdentity | assets/js/agent.js:174-185 | the requested id becomes active if it is set and some identity has it; otherwise the first identity's id, or null for an empty list. The page invariant holds afterwards |
| Agent.NewRecord | assets/js/agent.js:270-279 | a created record carries the server's id, commitment and root, null attributes and no proof bundle |
| Agent.IdentityState.CreateIdentity | assets/js/agent.js:255-284 | a success appends exactly one new record and runs the selection of its id. A refusal or network error leaves the list and the active id unchanged and shows the error text |
| Agent.CreatedRecordBecomesActive | assets/js/agent.js:281-282 | a fresh, non-empty id from the server makes the appended record the active one |
| Agent.DuplicateIdSelectsOlderRecord | assets/js/agent.js:67-72 | an id the server hands out twice selects the older record, because `find` stops at the first match |
| Agent.SavedRecord | assets/js/agent.js:428-431 | after a save the record has the new attributes and no proof bundle. Its commitment and root are the server's where sent and the old ones otherwise |
| Agent.IdentityState.SaveAttributes | assets/js/agent.js:381-439 | it checks for an active identity, then the birthdate, then the country; any failure sends nothing and changes nothing. After validation the accepted values are written back to the inputs and sent. Only a successful reply changes the active record, as `SavedRecord` states |
| Agent.IdentityState.GenerateProof | assets/js/agent.js:441-469 | without an active identity nothing is sent. Otherwise a request with the template id, the identity id and the commitment is sent. Only a successful reply stores the bundle (the identity id and the returned proof) in the active record |
| Agent.ExportPayload | assets/js/agent.js:105-112 | the export holds exactly `identityId`, `commitment` and `attributesRoot` from the record, or is null without an identity |
| Agent.BundleJson | assets/js/agent.js:456-459 | the proof bundle's `identityId` and `proof` members are the record's id and the server's proof |
| Verifier.IsPayloadObject | assets/js/verifier.js:31 | the payload check (falsy, or `typeof` other than "object") passes exactly for a truthy object or array (also line 44); `PrepareVerification` proves which rejection each failure gives |
| Verifier.NonEmptyString | assets/js/verifier.js:51-53 | a property is a usable id exactly when it is a non-empty string |
| Verifier.DerivedIdentityId | assets/js/verifier.js:49-58 | the id is the proof payload's when that is a non-empty string and otherwise the identity payload's. It is never empty and missing exactly when neither payload has one |
| Verifier.ProofBody | assets/js/verifier.js:60-64 | the body is the payload's `proof` member when that is a truthy object or array, otherwise the whole payload |
| Verifier.PrepareVerification | assets/js/verifier.js:23-64 | the checks run in order: identity JSON, identity object, proof JSON, proof object, id. A request is built exactly when all pass, from the derived id and the proof body |
| Verifier.IdentityCheckedFirst | assets/js/verifier.js:23-34 | a rejected identity text is reported whatever the proof text is |
| Verifier.ProofIdentityIdWins | assets/js/verifier.js:49-58 | a non-empty `identityId` in the proof payload is the id sent, whatever the identity payload holds |
| Verifier.IdentityIdFallback | assets/js/verifier.js:49-58 | without a usable id in the proof, the identity payload's id is sent, and without either the input is rejected as missing its id |
| Verifier.ProofUnwrapped | assets/js/verifier.js:60-64 | a payload wrapping an object as `proof`, even an empty one, sends that object |
| Handoff.ExportedBundleVerifies | assets/js/verifier.js:23-64 | an identity export and its proof bundle, pasted into the verifier, pass every check exactly when the identity's id is non-empty; an empty id is rejected as a missing identity id. An accepted request carries the identity's id and the unwrapped proof |

## Left out

- HTTP details are not modelled: headers, the Notion-Version string, body encoding, status codes and response text. A call is a success or a failure.
- Timestamps from `new Date()` are not modelled. The model uses one `syncedAt` parameter per run and a `today` parameter, both given as inputs.
- `Number()` conversion of the issue-number argument, including NaN, is not modelled; the number arrives as an integer or is missing.
- Console logging is left out. Process exit is the `Exit` result.
- Overlapping runs are not modelled: two concurrent runs could pair one task twice. The same goes for overlapping async handlers on the identity page, because each handler runs atomically with its reply as a parameter.
- A failure after some issues were created is visible in the model, but nothing recovers from it. In particular, when an issue is created and the task update then fails, the issue exists without a task pointing to it. The next run creates a second issue for that task (`PushNewIssues` states the created issues and the unchanged task).
- Issue labels, issue state and closing issues are not modelled, because the scripts send only a title and a body and never close an issue.
- All DOM wiring and rendering of the identity page are left out: the selector, output panes, disabled flags, clipboard and download helpers, and opening the verifier. They are UI.
- The remote `/identity`, `/attributes`, `/proof` and `/proof/verify` endpoints are left out, and so is the verification reply. Only what is sent to them and what their replies do to the page is modelled.
- A server reply whose `identityId` is missing or not a string is not modelled, and neither is an `error` member that is not a string.
- JSON numbers are integers; fractional numbers are not modelled.
- `JSON.stringify` omits undefined properties, so an identity whose commitment is undefined would be exported without that key. The model writes `null` instead, and the verifier never reads either key.
- Identity records are values in a sequence, not shared objects. Nothing in the scripts removes records, so the record a handler captured is still at the same index when its reply arrives.
- `Validation.Upper`: only ASCII letters and the characters whose upper case is made of ASCII letters only (U+00DF to "SS", U+0131, U+017F, U+FB00 to U+FB06) are mapped. Other characters keep their case, so `Upper` is not the full Unicode `toUpperCase`. This does not change a country verdict or an accepted country value: the upper case of every other character contains a character outside A to Z, or is the character itself, so a text holding one is rejected either way.
- `Dates.Before`: comparing the time values of two valid dates is stated directly as year/month/day order, not derived from millisecond time values. The time-value range limit of about 275,000 years is not modelled; a four-digit year is always within it.
- `main.js` and `script.js` are not part of this model: they are navigation, dropdown, year stamp and smooth-scroll UI.
