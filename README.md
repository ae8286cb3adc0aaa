# alx-polly poll bookkeeping, modelled in Dafny

alx-polly is a polling web application: users sign in, create polls with
several options, vote, and see the results. Its Next.js pages and server
action talk to a hosted backend (tables `polls`, `poll_options`, `votes`, and an
identity service). This project models the bookkeeping that sits under that
glue, and proves it correct:

- **Poll creation** (`lib/actions.ts`), in `actions.dfy`. The server action
  reads the title and four option slots from the form. It checks them against
  the poll schema, requires a signed-in user, and inserts the poll and then its
  options. When the options cannot be stored it deletes the poll again.
- **Results panel** (`components/polls/poll-results.tsx`), in
  `poll_results.dfy`. Each option's share of the vote is rounded to tenths of a
  percent and shown as text and as a bar width.
- **Option editors** (`components/polls/poll-form.tsx`, `app/create/page.tsx`),
  in `option_list.dfy`, `poll_form.dfy` and `create_page.dfy`. Each editor holds
  a list of entries and lets the user add, remove and edit them, never going
  below two. On submit, blank entries are dropped. The create page then clears
  itself.
- **Poll list** (`app/polls/page.tsx`), in `polls_page.dfy`. It loads the list,
  offers Edit and Delete only to a poll's owner, and deletes a poll in three
  steps: its votes, then its options, then the poll.
- **Authentication** (`app/auth/context/auth-context.tsx`,
  `app/auth/protected-route.tsx`), in `auth_context.dfy` and
  `protected_route.dfy`. The context holds `user` and `isLoading` and changes
  them on login, register and logout. The guard decides between a loading
  screen, the page and a redirect to `/auth/login`.

Shared modules:
- `seqs.dfy` holds the generic `Filter`, which is JavaScript's `Array.prototype.filter`.
- `js_string.dfy` holds `trim`, with ECMAScript's whitespace set, and decimal numerals.
- `wrappers.dfy` holds `Option` (nullable values) and `Result`.
- `backend.dfy` holds the backend store.

**The backend store.** The store is the value `Backend.Db`: a set of polls, a
sequence of option rows, a sequence of votes and a key counter. Each backend
request is a function on that value. Whether a request succeeds is a boolean
parameter of the workflow that issues it. A failed request changes nothing.

**Call traces.** The workflows that write (`Actions.CreatePoll`,
`Actions.StorePoll` and `PollsPage.PollsView.HandleDelete`) also return the list
of requests they issued, as `Backend.Call` values. `PollsPage.PollsView.FetchPolls`
takes the result of its one read as a parameter instead. This is how ordering and early exits are stated: for
example, "validation comes before any request" and "after a failed step no
later step is attempted". The identity of the signed-in user is also a
parameter, and so is the answer to the delete confirmation dialog.

**Where the specification and the code differ, the model follows the code.**
- The server action does not trim options, so an option made only of spaces
  passes its schema. Only the two editors trim. See `Actions.WhitespaceOptionAccepted`.
- The vote-submission and vote-counting logic described for the poll page is
  not in the code. `app/polls/[id]/page.tsx` shows mock data, and it is not part
  of this model.
- `ProtectedRoute` shows its loading screen while it redirects: in the
  unauthenticated state it both redirects and renders "Loading...".
- The compensating delete in `createPoll` is best effort. Its result is ignored,
  so when it fails the poll stays without options. The contract of
  `Actions.StorePoll` states both outcomes.

## Model

| member | source | states |
|---|---|---|
| `Seqs.Filter` | components/polls/poll-form.tsx:78 | the result holds exactly the elements that pass the test, and is no longer than the input |
| `Seqs.FilterAppend` | app/polls/page.tsx:88 | filtering distributes over concatenation, so the kept elements keep their relative order |
| `Seqs.FilterSkips` | components/polls/poll-form.tsx:78 | an element that fails the test leaves no trace in the result |
| `Seqs.FilterAllPass` | components/polls/poll-form.tsx:78 | a list whose elements all pass is returned unchanged |
| `Seqs.FilterNonePass` | app/polls/page.tsx:69-72 | a list none of whose elements pass filters to the empty list |
| `Seqs.FilterIdempotent` | components/polls/poll-form.tsx:78 | filtering twice is filtering once |
| `JsString.TrimStart` | components/polls/poll-form.tsx:78 | the result is a suffix of the input, only whitespace was cut, and it starts with a non-whitespace character or is empty |
| `JsString.TrimEnd` | components/polls/poll-form.tsx:78 | the result is a prefix of the input, only whitespace was cut, and it ends with a non-whitespace character or is empty |
| `JsString.Trim` | components/polls/poll-form.tsx:78 | the result is the part of the input between leading and trailing whitespace, and starts and ends with a non-whitespace character unless empty |
| `JsString.IsBlank` | app/create/page.tsx:32 | an entry trims to the empty string exactly when it is made only of whitespace |
| `JsString.BlankIffAllWhitespace` | app/create/page.tsx:32 | `s.trim() === ''` holds exactly when every character of `s` is whitespace |
| `JsString.NatToString` | components/polls/poll-results.tsx:29 | a count is shown as a non-empty string of decimal digits without a leading zero |
| `JsString.NatToStringRoundTrip` | components/polls/poll-results.tsx:29 | reading the shown numeral back gives the count |
| `JsString.Digit` | components/polls/poll-results.tsx:18 | a digit character stands for its value |
| `Backend.InsertPoll` | lib/actions.ts:93-99 | the new poll takes a key no existing poll has, joins the polls, and leaves options and votes alone |
| `Backend.Keyed` | lib/actions.ts:106 | a bulk insert stores one row per sent row, in order, each with a fresh key, its text and its poll id |
| `Backend.InsertOptions` | lib/actions.ts:106 | a bulk option insert appends all rows at once, and the keys of polls and options stay unique |
| `Backend.DeletePoll` | lib/actions.ts:129 | afterwards no poll has the id, every poll with another id is still there, and options and votes are untouched |
| `Backend.OptionIdsOf` | app/polls/page.tsx:44-54 | the selected ids are exactly the ids of the poll's option rows |
| `Backend.DeleteVotes` | app/polls/page.tsx:57-60 | a vote is kept exactly when its option id is not among the given ids |
| `Backend.DeleteOptionsOf` | app/polls/page.tsx:69-72 | an option row is kept exactly when it belongs to another poll, and the keys stay unique |
| `Actions.Unwrap` | lib/actions.ts:89 | the strings of present form values, one per value, in order |
| `Actions.ExtractFormData` | lib/actions.ts:86-91 | the title is the form's title field; the options are slots option1 to option4 in order with missing and empty slots dropped, so at most four non-empty strings |
| `Actions.SlotsFilter` | lib/actions.ts:89 | filtering the four slots keeps each present, non-empty one in its place |
| `Actions.ExtractReadsOnlyFiveFields` | lib/actions.ts:88-89 | forms that agree on `title` and `option1` to `option4` extract alike, so later slots and other fields are ignored |
| `Actions.TitleErrors` | lib/actions.ts:82 | the title is rejected exactly when it is missing or empty |
| `Actions.EmptyOptionErrors` | lib/actions.ts:83 | one "Option cannot be empty" message per empty option, none exactly when all options are non-empty |
| `Actions.OptionErrors` | lib/actions.ts:83 | the options are rejected exactly when fewer than two or one is empty, with the length message exactly when fewer than two |
| `Actions.ValidatePoll` | lib/actions.ts:81-84 | the input passes exactly when the title is non-empty and there are at least two non-empty options; otherwise each field has messages exactly when it is at fault |
| `Actions.ExtractedOptionsAreNonEmpty` | lib/actions.ts:83-89 | on the form path only the option count can fail: the empty-option message never appears |
| `Actions.WhitespaceOptionAccepted` | lib/actions.ts:83 | an option made only of a space passes the schema, since nothing is trimmed |
| `Actions.EmptyTitleOneOption` | lib/actions.test.ts:80-91 | an empty title with one option is reported on both the title and the options |
| `Actions.OptionRows` | lib/actions.ts:101-106 | one row per validated option, in order, each carrying the new poll's id |
| `Actions.NewOptionsBelongToPoll` | lib/actions.ts:127 | after the option insert the poll has at least as many option rows as were sent |
| `Actions.StoreSteps` | lib/actions.ts:122-134 | the poll insert is always the first request; a poll is created exactly when both inserts succeed, otherwise the result is a database error; a request follows the poll insert exactly when it succeeded |
| `Actions.StorePoll` | lib/actions.ts:122-134 | after a failed poll insert nothing is written and no option insert is tried. After a failed option insert the poll is deleted again, so the polls are as before; if that delete fails the poll stays. On success the store gains the poll, owned by the user, and all its option rows. A created poll has at least two options and no new option row is left without its poll |
| `Actions.CreatePoll` | lib/actions.ts:109-135 | a rejected form returns its field errors with no request and no write; without a user only the identity lookup happens and the auth error is returned; otherwise the writes of `StorePoll` follow the lookup |
| `PollResults.PercentTenths` | components/polls/poll-results.tsx:16-19 | with no votes the share is 0; otherwise it is votes/total×1000 rounded half up to a whole number of tenths |
| `PollResults.PercentText` | components/polls/poll-results.tsx:18 | the text is digits without a leading zero, a point and one digit, and reads back as the share |
| `PollResults.GetPercentage` | components/polls/poll-results.tsx:16-19 | with no votes in total the text is "0.0"; otherwise it is a one-decimal number whose value in tenths is votes/total×1000 rounded half up |
| `PollResults.Row` | components/polls/poll-results.tsx:25-37 | the row shows the option's text; its label is the count followed by the bar's width in parentheses, so label and bar show the same share |
| `PollResults.Render` | components/polls/poll-results.tsx:21-44 | one row per option in order with its text; the count label and the bar width use the same percentage; the total line shows the given total |
| `PollResults.NoVotesReadsZero` | components/polls/poll-results.test.tsx:38-47 | with a total of zero every share reads "0.0" and a zero count reads "0 votes (0.0%)" |
| `PollResults.TenthsAtMost` | components/polls/poll-results.tsx:18 | a share rounded from a count within the total is at most 1000 tenths |
| `PollResults.PercentWithinBounds` | components/polls/poll-results.tsx:18 | a count within the total gives a share between 0.0 and 100.0 |
| `PollResults.AllVotesIsHundred` | components/polls/poll-results.tsx:18 | all the votes give exactly 100.0 |
| `PollResults.PercentMonotone` | components/polls/poll-results.tsx:18 | for a fixed total, more votes never give a smaller share |
| `PollResults.ExampleShares` | components/polls/poll-results.test.tsx:24-31 | 10, 5 and 15 of 30 read 33.3, 16.7 and 50.0; 11 of 31 reads 35.5 |
| `OptionList.AddedBlank` | components/polls/poll-form.tsx:40-42 | one more entry, blank, at the end; the others unchanged |
| `OptionList.RemovedAt` | components/polls/poll-form.tsx:50-55 | with two entries or fewer nothing changes; otherwise exactly entry `index` goes and the rest keep their order |
| `OptionList.ReplacedAt` | components/polls/poll-form.tsx:63-67 | entry `index` becomes the value; length and every other entry unchanged |
| `OptionList.EditsKeepMinimum` | components/polls/poll-form.tsx:40-67 | no edit takes a list of at least two entries below two |
| `OptionList.ValidOptions` | components/polls/poll-form.tsx:78 | the submitted entries are the entries with a non-whitespace character, and only those |
| `OptionList.ValidOptionsAppend` | components/polls/poll-form.tsx:78 | the filter works entry by entry, so kept entries keep their order |
| `OptionList.ValidOptionsIdempotent` | app/create/page.tsx:32 | an already filtered list loses nothing more |
| `OptionList.ValidOptionsSingle` | app/create/page.tsx:32 | a single entry survives exactly when it has a non-whitespace character |
| `OptionList.ValidOptionsDropsBlank` | app/create/page.tsx:32 | a whitespace-only entry anywhere is dropped without disturbing the others |
| `OptionList.ValidOptionsKeepsText` | components/polls/poll-form.tsx:78 | a list whose entries all have text is submitted unchanged |
| `PollFormComponent.PollForm.constructor` | components/polls/poll-form.tsx:32-34 | the fields of the initial data when editing, otherwise empty title and description and two blank entries |
| `PollFormComponent.PollForm.SetTitle` | components/polls/poll-form.tsx:98 | the title becomes the typed value |
| `PollFormComponent.PollForm.SetDescription` | components/polls/poll-form.tsx:111 | the description becomes the typed value |
| `PollFormComponent.PollForm.AddOption` | components/polls/poll-form.tsx:40-42 | the entries become `AddedBlank` of the old ones; a list of two or more stays so |
| `PollFormComponent.PollForm.RemoveOption` | components/polls/poll-form.tsx:50-55 | the entries become `RemovedAt` of the old ones; a list of two or more stays so |
| `PollFormComponent.PollForm.UpdateOption` | components/polls/poll-form.tsx:63-67 | the entries become `ReplacedAt` of the old ones; a list of two or more stays so |
| `PollFormComponent.PollForm.HandleSubmit` | components/polls/poll-form.tsx:75-87 | a draft is passed on exactly when at least two entries are non-blank, and it carries the title, the description and the non-blank entries in order |
| `CreatePage.CreatePollPage.constructor` | app/create/page.tsx:8-10 | empty title and description and two blank entries |
| `CreatePage.CreatePollPage.SetTitle` | app/create/page.tsx:66 | the title becomes the typed value |
| `CreatePage.CreatePollPage.SetDescription` | app/create/page.tsx:79 | the description becomes the typed value |
| `CreatePage.CreatePollPage.AddOption` | app/create/page.tsx:12-14 | the entries become `AddedBlank` of the old ones, and the page keeps at least two |
| `CreatePage.CreatePollPage.RemoveOption` | app/create/page.tsx:16-21 | the entries become `RemovedAt` of the old ones, and the page keeps at least two |
| `CreatePage.CreatePollPage.UpdateOption` | app/create/page.tsx:23-27 | the entries become `ReplacedAt` of the old ones, and the page keeps at least two |
| `CreatePage.CreatePollPage.HandleSubmit` | app/create/page.tsx:29-48 | with fewer than two non-blank entries nothing changes; otherwise the poll with the non-blank entries is produced and the page is reset to empty text and two blank entries |
| `PollsPage.ShowsOwnerControls` | app/polls/page.tsx:130 | signed out, no poll offers Edit and Delete; when shown, the viewer's id is the poll's owner id |
| `PollsPage.CreatorSeesControls` | app/polls/page.tsx:130 | a poll stored by `createPoll` offers Edit and Delete to exactly the viewers signed in with its creator's id |
| `PollsPage.OwnerControlsFollowSignIn` | app/polls/page.tsx:130 | signed out, no poll offers Edit and Delete; signed in as the mock user, exactly that user's polls do |
| `PollsPage.WithoutPoll` | app/polls/page.tsx:88 | the local list loses exactly the entries with the deleted id and keeps the others |
| `PollsPage.WithoutPollAppend` | app/polls/page.tsx:88 | pruning keeps the order of the remaining polls |
| `PollsPage.VotesCleared` | app/polls/page.tsx:44-66 | polls and options stay; a vote is kept exactly when it refers to no option of the poll, and nothing is deleted when the poll has no options |
| `PollsPage.Cascade` | app/polls/page.tsx:44-83 | after all three deletes the poll, its options and the votes on them are gone, and every other poll, option and vote remains |
| `PollsPage.OptionsAndVotesGone` | app/polls/page.tsx:54-77 | once votes and options are deleted, the poll has no options and no vote refers to one of them, while other polls' options and votes remain |
| `PollsPage.CascadeRemovesPoll` | app/polls/page.tsx:41-91 | the full cascade leaves no poll with the id, no option of it and no vote on one of its options, and keeps every other poll, option and vote |
| `PollsPage.CascadeKeepsIntegrity` | app/polls/page.tsx:44-86 | deleting in the order votes, options, poll never leaves a vote without its option or an option without its poll, even if a later step fails |
| `PollsPage.PollsView.constructor` | app/polls/page.tsx:19-20 | the list starts empty and loading |
| `PollsPage.PollsView.FetchPolls` | app/polls/page.tsx:22-39 | loading ends; the list becomes the fetched rows, or is kept when the query fails |
| `PollsPage.PollsView.HandleDelete` | app/polls/page.tsx:41-92 | without confirmation nothing happens. Otherwise the requests go in the order option lookup, votes (only if the poll has options), options, poll, and stop at the first failure; what was deleted stays deleted. The local list is pruned only after the poll is deleted |
| `AuthContext.AuthProvider.constructor` | app/auth/context/auth-context.tsx:22-23 | no user, loading |
| `AuthContext.AuthProvider.MountEffect` | app/auth/context/auth-context.tsx:25-28 | loading ends, the user is unchanged |
| `AuthContext.AuthProvider.Login` | app/auth/context/auth-context.tsx:30-46 | the user becomes id "1", name "Test User", the given email, whatever the password; loading ends |
| `AuthContext.AuthProvider.Register` | app/auth/context/auth-context.tsx:48-64 | the user becomes id "1" with the given name and email; loading ends |
| `AuthContext.AuthProvider.Logout` | app/auth/context/auth-context.tsx:66-77 | no user; loading ends |
| `AuthContext.UseAuth` | app/auth/context/auth-context.tsx:86-92 | outside a provider the error "useAuth must be used within an AuthProvider"; inside, the provider's value |
| `ProtectedRoute.Decide` | app/auth/protected-route.tsx:21-36 | a redirect to /auth/login exactly when loading is over and there is no user; the page exactly when loading is over and there is a user; never both |
| `ProtectedRoute.DecideByStatus` | app/auth/protected-route.tsx:24-36 | the outcome depends only on the state: loading waits, a user sees the page, no user is sent to log in |
| `ProtectedRoute.EffectRedirect` | app/auth/protected-route.tsx:21-27 | the redirect is issued on the first render and whenever `isLoading` or `user` changed, exactly when the new state has no user and is not loading |
| `ProtectedRoute.GuardFollowsAuthContext` | app/auth/protected-route.tsx:24-27 | after the mocked login the page renders; a session that ends triggers the redirect; an unchanged loading state triggers nothing |

## Left out

- Network, database and framework calls (`supabase`, `revalidatePath`,
  `router.push`, `confirm`, `alert`, `console.error`) are not executed. Their
  results are parameters, and the requests are recorded as `Backend.Call`
  values. A failed request is taken to have had no effect.
- The database's own behaviour is reduced to unique keys from a counter. Its
  `created_at` timestamps and the newest-first order of the fetched list are
  not part of this model.
- `toFixed` works on binary floating point. The model rounds the exact quotient
  half up, so ties that floating point rounds down are not reproduced.
- The asynchronous interleaving of handlers and React's effect scheduling are
  not modelled. Each handler runs to completion as one step. `EffectRedirect`
  compares dependency values, whereas React compares `user` by object identity.
- Form values that are files rather than strings, and repeated form fields,
  are not modelled. A form is a map from field name to its first value.
- `Actions.ValidatePoll`: the order of messages within a field follows the
  schema library's checks (array length before elements). That order is not
  a promise of the code.
- `PollFormComponent.PollForm.RemoveOption`, `PollFormComponent.PollForm.UpdateOption`,
  `CreatePage.CreatePollPage.RemoveOption`, `CreatePage.CreatePollPage.UpdateOption`:
  these require the index to be inside the list, as every caller in the page
  guarantees. JavaScript's behaviour for negative or too-large indices with
  `splice` and index assignment is not modelled.
- The editors' submit handlers pass the draft on, or alert; the `onSubmit`
  callback and the create page's logging are outside this model.
- Sign-in, registration and poll-edit pages (`app/auth/login/page.tsx`,
  `app/auth/register/page.tsx`, `app/polls/[id]/edit/page.tsx`) and the
  layout components are not part of this model.
