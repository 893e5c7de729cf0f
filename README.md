# Mister Email: email details page and filter form, modelled in Dafny

This project models the two stateful parts of the webmail client's view layer:

- **The email details page** (`EmailDetails`). It holds one email and loads it, saving a copy marked read before showing it. It moves the email to the Bin or deletes it forever, marks it unread, and detaches a label and reloads. It keeps a once-a-minute refresh of the "sent at" text, using at most one browser interval. It navigates "up" to the containing folder and keeps the query string.
- **The filter form** (`EmailFilter`). It holds a draft filter and converts each edited field: numbers are coerced, the tokens `"true"`, `"false"` and `"null"` of the read/starred selects are translated, and everything else is kept as text. It replaces exactly that one field and pushes every draft to its listener.

Each asynchronous service call is one atomic step. The caller supplies its outcome:

- `fetched: Option<Email>` for `getById`;
- a `bool` for `save`, `remove` and `updateLabelsForEmails`;
- `now: int` for `Date.now()`.

Every side effect is appended to the page's effect log (`Mail.Effect`):

- service calls: `Fetch`, `Save`, `Remove`, `UpdateLabels`;
- `Publish`, when an email becomes displayed state;
- `Navigate`;
- user messages: `ShowSuccess`, `ShowError`, `HideMsg`;
- timers: `SetInterval`, `ClearInterval`.

`Mail.Active(log)` is the set of intervals armed and not yet cleared. The page's invariant ties that set to the `intervalId` slot.

Modules:

- `mail.dfy` (`Mail`): records, the effect log, and live intervals.
- `details.dfy` (`Details`): the details page. It holds one pure function per handler, giving the effects that handler appends, plus the class `EmailDetails`, whose methods are proved against those functions.
- `filter.dfy` (`Filter`): the filter form. It holds the pure conversion and update rules, plus the class `EmailFilter`.

Three behaviours of the code are modelled as written:

- **`deletedAt` can be missing.** The delete handler tests `deletedAt !== null`, so a record whose `deletedAt` is missing (`undefined`) takes the delete-forever branch. `Mail.DeletedAt` has the three cases `Null`, `Undefined` and `At(t)` so that this branch is modelled exactly as the test decides it.
- **Unknown select tokens.** An unrecognised token gives `undefined` (`Filter.Value.Undefined`). The intent is that only the three option values ever reach the translation.
- **The Bin stamp comes before the save.** Move-to-Bin stamps `deletedAt` on the held email before the save's outcome is known (see Findings). The evident intent is a copy-on-write update, applied only once the save has succeeded; `Details.EmailDetails.OnDeleteEmailCopyOnWrite` models that variant.

## Model

| member | source | states |
|---|---|---|
| `Details.LoadEffectsShape` | src/pages/EmailDetails.jsx:108-118 | Specifies `Details.LoadEffects`, the effects of a load. A load first fetches by id. After a successful fetch it saves the copy marked read. On success, the single `Publish` is of exactly that saved copy and comes right after the save. Every publication in the log follows its save. On any failure, there is exactly one `Navigate(up)` at the end and no publication. No success or error message is shown in any case, and a failure touches no timer. |
| `Details.LoadEffectsExact` | src/pages/EmailDetails.jsx:108-118 | With `LoadEffectsShape`, nothing else happens in a load. There are 2 effects after a failed fetch (and no save), 3 after a failed save, and on success the refresh effect's effects follow the publication directly. No load removes an email, updates labels or hides a message. |
| `Details.EmailDetails.LoadEmailAndMarkAsRead` | src/pages/EmailDetails.jsx:108-118 | The log grows by `LoadEffects`. On success the held email is the marked-read copy, the sent-at text is recomputed and a fresh interval is armed. On failure the held email, the text and the timer slot are unchanged. The page invariant is kept. |
| `Details.EmailDetails.OnRouteChange` | src/pages/EmailDetails.jsx:28-30 | The page reloads only when the route's email id changed. With the same id, the log, the held email, the sent-at text and the timer are unchanged. With a new id, the log grows by `LoadEffects` for the new id and location. On success the held email is the marked-read copy, the text is recomputed and the slot is re-armed. On failure the held email, the text and the timer are unchanged. |
| `Details.MarkedRead` | src/pages/EmailDetails.jsx:111 | The copy has `isRead` true and every other field equal to the fetched record. |
| `Details.DeleteEffectsShape` | src/pages/EmailDetails.jsx:53-74 | Specifies `Details.DeleteEffects`, the effects of a delete. There are exactly three effects on success and two on failure. The first is the one service call: `Remove(e.id)` when `deletedAt !== null` (and no `Save`), otherwise a `Save` of the stamped record (and no `Remove`). On success the one `Navigate(up)` is followed by the one success message. On failure there is no navigation and the one error message. The message texts are those of the source, nothing else happens, and no timer is touched. |
| `Details.AfterDelete` | src/pages/EmailDetails.jsx:63-67 | After Delete, the held record is always in the Bin. It is unchanged when it was already there, and otherwise only `deletedAt` changes, to `At(now)`. |
| `Details.EmailDetails.OnDeleteEmail` | src/pages/EmailDetails.jsx:53-74 | The held email becomes `AfterDelete(old, now)` whatever the outcome (in-place mutation). The log grows by `DeleteEffects`, and nothing else changes. |
| `Details.SecondDeletePurges` | src/pages/EmailDetails.jsx:54-72 | After any first Delete, success or failure, a second Delete asks for `Remove(e.id)`. |
| `Details.AfterDeleteOnSuccess` | src/pages/EmailDetails.jsx:63-72 | Corrected rule: after a successful save, a record not yet in the Bin has `deletedAt` set to `At(now)` with every other field unchanged, and a record already there is unchanged. After a failed save the record is unchanged. |
| `Details.EmailDetails.OnDeleteEmailCopyOnWrite` | src/pages/EmailDetails.jsx:53-74 | The delete handler under the corrected rule: the log grows by the same `DeleteEffects`, and the held email becomes `AfterDeleteOnSuccess(old, now, ok)`, so a failed save leaves it unchanged. |
| `Details.RetryAfterFailedMoveMovesAgain` | src/pages/EmailDetails.jsx:63-72 | Under the corrected rule, a Delete retried after a failed move saves the record to the Bin again and never removes it for good. |
| `Details.MarkUnreadEffectsShape` | src/pages/EmailDetails.jsx:76-84 | Specifies `Details.MarkUnreadEffects`, the effects of marking unread. There are exactly two effects on success and one on failure. The first is the one service call, a `Save` of the held email with `isRead` false. On success the second is the one `Navigate(up)`, and on failure there is no navigation. No user message is shown and nothing else happens. |
| `Details.EmailDetails.OnMarkEmailAsUnread` | src/pages/EmailDetails.jsx:76-84 | The held email is unchanged, and the log grows by `MarkUnreadEffects`. |
| `Details.LabelEffects` | src/pages/EmailDetails.jsx:86-95 | `HideMsg` comes first. Then comes exactly one `UpdateLabels([e], {lbl.id: false})`. Last is a success message on success or an error message on failure, and either message text contains the label's name. |
| `Details.EmailDetails.OnRemoveLabel` | src/pages/EmailDetails.jsx:86-97 | The log grows by `LabelEffects` and then, whatever the update's outcome, by a full reload (`LoadEffects`). The held email, the sent-at text and the timer follow the reload's outcome, as for `LoadEmailAndMarkAsRead`. |
| `Details.UpTarget` | src/pages/EmailDetails.jsx:101-106 | The target path is `getContainingFolder(pathname)`, and the query string is forwarded unchanged. |
| `Details.EmailDetails.NavigateUp` | src/pages/EmailDetails.jsx:101-106 | Appends exactly one `Navigate` to that target and changes nothing else. |
| `Details.ArmedSet` | src/pages/EmailDetails.jsx:22 | The one-slot `intervalId` ref names at most one armed interval. |
| `Details.RefreshEffectsShape` | src/pages/EmailDetails.jsx:32-49 | Specifies `Details.RefreshEffects`, the effects of re-running the refresh effect. Re-running the refresh effect clears intervals only, and the previous run's interval is cleared first. The last step arms a new interval with the next handle. |
| `Details.RefreshReplay` | src/pages/EmailDetails.jsx:32-49 | Starting from the interval the slot names as armed, the cleanup's clear, the body's clear and the new `setInterval` leave only the new handle live. |
| `Details.RefreshLeavesOneInterval` | src/pages/EmailDetails.jsx:32-49 | Whatever interval was live before, after the refresh effect exactly one interval is live: the new one. |
| `Details.EmailDetails.SetEmail` | src/pages/EmailDetails.jsx:32-49 | Publishing an email that was just saved marked read re-runs the refresh effect. The held email is replaced, the sent-at text is recomputed, and the slot names the new interval, which captures the email's `sentAt`. |
| `Details.EmailDetails.RunRefreshEffect` | src/pages/EmailDetails.jsx:32-44 | The log grows by `RefreshEffects` of the old slot, the slot becomes `Rearmed`, and the page invariant is re-established. |
| `Details.EmailDetails.OnInterval` | src/pages/EmailDetails.jsx:41-43 | When an interval fires, only the sent-at text changes: it is recomputed for the held email's `sentAt`. No effect is logged and no persisted state changes. |
| `Details.EmailDetails.Unmount` | src/pages/EmailDetails.jsx:46-48 | Teardown clears the armed interval, leaves no live interval and marks the page unmounted. Every handler requires a mounted page, so nothing can arm an interval again. |
| `Details.EmailDetails.LiveIntervals` | src/pages/EmailDetails.jsx:32-49 | In every reachable state at most one interval is live, none while no email is held, and none once the page is unmounted. |
| `Details.EmailDetails.constructor` | src/pages/EmailDetails.jsx:20-22 | On mount the page is mounted, nothing is held, the text is blank, the log is empty and no interval is live. The `intervalId` ref starts empty with no cleanup pending, and the first handle is 1, so the first refresh clears nothing. |
| `Filter.TranslateNullableBool` | src/cmps/EmailFilter.jsx:3-7 | A token yields a tri-state value exactly when it is `"true"`, `"false"` or `"null"`, and rendering that value gives the token back. Any other token yields `undefined`. |
| `Filter.SelectValue` | src/cmps/EmailFilter.jsx:39 | `'' + v` as a select shows it: a tri-state value renders as one of the three option values, a missing field renders as a text that is none of them, and a text renders as itself. |
| `Filter.SelectRoundTrip` | src/cmps/EmailFilter.jsx:35-44 | For each of true, false, null, and a missing field, translating the rendered select value `'' + v` gives `v` back. |
| `Filter.Convert` | src/cmps/EmailFilter.jsx:17-23 | A `number` input is coerced whatever its name, including `isRead` and `isStarred`. Only non-number `isRead`/`isStarred` fields are translated. Every other field keeps its raw text. |
| `Filter.ApplyChange` | src/cmps/EmailFilter.jsx:24 | The new draft has the changed field set to the converted value and every other field unchanged. Its keys are the old keys plus the changed field. |
| `Filter.SelectShowsChoice` | src/cmps/EmailFilter.jsx:48-57 | After an option of a three-way select is picked, the select renders that same option. |
| `Filter.Drafts` | src/cmps/EmailFilter.jsx:10-14 | The draft history starts with the initial filter and has one more draft per change. Each draft is the previous one with that change applied. |
| `Filter.EmailFilter.constructor` | src/cmps/EmailFilter.jsx:10-14 | On mount the draft is the given filter, and the listener has received exactly that filter. |
| `Filter.EmailFilter.HandleChange` | src/cmps/EmailFilter.jsx:16-25 | The draft becomes `ApplyChange(old draft, target)`, and the listener receives it right after everything it received before. Its invariant says the listener has received the initial draft and then every later draft, in order, with none skipped. |

## Left out

- Rendering (JSX, CSS class names, button wiring, the Back button's title from `getFolderNameById`) is not modelled. It is presentation.
- `src/cmps/EmailSidebar.jsx` and `src/cmps/email-label/EmailLabelCreate.jsx` are not part of this model. They only render, or hand validation to form libraries that are not shown.
- Internals of the collaborators are not modelled. The email service, the event bus and `getContainingFolder` are represented by caller-supplied outcomes, by log entries, or by a function-valued field. The kinds of service failure are collapsed into a single "failed" outcome.
- `formatDateVerbose` is not evaluated. `SentAtText.Formatted(sentAt, at)` records its argument and the time of the call.
- `Date.now()` and the 60-second period are not modelled. Time is a parameter, and a firing interval is the `OnInterval` step.
- Real asynchrony is not modelled: each handler is one atomic step on a mounted page. Overlapping handlers are not represented. Neither are continuations of a service call that resolve after unmount: React ignores their `setEmail`, but their navigation and messages would still happen.
- Aliasing is not modelled: `Save(e)` records a snapshot of the record. In the source, the object handed to `save` during a move to the Bin is the held object itself.
- The numeric coercion `+value` is kept symbolic (`Value.Num(source)`), so NaN and number formatting are not modelled.
- SelectValue: requires a non-numeric value, because rendering a number as text is not modelled. This form never stores a number in `isRead` or `isStarred`, because those fields are edited only through their selects, whose change events carry no `number` input type.
- TranslateNullableBool: tokens that name properties inherited by a JavaScript object (for example `"toString"`) give `undefined` here. The source would return the inherited property. The selects never produce such tokens.
- The page handlers require a loaded email, because the source renders their buttons only when an email is held (src/pages/EmailDetails.jsx:120).
- `console.log` and `console.error` diagnostics are not modelled.
- `onSubmitFilter` only calls `preventDefault`, so it is not modelled.

## Findings

| source | as written | input that shows it | evidently intended | confidence | as-written member | corrected member |
|---|---|---|---|---|---|---|
| src/pages/EmailDetails.jsx:66 | `email.deletedAt = Date.now()` changes the held record before the save resolves, and the change is not undone when the save fails | An email with `deletedAt: null`, a first Delete whose save fails ("Failed to move email to Bin."), then a second Delete: the second Delete calls `remove(email.id)` and removes an email that never reached the Bin | Stamp `deletedAt` only once the save succeeded, so that a retry moves the email to the Bin again | medium, not executed | `Details.SecondDeletePurges` | `Details.RetryAfterFailedMoveMovesAgain` |
