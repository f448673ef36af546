# Roommate app core, modelled in Dafny

This project models the core of a small client-only roommate app. The app has:

- **a duty roster**: chores assigned to a roommate on a date, which can be completed, deleted and flagged overdue;
- **a shared ledger**: contributions and expenses, with a balance and a per-payer spending chart;
- **a sticky-note board**: anonymous notes, either for everyone or for one roommate;
- **a dashboard**: today's duty, whose turn it is, and the total balance;
- **the application shell**: session state, loading the saved lists, a demo user switcher, and view routing.

Every operation of these components is a Dafny function or method. Its properties are stated in its own ensures clauses or in lemmas about it, which relate the operations to each other and to independent definitions.

## Modules

- **`Types`, `Constants`**: the records (roommate, duty, transaction, note) and the seed data.
  - Ids are strings.
  - A `YYYY-MM-DD` date is a day number.
  - Timestamps are milliseconds since the epoch.
  - Money is a whole number of cents.
- **`JsArray`**: `filter`, `map`, `find` and `findIndex` as functions on sequences, with the lemmas the components use.
- **`Clock`**: the three clock readings the components make, as functions of the instant and the device's time-zone offset.
  - A date-only string parsed as UTC midnight.
  - The UTC date.
  - The last local midnight.
- **`StickyNotes`**: one function per operation. The board replaces its whole list on every change.
- **`MoneyManager`**:
  - adding, deleting and the balance are functions;
  - the spending chart is a method whose loop fills an insertion-ordered map, proved equal to a functional specification.
- **`DutyRoster`**:
  - `Array.prototype.sort` on a fresh copy is an in-place insertion sort on an array;
  - that sort is proved to yield the stable date ordering `SortByDate`, which is proved sorted, a permutation and stable;
  - toggling and deleting are functions;
  - the overdue flag is modelled twice, as written and as intended (see Findings).
- **`Dashboard`**: today's duty, its assignee, whose turn it is, and the total balance.
- **`App`**:
  - a `Session` class holding the view, the current user and the two persisted lists;
  - loading with the "nothing saved ⇒ empty" default;
  - the user switcher;
  - `renderView`'s mapping from view name to screen.

Inputs that come from outside are parameters of the model:

- the current instant;
- the time-zone offset;
- new ids;
- the current user;
- the saved text;
- the JSON parser.

## Model

| member | source | states |
|---|---|---|
| StickyNotes.Trim | components/StickyNotes.tsx:21 | `trim` yields the empty string exactly when the content is empty or all ECMAScript whitespace; otherwise its result is the slice of the content left after dropping all leading and trailing whitespace, and starts and ends with non-whitespace |
| StickyNotes.AddNote | components/StickyNotes.tsx:20-31 | blank content leaves the list unchanged; otherwise the new list is the old one with one note in front, carrying the given id, content, colour and time, the current user as author, always anonymous, and with no recipient exactly when "everyone" was selected |
| StickyNotes.AddNoteBlankIffUnchanged | components/StickyNotes.tsx:21 | adding leaves the board unchanged if and only if the content is blank |
| StickyNotes.DeleteNote | components/StickyNotes.tsx:37-39 | a note survives deletion exactly when it was on the board and has another id |
| StickyNotes.DeleteNoteKeepsOthersInOrder | components/StickyNotes.tsx:38 | deletion keeps the order of the remaining notes and every copy of each note with another id |
| StickyNotes.DeleteAbsentNoteIsNoOp | components/StickyNotes.tsx:38 | deleting an id no note has leaves the board as it was |
| StickyNotes.VisibleNotes | components/StickyNotes.tsx:44-47 | a user sees a note exactly when it is for everyone (no or empty recipient), or the user wrote it, or it is addressed to the user |
| StickyNotes.VisibleNotesKeepOrder | components/StickyNotes.tsx:44 | a user's view is a subsequence of the board and keeps every copy of each visible note |
| StickyNotes.DirectedNoteIsPrivate | components/StickyNotes.tsx:44-47 | a note addressed to one roommate is seen by its author and that recipient and by nobody else |
| StickyNotes.DirectedNoteExample | components/StickyNotes.tsx:44-47 | a note from u1 to u2 is shown to u1 and u2 and not to u3 |
| StickyNotes.DeleteTargets | components/StickyNotes.tsx:155-157 | the delete buttons in a user's view are exactly on the notes that user wrote: every button's id belongs to one of them, and each of them gets a button |
| StickyNotes.DeleteButtonRemovesOnlyOwnNote | components/StickyNotes.tsx:155-157 | with unique ids, pressing a delete button shrinks the board by exactly one note, and every removed note was written by the user pressing it |
| StickyNotes.UniqueIdsRemoveOne | components/StickyNotes.tsx:38 | with unique ids, deleting an id that is present removes exactly one note |
| StickyNotes.RecipientChoices | components/StickyNotes.tsx:71 | the form offers exactly the roommates other than the current user |
| StickyNotes.FormNeverSelfAddresses | components/StickyNotes.tsx:71-74 | a note built from the form's choices is never addressed to its own author |
| MoneyManager.AddTransaction | components/MoneyManager.tsx:21-31 | with an empty amount field or description nothing changes; otherwise one transaction with the given fields goes in front of the old list |
| MoneyManager.AddTransactionBalance | components/MoneyManager.tsx:21-38 | after an add, the balance rises by the amount of a contribution or falls by the amount of an expense, or stays put when the add is refused |
| MoneyManager.DeleteTransaction | components/MoneyManager.tsx:160 | a transaction survives deletion exactly when it was in the list and has another id |
| MoneyManager.DeleteTransactionKeepsOthersInOrder | components/MoneyManager.tsx:160 | deletion keeps the order of the remaining transactions and every copy of each one with another id |
| MoneyManager.Balance | components/MoneyManager.tsx:36-38 | no ensures of its own: the `balance` reduce from 0; its meaning is stated by BalanceIsContributionsMinusExpenses and BalancePrepend |
| MoneyManager.BalanceIsContributionsMinusExpenses | components/MoneyManager.tsx:36-38 | the left-fold balance from 0 is the sum of the contributions minus the sum of the expenses |
| MoneyManager.BalancePrepend | components/MoneyManager.tsx:37 | putting a transaction in front of the list changes the fold's result by exactly that transaction's signed amount |
| MoneyManager.Expenses | components/MoneyManager.tsx:43 | the filtered list holds exactly the expenses |
| MoneyManager.ExpensesKeepOrder | components/MoneyManager.tsx:43 | the filtered list keeps the ledger's order and every copy of each expense |
| MoneyManager.PayerOrderKeys | components/MoneyManager.tsx:42-47 | the chart's keys are distinct, and a payer is a key exactly when some expense was paid by that payer |
| MoneyManager.PayerTotals | components/MoneyManager.tsx:42-46 | the `forEach` over the expenses leaves the `Map` with keys in first-insertion order and with the contents of the get-or-0, add, set fold |
| MoneyManager.TotalsMapMatches | components/MoneyManager.tsx:42-46 | the `Map`'s keys are exactly the payers with an expense, and each key holds the sum of that payer's expenses |
| MoneyManager.PayerTotalsStep | components/MoneyManager.tsx:44-45 | one iteration (get or 0, add the amount, set) appends the payer to the keys only when the payer is new and keeps keys and contents in step with the expenses seen |
| MoneyManager.PayerName | components/MoneyManager.tsx:48-49 | a payer that matches no roommate is named "未知"; otherwise the name is that of the first roommate with the id, or "未知" when that name is empty |
| MoneyManager.SpendingData | components/MoneyManager.tsx:41-51 | the loop over the expenses yields one slice per key of the insertion-ordered map, each holding the payer's display name and the sum of that payer's expenses |
| MoneyManager.PayerTotalsSum | components/MoneyManager.tsx:42-46 | the chart's values add up to the total of the expenses they were built from |
| MoneyManager.ExpensesTotal | components/MoneyManager.tsx:43 | the filtered expenses sum to the ledger's total expenses |
| MoneyManager.SpendingMatchesExpenses | components/MoneyManager.tsx:41-51 | the chart's values add up to the ledger's total expenses, and its payers are exactly those with an expense |
| MoneyManager.ContributionLeavesSpendingUnchanged | components/MoneyManager.tsx:43 | adding a contribution leaves the chart's input unchanged |
| MoneyManager.PayerOrderFollowsFirstExpense | components/MoneyManager.tsx:42-47 | the chart's payers come in the order of each payer's first expense |
| DutyRoster.InsertByDate | components/DutyRoster.tsx:26 | one step of the comparator sort: the result is one longer than the list; its order and contents are stated by InsertByDatePermutes, InsertByDateSorts, InsertByDateAt and InsertByDateStable |
| DutyRoster.InsertByDatePermutes | components/DutyRoster.tsx:26 | one insertion step adds exactly the new duty and loses or duplicates none of the others |
| DutyRoster.InsertByDateSorts | components/DutyRoster.tsx:26 | one insertion step keeps a date-sorted list sorted |
| DutyRoster.SortByDate | components/DutyRoster.tsx:26 | the `a.date - b.date` sort keeps the length; that it is sorted, a permutation and stable is stated by SortByDateSortsAndPermutes and SortByDateIsStable |
| DutyRoster.SortByDateSortsAndPermutes | components/DutyRoster.tsx:26 | the date sort's result is in date order and is a permutation of its input |
| DutyRoster.InsertByDateAt | components/DutyRoster.tsx:26 | an insertion step puts the new duty after the earlier-or-equal duties and before the later ones |
| DutyRoster.InsertByDateStable | components/DutyRoster.tsx:26 | an insertion step keeps the relative order of the duties of each date, with the new duty last among its date |
| DutyRoster.SortByDateIsStable | components/DutyRoster.tsx:26 | the sort is stable: the duties of each date keep their original order, as the comparator `a.date - b.date` under a stable sort gives |
| DutyRoster.SortByDateOfSorted | components/DutyRoster.tsx:38 | a list already in date order is left as it is |
| DutyRoster.SortInPlace | components/DutyRoster.tsx:26 | the in-place sort leaves the array holding the stable date ordering of its old contents |
| DutyRoster.InsertInPlace | components/DutyRoster.tsx:26 | one pass of the sort inserts the element at `i` into the sorted prefix and leaves the rest of the array unchanged |
| DutyRoster.AddDuty | components/DutyRoster.tsx:18-27 | the new list is the old one with one not-yet-completed duty appended, then stably sorted by date: one longer, sorted, with exactly the old duties plus the new one |
| DutyRoster.SortedDuties | components/DutyRoster.tsx:38 | the display list is the stable date sort of a copy, sorted and a permutation of the stored list |
| DutyRoster.ToggleComplete | components/DutyRoster.tsx:29-31 | toggling keeps the length and every field but the completion flag, and flips that flag exactly on the duties with the given id |
| DutyRoster.ToggleTwiceRestores | components/DutyRoster.tsx:30 | toggling the same id twice restores the list |
| DutyRoster.ToggleAbsentIsNoOp | components/DutyRoster.tsx:30 | toggling an id no duty has changes nothing |
| DutyRoster.DeleteDuty | components/DutyRoster.tsx:33-35 | a duty survives deletion exactly when it was in the list and has another id |
| DutyRoster.DeleteDutyKeepsOthersInOrder | components/DutyRoster.tsx:34 | deletion keeps the order of the remaining duties and every copy of each one with another id |
| DutyRoster.IsOverdueAsWritten | components/DutyRoster.tsx:90 | no ensures of its own: UTC midnight of the duty's date before local midnight, not completed; its meaning per offset is stated by OverdueAsWrittenEastOfUtc, OverdueAsWrittenWestOfUtc and OverdueAsWrittenOnUtc |
| DutyRoster.IsOverdue | components/DutyRoster.tsx:90 | no ensures of its own: the corrected flag, not completed and dated strictly before today; see TodaysDutyIsNeverOverdue and OverdueAsWrittenEastOfUtc |
| DutyRoster.OverdueAsWrittenEastOfUtc | components/DutyRoster.tsx:90 | at or east of UTC, the flag as written is exactly "not completed and dated before the local date" |
| DutyRoster.OverdueAsWrittenWestOfUtc | components/DutyRoster.tsx:90 | west of UTC, the flag as written marks an uncompleted duty dated the local date itself, which is not before today |
| DutyRoster.OverdueAsWrittenOnUtc | components/DutyRoster.tsx:90 | on UTC, the flag as written is exactly "not completed and dated before the UTC date" |
| Clock.UtcDay | components/Dashboard.tsx:16 | the UTC date of an instant is the day whose UTC midnight is at or before it and whose next midnight is after it |
| Clock.LocalMidnight | components/DutyRoster.tsx:90 | `setHours(0,0,0,0)` gives the last local midnight: at most a day before the instant, and at local midnight of the local date |
| Dashboard.TodaysDuty | components/Dashboard.tsx:18-20 | no duty is found exactly when none is dated today; a found duty is dated today and is the first such duty in list order |
| Dashboard.Assignee | components/Dashboard.tsx:22-24 | the assignee is the first roommate whose id is the roommate id of today's duty; there is none exactly when there is no duty today or no roommate has that id |
| Dashboard.IsMyTurn | components/Dashboard.tsx:26 | no ensures of its own: `assignee?.id === currentUser.id`; its meaning is stated by IsMyTurnIff |
| Dashboard.IsMyTurnIff | components/Dashboard.tsx:26 | it is my turn exactly when there is a duty today, some roommate has its roommate id, and that id is mine |
| Dashboard.FirstDutyTodayDecides | components/Dashboard.tsx:18-24 | only the first duty dated today counts: duties after it change neither today's duty nor its assignee |
| Dashboard.FoldFromOffset | components/Dashboard.tsx:28-32 | running the reduce from an accumulator adds that accumulator to the ledger balance |
| Dashboard.TotalBalance | components/Dashboard.tsx:28-32 | no ensures of its own: the `totalBalance` reduce from 0; its meaning is stated by FoldFromOffset and TotalBalanceIsLedgerBalance |
| Dashboard.TotalBalanceIsLedgerBalance | components/Dashboard.tsx:28-32 | the dashboard's total balance equals the ledger's balance |
| Dashboard.TodaysDutyShownOverdueAsWritten | components/Dashboard.tsx:16 | eight hours east of UTC at 02:00 local time, the duty the dashboard shows as today's is flagged overdue by the roster |
| Dashboard.TodaysDutyIsNeverOverdue | components/Dashboard.tsx:18-20 | with one notion of today, the duty shown as today's is never overdue |
| Dashboard.AddThenLookUpScenario | components/Dashboard.tsx:18-26 | after adding one duty for A today to an empty roster, the dashboard shows that duty, and it is A's turn and nobody else's |
| App.Load | App.tsx:16-23 | nothing saved, or empty saved text, gives an empty list; otherwise the list is the parsed text, and a parse failure is an uncaught error |
| App.SavedListReloads | App.tsx:16-32 | a list saved through a serialiser that the parser inverts is loaded back unchanged |
| App.UnparsableSaveFailsLoad | App.tsx:18 | non-empty saved text that does not parse makes the load fail |
| App.SwitchUserTarget | App.tsx:35-39 | when no roommate has the current user's id the first roommate comes next; otherwise the one after the first match does, and the last wraps round to the first |
| App.SwitchUserStaysInList | App.tsx:35-39 | the switcher always picks a member of the roommate list |
| App.SwitchFromIndex | App.tsx:36-37 | with distinct ids, one press moves from each roommate to the next, and from the last to the first |
| App.SwitchCycleReturns | App.tsx:36-38 | with distinct ids, as many presses as there are roommates come back to the starting user |
| App.SharedIdBreaksCycle | App.tsx:36 | when two roommates share an id, three presses from the second of them in a list of three do not come back to it |
| App.MockRoommatesCycle | App.tsx:36-38 | for the seed roommates, four presses from any of them come back to the same one |
| App.RenderView | App.tsx:41-74 | each of 'duty', 'money', 'games' and 'assistant' shows its own screen; every other name shows the dashboard; every screen except the assistant is given the seed roommates; the roster gets the duties, the ledger the transactions, and the dashboard both lists and the current user |
| App.DeclaredViewsRouting | App.tsx:41-74 | of the five names the `ViewState` type declares, exactly 'dashboard' and 'notes' show the dashboard, and none shows the assistant |
| App.UnroutedViewShowsDashboard | App.tsx:67-74 | a name without a case shows exactly what 'dashboard' shows |
| App.RoutedViewsDistinct | App.tsx:42-66 | distinct routed names show distinct screens |
| App.Session.constructor | App.tsx:12-23 | the session starts on the dashboard as the first seed roommate, with the loaded lists |
| App.Session.CurrentScreen | App.tsx:41-74 | the session's view selects the screen (its own screen for each routed name, the dashboard otherwise); every screen except the assistant gets the seed roommates, and each screen gets the session's duties, transactions and current user as `renderView` passes them |
| App.Session.SwitchUser | App.tsx:35-39 | the current user becomes the switcher's next roommate and stays a seed roommate; nothing else changes |
| App.Session.SetView | App.tsx:12 | only the view changes, and the current user stays a seed roommate |
| App.Session.SetDuties | App.tsx:16 | only the duties change, and the current user stays a seed roommate |
| App.Session.SetTransactions | App.tsx:20 | only the transactions change, and the current user stays a seed roommate |
| App.Mount | App.tsx:12-23 | mounting succeeds exactly when both lists load, and then starts a fresh session on the dashboard as the first roommate with the loaded lists; otherwise it fails with the duties' error when those fail to load, and with the transactions' error when only those fail |
| App.MountWithNothingSaved | App.tsx:12-23 | with nothing saved, the app starts on the dashboard as the first roommate with no duties and no transactions |

## Left out

- **Roster form and ledger seed constants.** The task suggestions (`TASKS` in constants.ts:10, the roster form's select options and default) and `INITIAL_BALANCE` (constants.ts:19, not read by any component) are not modelled: the form's input state is outside the model and no core logic reads either value.
- **Rendering.** JSX, styling, the navigation bar, the card component, the recharts pie chart, the `toFixed` balance text and locale date formatting are presentation only.
- **Persistence.**
  - The `localStorage` reads and writes and the two persistence effects are I/O and are not modelled.
  - The saved text arrives as an `Option<string>` parameter.
  - `JSON.parse` is a parameter returning None where it would throw.
  - `JSON.stringify` appears only as a parameter of `App.SavedListReloads`.
- **Clock and ids.**
  - `Date.now()` ids and `new Date()` readings are parameters: an id, an instant, a day number and a time-zone offset.
  - Daylight-saving changes are not modelled: the offset is constant.
- **Numbers.**
  - `parseFloat` and floating-point amounts are replaced by whole cents.
  - `MoneyManager.AddTransaction` takes the parsed amount as a parameter beside the raw text, so NaN amounts from unparsable text are not modelled.
- **Dates.**
  - Duty dates are day numbers, so a malformed date string, which would make the sort comparator return NaN, is not modelled.
  - Dashboard.TodaysDuty compares day numbers where the source compares `YYYY-MM-DD` strings; the two agree for well-formed dates.
- **Form state.** The form-field resets, `showAddForm`, and the selected colour, recipient, task, roommate and date are UI state. They enter the operations as parameters.
- **Notes colours.** `components/StickyNotes.tsx` imports `NOTE_COLORS`, which `constants.ts` does not define. A note's colour is a free string here.
- **Notes board reachability.**
  - App.RenderView never routes 'notes', and the session holds no notes state. This follows the code.
  - The notes operations are modelled on their own, over a list passed in.
- **Load errors.** App.Load follows the code, where a parse failure is not caught and stops the mount. It does not fall back to an empty list on a parse error.
- **App.SwitchUserTarget**: requires a non-empty roommate list. The source only ever passes the four seed roommates; with an empty list it would index with NaN.
- **Other components.**
  - The party games (a random pick), the AI chat and its service are not part of this model.
  - `components/Games.tsx`, `components/AIChat.tsx` and `services/geminiService.ts` are not part of this model.
- **Concurrency.** React's batching and stale closures are not modelled: each operation reads the list it is given.

## Findings

| source | as written | input that shows it | evidently intended | confidence | as-written member | corrected member |
|---|---|---|---|---|---|---|
| components/DutyRoster.tsx:90 | `isPast` compares `new Date(duty.date)`, which is midnight UTC of the date, with the last local midnight. The dashboard (components/Dashboard.tsx:16) takes the UTC date as today. | West of UTC (offset -5 h), an uncompleted duty dated the local date is flagged overdue on its own day. Eight hours east of UTC, at 02:00 local (now = 20000 days + 18 h UTC), the duty the dashboard shows as today's is flagged overdue. | A duty is overdue when it is not completed and its date is strictly before today, with the same "today" as the dashboard. | not executed | DutyRoster.IsOverdueAsWritten, DutyRoster.OverdueAsWrittenWestOfUtc, Dashboard.TodaysDutyShownOverdueAsWritten | DutyRoster.IsOverdue, Dashboard.TodaysDutyIsNeverOverdue |
