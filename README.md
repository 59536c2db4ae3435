# Dawn OMSZ duty log — a Dafny model of its handlers

The application is a single-page browser tool for a volunteer ambulance
service. Members log in, record duty shifts ("services") and case reports
with a billed amount, and price treatments in a calculator. An
administrator (the username `asd`) sees every record together with
per-name statistics. All state lives in the browser's local storage, and
on Sunday at 20:00 a weekly rollover archives the week and clears it.

This project models the rules inside the React handlers and derived
values. The markup is not modelled.

- `Records` holds the stored entities and the store itself: a class with
  the `users`, `services`, `reports` and `weeklyAnalyses` keys.
  `users` is `Option<seq<User>>` so that an absent key can be told apart
  from an empty list.
- `Ledger` holds the bookkeeping shared by every "group by name"
  reduction: filtering by key, per-key sums and counts, keys in order of
  first appearance (the order `Object.entries` returns), and the
  `{ count, total }` summary built by an upsert fold.
- `Text` holds joining, splitting, decimal digits, and the
  thousands-grouping regular expression of the report form's amount
  formatter.
- `WeeklyReset`, `ServiceSubmission`, `ServiceOverview`, `ReportOverview`,
  `ReportSubmission`, `Calculator`, `Login` and `Page` follow the
  components of the same names. Each component's state is a class whose
  methods are its handlers. Its derived values are functions that read
  that state. The filters and reductions they use are specified by
  functions and lemmas.

The wall clock, ids, timestamps, and the answer to the confirmation
dialog are method parameters. Amounts and durations are unbounded
integers. Date fields hold a timestamp in milliseconds, or `None` while
they are empty.

Behaviours of the code worth noting:

- The seeded administrator record has only a username and a password,
  with no full name and no rank. `User.fullName` and `User.rank` are
  therefore optional.
- On a tie with the leader, "minutes to be first" is 1, not 0, because
  it is `max(0, top - user + 1)`.
- With no shifts at all the leader's total is `Math.max()` of nothing,
  which is `-Infinity`. It is modelled as `None`, and "minutes to be
  first" is then 0.
- Deleting a shift stores the filtered list that still carries the row
  numbers from before the delete. Only the displayed list is renumbered.

## Model

| member | source | states |
|---|---|---|
| Records.LocalStore.UserList | dawn-omsz-calculator/components/ServiceSubmission.tsx:24 | definition of the stored user list (also read at components/ReportSubmission.tsx:41): a missing `users` entry reads as the empty list; it is the list every `FindUser` and `FindCredential` call of the form and page handlers searches |
| Records.FindUser | dawn-omsz-calculator/components/ServiceSubmission.tsx:24-27 | a user is found iff some stored user has that username, and the result is a stored user with that username |
| Records.FindUserFirst | dawn-omsz-calculator/components/ServiceSubmission.tsx:24-27 | the user found is the first stored user with that username |
| WeeklyReset.IsResetInstant | dawn-omsz-calculator/components/WeeklyReset.tsx:9-13 | definition of the rollover trigger (day 0, hour 20, minute 0); its once-a-week property is `OncePerWeek` |
| WeeklyReset.OncePerWeek | dawn-omsz-calculator/components/WeeklyReset.tsx:9-13 | over the minutes of a week the trigger holds at exactly one minute, Sunday 20:00 |
| WeeklyReset.CheckTimeAndReset | dawn-omsz-calculator/components/WeeklyReset.tsx:7-31 | at Sunday 20:00 one snapshot of the old services and reports is appended after the earlier analyses and both lists are emptied; at any other instant nothing changes; `users` is outside its frame |
| WeeklyReset.ResetTwice | dawn-omsz-calculator/components/WeeklyReset.tsx:13-28 | two rollovers in a row add two snapshots, the first with the week's records and the second empty, keep the earlier history and leave `users` alone |
| ServiceSubmission.DurationInMinutes | dawn-omsz-calculator/components/ServiceSubmission.tsx:39-41 | the duration is the largest whole number of minutes not exceeding the millisecond difference (floor division) |
| ServiceSubmission.NegativeIffEndsBeforeStart | dawn-omsz-calculator/components/ServiceSubmission.tsx:41-50 | the duration is negative exactly when the shift ends before it starts |
| ServiceSubmission.SubmissionScenarios | dawn-omsz-calculator/components/ServiceSubmission.tsx:39-50 | 10:00 to 10:45 gives 45 minutes; an end before the start gives a negative duration |
| ServiceSubmission.ServiceSubmission.constructor | dawn-omsz-calculator/components/ServiceSubmission.tsx:16-21 | the form starts with every field empty |
| ServiceSubmission.ServiceSubmission.PrefillFromUser | dawn-omsz-calculator/components/ServiceSubmission.tsx:23-35 | name and rank are copied from the user whose username is the logged-in one (a missing field becomes ""); without such a user the form is unchanged |
| ServiceSubmission.ServiceSubmission.HandleInputChange | dawn-omsz-calculator/components/ServiceSubmission.tsx:76-79 | typing into a date input replaces only that date field |
| ServiceSubmission.ServiceSubmission.HandleSubmit | dawn-omsz-calculator/components/ServiceSubmission.tsx:37-74 | accepted iff start <= end; a rejection changes neither store nor form; an acceptance appends exactly one record with the form's fields and the duration, which is non-negative, and empties only start and end |
| ServiceOverview.WithIndex | components/ServiceOverview.tsx:32-35 | every shift keeps its position and gets `globalIndex` = position + 1 |
| ServiceOverview.Minutes | components/ServiceOverview.tsx:45-52 | each shift credits its duration to its `serviceName`, position by position |
| ServiceOverview.OwnedBy | components/ServiceOverview.tsx:46 | definition of the owner filter; its properties are `OwnedByAppend`, `OwnedByMember` and `OwnedByNobody` |
| ServiceOverview.OwnedByAppend | components/ServiceOverview.tsx:68-69 | the owner filter distributes over concatenation, so it keeps relative order |
| ServiceOverview.OwnedByMember | components/ServiceOverview.tsx:68-69 | a shift is visible iff it is in the list and its `serviceName` is the viewer's name |
| ServiceOverview.OwnedByMembers | components/ServiceOverview.tsx:68-69 | the same for every shift at once |
| ServiceOverview.OwnedByNobody | components/ServiceOverview.tsx:45-46 | an undefined full name owns no shift |
| ServiceOverview.WithoutId | components/ServiceOverview.tsx:88 | definition of the delete filter; its properties are `WithoutIdAppend`, `WithoutIdMember` and `WithoutAbsentId` |
| ServiceOverview.WithoutIdAppend | components/ServiceOverview.tsx:88 | the delete filter distributes over concatenation, so the survivors keep relative order |
| ServiceOverview.WithoutIdMember | components/ServiceOverview.tsx:88 | a shift survives iff it is in the list and has another id |
| ServiceOverview.WithoutAbsentId | components/ServiceOverview.tsx:88 | deleting an id no shift has changes nothing |
| ServiceOverview.WithIndexRenumbers | components/ServiceOverview.tsx:89-92 | numbering ignores the numbers a list already carries |
| ServiceOverview.MinutesIgnoreIndex | components/ServiceOverview.tsx:32-47 | numbering the shifts does not change whose minutes they are |
| ServiceOverview.OwnedMinutes | components/ServiceOverview.tsx:45-47 | the viewer's shifts credit exactly the minutes recorded under their name |
| ServiceOverview.OwnerMinutes | components/ServiceOverview.tsx:45-47 | the viewer's minutes are the sum of durations under their full name, and 0 for an undefined name |
| ServiceOverview.AddMinutes | components/ServiceOverview.tsx:50 | definition of one reduce step of `servicesByUser`; its properties are `AddMinutesNew` and `AddMinutesExisting` |
| ServiceOverview.AddMinutesNew | components/ServiceOverview.tsx:49-52 | a name not yet in the totals is appended with its duration |
| ServiceOverview.AddMinutesExisting | components/ServiceOverview.tsx:49-52 | a name already in the totals has only its own entry increased |
| ServiceOverview.AddMinutesStepKnown | components/ServiceOverview.tsx:49-52 | one reduce step for a known name keeps the totals exact |
| ServiceOverview.AddMinutesStepNew | components/ServiceOverview.tsx:49-52 | one reduce step for a new name keeps the totals exact |
| ServiceOverview.MinutesAppend | components/ServiceOverview.tsx:49-52 | the credited minutes of two lists are those of each, in order |
| ServiceOverview.TotalsByName | components/ServiceOverview.tsx:49-52 | definition of `servicesByUser` as a left fold; its properties are `TotalsByNameCorrect`, `TotalsByNameLookup` and `TotalsOrderIndependent` |
| ServiceOverview.TotalsByNameCorrect | components/ServiceOverview.tsx:49-52 | `servicesByUser` has one entry per distinct name, in order of first appearance, holding that name's minute sum |
| ServiceOverview.TotalsIgnoreIndex | components/ServiceOverview.tsx:32-52 | the per-name totals of the numbered list equal those of the stored list |
| ServiceOverview.TotalsByNameLookup | components/ServiceOverview.tsx:49-52 | a name has an entry iff it owns a shift, and that entry holds its minute sum |
| ServiceOverview.RowMinutesOver | components/ServiceOverview.tsx:49-52 | the entries' minutes add up to the sum over their names |
| ServiceOverview.TotalsAddUp | components/ServiceOverview.tsx:49-52 | the per-name totals add up to the sum of all durations |
| ServiceOverview.MinutesPermutation | components/ServiceOverview.tsx:49-52 | reordering the shifts reorders their credited minutes |
| ServiceOverview.TotalsOrderIndependent | components/ServiceOverview.tsx:49-52 | each name's total and whether it appears do not depend on the order of the shifts |
| ServiceOverview.Leader | components/ServiceOverview.tsx:54 | the leader value is absent iff there are no totals |
| ServiceOverview.LeaderIsMaximum | components/ServiceOverview.tsx:54 | with totals present the leader value bounds every total and is one of them |
| ServiceOverview.GapToFirst | components/ServiceOverview.tsx:97 | never negative; 0 without a leader; 0 exactly when the viewer is strictly ahead; otherwise exactly enough to pass the leader by one |
| ServiceOverview.LeaderBoundsEveryone | components/ServiceOverview.tsx:45-54 | with shifts on record and no negative durations there is a leader, and no name has more minutes |
| ServiceOverview.ViewerBehindLeader | components/ServiceOverview.tsx:97 | under the same conditions the viewer is never ahead, so they always need at least one minute |
| ServiceOverview.ScenarioTotals | components/ServiceOverview.tsx:49-52 | shifts of 100 minutes by A and 150 by B give the totals A 100, B 150 in that order |
| ServiceOverview.ScenarioOwner | components/ServiceOverview.tsx:45-47 | in that scenario A's own minutes are 100 |
| ServiceOverview.LeaderScenario | components/ServiceOverview.tsx:45-97 | with A at 100 and B at 150 the leader has 150 and A needs 51 |
| ServiceOverview.ServiceOverview.constructor | components/ServiceOverview.tsx:24-27 | the initial state: no shifts, name "", leader 0, viewer 0 |
| ServiceOverview.FiguresIgnoreIndex | components/ServiceOverview.tsx:32-54 | the viewer's minutes and the leader's total are the same on the numbered and the stored list |
| ServiceOverview.LoadedFigures | components/ServiceOverview.tsx:45-54 | the loaded figures are the owner's minutes and the leader's total of the stored shifts; with shifts and no negative durations the owner is at most the leader and needs at least a minute |
| ServiceOverview.ServiceOverview.LoadServices | components/ServiceOverview.tsx:30-57 | the shifts are the stored ones numbered 1..n; the name is taken from the matching user; the viewer's minutes and the leader come from the stored shifts; with shifts and no negative durations the viewer is at most the leader and needs at least a minute |
| ServiceOverview.ServiceOverview.FilteredServices | components/ServiceOverview.tsx:68-69 | the administrator sees every shift; anyone else sees exactly the shifts under their name |
| ServiceOverview.ServiceOverview.TotalMinutes | components/ServiceOverview.tsx:71 | for the administrator it is the sum of the per-name totals; for anyone else it is their own minutes |
| ServiceOverview.ServiceOverview.MinutesToBeFirst | components/ServiceOverview.tsx:97 | never negative; 0 without a leader; 0 exactly when the viewer is strictly ahead |
| ServiceOverview.ServiceOverview.HandleDelete | components/ServiceOverview.tsx:87-95 | the store receives the shifts without that id, in order; the display holds the same shifts numbered 1..n |
| ReportOverview.Tickets | dawn-omsz-calculator/components/ReportOverview.tsx:69 | each report credits its ticket to its author, position by position |
| ReportOverview.ByAuthor | dawn-omsz-calculator/components/ReportOverview.tsx:65-66 | definition of the author filter; its properties are `ByAuthorAppend`, `ByAuthorMember` and `ByAuthorNobody` |
| ReportOverview.ByAuthorAppend | dawn-omsz-calculator/components/ReportOverview.tsx:65-66 | the author filter distributes over concatenation, so it keeps relative order |
| ReportOverview.ByAuthorMember | dawn-omsz-calculator/components/ReportOverview.tsx:65-66 | a report is visible iff it is in the list and its author is the viewer |
| ReportOverview.ByAuthorMembers | dawn-omsz-calculator/components/ReportOverview.tsx:65-66 | the same for every report at once |
| ReportOverview.ByAuthorTickets | dawn-omsz-calculator/components/ReportOverview.tsx:66-69 | the viewer's reports carry exactly the tickets recorded under their name |
| ReportOverview.ByAuthorNobody | dawn-omsz-calculator/components/ReportOverview.tsx:66 | an undefined name authored no report |
| ReportOverview.WithoutReport | dawn-omsz-calculator/components/ReportOverview.tsx:41 | definition of the delete filter; its properties are `WithoutReportAppend` and `WithoutReportMember` |
| ReportOverview.WithoutReportAppend | dawn-omsz-calculator/components/ReportOverview.tsx:41 | deleting keeps the other reports in relative order |
| ReportOverview.WithoutReportMember | dawn-omsz-calculator/components/ReportOverview.tsx:41 | a report survives iff it is in the list and has another id |
| ReportOverview.Numbered | dawn-omsz-calculator/components/ReportOverview.tsx:146-148 | row i shows number i + 1 and the i-th report |
| ReportOverview.NameSummary | dawn-omsz-calculator/components/ReportOverview.tsx:105-116 | one `{ count, total }` entry per author in order of first appearance; counts add up to the number of reports and totals to the ticket sum |
| ReportOverview.ReportOverview.constructor | dawn-omsz-calculator/components/ReportOverview.tsx:26-27 | no reports and name "" |
| ReportOverview.ReportOverview.Load | dawn-omsz-calculator/components/ReportOverview.tsx:29-37 | the reports are the stored ones; the name is taken from the matching user, and is unchanged without one |
| ReportOverview.ReportOverview.HandleDelete | dawn-omsz-calculator/components/ReportOverview.tsx:39-45 | declining changes nothing; confirming keeps exactly the reports with another id and writes that same list to the store |
| ReportOverview.ReportOverview.FilteredReports | dawn-omsz-calculator/components/ReportOverview.tsx:65-66 | the administrator sees every report; anyone else sees exactly their own |
| ReportOverview.ReportOverview.TotalReports | dawn-omsz-calculator/components/ReportOverview.tsx:68 | all reports for the administrator; otherwise the number of reports under the viewer's name |
| ReportOverview.ReportOverview.TotalAmount | dawn-omsz-calculator/components/ReportOverview.tsx:69 | the ticket sum of all reports for the administrator; otherwise the tickets under the viewer's name |
| ReportOverview.ReportOverview.Rows | dawn-omsz-calculator/components/ReportOverview.tsx:146-148 | as many rows as visible reports, numbered 1..n within the filtered list |
| ReportOverview.ReportOverview.UserSummary | dawn-omsz-calculator/components/ReportOverview.tsx:105-116 | taken over all loaded reports: per-author count and total, adding up to the report count and ticket sum |
| ReportSubmission.SummaryKey | components/ReportSubmission.tsx:107 | definition of the summary key `yourName (colleagueName - colleagueRank)`; used by `Filing` |
| ReportSubmission.Filing | components/ReportSubmission.tsx:105-107 | each report is filed under `yourName (colleagueName - colleagueRank)` with its ticket and image link |
| ReportSubmission.Amounts | components/ReportSubmission.tsx:105-112 | each filed report credits its ticket to its key |
| ReportSubmission.ImagesFor | components/ReportSubmission.tsx:113-115 | definition of a key's image list; its properties are `ImagesForMember` and `ImagesAtMostCount` |
| ReportSubmission.ImagesForMember | components/ReportSubmission.tsx:113-115 | a link is among a key's images iff a report with that key carries it and it is non-empty |
| ReportSubmission.AmountsSnoc | components/ReportSubmission.tsx:105-112 | unfolding helper: the defining equation of `Amounts` at one more report |
| ReportSubmission.ImagesForSnoc | components/ReportSubmission.tsx:113-115 | unfolding helper: the defining equation of `ImagesFor` at one more report |
| ReportSubmission.ImagesAtMostCount | components/ReportSubmission.tsx:111-115 | a key never has more images than reports |
| ReportSubmission.RowOf | components/ReportSubmission.tsx:108-110 | the row holding the key, or the end of the summary when `!acc[key]` |
| ReportSubmission.Bumped | components/ReportSubmission.tsx:111-115 | definition of one report's effect on its key's entry: count one more, total raised by the ticket, link pushed only when non-empty; its properties are `ExpectedSnoc`, `SummaryStepKnown` and `SummaryStepNew` |
| ReportSubmission.ExpectedSnoc | components/ReportSubmission.tsx:108-115 | one more report bumps its own key's entry and no other |
| ReportSubmission.ExpectedAbsent | components/ReportSubmission.tsx:108-110 | a key with no reports starts from `{ count: 0, total: 0, images: [] }` |
| ReportSubmission.SummaryStepKnown | components/ReportSubmission.tsx:111-115 | updating an existing key's entry keeps the summary exact |
| ReportSubmission.SummaryStepNew | components/ReportSubmission.tsx:108-115 | creating and bumping the entry of a new key keeps the summary exact |
| ReportSubmission.AsTallies | components/ReportSubmission.tsx:105-119 | the summary's counts and totals, entry by entry |
| ReportSubmission.SummaryAddsUp | components/ReportSubmission.tsx:105-119 | the counts add up to the number of reports and the totals to the ticket sum |
| ReportSubmission.FormatAmount | components/ReportSubmission.tsx:99-103 | definition of `formatAmount`; its properties are `FormatAmountShape` and `FormatAmountNegative` |
| ReportSubmission.FormatAmountShape | components/ReportSubmission.tsx:99-103 | for a non-negative amount: ends in `$`; without spaces it is the amount's decimal digits; the groups are 1 to 3 digits, then exactly 3 |
| ReportSubmission.FormatAmountNegative | components/ReportSubmission.tsx:99-103 | a negative amount is its magnitude's text after a minus sign, with no space after the sign |
| ReportSubmission.FormatAmountThreeDigits | components/ReportSubmission.tsx:99-103 | 999 is written `999$` |
| ReportSubmission.FormatAmountFourDigits | components/ReportSubmission.tsx:99-103 | 1234 is written `1 234$` |
| ReportSubmission.FormatAmountNegativeExample | components/ReportSubmission.tsx:99-103 | -1500 is written `-1 500$` |
| ReportSubmission.CaseDescription | components/ReportSubmission.tsx:32 | definition of the hand-off description, the names joined by ", "; used by the constructor and `SyncProps` |
| ReportSubmission.ReportSubmission.constructor | components/ReportSubmission.tsx:26-35 | no reports; the description is the selected names joined by ", " and the ticket is the handed-over total |
| ReportSubmission.ReportSubmission.Load | components/ReportSubmission.tsx:37-52 | reports come from the store; name and rank are prefilled from the matching user; without one the form is unchanged |
| ReportSubmission.ReportSubmission.SyncProps | components/ReportSubmission.tsx:54-60 | only the description and the ticket follow the new hand-off |
| ReportSubmission.WithText | components/ReportSubmission.tsx:94-97 | after `{ ...prev, [name]: value }` the chosen input shows the value, every other text input is as before, and the read-only name and rank and the ticket are unchanged |
| ReportSubmission.ReportSubmission.HandleTextChange | components/ReportSubmission.tsx:94-97 | typing into a text input replaces only that field of the form |
| ReportSubmission.ReportSubmission.HandleTicketChange | components/ReportSubmission.tsx:94-97 | typing into the ticket input replaces only the ticket |
| ReportSubmission.ReportSubmission.HandleSubmit | components/ReportSubmission.tsx:62-92 | exactly one report with the form's fields is appended and that list is stored; then everything but name and rank is cleared and the ticket is 0 |
| ReportSubmission.ReportSubmission.UserReportSummary | components/ReportSubmission.tsx:105-119 | the loop builds the exact per-key summary of counts, totals and non-empty links; counts add up to the number of reports and totals to the ticket sum |
| Calculator.Find | dawn-omsz-calculator/components/Calculator.tsx:33 | absent iff no catalogue entry has the id; otherwise the first entry with it |
| Calculator.CatalogueWellFormed | dawn-omsz-calculator/components/Calculator.tsx:10-17 | the catalogue ids are distinct, every price is positive and every name is non-empty |
| Calculator.Price | dawn-omsz-calculator/components/Calculator.tsx:33-34 | definition of a selected id's price; its property is `PriceOfId` |
| Calculator.PriceOfId | dawn-omsz-calculator/components/Calculator.tsx:32-35 | a known id costs its catalogue price; an unknown one adds 0 |
| Calculator.Total | dawn-omsz-calculator/components/Calculator.tsx:32-35 | definition of `total` as a left fold; its properties are `TotalAppend`, `TotalPermutation`, `TotalWithout` and `TotalToggled` |
| Calculator.TotalAppend | dawn-omsz-calculator/components/Calculator.tsx:32-35 | the total of two selections is the sum of their totals |
| Calculator.TotalPermutation | dawn-omsz-calculator/components/Calculator.tsx:32-35 | the total does not depend on the order of the selection |
| Calculator.Without | dawn-omsz-calculator/components/Calculator.tsx:28 | definition of the removal filter; its properties are `WithoutMember`, `WithoutAbsent` and `WithoutKeepsNoDuplicates` |
| Calculator.WithoutMember | dawn-omsz-calculator/components/Calculator.tsx:28 | an id survives removal iff it was selected and is not the removed one |
| Calculator.WithoutAbsent | dawn-omsz-calculator/components/Calculator.tsx:28 | removing an unselected id changes nothing |
| Calculator.WithoutKeepsNoDuplicates | dawn-omsz-calculator/components/Calculator.tsx:28 | removal keeps the selection free of duplicates |
| Calculator.Toggled | dawn-omsz-calculator/components/Calculator.tsx:27-29 | definition of the toggle; its properties are `ToggledMember`, `ToggleKeepsNoDuplicates`, `ToggleTwice` and `TotalToggled` |
| Calculator.ToggledMember | dawn-omsz-calculator/components/Calculator.tsx:26-30 | after a toggle the id is selected iff it was not; every other id is as before |
| Calculator.ToggleKeepsNoDuplicates | dawn-omsz-calculator/components/Calculator.tsx:26-30 | a toggle keeps the selection free of duplicates |
| Calculator.ToggleTwice | dawn-omsz-calculator/components/Calculator.tsx:26-30 | toggling an unselected id twice restores the exact selection |
| Calculator.TotalWithout | dawn-omsz-calculator/components/Calculator.tsx:28-35 | removing a selected id lowers the total by its price |
| Calculator.TotalToggled | dawn-omsz-calculator/components/Calculator.tsx:26-35 | a toggle changes the total by exactly the id's price, down when it was selected and up otherwise |
| Calculator.SelectedNames | dawn-omsz-calculator/components/Calculator.tsx:39-41 | definition of the handed-over names: each selected id looked up in the catalogue, unknown ids and empty names dropped by `filter(Boolean)`; its properties are `FoundNameNonEmpty` and `SelectedNamesOnePerId` |
| Calculator.FoundNameNonEmpty | dawn-omsz-calculator/components/Calculator.tsx:39-41 | with no empty names in the catalogue, a found treatment survives `filter(Boolean)` |
| Calculator.SelectedNamesOnePerId | dawn-omsz-calculator/components/Calculator.tsx:39-41 | for known ids the names come one per id, in selection order |
| Calculator.Calculator.constructor | dawn-omsz-calculator/components/Calculator.tsx:24 | nothing is selected |
| Calculator.Calculator.HandleServiceToggle | dawn-omsz-calculator/components/Calculator.tsx:26-30 | the selection is toggled and stays free of duplicates |
| Calculator.Calculator.CurrentTotal | dawn-omsz-calculator/components/Calculator.tsx:32-35 | definition of the component's `total` as `Total` of the selection; see `TotalToggled` |
| Calculator.Calculator.HandleReportSubmit | dawn-omsz-calculator/components/Calculator.tsx:37-44 | nothing is handed over iff nothing is selected; otherwise the names in selection order go with the total, one name per known id |
| Login.FindCredential | components/Login.tsx:22-25 | a user is found iff some stored user has both that username and that password |
| Login.SeededAdministrator | components/Login.tsx:22-25 | with the seeded list, `asd` logs in with password `1134` and no other |
| Login.Login.constructor | components/Login.tsx:15-17 | username, password and error start empty |
| Login.Login.SetCredentials | components/Login.tsx:49-60 | the fields hold what was typed |
| Login.Login.HandleSubmit | components/Login.tsx:19-31 | the page is told iff the credentials match, and it receives the typed username; otherwise the error message is set; the store is only read |
| Page.PanelFor | dawn-omsz-calculator/app/page.tsx:264-272 | the account panel appears iff the tab is `account` and the user is `asd`; the report panel appears iff the tab is `report` and it carries the handed-over selection and total |
| Page.SeedUsers | dawn-omsz-calculator/app/page.tsx:28-32 | an absent user list becomes the single administrator `asd`/`1134`; an existing list is untouched |
| Page.Page.constructor | dawn-omsz-calculator/app/page.tsx:20-25 | nobody is logged in, the tab is `home`, nothing is selected and both menus are closed |
| Page.Page.View | dawn-omsz-calculator/app/page.tsx:88-272 | only the login form shows iff nobody is logged in; the account button shows iff the user is `asd`; the account view shows iff the user is `asd` and the tab is `account` |
| Page.Page.SetLoggedInUser | dawn-omsz-calculator/app/page.tsx:89 | the user is the one the login form names |
| Page.Page.SignIn | dawn-omsz-calculator/app/page.tsx:88-90 | the page logs the typed user in iff the credentials match a stored user, and the store is unchanged |
| Page.Page.HandleLogout | dawn-omsz-calculator/app/page.tsx:34-37 | the user becomes "" and the tab `home` |
| Page.Page.HandleInactivity | dawn-omsz-calculator/app/page.tsx:39-48 | nothing changes when nobody is logged in; otherwise a logout; either way the login form shows |
| Page.Page.HandleReportSubmit | dawn-omsz-calculator/app/page.tsx:58-66 | the selection and total are stored, the tab becomes `report`, and a logged-in user sees the report panel with them |
| Page.Page.HandleTabChange | dawn-omsz-calculator/app/page.tsx:68-74 | the tab is the chosen one |
| Page.Page.HandleDropdownToggle | dawn-omsz-calculator/app/page.tsx:76-86 | the named menu flips and the other keeps its state |
| Page.Page.ToggleTwice | dawn-omsz-calculator/app/page.tsx:76-86 | toggling the same menu twice restores both menus |
| Ledger.OnlyMember | components/ServiceOverview.tsx:46 | an entry survives the key filter iff it is in the list and has the key |
| Ledger.Keys | dawn-omsz-calculator/components/ReportOverview.tsx:105-117 | the keys without repetition, exactly those that occur |
| Ledger.Total | dawn-omsz-calculator/components/ReportOverview.tsx:69 | definition of the sum `reduce` over the filtered records (also the minutes sum at components/ServiceOverview.tsx:71); its properties are `TotalAppend` and `AmountsAddUp` |
| Ledger.TotalAppend | dawn-omsz-calculator/components/ReportOverview.tsx:69 | the sum over two lists is the sum of their sums |
| Ledger.OnlyAppend | components/ServiceOverview.tsx:46 | filtering by key distributes over concatenation |
| Ledger.AmountForAppend | components/ServiceOverview.tsx:49-52 | a key's sum and count over two lists are the sums of each |
| Ledger.AmountForSnoc | components/ServiceOverview.tsx:49-52 | one more entry changes only its own key's sum and count |
| Ledger.AbsentKey | components/ServiceOverview.tsx:50 | a key that never occurs has sum and count 0 (the `|| 0`) |
| Ledger.AmountForNonNegative | components/ServiceOverview.tsx:45-47 | non-negative entries give a non-negative sum |
| Ledger.KeysSnoc | dawn-omsz-calculator/components/ReportOverview.tsx:108-110 | unfolding helper: the defining equation of `Keys` at one more entry |
| Ledger.SumOverSnoc | dawn-omsz-calculator/components/ReportOverview.tsx:105-116 | one more entry raises the per-key sums and counts over distinct keys by its own share |
| Ledger.AmountsAddUp | dawn-omsz-calculator/components/ReportOverview.tsx:105-116 | per-key sums add up to the total |
| Ledger.CountsAddUp | dawn-omsz-calculator/components/ReportOverview.tsx:105-116 | per-key counts add up to the number of entries |
| Ledger.PermutationUnsnoc | components/ServiceOverview.tsx:49-52 | the last entry of a list occurs in any reordering of it, and removing it from both leaves reorderings of each other |
| Ledger.AmountForPermutation | components/ServiceOverview.tsx:49-52 | a key's sum and count do not depend on the order of the entries |
| Ledger.KeysPermutation | components/ServiceOverview.tsx:49-52 | whether a key appears does not depend on the order of the entries |
| Ledger.Tick | dawn-omsz-calculator/components/ReportOverview.tsx:107-113 | definition of one reduce step of the per-author summary; its properties are `TickNew`, `TickExisting` and `TickStep` |
| Ledger.TickNew | dawn-omsz-calculator/components/ReportOverview.tsx:108-112 | a new key is appended with count 1 and its amount |
| Ledger.TickExisting | dawn-omsz-calculator/components/ReportOverview.tsx:111-112 | an existing key has only its own entry bumped |
| Ledger.TickStep | dawn-omsz-calculator/components/ReportOverview.tsx:106-114 | one reduce step keeps the summary exact |
| Ledger.TickStepKnown | dawn-omsz-calculator/components/ReportOverview.tsx:111-112 | the step for a key already summarized keeps it exact |
| Ledger.TickStepNew | dawn-omsz-calculator/components/ReportOverview.tsx:108-112 | the step for a new key keeps it exact |
| Ledger.Summary | dawn-omsz-calculator/components/ReportOverview.tsx:105-116 | definition of the per-author summary as a left fold; its property is `SummaryCorrect` |
| Ledger.SummaryCorrect | dawn-omsz-calculator/components/ReportOverview.tsx:105-116 | the fold gives one entry per key in order of first appearance, holding that key's count and sum |
| Ledger.RowSums | dawn-omsz-calculator/components/ReportOverview.tsx:105-116 | entries that hold per-key counts and sums add up to the counts and sums over those keys |
| Ledger.TalliesAddUp | dawn-omsz-calculator/components/ReportOverview.tsx:105-116 | an exact summary's counts add up to the number of entries and its totals to their sum |
| Text.Join | components/ReportSubmission.tsx:32 | definition of `join(sep)` (also at components/ReportSubmission.tsx:57): the parts in order with `sep` between neighbours; its properties are `SplitJoin` and `RegexSpacedIsJoinedChunks` |
| Text.SplitJoin | components/ReportSubmission.tsx:102 | splitting at a one-character separator gives back the joined parts when none of them contains it |
| Text.Digits | components/ReportSubmission.tsx:100-101 | `toString` of a natural number is non-empty, all digits, and has no leading zero |
| Text.DigitsValue | components/ReportSubmission.tsx:100-101 | reading the digits back gives the number |
| Text.ChunkSizes | components/ReportSubmission.tsx:102 | grouping from the right gives a first group of 1 to 3 digits and then groups of 3 |
| Text.RegexSpacedPrefix | components/ReportSubmission.tsx:102 | definition of the replace over the first `n` digits: a space before position `i` iff `i > 0` (`\B`) and the digits from `i` to the end are a positive multiple of three (`(?=(\d{3})+(?!\d))`); its properties are `RegexSpacedPrefixDrop3` and `RegexSpacedSplitsLastGroup` |
| Text.RegexSpaced | components/ReportSubmission.tsx:102 | definition of `replace(/\B(?=(\d{3})+(?!\d))/g, " ")` on a digit string, as the prefix replace over all its digits; its properties are `RegexSpacedIsJoinedChunks` and `RegexSpacedGroups` |
| Text.RegexSpacedPrefixDrop3 | components/ReportSubmission.tsx:102 | dropping the last three digits leaves the spacing of every earlier prefix unchanged, because a space depends only on the distance to the end modulo 3 |
| Text.RegexSpacedSplitsLastGroup | components/ReportSubmission.tsx:102 | for more than three digits the last three are separated from the rest by a space |
| Text.RegexSpacedIsJoinedChunks | components/ReportSubmission.tsx:102 | the regular expression's output is the right-to-left groups joined by spaces |
| Text.RegexSpacedGroups | components/ReportSubmission.tsx:100-102 | dropping the spaces gives back the digits, and splitting at spaces gives back the groups |

## Left out

- `useInactivityTimer` (its timers and DOM listeners): only the resulting inactivity callback is modelled, as `Page.Page.HandleInactivity`.
- The inactivity timer resets made by the page handlers are not modelled, for the same reason.
- Toasts, `console.log` and the `servicesUpdated` window event: they are notifications with no effect on stored state.
- Date parsing and formatting (`new Date`, `toISOString`, `toLocaleString("hu-HU")`) and `Date.now()` ids: these are opaque parameters.
- An empty or malformed date string turns into `NaN` in the shift form. Date fields are `required` in the form, so `ServiceSubmission.ServiceSubmission.HandleSubmit` requires both to be filled.
- `Number.parseFloat(value) || 0` in the report form's `handleInputChange`: amounts are integers, so `ReportSubmission.ReportSubmission.HandleTicketChange` takes the parsed ticket.
- Text in the shift form's date inputs: `ServiceSubmission.ServiceSubmission.HandleInputChange` takes the instant the text denotes, or `None` when the input is empty.
- `Math.floor` in the report form's `formatAmount` has no counterpart, because amounts are integers.
- JavaScript number precision (doubles) and very large amounts: integers are unbounded.
- `JSON.parse`/`JSON.stringify` and corrupted storage: the store holds typed sequences.
- `window.confirm` becomes a boolean parameter. `setInterval` polling becomes one call per tick with the day, hour and minute as arguments.
- Names inherited from `Object.prototype`: `ServiceOverview.AddMinutes`/`ServiceOverview.TotalsByName` (`servicesByUser`) and `Ledger.Tick`/`Ledger.Summary` (the per-author summary) treat every name as a fresh key. In JavaScript, a shift whose serviceName is `constructor` makes that row a string and the leader `NaN`. A report whose yourName is `toString` is never listed by `Object.entries`. The model describes names that are not `Object.prototype` properties (`constructor`, `toString`, `valueOf`, `hasOwnProperty`, `__proto__` and the like). The report form's summary key always contains ` (`, so it cannot collide with them.
- Object key order: JavaScript lists integer-like keys such as "12" before other keys in `Object.entries`. The summaries keep plain insertion order, so they describe names that are not integer-like.
- `formatDate`/`formatDateTime` and the overview's `formatAmount` (`toLocaleString("hu-HU")`): locale formatting is not modelled. The calculator's price display is left out for the same reason.
- `app/layout.tsx`, the Home, AccountManagement and WeeklyAnalysis components, the `ui/*` components, and all markup, styles and icons are not part of this model.
- Calculator.Calculator.HandleReportSubmit: the one-name-per-id guarantee is stated only for selections whose ids are all in the catalogue. The handler only ever adds catalogue ids, and the `filter(Boolean)` drops unknown ones.
- ServiceOverview.ServiceOverview.LoadServices: the viewer-below-leader bound is stated only when no stored shift has a negative duration. The submission form rejects negative durations, but the store is not checked for them.
