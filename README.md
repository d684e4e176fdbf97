# Stringers club: the session-fee ledger

The club app keeps, for every player, one attendance row per session
attended (the fee charged and the amount paid on it), the payments the
player made, and link rows saying how much of each payment went to which
session. Around these sit the monthly-fee configuration of monthly members,
the club's expenditures and the players themselves. Each page action of
the app is a small, sequential update of these tables:

- marking attendance creates a row;
- quick pay, settling selected sessions and a monthly lump sum add to
  `amount_paid` and create a payment and its links;
- deleting a payment reverses its links (never below zero), and editing one
  spreads the difference over its links;
- the monthly fill and the per-session editor overwrite `amount_paid`;
- the monthly settlement saves each monthly member's fee for a month and
  re-prices that member's sessions of the month.

Pure pieces sit around these actions:

- the balance sums and the analytics dues table;
- the month's profit and loss;
- month bounds and the month drop-down;
- player-record building;
- the skill label.

This project is a Dafny model of that ledger together with proofs of what
each action does to it.

Modelling choices:

- **Money.** Money is a whole number of paise (`int`). The app's
  `round(x, 2)` of a sum of amounts is then the identity.
- **Rounding.** `round(a / n, 2)` is `Basics.RoundDiv`, the nearest whole
  paisa. A tie goes to the even neighbour, which is Python's own tie rule,
  and `RoundDivUnique` shows no other quotient is nearest.
- **Missing amounts.** A missing (NULL) fee or paid amount is
  `Option<int>` and is read as 0 (`x or 0`). Applied amounts of payment
  links are plain `int`: every link the app writes carries one, so the
  `applied_amount or 0` reads in the reversal code never meet NULL.
- **Dates.** Dates are `Calendar.Date` values, compared year, month, day.
  That is the order of the ISO date strings the app compares.
- **Tables.** All tables live in one `Tables.Ledger` object, as maps keyed
  by ids drawn from a single counter. The link table is a map from
  (payment, session) to the applied amount.
- **Queries.** A query chain of `.eq` / `.gte` / `.lte` / `.lt` filters is a
  `Tables.Query`. `Tables.Select` returns the matching ids in increasing
  id order.
- **Pages.** Each page action is a method on the ledger with a field-level
  `modifies` frame. "Today", the form inputs and the rows the page chose
  are method parameters.
- **Loops.** Loops of table writes are methods whose loops are proved
  against recursive specification functions (`Sessions.Rewrite`,
  `RecordPayment.LinkAll`, `RecordPayment.ShiftAll`,
  `MonthlySettlement.SetFees`). What those functions do to each row is
  proved once, as lemmas beside them.

## Model

| member | source | states |
|---|---|---|
| Basics.RoundDiv | pages/3_Record_Payment.py:279 | the per-session share is within half a paisa of amount / n; an exact tie is even; a share of a non-negative amount is non-negative |
| Basics.RoundDivUnique | pages/3_Record_Payment.py:279 | any quotient that is within half a unit, with ties even, is the rounded share: the rounding rule picks one value |
| Basics.RoundDivNegate | pages/3_Record_Payment.py:587 | rounding a negative difference gives the negated share of the positive one, so a lowered payment spreads the mirror of a raised one |
| Basics.RoundDivExact | pages/5_Monthly_Settlement.py:201 | a fee that is an exact multiple of the session count is split exactly |
| Text.StripSlice | pages/4_Manage_Players.py:49 | `.strip()` returns the slice of the input between its leading and its trailing whitespace, and only whitespace is cut off either end |
| Text.StripEnds | pages/4_Manage_Players.py:49 | what `.strip()` returns is empty or neither starts nor ends with whitespace |
| Text.Leading | pages/4_Manage_Players.py:49 | the leading whitespace run: every character before it is whitespace and the one after it is not |
| Text.Trailing | pages/4_Manage_Players.py:49 | the trailing whitespace run: every character in it is whitespace and the one before it is not |
| Text.StripEmptyIffBlank | pages/4_Manage_Players.py:45 | a stripped string is empty exactly when the input was all whitespace |
| Text.StripIdempotent | pages/4_Manage_Players.py:136 | stripping a stripped value changes nothing |
| Text.Contains | pages/1_Mark_Attendance.py:27 | `pat in s` holds exactly when the pattern occurs at some position of s |
| Calendar.DaysInMonth | pages/5_Monthly_Settlement.py:37 | `monthrange(...)[1]` is between 28 and 31 |
| Calendar.MonthBounds | pages/5_Monthly_Settlement.py:36-38 | from-date is day 01 and to-date is a valid date that is the month's last day (the next day is not valid); February ends on the 29th exactly in leap years; a date lies between the bounds exactly when it is in the month; the expenditure page takes the same bounds |
| Calendar.InMonthIffMonthOf | pages/7_Expenditure.py:82-83 | for a real date, lying between the month's first and last day is being in that month |
| Calendar.MonthsDown | pages/5_Monthly_Settlement.py:30-31 | the months of one year from a given month down to January, newest first |
| Calendar.MonthOptions | pages/5_Monthly_Settlement.py:29-33 | the month drop-down holds exactly this year's months up to now and all twelve of last year, strictly descending (so no repeats), this month plus twelve in number |
| Tables.MissingReadsAsZero | pages/1_Mark_Attendance.py:99 | a missing fee or paid amount counts as 0 in a row's due; a row with both missing owes 0 |
| Tables.BalanceIsSumOfDues | pages/2_Player_Profiles.py:54-56 | total charged less total paid equals the sum of the per-row dues, as on the payment page's status card |
| Tables.MonthWide | pages/5_Monthly_Settlement.py:103-110 | the month-wide query is the per-player month query without its player filter |
| Tables.Select | pages/3_Record_Payment.py:270-278 | the ids returned are exactly the existing rows matching every filter, each once, in increasing id order |
| Tables.OfPlayerSnoc | pages/6_Analytics.py:223-226 | one more row adds itself to its own player's rows and to no other player's rows |
| Tables.OfPlayerHas | pages/6_Analytics.py:223-226 | a player with a row among the rows has a non-empty share of them |
| Tables.OfPlayerSumSnoc | pages/6_Analytics.py:223-226 | one more row adds one to its own player's row count and its value to that player's sum, and changes no other player's count or sum; a player with no rows sums to 0 |
| Tables.LinkedSessions | pages/3_Record_Payment.py:531-537 | the sessions linked to a payment are exactly those with a link row for it, each once |
| Tables.AppliedTotalSet | pages/3_Record_Payment.py:593-595 | writing one link of a payment changes that payment's applied total by the new value less the old |
| Tables.PaidTotalSet | pages/3_Record_Payment.py:181 | writing one row's paid amount changes the ledger's paid total by the new value less the old |
| Tables.Ledger.FreshId | pages/3_Record_Payment.py:180 | the id handed back for an insert is the next unused one, so it names no existing row |
| Sessions.Rewrite | pages/3_Record_Payment.py:383-386 | rewriting listed rows one at a time keeps the set of row ids |
| Sessions.RewriteRows | pages/3_Record_Payment.py:383-386 | after the loop each listed row is its update of its old value, and every unlisted row is as it was |
| Sessions.RewriteAt | pages/3_Record_Payment.py:383-386 | with no id listed twice, a listed row ends as its update of its original value |
| Sessions.RewriteOff | pages/3_Record_Payment.py:383-386 | with no id listed twice, a row not listed ends as it was |
| Sessions.RewriteSelected | pages/5_Monthly_Settlement.py:202-203 | rewriting every row a query selected with one value updates exactly the rows matching the query |
| Sessions.RewriteSessions | pages/3_Record_Payment.py:383-386 | the update loop leaves the session table equal to the rewrite specification and keeps the ledger valid |
| Sessions.RewriteEqually | pages/5_Monthly_Settlement.py:202-203 | the rows updated are the query's rows; each matching row gets the update, all others are unchanged |
| RecordPayment.Credit | pages/3_Record_Payment.py:385 | crediting raises the paid amount by the amount and lowers the due by it; fee, player, date and slot are kept |
| RecordPayment.CreditPaidTotal | pages/3_Record_Payment.py:383-386 | crediting distinct sessions raises the ledger's paid total by the sum of the amounts |
| RecordPayment.LinkAllRows | pages/3_Record_Payment.py:387-391 | the link loop adds exactly one link per listed session, with that session's amount, and keeps all other links |
| RecordPayment.LinkAllAppliedTotal | pages/3_Record_Payment.py:383-391 | for a new payment, its links add up to the sum of the amounts linked |
| RecordPayment.LinkAllUntouched | pages/3_Record_Payment.py:387-391 | linking other sessions leaves what the payment applied to a session that is not listed unchanged |
| RecordPayment.ApplyKeepsBounded | pages/3_Record_Payment.py:383-391 | crediting sessions and linking them to a payment keeps every id in the ledger below the id counter |
| RecordPayment.ApplyToSessions | pages/3_Record_Payment.py:383-391 | the credit-and-link loop leaves the sessions and links equal to their specifications |
| RecordPayment.ApplyTotals | pages/3_Record_Payment.py:383-391 | after the loop, the payment's links add up to the amounts' sum, and the ledger's paid total rose by exactly that sum |
| RecordPayment.TodaySessions | pages/3_Record_Payment.py:99-107 | today's sessions are exactly the player's rows dated today, evening before morning (the alphabetical order of the stored slot names) |
| RecordPayment.InsertByDate | pages/3_Record_Payment.py:116 | inserting a session into the newest-first list keeps the same sessions plus the new one |
| RecordPayment.InsertKeepsNewestFirst | pages/3_Record_Payment.py:116 | inserting into a newest-first list keeps it newest first |
| RecordPayment.SortNewestFirst | pages/3_Record_Payment.py:116 | ordering by date descending keeps exactly the same sessions |
| RecordPayment.SortIsNewestFirst | pages/3_Record_Payment.py:116 | ordering by date descending leaves them newest first |
| RecordPayment.Owing | pages/3_Record_Payment.py:121-122 | the owing filter keeps exactly the listed sessions with a positive due |
| RecordPayment.QuickPayToday | pages/3_Record_Payment.py:124 | quick pay offers today's sessions exactly when there are some, and then offers exactly them |
| RecordPayment.RecentSessionsSound | pages/3_Record_Payment.py:109-120 | the recent list has at most 6 of the player's sessions, all earlier than today, newest first |
| RecordPayment.RecentSessionsMostRecent | pages/3_Record_Payment.py:111-120 | an earlier session left out of the recent list means the list is full (6) and every listed session is at least as new |
| RecordPayment.QuickPayRecent | pages/3_Record_Payment.py:109-124 | with nothing today, quick pay offers at most 6 earlier sessions, all of them owing; an owing earlier session not offered was cut by the limit of 6 newer ones |
| RecordPayment.QuickPay | pages/3_Record_Payment.py:173-186 | one new payment of the amount; the chosen session's paid amount rises by exactly the amount; one new link of the amount; no other session changes; the ledger's paid total rises by the amount |
| RecordPayment.SettleNote | pages/3_Record_Payment.py:374 | the note starts with the method and is just the method exactly when no notes were typed |
| RecordPayment.SettleSessions | pages/3_Record_Payment.py:369-391 | nothing selected, or a total at or below zero, writes nothing; otherwise one payment of the selected total; each selected session gains its own amount with a matching link; others are untouched; the payment's links add up to its amount |
| RecordPayment.LumpNote | pages/3_Record_Payment.py:258-260 | the note starts with "<month> monthly — <method>" and is exactly that when no notes were typed |
| RecordPayment.CreditEqually | pages/3_Record_Payment.py:279-287 | every session the query selects gains the same share with a link of that share; no other session changes; the links add up to share × count |
| RecordPayment.LumpSum | pages/3_Record_Payment.py:255-287 | an amount at or below zero writes nothing; otherwise one payment is always created; with distribution over n > 0 month sessions each gains the rounded share with a link of it, sessions outside the month are untouched, and the links add up to the amount within n/2 paise |
| RecordPayment.Clamp | pages/3_Record_Payment.py:464 | `max(0, paid + delta)` is never negative, is at least paid + delta, and is one of the two |
| RecordPayment.ClampUndoesCredit | pages/3_Record_Payment.py:464 | reversing a credit on a session whose paid amount was not negative restores that paid amount |
| RecordPayment.Reversals | pages/3_Record_Payment.py:461-465 | the reversal of each linked session is minus its applied amount |
| RecordPayment.DeletePayment | pages/3_Record_Payment.py:460-466 | the payment row is removed; every session linked to it has its applied amount taken off, clamped at 0, and is never negative after; other sessions are untouched; non-negative paid amounts stay non-negative; the edit form's delete button does the same |
| RecordPayment.ReverseRows | pages/3_Record_Payment.py:460-466 | clamping each linked session by minus its applied amount, one at a time, takes exactly the linked sessions' applied amounts off (clamped at 0) and leaves all other sessions as they were |
| RecordPayment.ReverseRow | pages/3_Record_Payment.py:461-465 | a linked session ends as its clamped reversal and an unlinked one as it was |
| RecordPayment.PaymentLabels | pages/3_Record_Payment.py:473-477 | the drop-down has one entry per payment of the player, in the order listed, reading its date, amount and notes |
| RecordPayment.ChosenPayment | pages/3_Record_Payment.py:478 | the payment edited is the first listed that reads like the chosen entry: at or before it, reading exactly like it, no earlier one reading alike, and the chosen one itself when no two entries read alike |
| RecordPayment.EditPayment | pages/3_Record_Payment.py:487-492 | the first edit form rewrites only the payment row's amount, date and notes, with empty notes stored as NULL |
| RecordPayment.ShiftAllRows | pages/3_Record_Payment.py:593-595 | each listed link of the payment grows by the share; every other link keeps its value; no link is added |
| RecordPayment.ShiftAllTotal | pages/3_Record_Payment.py:593-595 | shifting k links by the share raises the payment's applied total by share × k |
| RecordPayment.ShiftLinks | pages/3_Record_Payment.py:593-595 | the link loop leaves the links equal to their shift specification |
| RecordPayment.SpreadShare | pages/3_Record_Payment.py:588-595 | every session linked to the payment gets `max(0, paid + share)`, others are untouched; each of its links grows by the share; its applied total grows by share × k |
| RecordPayment.EditPaymentSpread | pages/3_Record_Payment.py:577-595 | the payment is rewritten; the spread happens exactly when the amount changed and links exist; with no spread, sessions and links are unchanged; with one, the share is the rounded difference over k, and links that matched the old amount end within k/2 paise of the new |
| RecordPayment.SetPaid | pages/3_Record_Payment.py:659 | overwriting sets the paid amount to the value, so the due becomes fee less that value |
| RecordPayment.BulkFill | pages/3_Record_Payment.py:655-659 | with no month sessions nothing is written; otherwise every month session's paid amount is overwritten (not added to) with the rounded share, within n/2 paise of the total; no payment or link is created |
| RecordPayment.Overwrite | pages/3_Record_Payment.py:714-715 | a row is rewritten with the value, and is left identical exactly when its stored amount already equals the value |
| RecordPayment.CountChanged | pages/3_Record_Payment.py:711-716 | the changes counter never exceeds the number of sessions shown |
| RecordPayment.CountChangedZero | pages/3_Record_Payment.py:717-721 | "No changes detected" is shown exactly when every entered value equals the stored one |
| RecordPayment.SaveSessionEdits | pages/3_Record_Payment.py:710-716 | the save loop leaves the sessions equal to their overwrite specification and returns the number of rows whose value differed |
| RecordPayment.SaveFacts | pages/3_Record_Payment.py:710-721 | after saving, each shown session holds its entered value; it is unchanged exactly when the value equalled the stored one; unshown sessions are untouched; a zero count means nothing changed |
| MonthlySettlement.EffectiveFee | pages/5_Monthly_Settlement.py:121 | the month's configured fee when there is one, else the player's default fee, else 0; the distribution form opens on the same fee |
| MonthlySettlement.SetFeesRows | pages/5_Monthly_Settlement.py:88-96 | after the upsert loop each listed player has one configuration for the month, equal to the entered fee; every other configuration is unchanged |
| MonthlySettlement.SaveMonthlyDues | pages/5_Monthly_Settlement.py:88-96 | the save loop leaves the configuration equal to the upsert specification |
| MonthlySettlement.SavedDuesInForce | pages/5_Monthly_Settlement.py:88-96 | once saved, each listed player's effective fee for the month is the entered fee, and nobody else's fee for any month changes |
| MonthlySettlement.OfPlayerSelect | pages/5_Monthly_Settlement.py:103-116 | one player's share of the month-wide rows is exactly that player's month query |
| MonthlySettlement.OfPlayerStep | pages/5_Monthly_Settlement.py:103-116 | one more month-wide row extends the player's share of the month-wide rows exactly as it extends the player's own month query |
| MonthlySettlement.TalliesSnoc | pages/5_Monthly_Settlement.py:111-116 | adding one row to the counts and paid sums keeps them equal to each player's row count and paid total |
| MonthlySettlement.Aggregate | pages/5_Monthly_Settlement.py:111-116 | each player's count is the number of their rows and their paid figure is the sum of their paid amounts; a player with no rows gets 0 and 0 |
| MonthlySettlement.MonthSummary | pages/5_Monthly_Settlement.py:118-131 | each summary row has the effective fee, the player's month session count, their month paid total, due = fee − paid (negative when overpaid) and "configured" exactly when a month configuration exists |
| MonthlySettlement.SetFee | pages/5_Monthly_Settlement.py:203 | re-pricing sets the fee charged and keeps the paid amount, so the due becomes the new fee less what was paid |
| MonthlySettlement.DistributedCharges | pages/5_Monthly_Settlement.py:201-203 | n sessions each charged the rounded share add up to the fee within n/2 paise |
| MonthlySettlement.Distribute | pages/5_Monthly_Settlement.py:158-203 | with no month sessions, or a fee at or below zero, nothing is written; otherwise the configuration is set to the fee, every month session of the player is charged the rounded share with its paid amount kept, others are untouched, and the charges add up to the fee within n/2 paise |
| MarkAttendance.SessionKey | pages/1_Mark_Attendance.py:27 | the slot is morning exactly when the chosen label contains "morning" |
| MarkAttendance.SessionLabelKeys | pages/1_Mark_Attendance.py:26-27 | the two offered labels give morning and evening |
| MarkAttendance.Mark | pages/1_Mark_Attendance.py:64-84 | the placeholder is refused; a player already marked for the session is not inserted again; otherwise one new row with the date and slot, fee 0 for monthly members and the entered fee otherwise, paid 0, the entered notes stored as they are, or NULL when empty; at most one row per player and session is kept |
| PlayerProfiles.FilterMembers | pages/2_Player_Profiles.py:73-76 | the range filter keeps exactly the history rows with from ≤ date ≤ to, and leaves out exactly the others |
| PlayerProfiles.FilterRangeConcat | pages/2_Player_Profiles.py:73-76 | the filter keeps the query's order |
| PlayerProfiles.DueSplit | pages/2_Player_Profiles.py:86-91 | the due of the rows in the range plus the due of the rows outside it is the due of the whole history |
| PlayerProfiles.DueInsideAndOutside | pages/2_Player_Profiles.py:91 | the total due in range plus the due outside the range is the balance due at the top of the page |
| PlayerProfiles.TotalPaymentsBounds | pages/2_Player_Profiles.py:120 | with no negative payment the total recorded is non-negative and at least each payment |
| Analytics.DuesByPlayer | pages/6_Analytics.py:223-226 | the fold has an entry exactly for the players with rows, each the sum of their dues; its items list each such player once, a player whose first row comes earlier listed earlier |
| Analytics.FirstRow | pages/6_Analytics.py:223-226 | the position of a player's first row: no earlier row is theirs, and the row there is |
| Analytics.DueTalliesSnoc | pages/6_Analytics.py:224-226 | adding one row's due to its player's entry keeps every entry equal to that player's aggregated due, and creates an entry exactly for a new player |
| Analytics.FirstRowAt | pages/6_Analytics.py:226 | a player the dictionary has not seen before row i has their first row at i |
| Analytics.FirstSeenStep | pages/6_Analytics.py:226 | a new key joins the end of the dictionary's order, which keeps the order that of the players' first rows |
| Analytics.AboveThreshold | pages/6_Analytics.py:231 | `due > 0.005` on a whole number of paise holds exactly when the due is at least one paisa |
| Analytics.OutstandingRows | pages/6_Analytics.py:228-232 | a row is listed exactly when its player was seen, its balance is the player's due and that due is above the threshold; each player at most once |
| Analytics.SortByBalance | pages/6_Analytics.py:233 | the in-place sort leaves the rows largest balance first and the same rows as before |
| Analytics.InsertDown | pages/6_Analytics.py:233 | one insertion step extends the sorted prefix by one row and keeps the same rows |
| Analytics.Rearranged | pages/6_Analytics.py:233 | sorting keeps the same rows and keeps each player on at most one row |
| Analytics.ListedRows | pages/6_Analytics.py:228-233 | after sorting, a player is listed exactly when they owe at least a paisa, with their aggregated due, and on one row only |
| Analytics.OutstandingTotal | pages/6_Analytics.py:235-238 | a total of positive balances is positive exactly when there is one, and is at least each of them |
| Analytics.DuesTab | pages/6_Analytics.py:221-238 | the listed rows are largest first; a player is listed exactly when they owe at least a paisa, with their aggregated due, and only once; the total is the sum of the listed balances; it is positive exactly when the list is non-empty, so an empty list is the all-clear branch |
| ExpenditurePage.AddExpenditure | pages/7_Expenditure.py:58-67 | an amount at or below zero is refused with nothing written; otherwise one entry with stripped notes, stored as NULL exactly when the notes were blank |
| ExpenditurePage.SelectSpending | pages/7_Expenditure.py:87-95 | the month's entries are exactly the entries dated between the bounds, each once |
| ExpenditurePage.MonthPnL | pages/7_Expenditure.py:108-111 | profit is money collected less money spent, not fees charged less spent |
| ExpenditurePage.Entries | pages/7_Expenditure.py:87-95 | the entries of the listed ids, one per id, in list order |
| ExpenditurePage.SelectedStep | pages/7_Expenditure.py:97-103 | one more session id adds that session's value to the query's sum exactly when it matches the query |
| ExpenditurePage.MonthSessionsSum | pages/7_Expenditure.py:97-110 | summed over the sessions the month's date-range query returns, any figure equals its sum over exactly the sessions held in that month |
| ExpenditurePage.SpendingStep | pages/7_Expenditure.py:87-95 | one more entry id adds that entry's amount to the range's spend exactly when it is dated within the range |
| ExpenditurePage.MonthSpendingSum | pages/7_Expenditure.py:87-110 | the amounts of the entries the month's date-range query returns add up to the amounts of exactly the entries dated in that month |
| ExpenditurePage.MonthFiguresAddUp | pages/7_Expenditure.py:81-111 | revenue is the fees charged and collected the amounts paid over exactly the sessions held in the chosen month; expenditure is the amounts of exactly the entries dated in it; profit is collected less expenditure |
| ExpenditurePage.ProfitIgnoresFees | pages/7_Expenditure.py:108-111 | changing the fees charged, and no paid amount, changes neither collected nor profit |
| ExpenditurePage.InProfitIffCovered | pages/7_Expenditure.py:127-130 | the in-profit message shows exactly when collected is at least what was spent |
| ExpenditurePage.CategoriesTotalSnoc | pages/7_Expenditure.py:149 | one more entry adds its amount to the category totals exactly when its category is listed |
| ExpenditurePage.CategoriesAddUp | pages/7_Expenditure.py:149 | the per-category sums of distinct categories covering every entry add up to the month's total expenditure |
| ExpenditurePage.Labels | pages/7_Expenditure.py:184-187 | the drop-down has one entry per logged expense, in log order, reading its date, category, amount and notes |
| ExpenditurePage.DeleteExpenditure | pages/7_Expenditure.py:184-193 | exactly one entry is removed; it reads exactly like the chosen one; when no two entries read alike it is the chosen one |
| ManagePlayers.FeeFor | pages/4_Manage_Players.py:52 | a monthly fee is stored exactly for monthly members, and it is the entered fee |
| ManagePlayers.PlayerRecord | pages/4_Manage_Players.py:48-57 | name and phone are stripped; the fee is kept for monthly members only; the profession is stripped and NULL exactly when blank; skill, timing and active are as entered |
| ManagePlayers.AddPlayer | pages/4_Manage_Players.py:44-59 | a blank name or phone is refused with nothing written; otherwise one new active player with non-empty name and phone |
| ManagePlayers.TimingIndex | pages/4_Manage_Players.py:99-100 | the index of the stored timing in the list; the last index when the timing is missing, empty or not in the list |
| ManagePlayers.MembershipIndex | pages/4_Manage_Players.py:116 | 0 exactly for "regular", 1 otherwise; the drop-down opens on the stored membership when it is one of the two |
| ManagePlayers.EditDefaults | pages/4_Manage_Players.py:98-131 | the edit form opens with skill defaulted to 5, the fee or 0, and a timing from the list |
| ManagePlayers.AddedWellFormed | pages/4_Manage_Players.py:48-57 | every player the add form writes is well formed: stripped, fee exactly for monthly members, skill 1–10, a timing from the list |
| ManagePlayers.EditUnchangedKeepsRecord | pages/4_Manage_Players.py:108-144 | saving the edit form untouched writes back the very record it opened on |
| ManagePlayers.MembershipRoundTrip | pages/4_Manage_Players.py:114-117 | the membership drop-down opens on the stored membership |
| ManagePlayers.ProfessionRoundTrip | pages/4_Manage_Players.py:126-141 | the profession box opens on the stored profession and saving it stores it back |
| ManagePlayers.Names | pages/4_Manage_Players.py:94 | the drop-down lists the players' names in list order |
| ManagePlayers.UpdatePlayer | pages/4_Manage_Players.py:96-144 | exactly one player is rewritten with the form's record and all others are kept; it is the first with the chosen name, and the chosen one when names are distinct |
| Helpers.Level | utils/helpers.py:6 | a missing or zero skill level reads as 5 (as on the profile page); any other level is kept |
| Helpers.BandOf | utils/helpers.py:7-12 | ≤2 Beginner, 3–4 Casual, 5–6 Intermediate, 7–8 Advanced, 9 Expert, ≥10 Pro, each band exactly on its range |
| Helpers.SkillLabelPrefix | utils/helpers.py:7-12 | every label starts with the level followed by " — " |
| Helpers.BandMonotone | utils/helpers.py:7-12 | a higher level never gets a lower band |
| Helpers.SkillLabelInjective | utils/helpers.py:7-12 | two equal labels come from the same effective level |
| Helpers.WorkTimingsShape | utils/helpers.py:15-24 | eight distinct timings, the last of them "Other / Not specified" |

## Left out

- The Streamlit interface is not modelled: rendering, widget state, reruns,
  captions, metrics, select-all / clear-all and `st.stop`. The values the
  widgets produce are method parameters.
- The Supabase client is not modelled. utils/supabase_client.py is not part
  of this model, and every `sb.table(...)` call is an update of a map
  field.
- Failed requests and the `try`/`except` branches around inserts and
  deletes are not modelled: every write succeeds.
- run_schema.py is not part of this model (an HTTP request carrying SQL).
- utils/styles.py and utils/notifications.py are not part of this model.
  They hold CSS and message templates.
- The forecast in app.py is not modelled. It is float statistics over
  the same balance sums.
- The analytics page's charts and its day / week / month and weekday
  views are not modelled. The dues tab is modelled up to the rows and the
  total. The dues chart refers to an undefined colour name, so the model
  stops before it. Player display names are not modelled: rows carry the
  player id.
- The expenditure page's charts are not modelled.
- The payment history display and the linked-session captions are not
  modelled.
- Python floats are replaced by whole paise, with `round(a / n, 2)` rounded
  to the nearest paisa and ties to even. Float error (the reason for the
  0.005 threshold) is not modelled.
- The order rows come back in is fixed as increasing id wherever the app
  asks for a date order of its own:
  - the month's sessions in the fill, settle and distribution loops;
  - the session editor;
  - the month's expenditure list.

  Each of these loops writes every row on its own, so the order does not
  change what it leaves in the tables. The quick-pay recent list is sorted by date, but ties between
  sessions of the same date are broken by the model's insertion sort,
  not the database's order.
- Analytics.SortByBalance: does not state how rows with equal balances are
  ordered. Python's sort is stable; the model's insertion sort does not
  promise a tie order.
- RecordPayment.DeletePayment: keeps the deleted payment's link rows.
  The code deletes only the payment row, and whether the database cascades
  is not visible.
- RecordPayment.EditPayment: with an id that names no payment, it changes
  nothing, as an `update ... eq(id)` matching no row does.
- Link rows whose session has gone are skipped by the reversal and spread
  loops, as the code's `if att:` skips them. The spread still updates
  such a link's applied amount, as the code does.
- Every page action works from rows read when the page was drawn: settling
  computes the new paid amount from the row as shown, quick pay
  (pages/3_Record_Payment.py:173-181) adds to the paid amount as
  shown, and the session editor (pages/3_Record_Payment.py:711-715)
  compares against the rows as listed. The model takes each of these to
  be the row as stored; concurrent edits between drawing and saving are
  not modelled.
- ExpenditurePage.DeleteExpenditure, ManagePlayers.UpdatePlayer,
  RecordPayment.EditPayment and RecordPayment.EditPaymentSpread: when
  two entries read alike (or two players share a name), the one affected
  is the first of them. The two payment edits take the payment id that
  `RecordPayment.ChosenPayment` resolves from the chosen entry. That is
  what `list.index(...)` and `next(...)`
  pick, and it need not be the one the user meant.
- The monthly-fee configuration is a map keyed by (player, month), so it
  cannot hold two configurations for one player and month. The database's
  uniqueness on that pair is not visible in the code.
- The success messages are not modelled. This includes the distribution's
  overall balance line, which is a sum covered by
  `Tables.BalanceIsSumOfDues`.
- ExpenditurePage.MonthFiguresAddUp: assumes every stored session and
  entry date is a real calendar date, as the app's date pickers produce.
  The database's date type is not part of this model.
- RecordPayment.EditPaymentSpread: the model takes the spread form to
  render. In the code, the first edit form (pages/3_Record_Payment.py:480)
  and the spread form (pages/3_Record_Payment.py:558) are both opened with
  the key "edit_payment_form". When the player has a payment and the
  "What to edit" radio is on "💰 Payment records", both run in one page
  run. Streamlit refuses a second form with the same key, so there the
  page would stop before the spread form shows. Widget keys and page runs
  are not part of this model.
