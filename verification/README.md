# Proofs about the migration tools, the announcement sender, the import, the timers and the sign-in of OrchestrAI

The project models the parts of the repository in which a mistake would be hardest to see, and proves what they
keep. Code that changes things step by step is modelled as methods and classes that change fields, and each such
method is tied by its `ensures` to a function of its inputs or of the old state; the lemmas are about those
functions. Protocols with several actors are transition systems, one SQL statement or transaction to a step, and
their lemmas hold for every sequence of steps.

| files | what they model |
|---|---|
| `Chars`, `Lexer`, `SplitStatements`, `Tokens`, `Locality`, `Resplit` | the SQL lexer of the migration tool: nested comments, E-strings, doubled quotes, dollar quotes lexed again inside, and that its output splits again into itself |
| `CheckFile`, `Keywords`, `Refusals` | the keyword checks on a migration file: what they refuse, that comments and quoted texts cannot decide them, and that nothing said in a dollar quote escapes them |
| `SplitSql` | the dashboard's smaller lexer, and on which texts the two agree |
| `SeedTexts`, `SeedJson` | the printer of seeding SQL, and that what it prints is read back |
| `Migrations` | any number of migration runners on one database, failing or dying anywhere |
| `Announcements`, `Audience` | the sender of announcements with its runners, sweeps, cancels and late reports; who gets one, and why others do not |
| `ImportNumbers`, `ImportGroups`, `ImportPlan`, `ImportCommit`, `ImportFlats`, `ImportFixpoint`, `ImportChoice` | the bulk import of people: lines become people, people become changes, the changes that are kept are saved and no others, and the same file then changes nothing |
| `Schedule`, `Reminders` | when a scheduled report runs next, and reminders that fire once |
| `Window`, `Sessions`, `Codes`, `Lockout`, `Accounts` | the sign-in limiter, sessions, emailed codes, locks after wrong passwords, and the life of accounts |
| `Approvals` | approval chains level by level, and questions whose first answer decides |
| `FlowChains`, `Categories` | flows that start after other flows, and the tree of case categories |
| `Wrappers` | the option type the other files share |

Where a promise does not hold of the code, the code is kept as it is, a lemma shows an input on which it fails, and
another says exactly when it holds (for the two SQL lexers, whenever it does):

- a lock after five wrong passwords does not stop those already being checked: the sixth is counted at the same moment
  and takes the lock away (`AllAtOnce`); no wrong password is counted within a lock exactly when none looked before the
  lock was made (`LockHoldsExactly`);
- importing the same file twice can still list a role: the asker's own role is withheld the first time and no longer
  recognised as their own once the file has changed their email (`OwnEmailCanGo`, `ImportIsAFixpoint`);
- monthly schedules on days 29 to 31 can raise an error or land on another day (`MonthlyExactly`,
  `MonthlyRaisesExactly`, `Day31CanFail`), and a schedule cannot ask for midnight (`MidnightIsNotKept`);
- "not the primary member" and "is the primary member" can be the wrong reason for not getting an announcement
  (`ReasonsAreRight`, `PrimaryReasonCanBeWrong`);
- a sender's own note may take a status back that a report had moved forward (`OutcomeMayLowerAReport`); these are all
  the steps that take a status back (`StatusFallsExactly`);
- a case whose reminder reaches nobody is not always given up: the counters are kept without the organisation, so a pass
  for another organisation on the same database, table and column takes them away, as does a start of the scheduler,
  and where two organisations take turns a case is tried for ever (`NeverGivenUp`); give-ups keep step with the limit
  exactly when such a step comes only after whole rounds (`GivenUpAfterTheLimit`, `GivenUpExactly`);
- two flows set after each other at once both pass the check, and the links go round (`BothAtOnce`); they never do
  exactly when no link is inserted that the check would by then refuse (`NeverRoundExactly`);
- a complainant who is also the assignee is not reminded when only complainants have a message, and the case is marked
  all the same (`ComplainantToldExactly`, `MarkedSilentlyExactly`, `SelfAssignedExactly`);
- a text that ends in its own dollar tag without the last "$", as "$txt" does, does not read back (`ABadText`,
  `DollarLiteralExact`), nor does a list with a quote in a value name (`VerbatimExact`); nothing else stands in the way
  (`MessagesReadBack`);
- the two SQL lexers differ on block comments, escapes, digits in tags and "$" after a name (the four `...Differ`
  lemmas), and agree whenever a text has none of these outside what both skip (`SplittersAgree`, and
  `PlainTextsAreCommon` for a stricter condition one can see in the text itself);
- tidying old codes turns the answer "expired" into "none" (`TidyShows`), for codes that were not used and ended more
  than a day before and for no others (`TidySoftens`); the sign-in pages word the two the same.

## Model

| member | source | states |
|---|---|---|
| SplitStatements.SplitStatements | tools/migrate.py:223-318 | the loop over the shared index, with the raw and code buffers, computes the statements of the lexer's definition by suffixes, errors included |
| SplitStatements.InnerCodeOf | tools/migrate.py:213-220 | the body of a dollar quote, lexed again; the mutual recursion ends, and the words are those that `Refusals.QuotedShown` tells |
| SplitStatements.ReadToken | tools/migrate.py:248-316 | one turn of the loop reads exactly one token: comment, string, quoted name, dollar quote, semicolon or other |
| Tokens.CommentsNest | tools/migrate.py:253-264 | a comment with a comment in it is one comment, to any depth |
| Tokens.NeverClosed | tools/migrate.py:262-313 | a text, a name, a comment and a dollar quote that is never closed, and a backslash outside quotes, are each an error of their own |
| Tokens.OnlyALoneE | tools/migrate.py:265-283 | an E by itself lets a backslash keep a text open, an e at the end of a word does not |
| Tokens.DigitOpensNothing | tools/migrate.py:209 | a dollar sign before a digit begins no quote |
| Refusals.QuotedShown | tools/migrate.py:213-293 | the code of a statement shows, between the tags of each dollar quote, the codes of the statements of the quoted text, in order and joined, or a blank if that text does not split |
| Refusals.TagsQuote | tools/migrate.py:284-293 | any text that does not hold its closing tag is quoted by writing it between two tags after plain words |
| Resplit.SplittingIsStable | tools/migrate.py:223-318 | for every text that splits, joining the statements with a semicolon on its own line and splitting again gives the same statements with the same code up to white space |
| Resplit.EachIsOneStatement | tools/migrate.py:595-619 | every statement sent by itself is read as that one statement |
| Locality.ScanSame | tools/migrate.py:248-318 | a token does not depend on what follows it, as far as it lies inside the text |
| CheckFile.Check | tools/migrate.py:362-388 | the loop finds the first statement that may not be in the file, and a refusal tells what is wrong with it first: opening or closing a transaction, CONCURRENTLY without the flag, or the first destructive rule it breaks, without the flag |
| CheckFile.JudgedExactly | tools/migrate.py:362-388 | a file is accepted exactly when it splits and no statement opens or closes a transaction, names CONCURRENTLY without no-transaction, or breaks a destructive rule without allow-destructive; setting a flag never has an accepted file refused |
| CheckFile.BreaksIs | tools/migrate.py:74-88 | the patterns find just the whole words RENAME and TRUNCATE, DROP and a listed object, and ALTER TABLE with a DROP of something else than the listed parts |
| Refusals.InnerIsRefused | tools/migrate.py:206-388 | a destructive rule broken by one statement alone, in the file or in a text quoted in it at any depth, has the file refused without allow-destructive |
| Refusals.WrittenIsRefused | tools/migrate.py:206-388 | RENAME, TRUNCATE or DROP and a listed object, in any capitals, with any white space between, outside comments and quotes in the file or in a text quoted in it at any depth, has it refused |
| CheckFile.ChecksSeeOnlyCode | tools/migrate.py:206-388 | for fixed flags, a change inside a comment or a quoted text that still closes at the same place never changes the verdict on a file |
| CheckFile.LineCommentMayChange | tools/migrate.py:250-252 | a line comment may be rewritten with anything but a line end |
| CheckFile.TextMayChange | tools/migrate.py:265-283 | a quoted text may be rewritten with anything but quotes and backslashes |
| CheckFile.JudgeOfJoined | tools/migrate.py:362-388 | a file split and joined again gets the same verdict |
| SplitSql.SplitText | app/admin_panel/database.py:329-369 | the loop with its quote, tag and text so far computes the pieces of the smaller lexer's definition |
| SplitSql.SplittersAgree | app/admin_panel/database.py:329-369 | on a well-closed text without block comments, backslashes in quoted texts, digits in tags or "$" after a name the two lexers cut at the same semicolons and keep the same segments |
| SplitSql.PlainTextsAreCommon | app/admin_panel/database.py:329-369 | a stricter condition on the text itself implies that: it splits, has no "/*", no backslash and no digit in a tag, and every tag, opening or closing, and every other "$" comes after no identifier character |
| SplitSql.BlockCommentsDiffer | app/admin_panel/database.py:329-369 | a block comment that holds a semicolon is cut by the smaller lexer only |
| SplitSql.EscapesDiffer | app/admin_panel/database.py:329-369 | an escaped quote ends the string for the smaller lexer only |
| SplitSql.DigitsInTagsDiffer | app/admin_panel/database.py:350-356 | a tag with a digit is no dollar quote for the smaller lexer |
| SplitSql.DollarAfterNameDiffers | app/admin_panel/database.py:350-356 | "$" after a name opens a quote for the smaller lexer only |
| SeedTexts.TooManyTags | tools/seed_texts.py:32-39 | a text holds at most as many of the tried tags as it has characters, so the search ends |
| SeedTexts.DollarQuote | tools/seed_texts.py:32-39 | the search loop ends with the first free tag, and the text stands between two of it |
| SeedTexts.DollarLiteralExact | tools/seed_texts.py:32-39 | a dollar literal decodes to its text if and only if the text does not end in its tag without the last "$" |
| SeedTexts.ABadText | tools/seed_texts.py:32-39 | "$txt" is such a text: what is printed for it decodes to something else |
| SeedTexts.VerbatimExact | tools/seed_texts.py:47-48 | a list printed between quotes as it is decodes to itself if and only if it holds no quote |
| SeedTexts.DocumentReads | tools/seed_texts.py:32-70 | a printed statement is one statement for the migration lexer and its literals decode to their texts |
| SeedTexts.MessagesReadBack | tools/seed_texts.py:55-70 | for any messages, the INSERT is exactly one statement whose literals decode, row by row and column by column, to key, locale, scope, text, value names, note and author, if and only if no text ends in its tag and no value name holds a quote |
| SeedJson.ListReads | tools/seed_texts.py:47-48 | a list printed as JSON reads back as that list, whatever characters its texts hold |
| Migrations.ApplyTo | tools/migrate.py:622-669 | one run under the lock: refused when busy or when a recorded file changed, else it records a prefix of the pending files and everything when there is no error |
| Migrations.RunBatches | tools/migrate.py:648-664 | the loop over batches records a prefix cut between two batches, and an error is reported exactly when something is left |
| Migrations.RunTogether | tools/migrate.py:576-592 | several files in one transaction: all effects and records, or none, and the failure names a file of the group |
| Migrations.RunAlone | tools/migrate.py:595-619 | one file outside a transaction: recorded only when every statement ran; a failure may leave statements behind |
| Migrations.NothingToDoExactly | tools/migrate.py:554-573 | a look finds nothing pending and nothing changed exactly on a table that holds every file of the plan with its checksum |
| Migrations.StepKeeps | tools/migrate.py:554-669 | every step of every runner keeps the invariant, only adds records and never sends a recorded file |
| Migrations.NeverExecutedAgain | tools/migrate.py:554-669 | for any number of runners failing or dying anywhere, a recorded version is never sent to the database again |
| Migrations.EffectsExactlyWhenRecorded | tools/migrate.py:576-592 | the effects of a transactional file are present exactly once when it is recorded and not at all otherwise |
| Migrations.EachRunRecordsAPrefix | tools/migrate.py:622-669 | however a run ends and whatever other runners do: while it holds the lock the table is what it found plus a prefix of its pending list cut between two batches, and all of that stays recorded; one that reports no failure has its whole plan recorded |
| Migrations.WhatARunLeaves | tools/migrate.py:622-669 | at the moment it lets go of the lock, well, failed or dead, the table is exactly what it found plus that prefix |
| Migrations.RunUntilDone | tools/migrate.py:622-669 | from any table, once any runner finishes well the table holds exactly what it held first and the plan's pending files |
| Migrations.NoneSkipped | tools/migrate.py:622-669 | no runner records a file before an earlier one of its plan |
| Migrations.AloneIsWhole | tools/migrate.py:595-619 | a file that runs alone is recorded by a runner only after every statement of it took effect |
| Migrations.OtherRowsUnread | tools/migrate.py:554-573 | rows of versions no file of the plan has change nothing a run goes by |
| Migrations.OtherRowsStay | tools/migrate.py:576-592 | and what a run records leaves them as they are |
| Announcements.Tables.Start | app/services/announcements.py:405-434 | an announcement that is due gets one waiting row for each person without one, and is under way; otherwise nothing changes |
| Announcements.Tables.ClaimBatch | app/services/announcements.py:437-446 | the first waiting people by name, up to a batch, become sending in one statement |
| Announcements.FirstWaitingIs | app/services/announcements.py:437-446 | a batch holds only waiting people of the announcement, each once, and all of them when it is not full |
| Announcements.EarlierNamesFirst | app/services/announcements.py:437-446 | nobody is taken into a batch before somebody who waits and comes earlier by name |
| Announcements.BatchInOrder | app/services/announcements.py:437-446 | a batch is in the order of the names |
| Announcements.Tables.SendWaiting | app/services/announcements.py:472-476 | batch after batch until nobody waits or the time is up: exactly the people tried have their outcome, each noted for what the send came to, nobody else changed |
| Announcements.Tables.RunOne | app/services/announcements.py:449-484 | one go at an announcement is a run of the protocol's steps; it tells how many were tried, and the announcement is marked sent exactly when nobody is open |
| Announcements.StepKeeps | app/services/announcements.py:405-531 | every step keeps: rows only under started announcements, nobody open under a sent one, each claimed person in one runner's hands |
| Announcements.ClaimedAtMostOnce | app/services/announcements.py:437-446 | over every interleaving each recipient is claimed at most once and tried at most as often as claimed |
| Announcements.NeverBack | app/services/announcements.py:405-531 | whoever was claimed never waits again, and whoever is settled is never waiting or sending again |
| Announcements.CancelledHasNobody | app/admin_panel/announcements.py:366-417 | a cancelled announcement stays cancelled and never has a recipient |
| Announcements.SentIsComplete | app/services/announcements.py:477-483 | one marked sent stays so, with nobody waiting or sending then or ever after |
| Announcements.NobodyBeforeTime | app/services/announcements.py:405-434 | over every interleaving nobody is a recipient before the time the announcement is for |
| Announcements.StartsExactlyWhenDue | app/services/announcements.py:405-434 | starting takes effect exactly when the announcement is planned and its time has come, and then for everyone |
| Announcements.SendNowIsDue | app/admin_panel/announcements.py:379-417 | sending now makes a planned announcement due at once |
| Announcements.SweepExactly | app/services/announcements.py:508-520 | a sweep fails exactly those who have been sending for more than ten minutes |
| Announcements.ReportsExactly | app/services/announcements.py:537-637 | what each report makes of each status |
| Announcements.ReportsOnlyMoveForward | app/services/announcements.py:537-553 | a report of delivery, reading or a tap never lowers a status |
| Announcements.OutcomeMayLowerAReport | app/services/announcements.py:255-262 | the sender's own note, which has no such guard, can: from an empty database to a read message noted as only sent |
| Announcements.StatusFallsExactly | app/services/announcements.py:255-553 | in every reachable state a step lowers somebody's status exactly when it is a note below it, a failed delivery of somebody not failed, a closed chat of somebody sent or delivered, or a sweep of somebody stuck |
| Audience.LeftOut | app/services/announcements.py:97-180 | by role everyone with a picked role is chosen and nobody else, by flat everyone with one home that meets every field; everybody else is on the list with a reason, and each reason says what is so of the person |
| Audience.TickingMoreKeeps | app/services/announcements.py:97-135 | ticking one more role, wing, relation or lives box where some are ticked never loses anyone |
| Audience.ReasonsAreRight | app/services/announcements.py:163-178 | the ticks a reason points at are enough to leave the person out; for the two reasons about the primary member exactly when no home passes that tick |
| Audience.PrimaryReasonCanBeWrong | app/services/announcements.py:173-176 | a primary member of a flat in another wing is told "not the primary member" |
| ImportNumbers.CleanTwice | app/admin_panel/people_import.py:206-224 | a cleaned number cleaned again, with any country, is itself: a plus sign and 8 to 15 digits |
| ImportNumbers.WholeNumbers | app/admin_panel/people_import.py:206-224 | a plus sign or 00 and 8 to 15 digits are taken as they are, fewer or more are not |
| ImportNumbers.OnlyWholeNumbers | app/admin_panel/people_import.py:206-224 | whatever is taken has a plus sign and 8 to 15 digits |
| ImportNumbers.SpellingsAgree | app/admin_panel/people_import.py:206-224 | a ten-digit number alone, with a leading 0, with the code, with + or 00 before that, is one number, if neither begins with 0 |
| ImportNumbers.LeadingZeroDiffers | app/admin_panel/people_import.py:206-224 | a number that does begin with 0, with one more 0 before it, is read as another number |
| ImportGroups.SortLines | app/admin_panel/people_import.py:371-432 | the loop over the lines computes the groups, the index and the skipped lines of the definition |
| ImportGroups.EveryLineOnce | app/admin_panel/people_import.py:371-432 | every line is in exactly one place: left out, or among the lines of one person |
| ImportGroups.LeftOutExactly | app/admin_panel/people_import.py:375-413 | a line is left out exactly when its email does not look right, it has neither number nor email, or the two belong to different people higher up |
| ImportGroups.SamePersonExactlyWhenLinked | app/admin_panel/people_import.py:406-432 | two kept lines are one person exactly when a chain of kept lines sharing a number or an email links them |
| ImportGroups.PeopleHaveFirstTexts | app/admin_panel/people_import.py:416-429 | a person has the first number, email and name of the lines |
| ImportGroups.PeopleAreApart | app/admin_panel/people_import.py:406-432 | no two people of a file have one number or one email |
| ImportPlan.BuildPlan | app/admin_panel/people_import.py:434-692 | the people of a file in order, each with match, status and changes, as the definition gives them |
| ImportPlan.PlanFlat | app/admin_panel/people_import.py:561-687 | one line's flat: repeated, without a relation, taken by somebody higher up, unchanged, or a change |
| ImportFlats.LineLists | app/admin_panel/people_import.py:561-687 | a line with a flat not seen before and a relation known or saved lists the home it asks for unless that is saved; primary exactly when asked for, not a tenant's, and nobody higher up is |
| ImportFixpoint.PersonSays | app/admin_panel/people_import.py:434-692 | every home in a person's plan is as one of their lines says, what a line leaves out as it is or lived in if new; the status tells what the changes are; a role change is listed exactly when the file asks for another role and it is not the asker's own |
| ImportFixpoint.ColumnsSay | app/admin_panel/people_import.py:486-540 | the columns a plan changes of somebody found are the lines' texts where they differ, a name with whether it is likely the same person's |
| ImportFlats.NewRoleIs | app/admin_panel/people_import.py:548-552 | a new person for whom no line names a role has the role of the side of the first relation named, the tenant's side being the one that is never primary |
| ImportChoice.PickedRelationIsRead | app/admin_panel/people_import.py:770-774 | a relation picked on the screen is read as if the line had said it, and nothing else is changed |
| ImportCommit.Tables.Commit | app/admin_panel/people_import.py:763-934 | the plan worked out again and its kept part saved person by person, as the definition gives it; the three lists say who was added, updated and left out |
| ImportCommit.Tables.SaveOne | app/admin_panel/people_import.py:786-927 | one person all or nothing: columns, cleared primary members, homes |
| ImportChoice.OnlyKeptIsSaved | app/admin_panel/people_import.py:785-927 | for every choice, a column or home of somebody there before is as it was or as a change says that is listed for them and kept, but for a primary member taken away by somebody else's kept change; everybody new is a person whose adding is kept, with a role there is and not refused |
| ImportChoice.KeptIsSaved | app/admin_panel/people_import.py:785-927 | every kept change of somebody found, not refused and not changed again by a later line is there in the end |
| ImportChoice.NewIsAdded | app/admin_panel/people_import.py:785-927 | every new person who is kept, has a role there is and is not refused is there in the end, with the role picked on the screen if one was, and every kept home |
| ImportChoice.NothingKept | app/admin_panel/people_import.py:785-803 | when every box of a person is cleared nothing is written on their behalf and nobody is added |
| ImportChoice.RefusedIsUntouched | app/admin_panel/people_import.py:814-927 | of somebody the database refuses nothing is saved |
| ImportChoice.ListsAreRight | app/admin_panel/people_import.py:791-927 | what the three lists say of each person is so |
| ImportFlats.CommitKeepsFlats | app/admin_panel/people_import.py:851-886 | whatever is ticked and whoever is refused, a flat keeps at most one primary member and never a tenant |
| ImportFlats.FlatsAgain | app/admin_panel/people_import.py:560-687 | once everything wanted is saved, the same lines want the same and list nothing, and take the same places |
| ImportFixpoint.PrimaryAlone | app/admin_panel/people_import.py:637-650 | where somebody of the file is to be primary member nobody else of the file becomes one |
| ImportFixpoint.AllWantsSaved | app/admin_panel/people_import.py:851-886 | after all are saved every home the file wants is as wanted, whatever later people cleared |
| ImportFixpoint.EndSound | app/admin_panel/people_import.py:818-850 | saving a clean plan keeps numbers and emails unique |
| ImportFixpoint.ImportIsAFixpoint | app/admin_panel/people_import.py:333-934 | after saving a clean plan the same lines find everyone and list no change for anyone, if and only if nobody is the asker whose withheld role and changed email meet |
| ImportFixpoint.OwnEmailCanGo | app/admin_panel/people_import.py:515-535 | that case happens: a plan that first lists only the email lists the role afterwards |
| Schedule.NextRunIsLeast | app/scheduler/jobs.py:31-89 | the result is the least instant after now that matches the effective fields |
| Schedule.NextRunReads | app/scheduler/jobs.py:31-89 | the result is the least instant after now at which clock and calendar in Indian time read as the row says: minute, hour, day of the week, day of the month |
| Schedule.OtherKindsWait | app/scheduler/jobs.py:43-45 | a row by the minute runs that many minutes later, one of no known kind a day later |
| Schedule.NumberIs | app/scheduler/jobs.py:62-87 | the calendar is the usual one: 365 days a year, the leap years before, the days before the month |
| Schedule.WeekdayIs | app/scheduler/jobs.py:62-69 | the day of the week of a date, reckoned from year, month and day |
| Schedule.NewYear2025 | app/scheduler/jobs.py:62-69 | one anchored date: 1 January 2025 is day 739252, a Wednesday |
| Schedule.RunsEnumerate | app/scheduler/jobs.py:31-89 | feeding results back in gives every matching instant once and in order |
| Schedule.EveryInstantIsReached | app/scheduler/jobs.py:31-89 | no matching instant is skipped, across year ends and leap years |
| Schedule.MonthlyExactly | app/scheduler/jobs.py:69-87 | for any day of the month the result is the least match exactly when this month's is to come or the day stands for the same day this month and next |
| Schedule.MonthlyRaisesExactly | app/scheduler/jobs.py:69-87 | an error is raised exactly when this month's instant is past and next month lacks the day |
| Schedule.Day31CanFail | app/scheduler/jobs.py:69-87 | day 31 on a January 31 raises it |
| Schedule.MidnightIsNotKept | app/scheduler/jobs.py:51-87 | hour 0 counts as not given: the run is at 8 or 9 |
| Schedule.DateIsUnique | app/scheduler/jobs.py:69-87 | days and dates correspond one to one |
| Reminders.Job.Pass | app/scheduler/jobs.py:362-559 | one pass drops stale counters and handles the due cases in order, stopping where a rate limit stops it |
| Reminders.Try | app/scheduler/jobs.py:470-532 | what the sends to a case's people come to |
| Reminders.TurnExactly | app/scheduler/jobs.py:470-532 | somebody is told exactly when a send reaches them before any rate limit; it failed exactly when the people cannot be looked up or a send fails before any; it is paused exactly when a rate limit is met |
| Reminders.HandledExactly | app/scheduler/jobs.py:534-559 | when a case is told, marked, counted as failed, and when the pass stops |
| Reminders.NeverToldAgain | app/scheduler/jobs.py:534-559 | a marked case is never told again; a case is told at most once more than marking it failed |
| Reminders.GivenUpAfterTheLimit | app/scheduler/jobs.py:454-547 | a case due in every pass of its organisation and never reached when its turn comes is given up after exactly the limit of counted failures, each time, if and only if a start of the scheduler or another organisation's pass on the same database, table and column comes only when its turns so far are a multiple of the limit |
| Reminders.GivenUpExactly | app/scheduler/jobs.py:454-547 | the same for any case, whoever's pass it is not due in; with a limit of 1 always |
| Reminders.EveryTurnCounts | app/scheduler/jobs.py:536-547 | over any run every turn in vain is counted now, was one of a round that ended in a give-up, or was lost with a counter taken away |
| Reminders.NeverGivenUp | app/scheduler/jobs.py:276-318 | two organisations in turn, one of them with nothing due: for any number of rounds the other's case fails each time and is never given up |
| Reminders.LimitLeavesAlone | app/scheduler/jobs.py:520-535 | a rate limit before anyone on a case is reached leaves that case and all later ones untouched |
| Reminders.CountersStayInRange | app/scheduler/jobs.py:536-546 | stored counters stay between 1 and the limit minus 1, and belong to unmarked cases |
| Reminders.PassCounters | app/scheduler/jobs.py:454-460 | after a pass the counters of its database, table and column are of cases of its organisation that were due; other organisations' counters there are gone, and those kept elsewhere untouched |
| Reminders.EachPhoneOnce | app/scheduler/jobs.py:488-505 | with both messages everyone with a phone is told, one phone once |
| Reminders.ComplainantToldExactly | app/scheduler/jobs.py:488-505 | with a message for complainants, a complainant with a phone is told exactly unless they are also the assignee and assignees have no message |
| Reminders.MarkedSilentlyExactly | app/scheduler/jobs.py:534-559 | a case is marked with nobody told and nobody given up exactly when its people are found and none of them is to be told |
| Reminders.SelfAssignedExactly | app/scheduler/jobs.py:470-559 | a case whose complainant is its assignee is marked either way, and with nobody told exactly when assignees have no message |
| Window.Limiter.AllowHit | app/admin_panel/auth.py:190-202 | pruning, dropping old hits and the decision, as the definition has them |
| Window.AtMostLimitPerInterval | app/admin_panel/auth.py:183-202 | any half-open interval of `seconds` holds at most `limit` accepted hits of a key, with the pruning, and no queue is longer |
| Window.RefusedOnlyWhenFull | app/admin_panel/auth.py:199-200 | a refusal has `limit` accepted hits no older than `seconds` |
| Window.RefusedExactly | app/admin_panel/auth.py:190-202 | while no keys are thrown away, a call is refused exactly when the key has `limit` accepted hits no older than `seconds` |
| Sessions.Keys.AccountForSession | app/admin_panel/auth.py:421-445 | who a token answers for, and when its last use is written |
| Sessions.TidyChangesNoAnswer | app/admin_panel/auth.py:464-471 | tidying never changes a later answer, whatever happens afterwards |
| Sessions.StoredUseIsClose | app/admin_panel/auth.py:438-444 | what is stored is never later than the last true use and at most a minute earlier |
| Sessions.GapsDecide | app/admin_panel/auth.py:438-444 | not used for the limit less a minute is always let through, for longer than the limit never |
| Sessions.OnlyItsAccount | app/admin_panel/auth.py:400-471 | whatever happens after a sign-in, its session is let through only for that account while it is active and within seven days, and never once it was ended |
| Codes.FewGuessesPerCode | app/admin_panel/auth.py:367-396 | a code is answered wrong at most five times and used up at most once |
| Codes.RightExactly | app/admin_panel/auth.py:367-396 | over any guesses and tidyings since a code was issued, a guess is right exactly when it is that code, within ten minutes, after fewer than five wrong guesses and before it was used up |
| Codes.VerdictExactly | app/admin_panel/auth.py:367-396 | over the same runs, when a guess is answered wrong and when too many, and when it can only be expired or none |
| Codes.IssuedExactly | app/admin_panel/auth.py:336-364 | a code is issued exactly when there is none or the last is more than 59.5 seconds old |
| Codes.CodesAreApart | app/admin_panel/auth.py:336-364 | codes for one person are more than 59.5 seconds apart, tidying included |
| Codes.TidySoftens | app/admin_panel/auth.py:464-471 | tidying changes a later answer exactly for a code not used that ended more than a day before, from "expired" to "none", and never shortens a wait |
| Codes.TidyShows | app/admin_panel/auth.py:464-471 | a code guessed at after two days answers one way without the tidying and the other way with it |
| Lockout.Account.RegisterFailure | app/admin_panel/auth.py:289-309 | a wrong password counted: the fifth locks, any other takes a lock away, whether or not the account is locked by then |
| Lockout.LockHoldsExactly | app/admin_panel/auth_routes.py:139-187 | over any interleaving of sign-ins, no wrong password is counted within a lock exactly when none is counted there that looked before the lock was made |
| Lockout.AllAtOnce | app/admin_panel/auth_routes.py:139-187 | any number of wrong passwords sent together are all counted at one moment, and after the sixth the account is open |
| Lockout.GuessesAreSpaced | app/admin_panel/auth.py:289-309 | while locks are kept, of any six wrong passwords in a row the last comes at least fifteen minutes after the first |
| Lockout.OneAtATimeIsEnough | app/admin_panel/auth_routes.py:139-187 | locks are kept when nobody looks while another sign-in is between its look and its count |
| Lockout.SpacedFromClean | app/admin_panel/auth.py:289-309 | from an account with no wrong password counted, the spacing holds in every run with no late count |
| Accounts.Tables.TakeAccessFrom | app/admin_panel/auth_accounts.py:120-164 | an organisation taken away; the account is off and signed out when none is left |
| Accounts.Tables.SwitchAccount | app/admin_panel/auth_accounts.py:167-217 | switched on or off, with the four refusals |
| Accounts.CallKeeps | app/admin_panel/auth_accounts.py:60-284 | every call keeps the invariant |
| Accounts.AlwaysGood | app/admin_panel/auth_accounts.py:60-284 | over every run some super admin is active, every active account has a password, every admin not off has an organisation, every session belongs to an active account |
| Accounts.ChangesAreCalledFor | app/admin_panel/auth_accounts.py:60-284 | an account wins or loses an organisation, its level, its password or its status only by the call that is for that |
| Accounts.CallsTakeEffect | app/admin_panel/auth_accounts.py:60-284 | a call that answers done has done it |
| Accounts.SessionsAreOpened | app/admin_panel/auth_routes.py:139-205 | over every run, a session was started by signing in to an active account with its password, or by signing up with the right code |
| Accounts.UpKeeps | app/admin_panel/auth_routes.py:299-345 | signing up keeps it too: password and status first, then the session |
| Accounts.SwitchOffRefusedExactly | app/admin_panel/auth_accounts.py:181-199 | switching off is refused exactly for one's own account or when no super admin could sign in without it |
| Accounts.OldSessionsEnd | app/admin_panel/auth_accounts.py:157-284 | switching off, losing the last organisation, a new password and signing out everywhere end all earlier sessions |
| Accounts.GiveBack | app/admin_panel/auth_accounts.py:60-164 | taking the only organisation and giving it back restores the account, signed out |
| Approvals.Desk.HandleTap | app/executor/workflow_executor.py:44-303 | one tap: who may decide, the row marked, the next level's row or the run |
| Approvals.RunsOnceAfterEveryLevel | app/executor/workflow_executor.py:44-303 | an action runs at most once, and exactly when every queued level approved, one decision each, in order, none by the requester |
| Approvals.RejectionEnds | app/executor/workflow_executor.py:168-179 | after a rejection nothing more is decided and the action never runs |
| Approvals.DecidesExactly | app/executor/workflow_executor.py:62-150 | a tap decides exactly when the row waits and whoever taps has its role or leave to approve anything, and did not ask |
| Approvals.OnlyApproversDecide | app/executor/workflow_executor.py:62-150 | over every run each decision is by such a tap on the row of its level |
| Approvals.LevelsAskInTurn | app/executor/workflow_executor.py:180-260 | over every run each level after the first asks the role the queue names for it |
| Approvals.OtherTapRunsAnyway | app/executor/workflow_executor.py:125-137 | a run with a tap that is neither of the two: the first level is marked rejected, the second approves, and the action runs; the webhook passes on no such tap |
| Approvals.FirstAnswerDecides | app/executor/workflow_executor.py:306-371 | however taps interleave, one answer at most is recorded for a question, by somebody it was put to, and it counts as answered exactly then |
| Approvals.AnswersExactly | app/executor/workflow_executor.py:306-371 | who may answer, and when an answer carries the flow on |
| FlowChains.Descendants | app/admin_panel/triggers.py:73-92 | the worklist ends with exactly the flows that run after one, directly or through others |
| FlowChains.CanFollow | app/admin_panel/triggers.py:95-151 | offered are precisely the other flows that are no block and whose link keeps the links free of loops |
| FlowChains.ChainProblem | app/services/flow_triggers.py:261-303 | the climb finds a loop exactly when there would be one |
| FlowChains.NewLinkIsFine | app/admin_panel/triggers.py:95-151 | a new link, replacing the flow's own, makes a loop exactly when its upper end already follows its lower |
| FlowChains.Chains.SetAfter | app/admin_panel/triggers.py:280-332 | one request by itself: accepted exactly when the flow is fit, the other is no block, and the link makes no loop; links without loops stay so |
| FlowChains.NeverRoundExactly | app/admin_panel/triggers.py:280-332 | however requests interleave between their check and their insert, the links never go round exactly when every link inserted would still pass the check |
| FlowChains.OneAtATimeIsEnough | app/admin_panel/triggers.py:280-332 | that is so when no other request is between its check and its insert, whatever links are removed meanwhile |
| FlowChains.BothAtOnce | app/admin_panel/triggers.py:280-332 | two flows set after each other at once: both pass the check and the links go round |
| FlowChains.Chains.RemoveAfter | app/admin_panel/triggers.py:336-353 | a link taken away; the links stay free of loops |
| Categories.Lister.Walk | app/admin_panel/routing.py:171-191 | the recursive walk appends the subtree's lines with their totals, and returns the sum |
| Categories.EachListedOnce | app/admin_panel/routing.py:161-191 | every category is listed exactly once |
| Categories.SubtreesTogether | app/admin_panel/routing.py:171-191 | a category is followed by exactly what is under it, none of it elsewhere; depth is the number of ancestors and its total the sum over that block |
| Categories.TotalsAddUp | app/admin_panel/routing.py:171-191 | every line has its depth and total, and the totals at the top add up to all categorised cases |
| Categories.SumCountsCases | app/admin_panel/routing.py:161-191 | those sums count each category's own cases once and nothing else |

## Left out

- Network and delivery (Telegram, WhatsApp, email, Redis, the AI calls): each send is an outcome that may be anything.
- SQL text building, list and filter endpoints, page shells, settings and lookups: plumbing.
- prompt_sql: prints with the same helpers; only messages_sql is proved to read back.
- Letters, digits and upper case outside ASCII: left open as constants, so the lemmas hold for any table of them.
- load_group, load_catalog and the choice of targets: reading folders and settings; a plan is a list of files with different versions.
- lint, fingerprint and applying a plan in the database builder: they use the smaller lexer's pieces one by one.
- Backups and restores: foreign programs.
- flat_parts, the words for yes and no, the tidy form of emails and names, and the comparison of names in an import: functions that may be anything, so the import lemmas hold however texts are read.
- Reading CSV and Excel files, the notes and the warnings of an import: texts; only whether a change starts ticked is kept.
- residents rows without a person, and the warning that somebody stops being the primary member.
- The ids of new people: numbers that go up, where the database makes random ones.
- Users whose emails differ in capitals only: the plan reads emails in small letters and the model stores them so.
- Schedule: the last year a date can hold is not modelled.
- Reminders: reading the settings and tables of an organisation; the due cases come in as read. One scheduler at a time: a second copy would keep counters of its own.
- Hashes, tokens and cookies: opaque values.
- Codes.CodesAreApart: one request at a time; issue_code takes no lock and panel_keys allows more than one row for an account and a kind, so two requests at once may each issue a code.
- Lockout: the limit of 30 sign-ins in ten minutes from one address comes before the look and is not part of the runs; six at once pass it. Times along a run do not fall, while now() is the start of a transaction, so that two counts waiting for one row may carry times out of order.
- Migrations: a COMMIT that succeeds while its answer is lost.
- Migrations: the rows the dashboard's change builder adds at any time, without the lock, under versions no file has (app/admin_panel/database.py:634-640); the tables of the runs are those without them, which `OtherRowsUnread` and `OtherRowsStay` justify.
- FlowChains.Chains.SetAfter: why a flow is not fit to start by itself; whether it is comes in as one yes or no.
- Accounts: an account is known by its email, which never changes, so ids are not modelled; two super admins switching each other off at once are taken one after the other, as are a sign-in and a switch-off.
- Accounts.UpKeeps: one step; sign_up stores the password and starts the session in two statements, and a switch-off that comes between leaves a session on an account that is off.
- Approvals: two taps on one level at the same time in a chain, which the code does not lock against; who is notified.
- Announcements.Tables.ClaimBatch: claims alone; rows locked by another runner are the concern of the transition system, where any batch of waiting people may be claimed.
- Categories: building and sorting the lists of children; any order is allowed.
- The versions and differences of the flow editor, drafts, and the editing of single homes on the people page.
