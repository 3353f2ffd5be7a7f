# Catch-Parking-Violators, modelled in Dafny

Catch-Parking-Violators is a batch script that reconciles a building's
parking-subscription table with its parking-transaction table. It builds one
user per subscriber (keyed by email, or by the id the transactions carry when
the subscriber gave no email) and collects that user's licence plates. It then
looks for duplicate subscribers, types each plate as a "1st vehicle" or an
"additional vehicle" subscription, and picks the most-used plate of each type.
Finally it reports every transaction on a user's plates, flagging the plates
that are neither selected plate.

This project models that logic over plain sequences of rows. The CSV/Excel
plumbing around it is left out (see "Left out").

- `records.dfy` (`Records`): the input rows once loaded and filtered: a
  subscription row and a transaction row. A missing email, name or phone
  cell is `None`; plates, dates, times and durations are always present.
  `Operand` is the right-hand side of a `user == other` comparison.
- `wrappers.dfy` (`Wrappers`): `Option` and `Result`.
- `text.dfy` (`Text`): Python's `strip`, `split`, `upper`, `int()` on
  digit strings, and decimal printing. It proves that `join` and `split` are
  inverses and that `int(str(n)) == n`.
- `absolute_time.dfy` (`AbsoluteTime`): `abs_time`, a pure function that
  returns either a parse error or the pair of minute counts. Each count is
  `minute + 60·hour24 + 1440·day + 44640·month`.
- `user.dfy` (`UserRecord`): the `User` class of `User.py`. It holds a set
  of plates and compares by key: email first, id as fallback. It also renders
  the user as text (`__str__`).
- `updated_analysis.dfy` (`UpdatedAnalysis`): `updated_anallyse.py`.
  - Its set-based `User`.
  - A `Registry` class holding the three dictionaries `email_list`, `id_list`
    and `plate_list`. Users are held by reference, so the object appended to
    `plate_list` stays visibly distinct from the one `email_list` already
    holds.
  - `add_users` and the registration loop, both as written and corrected.
  - The id back-fill pass.
- `analysis.dfy` (`Analysis`): `anallyse.py`.
  - Its list-based `User`.
  - A `UserList` class for `user_list`, with `add_user` and its 1/0/-1 codes.
  - The population loop, including the re-submission of the previous user
    when an email-less row has no transaction.
- `analysis_passes.dfy` (`AnalysisPasses`): the passes `anallyse.py` runs
  over `user_list`, in order:
  - the pairwise duplicate scan;
  - the licence-type fill;
  - the partition of plates by type;
  - the selection of the most-used plate per type, first index on ties;
  - the flagged transaction report.

  Each loop is a method proved equal to a recursive specification function.
  The properties are proved about those functions.

The tables are modelled as immutable sequences. Where the script updates
objects in place, the model uses Dafny classes: `User`'s plate and type lists,
`user_list`, and the three dictionaries. Those methods carry `modifies`
clauses.

## Model

| member | source | states |
|---|---|---|
| AbsoluteTime.To24Cases | absolute_time.py:47-58 | 12 AM becomes hour 0, 12 PM stays 12, other PM hours gain 12, other AM hours are kept |
| AbsoluteTime.To24RoundTrip | absolute_time.py:47-58 | on hours 1..12 the conversion is injective: the 12-hour reading comes back from the 24-hour hour, which is below 24 |
| AbsoluteTime.To12RoundTrip | absolute_time.py:47-58 | every 24-hour hour is the conversion of exactly one 12-hour reading, with the hour in 1..12 |
| AbsoluteTime.PmTokens | absolute_time.py:25 | a time counts as PM exactly for the tokens "PM", "Pm", "pM", "pm"; there is no AM test, so any other token is AM |
| AbsoluteTime.AmPmTokens | absolute_time.py:38 | "PM" reads as PM and "AM" as AM |
| AbsoluteTime.ParseTimeParts | absolute_time.py:22-25 | "H:MM T" with digit fields parses to that hour and minute, with T deciding PM |
| AbsoluteTime.ParseDateParts | absolute_time.py:27-32 | "M/D/Y" with digit fields parses to that month, day and year |
| AbsoluteTime.ParseTimeText | absolute_time.py:22-25 | printing a clock reading as "H:MM AM/PM" and parsing it gives the reading back |
| AbsoluteTime.ParseDateText | absolute_time.py:27-32 | printing a date as "M/D/YYYY" and parsing it gives the date back |
| AbsoluteTime.AbsTimeFormula | absolute_time.py:65-68 | abs_time succeeds iff all four fields parse, and then each count is minute + 60·hour24 + 1440·day + 44640·month of its own instant |
| AbsoluteTime.AbsTimeOfText | absolute_time.py:4-68 | on well-formed text abs_time returns the two minute counts of the printed instants |
| AbsoluteTime.EncodeIgnoresYear | absolute_time.py:65-66 | dates that differ only in year encode the same |
| AbsoluteTime.YearIgnored | absolute_time.py:27-32 | the year is parsed but never used: two visit dates differing only in year give the same result |
| AbsoluteTime.EncodePairs | absolute_time.py:65-68 | each count depends only on its own instant's fields |
| AbsoluteTime.LeaveUsesVisitRule | absolute_time.py:34-66 | the leave count equals the visit count abs_time gives for the leave strings, and the visit count does not depend on the leave strings |
| AbsoluteTime.WithinMonth | absolute_time.py:61-66 | for in-range readings the time of day stays below 1440 and the day part stays inside one 44640-minute month slot |
| AbsoluteTime.TickOrder | absolute_time.py:61-66 | for minute 0..59, hour 1..12 and day 1..31, the order of counts is the lexicographic (month, day, hour24, minute) order, and equal counts mean equal instants |
| AbsoluteTime.NoRangeCheck | absolute_time.py:47-66 | "13:75 PM" parses unchecked and contributes 75 + 25·60 minutes |
| AbsoluteTime.MalformedTimeFails | absolute_time.py:22-24 | a time with no space-separated second token, or whose first token has no ":", is an error |
| AbsoluteTime.MalformedDateFails | absolute_time.py:27-32 | a date with fewer than three "/"-separated parts is an error |
| AbsoluteTime.NonNumericHourFails | absolute_time.py:24 | a non-numeric hour fails with the not-a-number error (ValueError), before anything else is looked at |
| AbsoluteTime.NonNumericMinuteFails | absolute_time.py:23-24 | a numeric hour followed by a non-numeric minute fails with the not-a-number error, before the AM/PM token is looked at |
| AbsoluteTime.NonNumericMonthFails | absolute_time.py:27-29 | a non-numeric month fails with the not-a-number error, before anything else of the date is looked at |
| AbsoluteTime.NonNumericDayFails | absolute_time.py:27-30 | a numeric month followed by a non-numeric day fails with the not-a-number error |
| AbsoluteTime.NonNumericYearFails | absolute_time.py:27-31 | a numeric month and day followed by a non-numeric year fails with the not-a-number error |
| UserRecord.User.constructor | User.py:27-51 | a new user has exactly the given fields and the plate set {license}, so its length is 1 |
| UserRecord.User.AddLicense | User.py:102-104 | the plate joins the set and every earlier plate stays; adding a held plate changes nothing; the length grows by one exactly when the plate is new |
| UserRecord.EqualsSymmetric | User.py:66-70 | user-to-user equality is symmetric |
| UserRecord.SelfEquality | User.py:68-70 | a user equals itself iff it has an email or an id; with neither it is not equal even to itself |
| UserRecord.EqualsByKey | User.py:66-80 | comparing with a user is comparing with its email when both have one, and with its present id otherwise |
| UserRecord.EqualsNotTransitive | User.py:66-70 | equality is not transitive: an email-less user can equal, by id, two users whose emails differ |
| UserRecord.DescribeLines | User.py:82-100 | `str(user)` is First/Last/Email/Car Number/rule lines for an email user and ID/Car Number/rule lines otherwise; the car number reads back as `len(user)` |
| UpdatedAnalysis.User.constructor | python_script/updated_anallyse.py:35-63 | a user needs exactly one of email and id (the assertion), and starts with the plate set {licence}, so its `len` (lines 65-66) is 1 |
| UpdatedAnalysis.User.PlateKeyed | python_script/updated_anallyse.py:251-258 | the email-less user the loop builds: no names, email, phone or id, and the plate set {plate}, so its `len` is 1 |
| UpdatedAnalysis.User.AddLicence | python_script/updated_anallyse.py:105-109 | the plate joins the set; re-adding a held plate leaves the set unchanged; `len` grows by one exactly when the plate is new |
| UpdatedAnalysis.EqualsAsymmetric | python_script/updated_anallyse.py:73-77 | this script's equality is not symmetric: an email-less user equals an email user with its id, but not the other way round |
| UpdatedAnalysis.KeylessUsersEqual | python_script/updated_anallyse.py:73-77 | two users with neither email nor id are equal |
| UpdatedAnalysis.AfterValues | python_script/updated_anallyse.py:190-207 | a registration adds at most the passed user to the values of email_list and id_list |
| UpdatedAnalysis.RegistrationKeepsKeyed | python_script/updated_anallyse.py:177-215 | registering a 6-character plate keeps the dictionaries keyed: emails map to users with that email, id_list plates to email-less users holding that plate, every plate_list key is 6 characters with a non-empty list, and every listed user is reachable by its key |
| UpdatedAnalysis.PlatesCountedStep | python_script/updated_anallyse.py:209-215 | each registration appends one entry to plate_list[plate], so its length counts the rows with that plate |
| UpdatedAnalysis.EmailsOfIsRowEmails | python_script/updated_anallyse.py:190-194 | the email keys the rows give are exactly the emails some row carries |
| UpdatedAnalysis.EmailPlatesAreRowPlates | python_script/updated_anallyse.py:190-198 | the plates the rows give an email's user are exactly the stripped plates of the rows with that email |
| UpdatedAnalysis.EmailPlatesOfAbsent | python_script/updated_anallyse.py:193-194 | an email no row carries has no plates, so a user newly filed under it starts from its own plate set |
| UpdatedAnalysis.EmailPlatesStep | python_script/updated_anallyse.py:190-198 | row i adds its stripped plate to the plates of its own email and changes no other email's plates |
| UpdatedAnalysis.IdPlatesOfIsEmailLessPlates | python_script/updated_anallyse.py:199-203 | the id_list keys the rows give are exactly the stripped plates of the email-less rows |
| UpdatedAnalysis.KeysFromRowsStep | python_script/updated_anallyse.py:190-207 | a registration adds the row's email to the keys of email_list, or else its plate to those of id_list, and no other key, so each key set stays exactly that of the rows so far |
| UpdatedAnalysis.RegistrationListsRow | python_script/updated_anallyse.py:177-215 | registering row i extends "plate_list counts each plate of the rows, and the dictionaries' keys are exactly the rows' keys" from rows 0..i-1 to rows 0..i |
| UpdatedAnalysis.Registry.constructor | python_script/updated_anallyse.py:166-174 | the three dictionaries start empty |
| UpdatedAnalysis.Registry.AddUsers | python_script/updated_anallyse.py:177-215 | a plate that is not 6 long is rejected with nothing changed. Otherwise: a new email maps to the passed user, and a known email adds the plate to the user it maps to; for an email-less user, a new plate maps to the user, and a known plate adds the plate to that entry. The email branch leaves id_list alone and vice versa. The passed object is appended to plate_list[plate]. Names, phone and id of the merged user are untouched. No user already filed loses a plate, and afterwards the user the key selects holds the plate whenever the passed user did. Exactly: each email key's user ends with the plates EmailLicenceAfter gives, each id_list key's user those IdLicenceAfter gives, and a rejected plate leaves every filed user's plates as they were |
| UpdatedAnalysis.Registry.FileUser | python_script/updated_anallyse.py:190-207 | the dictionary half of add_users: email_list and id_list change as EmailsAfter and IdsAfter say, the merged user gains the plate and keeps its id, no filed user loses a plate, and the user the key selects holds the plate whenever the passed user did. Exactly: a new key's user keeps its plates, the passed user's own email key gains the plate, an email-less user's plate key gains it under every key that object is filed, and every other user keeps its plates |
| UpdatedAnalysis.Registry.Register | python_script/updated_anallyse.py:273 | one registration keeps the registry keyed; when accepted, rows 0..i are held: plate_list counts each of their plates, the keys of email_list and id_list are exactly their keys, the user under each email holds exactly the stripped plates of the rows with that email, and the user under each id_list plate holds that plate alone; a rejected row leaves rows 0..i-1 held |
| UpdatedAnalysis.Registry.AddRowUser | python_script/updated_anallyse.py:188-207 | add_users for row i's user, whose plate set is its one stripped plate: a 6-character plate leaves the user under each email holding exactly the plates of rows 0..i with that email and each id_list plate's user holding that plate alone; a rejected one leaves that so for rows 0..i-1 |
| UpdatedAnalysis.Registry.RowHeld | python_script/updated_anallyse.py:190-207 | of a held row: its email is a key of email_list whose user holds its stripped plate, or, for an email-less row, its plate is a key of id_list whose user holds that plate and no other |
| UpdatedAnalysis.Registry.BackfillIds | python_script/updated_anallyse.py:283-291 | found_users is the number of transactions whose plate is an id_list key (not distinct users); each email-less user's id is that of the last transaction on one of its plates, or unchanged when there is none; plate sets are untouched |
| UpdatedAnalysis.LastIdNoMatch | python_script/updated_anallyse.py:285-291 | with no transaction on the user's plates, the id is unchanged |
| UpdatedAnalysis.LastIdIsLastMatch | python_script/updated_anallyse.py:285-291 | the id is the one of the last transaction on the user's plates |
| UpdatedAnalysis.MatchCountIsMatchingTransactions | python_script/updated_anallyse.py:283-290 | the found count is the number of indices of transactions on a key plate |
| UpdatedAnalysis.StopAsWritten | python_script/updated_anallyse.py:243-273 | the loop as written stops at the first row with no email (the assertion at line 62) or with a plate not 6 long, and every earlier row has both |
| UpdatedAnalysis.Stop | python_script/updated_anallyse.py:243-273 | the corrected loop never stops on a missing key; it stops only at the first plate not 6 long |
| UpdatedAnalysis.StopCompletes | python_script/updated_anallyse.py:243-273 | with every plate 6 long the corrected loop completes |
| UpdatedAnalysis.EmailLessRowStopsRun | python_script/updated_anallyse.py:251-258 | a row without email stops the loop as written at or before that row, even when every plate is valid and the corrected loop completes |
| UpdatedAnalysis.UserOf | python_script/updated_anallyse.py:245-271 | the user built for a row: names, email and phone from the row when it has an email, none of them otherwise; no id; the stripped plate |
| UpdatedAnalysis.Enrol | python_script/updated_anallyse.py:243-273 | one loop step registers the row iff its plate is 6 long, keeping the registry keyed and the processed rows held: plates counted, keys exactly the rows' keys, each email's user holding exactly the plates of the rows with that email, each id_list plate's user holding that plate alone |
| UpdatedAnalysis.RegisterRowsAsWritten | python_script/updated_anallyse.py:243-273 | the loop as written ends as StopAsWritten says, in a keyed registry holding exactly the rows before the stop: plate_list counts their plates, email_list has exactly their emails as keys, and each email's user holds exactly the plates of the rows with that email |
| UpdatedAnalysis.RegisterRows | python_script/updated_anallyse.py:243-273 | the corrected loop ends as Stop says, in a keyed registry holding exactly the rows before the stop: plate_list counts their plates, email_list and id_list have exactly their keys, each email's user holds exactly the plates of the rows with that email, and each id_list plate's user holds that plate alone |
| Analysis.User.constructor | python_script/anallyse.py:31-56 | a user needs exactly one of email and id, starts with the one-plate list [licence], empty type and partition lists, and no selected plates |
| Analysis.User.AddLicence | python_script/anallyse.py:87-88 | the plate is appended, even when already held |
| Analysis.MatchesIsSameKey | python_script/anallyse.py:174-191 | between well-keyed users, add_user's match is "same email" or "same id", and it is symmetric |
| Analysis.MatchesItself | python_script/anallyse.py:62-71 | a well-keyed user matches, and equals, itself |
| Analysis.FirstMatch | python_script/anallyse.py:175-177 | the index found is the first listed user that matches; none iff no listed user matches |
| Analysis.AppendKeepsKeyed | python_script/anallyse.py:185-200 | appending an unmatched well-keyed user keeps every key in the list unique |
| Analysis.UserList.constructor | python_script/anallyse.py:204 | the list starts empty |
| Analysis.UserList.Find | python_script/anallyse.py:174-191 | the scan returns the first matching index, as FirstMatch |
| Analysis.UserList.AddUser | python_script/anallyse.py:156-200 | with no listed user matching, returns 1 and appends the user, leaving every listed plate list unchanged. With a match, the list keeps its length and its users. Returns -1 when the first matching user already holds the plate, changing nothing. Returns 0 after appending the plate to that user, and to no other. Returns -1 exactly when the user was registered already. Afterwards the user is registered, every listed user keeps all but its plates, and plate lists that were non-empty and duplicate-free stay so |
| Analysis.FirstTransaction | python_script/anallyse.py:217-221 | the first transaction on the plate, or none iff no transaction is on it |
| Analysis.FindTransaction | python_script/anallyse.py:217-233 | the scan finds the first transaction on the plate |
| Analysis.BuildUser | python_script/anallyse.py:213-244 | an email row builds an email user with stripped email and plate; an email-less row builds an id user with the first matching transaction's id; both take first name, last name and phone from the row and start with empty type and partition lists; an email-less row with no transaction leaves the previous user |
| Analysis.Submit | python_script/anallyse.py:246 | add_user on a well-keyed user: the same outcome per code as UserList.AddUser (append with 1, unchanged with -1, one plate appended to the first match with 0, other plate lists unchanged), and the list stays well keyed and duplicate-free with the user registered |
| Analysis.RowKey | python_script/anallyse.py:213-244 | the key of the user a matched row builds: exactly one of email and id, the email exactly when the row has one |
| Analysis.KeyPlates | python_script/anallyse.py:174-200 | the plates add_user leaves with a key after n rows (each matched row with the key adds its stripped plate unless already held) hold no plate twice |
| Analysis.KeyPlateRow | python_script/anallyse.py:174-200 | every plate of a key comes from an earlier row with that key and that stripped plate |
| Analysis.RowPlateKept | python_script/anallyse.py:182-186 | the stripped plate of a row with a key stays among the key's plates from then on |
| Analysis.KeyPlatesAreRowPlates | python_script/anallyse.py:174-200 | a plate is among a key's plates iff some row so far has that key and that stripped plate |
| Analysis.KeyPlatesEmpty | python_script/anallyse.py:185-186 | a key has no plates iff no row so far builds a user with that key |
| Analysis.RowCode | python_script/anallyse.py:174-200 | add_user's code for a row is one of 1, 0 and -1 |
| Analysis.RowCodeMeans | python_script/anallyse.py:174-200 | a matched row gets 1 iff no earlier row had its key, and -1 iff an earlier row had its key and its stripped plate |
| Analysis.ExpectedCode | python_script/anallyse.py:174-200 | when the listed users hold exactly their keys' plates, the code read off the list (1 with no match; -1 or 0 as the first match holds the plate) is RowCode, and the match has the row's key |
| Analysis.MatchedPlates | python_script/anallyse.py:182-186 | after a matched row, with the plate appended to the matching user only if new, every listed user holds exactly its key's plates |
| Analysis.AppendedPlates | python_script/anallyse.py:185-186 | after an unmatched user is appended with the row's plate, every listed user holds exactly its key's plates |
| Analysis.UnseenKey | python_script/anallyse.py:174-186 | when no listed user matches a user, no earlier row built a user with its key |
| Analysis.SubmitRow | python_script/anallyse.py:246 | add_user on a row's user returns RowCode for the row, keeps the list valid, grows it only by the user with code 1, and leaves every listed user holding exactly its key's plates after the row |
| Analysis.CodedStep | python_script/anallyse.py:212-246 | when the next row's code is the one add_user returns for that row (RowCode), the codes stay the returned codes of the rows so far |
| Analysis.HeldExtend | python_script/anallyse.py:212-246 | a row whose key and plate a listed user holds extends the record of held rows by that row |
| Analysis.BuiltExtend | python_script/anallyse.py:222-246 | appending a user built from the next row keeps every listed user traced to the row it was built from |
| Analysis.TrackedMeans | python_script/anallyse.py:212-246 | every matched row so far has its key and stripped plate held by a listed user. Every listed user was built from one of those rows, with empty type and partition lists and no selection. Every listed user holds exactly its key's distinct row plates, in first-seen order (KeyPlates) |
| Analysis.Resubmit | python_script/anallyse.py:246 | add_user inside the loop returns RowCode for the row and grows the list only by the user with code 1. Every earlier row stays held, every listed user keeps its origin row, and every listed user holds exactly its key's plates after the row |
| Analysis.AddRow | python_script/anallyse.py:213-246 | one row's add_user returns RowCode for the row; an unmatched row resubmits the registered previous user. The list stays valid and grows only by the user with code 1. The held, built-from and exact-plate records extend to the row |
| Analysis.PopulateRow | python_script/anallyse.py:212-246 | one iteration: no user only when the first row is unmatched, changing nothing. Otherwise one more code, equal to RowCode for the row; the list stays valid, the user registered, and the records extend to the row |
| Analysis.PopulateUsers | python_script/anallyse.py:212-246 | the list ends well keyed and duplicate-free. An unmatched first row leaves current_user undefined (the NameError). Each code is RowCode for its row: -1 for an unmatched row; for a matched row, 1 when no earlier matched row had its key, -1 when one with its key had its stripped plate, 0 otherwise. The list length is the number of codes equal to 1. Each listed user holds exactly the distinct stripped plates of the matched rows with its key, in first-seen order. Every listed user was built from a row, with empty type and partition lists and no selection |
| AnalysisPasses.KeyedIsDistinct | python_script/anallyse.py:156-200 | a list add_user keeps well keyed holds each user object once |
| AnalysisPasses.SharedPlatesFacts | python_script/anallyse.py:301-304 | the plate loop for a pair (i, j) counts only plates, records (i, j) once per plate of i found in j, and counts none iff no plate is shared |
| AnalysisPasses.PairCounts | python_script/anallyse.py:292-304 | a pair adds to a count iff it clashes on that field: equal present phones, equal present emails, a shared plate |
| AnalysisPasses.RowCounts | python_script/anallyse.py:291-304 | the row of user i counts zero of a kind iff no later user clashes with i on it |
| AnalysisPasses.ScanCounts | python_script/anallyse.py:290-304 | the scan of the first i rows counts zero of a kind iff none of those users clashes with a later one |
| AnalysisPasses.NoDuplicatesIff | python_script/anallyse.py:290-304 | a total is zero iff no pair i < j clashes on that field |
| AnalysisPasses.RowPairs | python_script/anallyse.py:291-304 | every pair the row of user i records is (i, j) with j > i and a shared plate |
| AnalysisPasses.ScanPairs | python_script/anallyse.py:290-304 | every recorded pair is i < j with a shared plate, one per counted plate |
| AnalysisPasses.PairsAreSharedPlates | python_script/anallyse.py:287-304 | index_of_duplicate_licence has one entry per duplicate-plate count, each a pair sharing a plate |
| AnalysisPasses.KeyedHasNoEmailDuplicates | python_script/anallyse.py:295-298 | on a list add_user built, the duplicate-email count is 0 |
| AnalysisPasses.ScanForDuplicates | python_script/anallyse.py:281-304 | the nested loops compute exactly the scan's counts and pairs |
| AnalysisPasses.ScanRow | python_script/anallyse.py:291-304 | the j loop for user i adds exactly the row's counts and pairs |
| AnalysisPasses.AddSharedPlates | python_script/anallyse.py:301-304 | the k loop adds exactly the pair's shared-plate count and pairs |
| AnalysisPasses.TypeOfProgram | python_script/anallyse.py:351-355 | "First" iff the programme is exactly the 1st-vehicle name; the additional programme (and any other) gives "Additional" |
| AnalysisPasses.LastRowTypeIsLastRow | python_script/anallyse.py:335-358 | a plate gets no type iff no row is for its email and plate, else the type of the last such row |
| AnalysisPasses.TypeFoundIff | python_script/anallyse.py:341 | a plate is typed iff some row has the user's email and the plate, both as read |
| AnalysisPasses.FillTypes | python_script/anallyse.py:328-358 | one type per plate: the last matching row's for an email user, none for an id user |
| AnalysisPasses.FillAllTypes | python_script/anallyse.py:328-358 | every user in the list is typed that way |
| AnalysisPasses.TypesPresentIff | python_script/anallyse.py:373-378 | the non-null assertion on types holds for an email user iff each of its plates has a row for its email |
| AnalysisPasses.PlatesOfTypeMembers | python_script/anallyse.py:413-424 | a plate is in a type's list iff it is at an index with that type |
| AnalysisPasses.Partition | python_script/anallyse.py:413-424 | the loop appends, in order, the Additional-typed plates to the additional list, the First-typed ones to the first list and the rest to the other list |
| AnalysisPasses.PartitionIsExact | python_script/anallyse.py:413-424 | the three lists together hold every plate exactly as often as the plate list does |
| AnalysisPasses.IdUserPlatesAreOther | python_script/anallyse.py:330-332 | an id user's plates all go to the other list |
| AnalysisPasses.AllOfType | python_script/anallyse.py:423-424 | untyped plates all go to the other list, in order |
| AnalysisPasses.PartitionAll | python_script/anallyse.py:413-424 | every user's lists are extended by its partition, and each user is changed only by its own partition |
| AnalysisPasses.Max | python_script/anallyse.py:454 | `max` is a count of the list and no count exceeds it |
| AnalysisPasses.IndexOf | python_script/anallyse.py:455 | `index` is the first position holding the value |
| AnalysisPasses.MostUsed | python_script/anallyse.py:453-461 | none iff the list is empty; otherwise a plate with the largest transaction count, every earlier plate having a smaller count |
| AnalysisPasses.Frequencies | python_script/anallyse.py:431-451 | the frequency loop yields each plate's transaction count |
| AnalysisPasses.SelectVehicles | python_script/anallyse.py:429-461 | for an email user with first-type plates, first_licence becomes the most-used of them, else it is unchanged; likewise additional_licence |
| AnalysisPasses.SelectAll | python_script/anallyse.py:428-461 | every user of the list is selected that way |
| AnalysisPasses.RowAsWritten | python_script/anallyse.py:497-529 | the report line as written has the visit's start time as its exit time |
| AnalysisPasses.Row | python_script/anallyse.py:497-529 | the corrected report line: the end time as exit time, the user's email, the plate, flagged iff the plate is neither selected plate, "No first" iff the user has no first-type plate |
| AnalysisPasses.ExitTimeIsStartTime | python_script/anallyse.py:504 | the line as written differs from the corrected one exactly when the visit ends at another time than it starts |
| AnalysisPasses.PlateRowsFacts | python_script/anallyse.py:493-529 | a plate gets one line per transaction on it, each with the user's flags for that plate |
| AnalysisPasses.HolderRowsFacts | python_script/anallyse.py:484-529 | every line of a user is on one of its plates and carries its flags |
| AnalysisPasses.ReportLinesBelong | python_script/anallyse.py:481-529 | every report line belongs to an email user: its email, one of its plates, its flags |
| AnalysisPasses.SelectedPlateNotFlagged | python_script/anallyse.py:508-511 | no line of a selected plate is flagged |
| AnalysisPasses.PlateLines | python_script/anallyse.py:489-529 | the transaction loop for one plate emits exactly that plate's corrected lines (Row, with the end time as exit time; RowAsWritten and ExitTimeIsStartTime are the as-written half); the flag, once set, stays set, and "No first" is cleared by any first-type plate |
| AnalysisPasses.UserLines | python_script/anallyse.py:483-529 | an email user's corrected lines (Row), plate by plate; none for an id user |
| AnalysisPasses.FlagReport | python_script/anallyse.py:481-529 | the report loop emits exactly the corrected report (each line a Row, exit time from the end time): every email user's lines, user by user |

## Left out

- CSV loading, pandas filtering, Excel output, console printing and colouring are all left out. The inputs are the already-filtered rows in `Records`.
- The yes/no prompt in `updated_anallyse.py` and the `search_permision` it sets are left out: the value is never used.
- Cell values keep the types pandas would give them only as far as the logic needs. Ids and phone numbers are integers. A missing email, name or phone cell (NaN) is `None`, which never equals anything in the phone comparison.
- The plate cell of every subscription row, and every transaction cell typed `string` (plate, dates, times, duration), is assumed present. Neither script filters missing plates. A missing one is a float NaN, and its `.strip()` raises AttributeError and ends the run. In `anallyse.py` that happens only at lines 241-243, for a row with an email. An email-less row with a missing plate never reaches the `.strip()` at lines 227-229: NaN equals no transaction plate (lines 218-221), so the row behaves as an unmatched row and re-submits the previous user (or, on the first row, finds `current_user` undefined). In `updated_anallyse.py` every row strips its plate, at lines 248-250 or 262-264, so the AttributeError arises for any row. `abs_time` strips its time and date arguments the same way (absolute_time.py:22-40). That error path is not modelled.
- The per-user `transactions` DataFrame of `User.py` is pandas state that nothing in these files reads.
- The scripts' `__str__` methods and `anallyse.py`'s `__len__`, `has_first` and `has_additional` are left out. They are printing code, or they read a builtin or attributes that do not exist. `User.py`'s `__str__` is modelled.
- The counters `no_email_users` and `id_users` only feed printing.
- The "Duplicate License Plate" cells the duplicate scan writes into the output sheet are Excel output.
- The licence-status fill of `anallyse.py` is left out: it copies a status column that only feeds the sheet and its non-null assertion. The type fill beside it is modelled, because the partition reads it.
- The report's running `total` sums durations as floats. The column is copied into each line as read, and the sum is not modelled.
- The report's post-pass that blanks repeated emails in the email column is output cosmetics.
- AbsoluteTime.AbsTime: requires every argument to be plain ASCII text without '+', '-' or '_'. Python's `int()` also accepts a sign, underscores and non-ASCII digits, and that part of its behaviour is not modelled.
- UpdatedAnalysis.Registry.AddUsers: requires that email_list maps each email to a user with that email and id_list holds only email-less users. The loop always keeps this, as `Registry.Valid` proves. Called otherwise, the script would still run, and that case is not modelled.
- Analysis.UserList.AddUser: states the return codes, the list changes and that non-empty, duplicate-free plate lists stay so, but not that the list stays well keyed (no two users with one key). Analysis.Submit states that, for the well-keyed users the loop builds.
- AnalysisPasses.PartitionAll and AnalysisPasses.SelectAll: require that no user object is listed twice, which AnalysisPasses.KeyedIsDistinct proves for every list add_user builds.
- AnalysisPasses.ScanRow, AnalysisPasses.ScanForDuplicates and AnalysisPasses.FlagReport: these state their result through a snapshot of the users' fields, which the passes do not change.
- `updated_anallyse.py` compares the raw, unstripped "User Email" cell, while `anallyse.py` strips it. In `anallyse.py`, the type fill compares the stripped user fields with the raw cells. The model follows the code in both places.

## Findings

| source | as written | input that shows it | evidently intended | confidence | as-written member | corrected member |
|---|---|---|---|---|---|---|
| python_script/updated_anallyse.py:251-258 | a subscription row with no email builds `User(email=None, id_num=None)`, and the constructor's assertion at line 62 rejects it, ending the run | a table whose rows all have 6-character plates and one of which has an empty "User Email" (lemma `UpdatedAnalysis.EmailLessRowStopsRun`) | the email-less user is registered under its plate in `id_list` (the branch at lines 199-207) and gets its id from the back-fill | not executed | UpdatedAnalysis.RegisterRowsAsWritten | UpdatedAnalysis.RegisterRows |
| python_script/anallyse.py:504 | the "Visit Exit Time" of every report line is read from the "Visit Start Time (local)" column | any transaction whose end time differs from its start time (lemma `AnalysisPasses.ExitTimeIsStartTime`) | the exit time is read from "Visit End Time (local)" | not executed | AnalysisPasses.RowAsWritten | AnalysisPasses.Row |
