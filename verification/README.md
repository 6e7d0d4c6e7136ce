# Referral payout audit: a Dafny model

This project models the audit pipeline of a batch script that checks a
referral-reward programme. The script reads seven tables: referrals, referral
logs, referral statuses, rewards, paid transactions, referrer accounts and
leads. Its report has at most one row per joined row, with two derived columns.
`referral_source_category` gives the acquisition channel.
`is_business_logic_valid` says whether the reward handling complies with the
payout policy.

The model covers the steps between reading and writing the files:

- **Normalisation** (`normalise.dfy`). Transaction status and type become
  text and are upper-cased. The `is_deleted` and `is_reward_granted` flags
  are true exactly when their lower-cased text is `"true"`. A missing cell
  becomes the text `"nan"`, so a missing status reads `"NAN"` and a missing
  flag reads false.
- **Join chain** (`relation.dfy`, `join.dfy`). There are six left-outer
  joins, anchored on the referrals. `Relation.LeftJoin` is a generic
  left-outer equi-join over sequences. `Relation.LeftJoinWith` stores each
  join's right side, which may be missing, in the growing `Schema.Joined`
  record.
- **Source classifier** (`classify.dfy`). This is `map_source`.
- **Validity rule** (`validity.dfy`). This is `is_valid`: two fixed cases
  over optional fields. Every comparison involving a missing value is false,
  as comparisons with NaN and NaT are. The rule is therefore total and needs
  no exception handler.
- **Report** (`report.dfy`). It projects the 21 output columns and keeps
  only the rows where every column is present (`dropna`).
- **Pipeline** (`pipeline.dfy`). It runs normalisation, the joins, the
  classifier, the rule and the report end to end.

A missing cell is `Options.None` throughout. Join keys are optional on both
sides and compared with `==`, so a missing key matches a missing key. This is
how a pandas merge treats NaN keys.

The joins are left-outer, so a referral with no referral log still yields one
joined row, and a referral with several logs yields one row per log. Any
later relation that repeats a key fans the rows out further.
`Relation.LeftJoinSize` and `Join.JoinAllSize` state the exact count.
`Join.JoinAllSize` takes the later five relations to be uniquely keyed. The
completeness filter then removes every row that lacks a log, a transaction, a
referrer account or a lead, so a referral without one of these is not
reported at all.

## Model

| member | source | states |
|---|---|---|
| Normalise.NormaliseEnum | main.py:48-49 | a missing status or type cell normalises to "NAN", and a normalised value never contains a lower-case letter |
| Normalise.EnumIdempotent | main.py:48-49 | normalising an already-normalised status or type changes nothing |
| Normalise.EnumMatchesIgnoringCase | main.py:48-49 | a cell normalises to an upper-case word such as "PAID" exactly when its text is that word in some mix of cases |
| Normalise.NormaliseFlag | main.py:51-52 | a flag is true exactly for a boolean True cell or for text spelling "true" in some mix of cases; a missing cell, "False", "yes" and every other text give false |
| Normalise.NormaliseTransaction | main.py:48-49 | status and type are the normalised enumeration of the raw cells (a missing one becomes "NAN"); id, time and location are kept |
| Normalise.NormaliseUserAccount | main.py:51 | `is_deleted` is true exactly for a boolean True or text spelling "true" in any case; every other account column is kept |
| Normalise.NormaliseDetail | main.py:52 | `is_reward_granted` is true exactly for a boolean True or text spelling "true" in any case; every other log column is kept |
| Relation.Filter | main.py:139 | selection keeps exactly the input rows that satisfy the predicate and never adds rows |
| Relation.FilterIsSubsequence | main.py:139 | the selected rows are a subsequence of the input, in the input's order |
| Relation.FilterIdempotent | main.py:139 | selecting twice with the same predicate gives the same rows in the same order as selecting once |
| Relation.FilterCounts | main.py:139 | each satisfying row is kept as many times as it occurs, and other rows are kept zero times |
| Relation.FilterAppend | main.py:139 | selection distributes over concatenation, so it decides row by row |
| Relation.LeftJoin | main.py:61-69 | the join has at least as many rows as the left side; every output row pairs a left row with one of its matches, or with a missing side when it has none |
| Relation.LeftJoinComplete | main.py:61-69 | every left row appears paired with each of its matches, and with a missing side when it has no match (the converse of LeftJoin's contract) |
| Relation.LeftJoinSize | main.py:61-69 | each left row contributes max(1, number of matching right rows) output rows |
| Relation.LeftJoinAppend | main.py:61-69 | left rows keep their order: the join of a concatenation is the concatenation of the joins |
| Relation.LeftJoinNoFanOut | main.py:61-69 | with a uniquely keyed right side, there is exactly one output row per left row, in order, paired with its single match or a missing side |
| Relation.AtMostOneMatch | main.py:61-69 | a uniquely keyed relation has at most one row for any key |
| Relation.Lookup | main.py:61-69 | the looked-up side is one of the key's matches, or missing exactly when there is none |
| Relation.LeftJoinWith | main.py:61-69 | every row of a join that stores its right side in the record is some left row with a correct match (or a missing side) attached |
| Relation.LeftJoinWithComplete | main.py:61-69 | every left row appears with every possible right side attached |
| Relation.LeftJoinWithNoFanOut | main.py:61-69 | with a uniquely keyed right side, the storing join is a row-by-row map that attaches the key's single match |
| Join.JoinAll | main.py:61-69 | the six chained left joins never have fewer rows than the referral table |
| Join.JoinAllSound | main.py:61-69 | every joined row holds an input referral, and each of its six sides is a row of that relation with the referral's key, or is missing because there is no such row |
| Join.SeedComplete | main.py:63 | a referral with any correct referral-log side (a matching log, or none when it has no log) is a row of the first join |
| Join.StepComplete | main.py:64-68 | a later join step keeps each left row once for every correct right side |
| Join.JoinAllComplete | main.py:61-69 | every sound combination of a referral with one choice per side is a joined row, so a repeated key fans out into one row per match |
| Join.JoinAllExactlySound | main.py:61-69 | the joined table contains exactly the sound rows |
| Join.JoinedTransactionIsInput | main.py:66 | a matched transaction in the joined table is an input transaction with the referral's transaction id |
| Join.JoinAllKeepsReferrals | main.py:61-69 | every input referral has at least one joined row |
| Join.StepKeepsReferral | main.py:64-68 | a join step that leaves the referral untouched keeps every referral of its left side |
| Join.JoinAllManyToOne | main.py:61-69 | when statuses, rewards, transactions, accounts and leads are uniquely keyed, only the referral-log join fans out; each row of that join becomes one joined row, in order, completed by key lookups |
| Join.JoinAllSize | main.py:61-69 | under the same uniqueness, a referral yields one joined row per matching referral log, or one row when it has none |
| Join.JoinAllOneRowPerReferral | main.py:61-69 | when every joined relation is uniquely keyed, the joined table is the referral table row for row, each referral completed by key lookups |
| Classify.MapSource | main.py:72-79 | a category is produced only for the three known tags; it is missing exactly for an unknown or missing tag, or for a "Lead" with no lead category; only "Lead" can yield something other than "Online" or "Offline" |
| Classify.MapSourceChannels | main.py:72-79 | "User Sign Up" gives "Online" and "Draft Transaction" gives "Offline" whatever the lead side holds; "Lead" gives the lead's category, so a lead referral with no matched lead gets none |
| Classify.MapSourceDependsOnTagAndLead | main.py:72-79 | the category depends only on the source tag and the matched lead's category |
| Validity.IsValid | main.py:84-110 | with a reward present, the verdict is case 1; with no reward, it is true exactly when the description is "Menunggu" or "Tidak Berhasil" |
| Validity.CasesExclusive | main.py:87-106 | the two valid cases never hold together: case 1 needs a positive reward and case 2 needs none |
| Validity.UngrantedValidWhateverElse | main.py:102-106 | a pending or failed referral with no reward is valid, whatever its transaction, referrer account and reward-granted flag hold |
| Validity.RewardNeedsSuccess | main.py:87-108 | a present reward with any description other than "Berhasil" (for example "Menunggu") is invalid |
| Validity.MissingTimestampLeavesCase2 | main.py:93-95 | a missing referral, transaction or membership-expiry time rules out case 1, so the verdict is case 2's test alone |
| Validity.UnmatchedSideLeavesCase2 | main.py:90-97 | with no matched transaction or referrer account, only case 2 can make a referral valid; the `is_deleted is False` test fails for a missing account; a referral with no log is never valid |
| Validity.GrantedTiming | main.py:93-95 | case 1 means the transaction is strictly after the referral and in the same month of the year, and the membership expires after the referral |
| Validity.MonthCheckIgnoresYear | main.py:93-94 | moving a compliant transaction to any later time in the same month of the year, in any later year, keeps the referral valid |
| Validity.WorkedExamples | main.py:84-110 | a compliant grant is valid; the same grant a month later is invalid; a reward with "Menunggu" is invalid; "Menunggu" with no reward is valid; a missing referral time makes a grant invalid; a transaction in January of the following year passes |
| Report.Project | main.py:115-139 | the category column is the classifier's result and the validity column the rule's verdict for the same row; a row with no missing column matched a referral log, a transaction, a referrer account and a lead and has a known source tag (status and reward matches are not needed); a matched transaction always has a status and type, because normalisation turned missing ones into "NAN" |
| Report.DropIncomplete | main.py:139 | keeps exactly the rows with all output columns present, as a subsequence of the input in its order |
| Report.DropIncompleteIdempotent | main.py:139 | filtering the report a second time gives the same rows in the same order |
| Report.DropIncompleteCounts | main.py:139 | a complete row is kept as often as it occurs, and an incomplete row never is |
| Report.ProjectAll | main.py:115-139 | projection maps the joined table row by row, in order |
| Report.BuildReport | main.py:115-139 | every reported row is complete and is the projection of some joined row; every joined row whose projection is complete is reported; the report is a subsequence of the projected table and no longer than the joined table |
| Report.BuildReportCounts | main.py:115-139 | each complete projected row is reported exactly as often as the joined table yields it, and an incomplete one never |
| Pipeline.NormaliseSources | main.py:48-52 | the referral, status, reward and lead tables are kept; the log, transaction and account tables are normalised row by row, in order |
| Pipeline.Run | main.py:48-139 | every reported row is complete and is the projection of a sound joined row of the normalised inputs; every complete projection is reported exactly as often as the join yields it, in the joined table's order |
| Pipeline.RunReportsInputReferrals | main.py:61-139 | every reported referral id belongs to an input referral |
| Pipeline.JoinedStatusIsNormalised | main.py:48-66 | the transaction status of any joined row with a matched transaction is the upper-cased status, as read, of an input transaction carrying the referral's transaction id |
| Pipeline.NormalisedFrom | main.py:48-49 | a normalised transaction comes from an input transaction with the same id, whose status it upper-cases |
| Pipeline.RunIsFiltered | main.py:139 | applying the completeness filter again to the report keeps every row |

## Left out

- Reading the seven CSV files, writing both output files and printing the row
  count (main.py:4-10, 33, 141-143). These are I/O.
- The column-profiling report (main.py:13-33). It is a loop over library
  null and distinct counts.
- Parsing dates and numbers (main.py:36-46). The library parsers are not
  part of this model. Timestamps and reward values arrive already typed, and
  an unparseable value arrives as `None`.
- The timestamp's calendar. A `Timestamp` carries its year, its month and
  an ordinal that orders it on the time line. Nothing ties the three
  together, because the rule only compares ordinals and months.
- Floating-point reward values. Only whether `reward_value` is present and
  positive matters, so it is an `Option<int>`.
- Numeric raw cells in the enumeration and flag columns. Python's text form
  of numbers is not modelled. A raw cell is missing, text or a boolean.
- Normalise.Upper and Normalise.Lower: these model ASCII case mapping only.
  Python's Unicode mappings for other letters (for example `ß` to `SS`) are
  not modelled.
- Column renaming and merge suffixes (main.py:55-58, 67). Each entity is a
  typed record with distinct field names, so no name can collide.
- Columns that nothing reads: the creation times of statuses, rewards and
  leads. A status keeps its label, which the report does not use.
- The catch-all exception handler in `is_valid`. With optional fields and
  false-on-missing comparisons, no fault can arise in the model. Python's
  `is True` and `is False` tests are modelled as equality with a present
  boolean.
- The order in which pandas emits several matches of one left row. It is
  modelled as the order of the right-hand table.
