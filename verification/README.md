# WonderArk verification model

A Dafny model of the algorithms and small protocols of the WonderArk platform that carry more than display logic, with
proofs about every input, every run or every interleaving. `dafny verify dfyconfig.toml` checks the whole project.

The platform is a web application over a hosted PostgreSQL database. Six parts of it are modelled.

1. **Two parsers and an escaping printer.** The help pages' Markdown subset (`MarkdownBlocks`, `MarkdownReader`,
   `MarkdownConservation`, `MarkdownRoundTrip`, `MarkdownInline`), the CSV reader of the end-to-end tests (`CsvReader`),
   and the assistant's budgeted prompt printer over JSON rows (`BusinessAssistant`, `PromptReader`, `Json`, `Decimal`, `Text`).
2. **Configuration history.** Plans, feature flags, announcements and system policies are rows with an append-only event
   log; restoring a version turns a stored row back into form text and runs the normal update (`SnapshotForms`,
   `ConfigHistory`, `ConfigRuns`, `ConfigEdits`, `ConfigRestores`, `ConfigRollouts`, `ConfigStore`), and a viewer compares snapshots field by field (`ConfigDiff`).
3. **Fast merges against simple specifications.** The AI usage list (`AiUsage`), the narrowed audit search (`AuditLog`),
   the minimum plan per module (`ModulePlans`) and the grouping of organizations (`Organizations`), over newest-first pages
   (`Sorting`, `Paging`).
4. **Step protocols on shared rows.** Branding drafts (`Branding`), plan prices (`PlanPrices`), alert episodes
   (`OpsAlerts`, `AlertEpisodes`) and the deletion of demo data (`Relations`, `SeedData`).
5. **Staged feature rollout** (`FeatureRollout`).
6. **The MCP server's JSON-RPC dispatcher** (`McpServer`, `McpCalls`).

Code that changes variables or rows step by step is modelled by methods with loops and by classes whose methods are tied
to functions of the old state; everything else is functions. Where several sessions work on the same rows, each database
statement is one step and a run is any sequence of steps of any number of sessions. Database functions and constraints
follow the migrations cited beside them.

## What the proofs found

Each of these is stated by a lemma that says exactly when the code does what its comments promise.

- A restore is exact if and only if the stored version has the shape form edits leave. `endAnnouncement` writes the database
  clock with microseconds, so a version it recorded between two milliseconds cannot be restored exactly
  (`ConfigRuns.RestoreIsExactIffCanonical`, `ConfigRuns.EndedBetweenMillisecondsIsNotExact`).
- `createPlanPrice` does not undo its deactivation when the insert is refused: the key is left without an active price
  exactly when the submitted provider price id was already mapped, for instance when the active price is entered again to
  correct its amount (`PlanPrices.LosesItsPriceIff`, `PlanPrices.ResubmittingSwitchesOff`).
- The rollout form takes any plan key and the database refuses one it has no plan for: a rollout the form accepts is saved
  exactly when every business and plan it names exists (`FeatureRollout.AcceptedIsSavedIff`,
  `FeatureRollout.UnknownPlanIsRefused`).
- Ending an announcement at the very instant it starts is refused by the table, whose end must come after the start
  (`ConfigEdits.EndedIsOver`).
- A version need not be canonical to be restored: the row then gets the version's fields as the form reads them
  (`ConfigRestores.RestoreGoesThroughIff`).
- An email that fails with an empty error text is counted as emailed, while its row does not say it was; the counts of a
  check mean what they say exactly when no failure text is empty (`AlertEpisodes.ReturnedCheckReportedAll`,
  `AlertEpisodes.EmptyFailureCountsAsEmailed`).
- An alert episode whose check dies after recording it is never emailed by any later check
  (`AlertEpisodes.NeverEmailedIff`, `AlertEpisodes.DyingForgets`), and an outage of the database resolves every other
  episode, so a problem that outlasts it is emailed twice, against the "never again for the same problem" of the module
  comment (`AlertEpisodes.OutageReportsAgain`). Episodes are recorded in the same database, so this needs it to answer
  again within the check that found it away; otherwise that check records nothing.
- Demo data is not only blocked by document lines, as the comment on the deletion says: an untracked document or payment
  on a tracked party, an allocation to a tracked document, a stock transfer, and a row of another table that restricts,
  such as a field-service opportunity, job or assessment or an investor on a tracked party, block it too
  (`SeedData.GoesThroughIff`, `SeedData.UntrackedDocumentBlocks`, `SeedData.OtherTableBlocks`). A business whose batches
  hold no records keeps those batches (`SeedData.NothingTracked`).
- Publishing a branding draft reads and then writes: a draft saved in between is dropped exactly when it is the last to
  have been saved, discarded or published since the read and differs from what was read, and one discarded in between
  goes live (`Branding.SaveDuringPublishIsLost`, `Branding.DiscardDuringPublishIsTooLate`).
- A business two links below its organization is in no group of the console, and its detail page finds no group of the
  list under its organization's id (`Organizations.PartitionIffLinksLeadToRoots`,
  `Organizations.OneOrganizationIsItsGroup`). The function that creates environments refuses a parent that is itself an
  environment (supabase/migrations/20261013100000_core_organization_addresses_environments.sql:289-291), so only links
  written in another way lead here.
- The audit search offers the types `plan_price`, `billing_provider` and `billing_settings` and never returns a row of
  any of them (`AuditLog.NeverReadTypesAreNeverFound`).
- An empty JSON-RPC batch gets no reply, where section 6 of JSON-RPC 2.0 asks for an error (`McpServer.NothingIff`).
- The comparison of two snapshots can list a field with null on both sides (`ConfigDiff.LooksEqualIffNullMeetsMissing`).
- Two Markdown lists with a single blank line between them are read as one (`MarkdownRoundTrip.RoundTrip`), and a CSV text whose last record is one
  empty field loses it without the final line break (`CsvReader.RoundTripWithoutFinalBreak`).

## Model

| member | source | states |
|---|---|---|
| CsvReader.ParseCsv | apps/web/e2e/support/exports.ts:18-49 | the reader's loop computes the state machine `Parse` that the round trips are about |
| CsvReader.RoundTrip | apps/web/e2e/support/exports.ts:18-49 | for every table of non-empty rows and every writer following section 2 of RFC 4180, whatever extra fields it quotes, the file after a byte-order mark reads as exactly the rows written |
| CsvReader.RoundTripWithoutBom | apps/web/e2e/support/exports.ts:18-49 | without that mark the rows come back if and only if the file does not itself begin with one |
| CsvReader.RoundTripWithoutFinalBreak | apps/web/e2e/support/exports.ts:18-49 | after a byte-order mark, without the last CRLF, the rows come back if and only if the last one is not a single empty field; otherwise exactly that row is missing |
| CsvReader.RoundTripBare | apps/web/e2e/support/exports.ts:18-49 | with neither the mark nor the last CRLF they come back if and only if the last row is not a single empty field and the text does not itself begin with the mark |
| CsvReader.ParsedTablesAreWritable | apps/web/e2e/support/exports.ts:18-49 | any text, well formed or not, reads as a table without empty rows that survives being written and read again |
| MarkdownReader.ParseBlocks | apps/web/components/help/markdown.tsx:40-163 | the index-driven loop with its paragraph buffer computes the function `Parse` of the text |
| MarkdownReader.ReadList | apps/web/components/help/markdown.tsx:108-155 | the list loop, which extends the last item in place and looks over blank lines, computes `ListRun` and where it stops |
| MarkdownReader.ReadTable | apps/web/components/help/markdown.tsx:94-106 | the table loop takes exactly the run of rows and splits each one |
| MarkdownConservation.EveryLineIsKept | apps/web/components/help/markdown.tsx:40-163 | for every sequence of lines, each line is in exactly one piece, in document order; lines outside blocks are blank; each block shows what its lines say, also for unterminated fences |
| MarkdownConservation.ParseKeepsEveryLine | apps/web/components/help/markdown.tsx:40-163 | the same for a whole text: the pieces' lines joined are the text, and the blocks among them are the parse |
| MarkdownConservation.ListRunShows | apps/web/components/help/markdown.tsx:108-155 | a list never nests deeper than two levels and its texts, in order, are what its lines say, also over blank lines and wrapped lines |
| MarkdownConservation.SplitRowKeepsInk | apps/web/components/help/markdown.tsx:31-38 | a row's cells are trimmed and hold everything on the line but white space and bars, in order |
| MarkdownRoundTrip.ItemIff | apps/web/components/help/markdown.tsx:28-29 | a line reads as a list item with a given indentation, text and kind if and only if it is written as one: white space, a dash, star or any digits closed by a dot or bracket, white space, text |
| MarkdownRoundTrip.ParseWritten | apps/web/components/help/markdown.tsx:31-163 | however a document is laid out (any item numbers and marks, indentation, wrapped items and lines, blank lines between items and blocks, padded cells, rows with or without a closing bar, rules, info strings, code without a closing fence), parsing its text gives the document, with lists joined where a single blank line is between them |
| MarkdownRoundTrip.RoundTrip | apps/web/components/help/markdown.tsx:31-163 | each block comes back as written if and only if no two lists have a single blank line between them |
| MarkdownRoundTrip.EveryDocumentCanBeWritten | apps/web/components/help/markdown.tsx:31-163 | every canonical document, lists side by side included, has a text that parses to exactly it |
| MarkdownInline.RenderInline | apps/web/components/help/markdown.tsx:167-217 | the copying loop over matches computes `Inline`, and ends because each match is shorter than the text |
| MarkdownInline.InlineKeepsText | apps/web/components/help/markdown.tsx:167-217 | the plain slices and the tokens, put together, are the text |
| MarkdownInline.ClassificationAgrees | apps/web/components/help/markdown.tsx:167-217 | the kind told from a token's first characters is the alternative of the pattern that matched it, and a link token always splits into label and address |
| MarkdownInline.NestingAtMostThree | apps/web/components/help/markdown.tsx:167-217 | no rendering nests more than three levels deep |
| MarkdownInline.MatchIff | apps/web/components/help/markdown.tsx:168 | the pattern matches at a place with that alternative and length if and only if a token of that kind stands there: bold, code, link or italic, by what its parts may hold; what follows makes no difference |
| MarkdownInline.SearchIsComplete | apps/web/components/help/markdown.tsx:168-175 | where nothing is found no token stands anywhere, and what is found is the leftmost token |
| MarkdownInline.WrittenIsRendered | apps/web/components/help/markdown.tsx:167-217 | writing down bold, code, links and italics, nested as far as the marks allow, and rendering the text gives exactly these nodes, a link leaving the site exactly when its address begins with neither / nor # |
| BusinessAssistant.FormatRecords | packages/core/src/ai/business-assistant.ts:57-75 | the two nested loops with their running total compute `Format` |
| BusinessAssistant.ShownIsMaximalFit | packages/core/src/ai/business-assistant.ts:57-75 | of each resource a prefix is shown, and one row more would go over what earlier resources left of the budget |
| BusinessAssistant.ShownWithinBudget | packages/core/src/ai/business-assistant.ts:57-75 | what is kept stays within the budget, before escaping |
| BusinessAssistant.BodiesWithinBudget | packages/core/src/ai/business-assistant.ts:57-75 | after escaping and joining, the bodies total at most seven times the budget |
| BusinessAssistant.BodyDecodes | packages/core/src/ai/business-assistant.ts:61-72 | splitting a body at line breaks and decoding each line (RFC 8259) gives back exactly the rows kept |
| BusinessAssistant.PromptHasOneBlock | packages/core/src/ai/business-assistant.ts:77-79 | with resource names free of `<`, each of the two tags occurs at one place, the records text lies exactly between them, and the question decodes to what was asked |
| BusinessAssistant.SourcesAreGiven | packages/core/src/ai/business-assistant.ts:115-121 | a reported source was both claimed by the model and given to it, repeats and order kept |
| PromptReader.PromptReadsBack | packages/core/src/ai/business-assistant.ts:57-79 | a whole prompt decodes to the question asked and, for every resource in order, its name, exactly the rows shown and how many were left out |
| PromptReader.FormatReadsBack | packages/core/src/ai/business-assistant.ts:57-75 | the same for the records text alone, for any budget |
| PromptReader.HeaderReads | packages/core/src/ai/business-assistant.ts:72 | a block's header line gives back its name and both counts, whatever the name |
| Json.DecodeGuarded | packages/core/src/ai/business-assistant.ts:70-79 | JSON text with every `<` rewritten decodes to the value it was written from |
| Json.StringifyInjective | packages/core/src/admin/config-history-diff.ts:35 | two values have the same JSON text only if they are equal |
| ConfigRuns.EveryRunKeepsInv | packages/core/src/admin/config-history.ts:283-346 | in any run of creates, edits, deletions, rollout changes and restores, the events of each row chain, the last one left the row as it is, and identity never changes |
| ConfigRuns.FreshStoreHasInv | packages/core/src/admin/config-history.ts:283-346 | any well-formed tables with an empty log are a start for such runs |
| ConfigRuns.HistoryIsAppendOnly | packages/core/src/admin/config-history.ts:283-311 | every step adds at most one event and changes nothing recorded before, but for the link a deletion clears |
| ConfigRuns.RefusalChangesNothing | packages/core/src/admin/config-history.ts:283-346 | whatever is refused, by validation, the dispatcher or the table, leaves rows and log as they were |
| ConfigRollouts.StoredChangeIsDo | supabase/migrations/20261017130000_platform_feature_flag_rollout.sql:123-219 | on the stored rows a rollout change or rollback is the change of the flag's switch and of nothing else, goes through exactly when that does, and writes one event exactly when something changed |
| ConfigRollouts.SetRemembersOnTheRow | supabase/migrations/20261017130000_platform_feature_flag_rollout.sql:145-157 | a setting that changes a stored flag writes the setting and remembers the rollout it replaced |
| ConfigRollouts.RollbackGivesBackTheRow | supabase/migrations/20261017130000_platform_feature_flag_rollout.sql:168-219 | a rollback right after it goes through and gives the flag its former rollout, on or off as before, with nothing left to restore; every other row is as it was |
| ConfigEdits.EveryRunKeepsKeysUnique | packages/core/src/admin/platform-plans.ts:223-260 | over any run of creates, edits, deletions, rollout changes and restores no two plans share a key and no two flags do |
| ConfigEdits.CreateGoesThroughIff | packages/core/src/admin/platform-announcements.ts:218-268 | exactly when a creation goes through, and that it then adds one row and one event and changes nothing else |
| ConfigEdits.NewFlagReachesEveryone | supabase/migrations/20261017130000_platform_feature_flag_rollout.sql:33-45 | a flag starts at a rollout that reaches every business |
| ConfigEdits.EditGoesThroughIff | packages/core/src/admin/platform-plans.ts:262-290 | exactly when an edit goes through, and that it then changes the row's editable fields alone, with one event |
| ConfigEdits.DeleteGoesThroughIff | packages/core/src/admin/platform-announcements.ts:327-338 | exactly when a deletion goes through; exactly the links to the deleted row are cleared, and every other row keeps its history |
| ConfigEdits.EndedIsOver | supabase/migrations/20261013110000_platform_organization_console.sql:228-260 | ending goes through except at the very instant of publication; after it the announcement is never active, up to it exactly when it would have been |
| ConfigRuns.RestoreIsExactIffCanonical | packages/core/src/admin/config-history.ts:319-346 | a restore appends exactly one event and gives the row version k's editable fields, keeping plan key, flag scope and rollout, and announcement type and audience, if and only if version k is canonical |
| ConfigRuns.RestoreUndoesEdit | packages/core/src/admin/config-history.ts:319-346 | any edit of a row with a history is undone by restoring the version before it, if and only if the row before was canonical |
| ConfigRuns.RestoreUndoesRestore | packages/core/src/admin/config-history.ts:319-346 | any restore that goes through is undone by restoring the version that was current before it, if and only if the row before was canonical |
| ConfigRestores.RestoreGoesThroughIff | packages/core/src/admin/config-history.ts:319-346 | whatever kind, id, version and reason are given, the restore goes through if and only if the version is on the list, not the newest and not a deletion's, its row is there, its settled fields are ones the update schema accepts with known modules, and the reason has 1 to 500 characters; the row then gets exactly the settled fields, and otherwise nothing changes |
| ConfigRestores.VersionSettles | packages/core/src/admin/platform-plans.ts:301-317 | the form a stored version turns into is accepted if and only if the version is readable, and means its settled fields: texts trimmed, times on whole milliseconds, currencies in capitals, modules once |
| ConfigRestores.SettledIsCanonical | packages/core/src/admin/config-history.ts:319-346 | a readable version is canonical if and only if settling leaves it as it is, and what it settles to is canonical |
| ConfigRuns.OrderlyRunsStayCanonical | packages/core/src/admin/config-history.ts:319-346 | every version recorded in a run whose ends fall on whole milliseconds is canonical |
| ConfigRuns.EditKeepsCanonical | packages/core/src/admin/platform-announcements.ts:269-322 | every edit keeps every version canonical, whatever type an announcement form names |
| ConfigRuns.AnyVersionAfterAnyRun | packages/core/src/admin/config-history.ts:319-346 | after any such run every earlier version of every resource can be restored exactly |
| ConfigRuns.EndedBetweenMillisecondsIsNotExact | packages/core/src/admin/platform-announcements.ts:347-365 | an announcement ended between two milliseconds leaves a version that does not read back |
| ConfigStore.Tables.Update | packages/core/src/admin/platform-plans.ts:262-290 | the update methods change row and log together exactly as the state function `Edit` |
| ConfigStore.Tables.Insert | packages/core/src/admin/platform-plans.ts:223-260 | creating a row records its first event, exactly as `Create` |
| ConfigStore.Tables.SetRollout | packages/core/src/admin/platform-feature-rollout.ts:131-182 | a rollout change or rollback writes row and event exactly as `ChangeRollout` |
| ConfigStore.Tables.Remove | packages/core/src/admin/platform-announcements.ts:327-338 | a deletion keeps its events without their link, exactly as `Delete` |
| ConfigStore.Tables.EndNow | packages/core/src/admin/platform-announcements.ts:419-427 | ending an announcement switches it off before its start and sets its end after, exactly as `End` |
| ConfigStore.Tables.RestoreVersion | packages/core/src/admin/config-history.ts:319-346 | the dispatcher's checks and the update it calls act on the tables exactly as `Restore` |
| SnapshotForms.SnapshotReadsBack | packages/core/src/admin/platform-plans.ts:301-317 | stored row to form text and back is the identity on the editable fields if and only if the row is canonical |
| SnapshotForms.WrittenIsCanonical | packages/core/src/admin/platform-system-policies.ts:133-156 | whatever a form says, of whatever type, what it writes is canonical if and only if it fits the type of the row it is written to |
| SnapshotForms.PlanReadsBack | packages/core/src/admin/platform-plans.ts:197-211 | the plan form reads back a plan exactly when its texts are trimmed, its choices known and its currency a code |
| SnapshotForms.FlagReadsBack | packages/core/src/admin/platform-feature-flags.ts:289-368 | the same for a feature flag, with its window |
| SnapshotForms.NoticeReadsBack | packages/core/src/admin/platform-announcements.ts:269-365 | the same for an announcement, with its windows, modules and the rule that only maintenance has them |
| SnapshotForms.PolicyReadsBack | packages/core/src/admin/platform-system-policies.ts:208-232 | the same for the sixteen policies, null going through the empty text |
| SnapshotForms.PriceReads | packages/core/src/admin/platform-plans.ts:301-317 | every price of the column reads back from its decimal text |
| SnapshotForms.ModulesRead | packages/core/src/admin/platform-announcements.ts:171-178 | a module list survives being joined with commas exactly when it has no blank, repeated, padded or comma-holding key |
| SnapshotForms.CurrencyReadsIff | packages/core/src/admin/platform-plans.ts:179-183 | a currency is accepted if and only if three letters are left after trimming, and reads as its capitals |
| SnapshotForms.PriceTextReads | packages/core/src/admin/platform-plans.ts:197-211 | a price reads as the hundredths it names, however it is padded, with or without decimal places; a blank one reads as nothing |
| SnapshotForms.PriceTextIff | packages/core/src/admin/platform-plans.ts:177 | a text reads as a price if and only if it is blank or a price written so |
| Decimal.ReadIntReads | packages/core/src/admin/platform-plans.ts:184-185 | a whole number reads as the number its digits make, with any white space, either sign and any leading zeros |
| Decimal.ReadIntIff | packages/core/src/admin/platform-plans.ts:185 | a text reads as a whole number if and only if it is blank or a number written so |
| ConfigDiff.DiffSnapshotFields | packages/core/src/admin/config-history-diff.ts:25-38 | the loop over the key set computes `Diffs` |
| ConfigDiff.EachDifferenceOnce | packages/core/src/admin/config-history-diff.ts:25-38 | every non-ignored field that differs is listed exactly once with both its values, and nothing else is |
| ConfigDiff.EmptyIffAllAgree | packages/core/src/admin/config-history-diff.ts:25-38 | the comparison is empty if and only if all non-ignored fields agree |
| ConfigDiff.LooksEqualIffNullMeetsMissing | packages/core/src/admin/config-history-diff.ts:35 | a listed field shows equal sides exactly when one snapshot holds null and the other lacks it |
| ConfigDiff.OtherWayRound | packages/core/src/admin/config-history-diff.ts:25-38 | comparing the other way round exchanges the sides |
| ConfigDiff.RestoredRowShowsNoDifference | packages/core/src/admin/config-history-diff.ts:25-38 | after a restore the restored version and the row differ at most in rollout columns of a flag, and in nothing for plans, announcements and policies |
| AiUsage.ListAiUsage | packages/core/src/admin/platform-ai-usage.ts:116-183 | the newest `limit` of each ledger, merged, sorted and cut, is a newest-`limit` page of the union, of length min(limit, total) |
| AiUsage.NoNewerRunOmitted | packages/core/src/admin/platform-ai-usage.ts:116-183 | no run left out is strictly newer than one returned |
| AiUsage.LabelsMean | packages/core/src/admin/platform-ai-usage.ts:116-183 | what each listed run says of its row: its module, its business and the business's name |
| Paging.MergedPage | packages/core/src/admin/platform-ai-usage.ts:116-183 | cutting each source first loses nothing, for any two sources and any limit |
| Paging.PageIsNewest | packages/core/src/admin/platform-audit-log.ts:164-189 | the first `limit` of any newest-first order are a newest-first choice that leaves out nothing newer |
| Paging.NewestIsPage | packages/core/src/admin/platform-audit-log.ts:164-189 | and every such choice is the start of some newest-first order |
| AuditLog.NarrowedIsFull | packages/core/src/admin/platform-audit-log.ts:133-189 | for every filter, querying only the sources the type can come from keeps the same entries as merging all |
| AuditLog.SearchPlatformAuditLog | packages/core/src/admin/platform-audit-log.ts:164-189 | the search returns a newest-`limit` page of the full filtered merge |
| AuditLog.FoundIff | packages/core/src/admin/platform-audit-log.ts:57-189 | the search finds exactly those of the unified log's rows of the types it reads there, and of the entries of the event tables it reads, that have everything the filters ask for |
| AuditLog.FoundIffTypeIsRead | packages/core/src/admin/platform-audit-log-types.ts:161-169 | a matching row of the unified log whose type has no event table is found if and only if the search reads its type, and an entry of a type with an event table if and only if that table holds it |
| AuditLog.UnlistedTypeIsNeverFound | packages/core/src/admin/platform-audit-log.ts:57-93 | a filter naming a type in neither list finds nothing, whatever the log and the event tables hold |
| AuditLog.NeverReadTypesAreNeverFound | packages/core/src/admin/platform-audit-log-types.ts:70-101 | so do three of the types the search offers |
| AuditLog.OfferedIsSearchedIff | packages/core/src/admin/platform-audit-log-types.ts:70-101 | the types the search reads are exactly those it offers but these three |
| ModulePlans.ComputeMinimumPlans | packages/core/src/admin/platform-modules.ts:93-109 | a module maps to a plan if and only if an enabled row names an active plan, and then to the one of least display order, the earliest row winning ties |
| ModulePlans.CheapestIsUnique | packages/core/src/admin/platform-modules.ts:93-109 | that row is unique, so the map is determined |
| ModulePlans.ActiveByIdMeaning | packages/core/src/admin/platform-modules.ts:93-97 | a plan id is known exactly when an active plan has it, and then names the last one |
| Organizations.PartitionIffLinksLeadToRoots | packages/core/src/admin/platform-organizations.ts:53-64 | the groups partition the businesses if and only if every present parent is itself a root |
| Organizations.AppearsOnceOrNever | packages/core/src/admin/platform-organizations.ts:53-64 | each business is in exactly one group, or in none when its parent is itself linked |
| Organizations.GroupsAreOrdered | packages/core/src/admin/platform-organizations.ts:53-64 | groups and environments come out sorted, and a group's environments are its root and its children, each as often as listed |
| Organizations.EnvironmentsInOrder | packages/core/src/admin/platform-organizations.ts:47-63 | in a group production comes before development, test, staging and sandbox, and an environment of no known kind before all of them |
| Sorting.SortStable | packages/core/src/admin/platform-organizations.ts:60-63 | sorting by rank keeps the order of equal ranks |
| Organizations.OneOrganizationIsItsGroup | packages/core/src/admin/platform-organizations.ts:145-152 | asking for one business gives the very group that grouping all businesses gives its organization if and only if that business is a root or linked to one |
| FeatureRollout.NormalizeKeepsMembers | packages/core/src/admin/platform-feature-rollout.ts:89-117 | the form's normalisation changes nobody's membership |
| FeatureRollout.NobodyFallsOut | packages/core/src/admin/platform-feature-rollout.ts:32-49 | over any run of widening settings no business falls out, taken raw, as the form normalises them or as the database stores them |
| FeatureRollout.WhoIsIn | packages/core/src/admin/platform-feature-rollout.ts:32-49 | stage by stage exactly who is in: the listed businesses, at Pilot and Selected Plans those whose bucket is below the percentage, at Selected Plans those on a listed plan, at All Customers everybody, and nobody else |
| FeatureRollout.ReachesEveryoneIff | packages/core/src/admin/platform-feature-rollout.ts:32-49 | a rollout covers every business, however they fall into buckets, if and only if it is at All Customers or at a stage with a percentage and at 100% |
| FeatureRollout.SteppingReachesAll | packages/core/src/admin/platform-feature-rollout-rules.ts:40-47 | stepping reaches All Customers, and with it every business, in exactly the steps left, at most three, and drops nobody on the way |
| FeatureRollout.LaterIsReachedByStepping | packages/core/src/admin/platform-feature-rollout-rules.ts:40-47 | a stage is later than another if and only if stepping arrives at it |
| FeatureRollout.AcceptedIsSavedIff | packages/core/src/admin/platform-feature-rollout.ts:89-166 | what the form accepts is saved if and only if the database holds every business and plan it names, and it then stores exactly the submitted membership |
| FeatureRollout.UnknownPlanIsRefused | supabase/migrations/20261017130000_platform_feature_flag_rollout.sql:123-143 | a plan key there is no plan for passes the form and is refused by the database, even when the rollout would not change |
| FeatureRollout.SettingAgainChangesNothing | supabase/migrations/20261017130000_platform_feature_flag_rollout.sql:99-143 | setting the same again, its lists in any order and with any repetitions, changes nothing, so that what a rollback would restore stays |
| FeatureRollout.NormalizedFitsTable | packages/core/src/admin/platform-feature-rollout.ts:89-117 | what the form normalises meets the table's constraints and is stored as what was submitted would be |
| FeatureRollout.SnapshotReadsBack | packages/core/src/admin/platform-feature-rollout-rules.ts:64-75 | a saved rollout reads back unchanged |
| FeatureRollout.SnapshotIff | packages/core/src/admin/platform-feature-rollout-rules.ts:62-75 | a value is read as a rollout if and only if it is an object that names one of the four stages |
| FeatureRollout.ConstraintsHoldInEveryRun | supabase/migrations/20261017130000_platform_feature_flag_rollout.sql:83-161 | the table's rollout constraints hold after any run of changes and rollbacks |
| FeatureRollout.RollbackUndoesTheLastChange | supabase/migrations/20261017130000_platform_feature_flag_rollout.sql:168-219 | a rollback gives back the rollout before the change; one more turns the flag off; a third is refused |
| FeatureRollout.RollbacksDoNotBounce | supabase/migrations/20261017130000_platform_feature_flag_rollout.sql:168-219 | after two rollbacks the flag is off with nothing left to restore |
| Branding.ParseToInput | packages/core/src/admin/platform-branding.ts:140-250 | form, schema and back is the identity if and only if the values are ones the schema can produce |
| Branding.ParseTwice | packages/core/src/admin/platform-branding.ts:174-250 | validating again what was validated changes nothing |
| Branding.ColumnsReadBack | packages/core/src/admin/platform-branding.ts:276-295 | `toRowUpdate` and `toBranding` are inverse to each other, field by field |
| Branding.SchemaFitsTable | supabase/migrations/20260911010000_platform_branding.sql:37-60 | a saved draft meets every check of the table, so publishing it is never refused |
| Branding.AcceptedIff | packages/core/src/admin/platform-branding.ts:174-250 | which forms are accepted: a name, a colour, a known style, and each optional field blank or as it must be written |
| Branding.HexIff | packages/core/src/admin/platform-branding.ts:177-180 | a colour is a hash and six hexadecimal digits |
| Branding.UrlIff | packages/core/src/admin/platform-branding.ts:186-190 | an address of a page names one of the two protocols |
| Branding.BackgroundIff | packages/core/src/admin/platform-branding.ts:234-250 | a gradient is two colours with a comma between them, a solid background one colour, an image an address |
| Branding.AddressIff | supabase/migrations/20260911010000_platform_branding.sql:37-60 | the table takes for an email address a name, an at sign and a host with a dot inside |
| Branding.EveryRunStaysValid | packages/core/src/admin/platform-branding.ts:302-419 | from the migrated row every interleaving keeps the live record and any draft valid and within the table's checks |
| Branding.LiveIsLastPublished | packages/core/src/admin/platform-branding.ts:302-419 | in any interleaving of saves, discards and publishes the live branding is the last published draft or the initial row, and every published draft was saved and valid |
| Branding.VisitorsSeeTheLastPublished | packages/core/src/admin/platform-branding.ts:421-523 | the public projection shows exactly that, never a pending draft; a failed read looks like an unbranded platform |
| Branding.PrefilledPublishKeepsLiveIff | packages/core/src/admin/platform-branding.ts:302-405 | saving and publishing the prefilled form leaves the live record as it was if and only if that record is valid |
| Branding.SaveDuringPublishIsLost | packages/core/src/admin/platform-branding.ts:368-405 | whatever other sessions do between a publish's read and write, the draft read goes live, and a pending draft is dropped if and only if the last step to touch the draft saved a different one |
| Branding.WriteDropsIff | packages/core/src/admin/platform-branding.ts:368-405 | a publisher's write drops the pending draft exactly when it is not the one it read |
| Branding.DiscardDuringPublishIsTooLate | packages/core/src/admin/platform-branding.ts:368-419 | a draft discarded in between goes live |
| Branding.NoSaveNothingLost | packages/core/src/admin/platform-branding.ts:368-419 | without a save in between nothing pending is dropped |
| Branding.BrandingRow.SaveBrandingDraft | packages/core/src/admin/platform-branding.ts:302-329 | a save writes the validated draft and nothing else, or nothing |
| Branding.BrandingRow.PublishBrandingDraft | packages/core/src/admin/platform-branding.ts:368-405 | a publish makes the draft live and clears it; without a draft nothing changes |
| Branding.BrandingRow.GetBrandingDraft | packages/core/src/admin/platform-branding.ts:337-352 | submitting the prefilled form back is accepted as exactly the record it starts from, draft or live, if and only if the schema can produce that record; a save of it leaves a valid draft as it is |
| PlanPrices.EveryInterleavingKeeps | packages/core/src/admin/platform-billing-ops.ts:615-655 | for any number of interleaved creates and switches: at most one active price per key, no price removed or repriced, every billed price still there |
| PlanPrices.FinishSucceedsIff | packages/core/src/admin/platform-billing-ops.ts:633-647 | an insert goes through exactly when the plan exists, the provider id is unmapped and no price covers the key at that moment, and then its row is the only active one |
| PlanPrices.SuccessLeavesOwnRowActive | packages/core/src/admin/platform-billing-ops.ts:612-647 | an uncontended success leaves exactly its own row active and touches no other key |
| PlanPrices.LosesItsPriceIff | packages/core/src/admin/platform-billing-ops.ts:622-647 | a create leaves a covered key without an active price if and only if it is for that key and its provider id is mapped |
| PlanPrices.ResubmittingSwitchesOff | packages/core/src/admin/platform-billing-ops.ts:622-647 | entering the active price again is refused and switches it off |
| PlanPrices.SwitchingOnUndoesRefusal | packages/core/src/admin/platform-billing-ops.ts:649-655 | switching the old price on again restores the table exactly |
| PlanPrices.AloneIsBeginThenFinish | packages/core/src/admin/platform-billing-ops.ts:615-647 | one create is its two statements |
| PlanPrices.AcceptedIff | packages/core/src/admin/platform-billing-ops.ts:595-621 | which submitted prices are accepted, by their currency, interval, amount and provider ids |
| PlanPrices.AcceptedMeans | packages/core/src/admin/platform-billing-ops.ts:595-647 | the row an accepted price becomes, field by field |
| PlanPrices.BilledPriceResolves | packages/core/src/admin/platform-billing-ops.ts:225-245 | until it is billed anew, a subscription's recorded price resolves at the amount, currency, interval and provider id of the row it was billed on, and says whether that row is still active |
| PlanPrices.PriceTable.CreatePlanPrice | packages/core/src/admin/platform-billing-ops.ts:595-647 | validation, deactivation and insert change the table exactly as `Created` |
| PlanPrices.PriceTable.SetPlanPriceActive | packages/core/src/admin/platform-billing-ops.ts:649-655 | refused exactly when another active price covers the key of a row to be switched on; otherwise only that row's mark changes; an unknown id changes nothing; uniqueness is kept |
| OpsAlerts.EvaluateAlerts | packages/core/src/admin/platform-health.ts:429-518 | the pushes compute `Alerts`, rule by rule |
| OpsAlerts.AlertsAreFiring | packages/core/src/admin/platform-health.ts:429-518 | no key is yielded twice, and the alerts are exactly the firing keys with their severities |
| OpsAlerts.QueueAlertsMean | packages/core/src/admin/platform-health.ts:429-475 | which queue alerts there are, from the first row of each queue: an event due for more than 26 hours, items that failed for good, an export that waits |
| OpsAlerts.OtherAlertsMean | packages/core/src/admin/platform-health.ts:341-518 | which others: at least ten AI runs a quarter of which failed, buckets known to be missing, connections neither on nor off, rejected webhooks, integrations in trouble |
| OpsAlerts.SeveritiesMean | packages/core/src/admin/platform-health.ts:429-518 | an unreachable database is reported alone, and which alerts are critical |
| AlertEpisodes.RecordingOpensWhatFires | supabase/migrations/20261010120000_platform_ops_alerts.sql:40-75 | after a recording exactly the firing keys have an open episode, one each; exactly the keys without one before get a new, unreported one; no episode reopens |
| AlertEpisodes.RefreshedMeans | supabase/migrations/20261010120000_platform_ops_alerts.sql:52-63 | a resolved episode stays as it is, an open one takes the severity of its alert or is resolved without one, and what is known of its email never changes |
| AlertEpisodes.EveryRunKeepsInv | packages/core/src/admin/platform-ops-alerts.ts:61-87 | over any interleaving of checks dying anywhere: one open episode per key, one email attempt per episode, and a row's notified or error columns tell what happened |
| AlertEpisodes.EveryRunFromEmpty | packages/core/src/admin/platform-ops-alerts.ts:61-87 | so it is for every run from an empty table |
| AlertEpisodes.ReturnedCheckReportedAll | packages/core/src/admin/platform-ops-alerts.ts:61-87 | a check that returns has attempted and marked every episode it opened, and emailed + emailErrors = opened; emailed is the number notified, no errors means all were and none emailed means none was, if and only if no failure text of its episodes is empty |
| AlertEpisodes.EmptyFailureCountsAsEmailed | packages/core/src/admin/platform-ops-alerts.ts:71-83 | a failure with an empty text is counted as emailed, and the row is left unnotified |
| AlertEpisodes.NeverEmailedIff | packages/core/src/admin/platform-ops-alerts.ts:61-87 | an unattempted episode is never emailed in any continuation if and only if no running check holds it |
| AlertEpisodes.DyingForgets | packages/core/src/admin/platform-ops-alerts.ts:69-86 | a check that dies leaves the episodes before it unemailed for good |
| AlertEpisodes.ReportedAgainIff | supabase/migrations/20261010120000_platform_ops_alerts.sql:40-75 | a lasting problem is reported again if and only if the check between did not list it |
| AlertEpisodes.OutageReportsAgain | packages/core/src/admin/platform-health.ts:429-432 | a check that records an outage of the database has that effect on every other problem |
| AlertEpisodes.AlertTable.RunOpsAlertCheck | packages/core/src/admin/platform-ops-alerts.ts:61-87 | the loop's effect on episodes and emails for every outcome of every call, what it counts, and when it throws |
| Relations.DeletedAllIs | packages/core/src/admin/demo-seed-tracking.ts:152-157 | a sequence of delete statements goes through if and only if no prefix is restricted from outside what it takes, and leaves exactly the rows none of them takes |
| Relations.ClosureIsLeastClosed | packages/core/src/admin/demo-seed-tracking.ts:152-157 | a statement takes the least set of rows that holds its own and is closed under cascades |
| SeedData.EndState | packages/core/src/admin/demo-seed-tracking.ts:120-189 | a completed run removes exactly the tracked rows and their cascades, and the references to them; of the business's alerts about a stock level exactly those stay whose level is still there and the business's, and every other alert stays; its batches go and no others |
| SeedData.AlertOnAKeptLevelStays | packages/core/src/admin/demo-seed-tracking.ts:159-178 | an alert on a stock level of the business survives the run if and only if nothing tracked takes that level along |
| SeedData.GoesThroughIff | packages/core/src/admin/demo-seed-tracking.ts:134-157 | the run goes through if and only if no row that stays, of whatever table, restricts one that goes |
| SeedData.UntrackedDocumentBlocks | packages/core/src/admin/demo-seed-tracking.ts:134-138 | an untracked document on a tracked party refuses it |
| SeedData.OtherTableBlocks | packages/core/src/admin/demo-seed-tracking.ts:134-138 | so does a row of any table outside the inventory ones that restricts a tracked row |
| SeedData.RefusedKeepsTracking | packages/core/src/admin/demo-seed-tracking.ts:152-157 | a refused run keeps alerts, batches and tracking records and has taken exactly the earlier statements' rows |
| SeedData.RerunReachesTheEnd | packages/core/src/admin/demo-seed-tracking.ts:120-189 | removing the blockers and running again ends in the state of deleting all of it together |
| SeedData.RerunGoesThroughIff | packages/core/src/admin/demo-seed-tracking.ts:134-157 | the same condition decides the rerun |
| SeedData.RerunAfterFailure | packages/core/src/admin/demo-seed-tracking.ts:152-186 | wherever a run that nothing restricts breaks, the broken call done or not, repeating it ends in the state of a run that never broke, with the same counts unless only the last answer was lost: then nothing is tracked any more and repeating changes nothing |
| SeedData.NothingTracked | packages/core/src/admin/demo-seed-tracking.ts:123-124 | without tracking records nothing changes |
| SeedData.SeedingIsUndone | packages/core/src/admin/demo-seed-tracking.ts:104-112 | deleting right after seeding leaves exactly the rows there were before |
| SeedData.GroupByTable | packages/core/src/admin/demo-seed-tracking.ts:126-132 | the pushing loop groups the records by table in order of first appearance |
| SeedData.SeedStore.DeleteAllSeedDataForBusiness | packages/core/src/admin/demo-seed-tracking.ts:120-189 | the loop over ordered tables with its early exits, at a refused delete or at any call that breaks, done or not, acts as `Attempt` |
| SeedData.UnbrokenAttempt | packages/core/src/admin/demo-seed-tracking.ts:120-189 | with no call breaking that is the run the other results are about |
| SeedData.SeedStore.TrackSeedRecords | packages/core/src/admin/demo-seed-tracking.ts:26-43 | tracking appends the records to their batch |
| McpServer.ReplyIdsMatch | apps/web/lib/mcp/server.ts:284-345 | for every batch and every behaviour of the dependencies, the reply ids are, in order, the non-null ids of the messages |
| McpServer.EachOnItsOwn | apps/web/lib/mcp/server.ts:334-345 | each reply of a batch is the one its message gets alone |
| McpServer.FailureTouchesOneReply | apps/web/lib/mcp/server.ts:334-345 | whatever happens to the dependencies of one message, the ids stay and every other reply is the same |
| McpServer.AnsweredIffAsked | apps/web/lib/mcp/server.ts:284-291 | a message is answered if and only if it asks, under its own id (support for the results on batches) |
| McpServer.NothingIff | apps/web/lib/mcp/server.ts:334-345 | exactly when nothing is sent back |
| McpServer.ResultOrError | apps/web/lib/mcp/server.ts:284-330 | each reply has exactly one of result and error |
| McpServer.InternalErrorIff | apps/web/lib/mcp/server.ts:326-329 | an internal error is reported if and only if a dependency the call needed threw (support for the results on batches) |
| McpServer.CodesIff | apps/web/lib/mcp/server.ts:284-330 | the codes for an invalid request, an unknown method and refused parameters are given exactly when they apply, whatever the dependencies do (support for the results on batches) |
| McpServer.ToolSuccessMeans | apps/web/lib/mcp/server.ts:209-282 | a refused or failed tool call never looks like a success (support for the results on batches) |
| McpServer.RequestsInBounds | apps/web/lib/mcp/server.ts:183-203 | only known resources, plain short ids and paging in bounds reach the API |
| McpServer.ToApiRequest | apps/web/lib/mcp/server.ts:183-203 | the loop over the paging arguments computes `ReadRequest` |
| McpServer.QuestionIsSound | apps/web/lib/mcp/server.ts:171-181 | an accepted question is trimmed, of 1 to 500 characters, about a non-empty list of distinct known resources |
| McpServer.ReadOrSkipped | apps/web/lib/mcp/server.ts:214-224 | the resources answered from and those skipped partition the ones asked about |
| McpServer.AnswerAccountsForAll | apps/web/lib/mcp/server.ts:209-243 | every answer and refusal reports exactly the unread resources as skipped, and an answer's sources were read |
| McpServer.AgentPromptHasOneBlock | apps/web/lib/mcp/server.ts:209-230 | whatever is asked and read, the prompt made of it opens and closes the records block once each |
| McpServer.AgentPromptReadsBack | apps/web/lib/mcp/server.ts:209-230 | and it decodes to the question accepted and to every resource read, with its shown rows and the count of the others |
| McpCalls.ListRequestIff | apps/web/lib/mcp/server.ts:183-203 | a call of list_records is the API request with its resource, its "limit" and its "offset", if and only if the resource is known and they are missing or whole numbers in bounds |
| McpCalls.GetRequestIff | apps/web/lib/mcp/server.ts:183-192 | a call of get_record is the request for that one record, if and only if the resource is known and the id is 1 to 100 plain characters |
| McpCalls.QuestionIff | apps/web/lib/mcp/server.ts:171-181 | when a question to the assistant is accepted, and about which resources it is |
| McpCalls.ReadIff | apps/web/lib/mcp/server.ts:205-224 | the assistant is given the rows of a resource if and only if it is asked about and the API, asked for its first 25, answered with exactly these under "data" |
| McpCalls.SkippedIff | apps/web/lib/mcp/server.ts:205-224 | a resource is reported as skipped, with the status the API gave it, if and only if it is asked about and was not answered with rows |
| McpCalls.UuidIff | apps/web/lib/mcp/server.ts:245-252 | a conversation id is five groups of hexadecimal digits joined by hyphens |
| McpCalls.MethodsAnswer | apps/web/lib/mcp/server.ts:284-330 | what each method is answered with, by its name, and that every other name is not found |
| McpCalls.InitializeAnswers | apps/web/lib/mcp/server.ts:295-307 | an initialize request gets the version it asks for where that is served and the newest otherwise |
| McpCalls.DocumentAnswers | apps/web/lib/mcp/server.ts:318-322 | the API document is read under its own address and under no other |
| McpCalls.ToolsAnswer | apps/web/lib/mcp/server.ts:272-282 | which tool a call reaches, by its name, and with which arguments |

## Left out

- MarkdownReader.ParseBlocks: list items are rebuilt as values where the code rewrites the last item's text in place; nothing else refers to that item.
- MarkdownRoundTrip.ParseWritten: blocks that follow each other without a blank line are covered after headings and closed code only, items are indented by less than two, and what begins a block is not indented by two or more; `MarkdownConservation.EveryLineIsKept` is about every text.
- Json.DecodeGuarded: strings are sequences of Unicode scalar values, so the UTF-16 lengths of characters beyond U+FFFF and lone surrogates are not modelled; a number is the text String gives its value.
- BusinessAssistant.FormatRecords: row lengths are counted in those characters too; calling the model and recording the run are left out.
- SnapshotForms.SnapshotReadsBack: numbers are read from plain decimals (no exponents, other radixes or more than two decimal places), upper-casing is that of ASCII letters, and a date field is represented by the instant `Date.parse` makes of it.
- ConfigRuns.EveryRunKeepsInv: events are ordered by their place in the log, where the code orders them by `performed_at`; the book-keeping columns and who performed a change are left out.
- ConfigEdits.CreateGoesThroughIff: the identity (a plan's or flag's key, a scope, an audience) is taken as the create form accepts it; the patterns of these fields are not modelled.
- ConfigDiff.RestoredRowShowsNoDifference: a flag's scope and an announcement's audience are one text each; the order of a snapshot's columns is the model's.
- AiUsage.ListAiUsage: the comparator `a < b ? 1 : -1` is not consistent on equal timestamps, so the result is stated up to order among them; ISO timestamps compare as their instants.
- AuditLog.SearchPlatformAuditLog: the same; severities and actor labels are given with the rows.
- Organizations.GroupsAreOrdered: the locale's order of names is an arbitrary ranking of names.
- FeatureRollout.SnapshotReadsBack: the percentage of a snapshot is a whole number, as the column is; the reader would keep the fraction of any other snapshot, where the model reads 0.
- FeatureRollout.NobodyFallsOut: the hash behind the buckets is any function into 0..99.
- Branding.SchemaFitsTable: what the validation library accepts as an email address is a parameter that must have the shape of the table's pattern.
- Branding.VisitorsSeeTheLastPublished: the brand name is its default, not the value of the environment variable that can replace it.
- PlanPrices.EveryInterleavingKeeps: deleting a plan, which would remove its prices, is not among the steps; no code does it. A failed connection is a session that vanishes before or after its statement.
- PlanPrices.PriceTable.CreatePlanPrice: plan ids are numbers, so the check that one is a UUID is left out; amounts are in hundredths, as the column rounds them; currency codes are upper-cased as ASCII.
- AlertEpisodes.EveryRunKeepsInv: recording is one atomic step, as its function documents; its three statements are not interleaved with another recording's. Messages, details and times of episodes are left out.
- OpsAlerts.EvaluateAlerts: keys are an enumeration, messages and details are left out, and waiting times are instants that could be read.
- SeedData.GoesThroughIff: takes the tables outside the inventory ones by number, with the numbers of those whose rows cascade from rows that can go; that such a table restricts no row that can go is a hypothesis, which the foreign keys of the migrations meet (addresses, contacts, roles, item attributes, leads, e-invoices, signatures and so on cascade; payments, allocations, transfers, field-service opportunities, jobs and assessments, and investors restrict). `Relations.DeletedAllIs` needs no such hypothesis.
- Relations.DeletedAllIs: a restricting row that the same statement takes by cascade does not refuse it; RESTRICT and NO ACTION are not told apart.
- McpServer.ToApiRequest: a number of the parsed body is the text String gives it, so 1.0 arrives as 1 and 1e1 as 10; reading JSON text into values is not part of it.
- McpServer.ReplyIdsMatch: result objects and error messages are named, not spelled out; an id may be any JSON value that is not null, as in the code.
- The loops that fill lookup maps (businesses of workspaces, actor labels, owners): their results are parameters.
- Sessions, permissions, the network, providers of email, payment and AI, and the rendering of pages.
- Billing providers, billing settings, AI providers and routing, email templates, integrations and module status: they have a version list and no restore, and share one kind `Other` here.
- Announcements for one business, plan features and limits, discounts and the billing overview.
- Single-branch rules (whether a flag or announcement is active now, severity of an audit entry, install banner) and plain de-duplication.
