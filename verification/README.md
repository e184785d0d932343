# Nexvary Panel: a Dafny model and its proofs

Nexvary Panel is a hosting control plane. Most of it hands requests to agents. The parts modelled here decide something
that is hard to get right: a request that may reach another panel any number of times, a script that is generated from a
policy, a count that is kept while its log rotates, text files that people edit as well, and changes of several resources
that have to be undone together.

`dafny verify dfyconfig.toml` checks everything. Each file starts with the source file it models.

| area | files | form |
|---|---|---|
| Fleet remote apply | `Json`, `Fleet` | state machine over atomic database steps; any number of panels, senders and handlers |
| Sieve scripts | `SieveCompiler`, `SieveLanguage`, `SieveLexing`, `SieveTokens`, `SieveMeaning`, `SieveCorrectness` | the generator, a lexer, parser and interpreter for what it emits, and a direct reading of the policy |
| Bandwidth ledger | `Bandwidth` | the scanner and the ledger as methods, and runs of log events |
| `server_name` rewriting | `ServerNames` | the substitution over any text, and the call that writes and restores the file |
| `.user.ini` | `PhpIni`, `PhpIniFile` | normalisation, the managed block, the file |
| wp-config | `WpConfig`, `WpConfigLaws`, `WpRewrite` | the pattern, one key, the whole rewrite |
| WordPress publish | `WpSite`, `WpPublish`, `WpSelective` | a class over directories, databases and snapshots, with one fault at any step |
| WordPress core repair | `CoreRepair` | the integrity loop, the repair loop and both undos |
| WordPress components | `Components` | replacement by renames |
| Account suspension | `Accounts` | the toggle loops, and runs of requests that fail or die anywhere |
| Mail provider | `MailFiles`, `MailLines`, `MailAddresses`, `MailStore`, `MailDelivery`, `MailTransactions` | file formats, what is read from lines with stray space, requests, the invariant, where mail goes, the transaction |
| Scheduler | `Calendar`, `Scheduler` | hours, days and ISO weeks; ticks interleaved with what users do |
| DNS changes | `PowerDns`, `Cloudflare`, `DnsChanges`, `DnsRuns` | zones as maps, undo in any order, and runs of rows and handlers that interleave, overlap or die |
| shared | `Text`, `Sorting`, `HostNames` | the Python string operations, `sorted()` and the host names that several of these use |

## What the proofs found

The code is modelled as it is. Where a property one would expect does not hold for it, the model states when it does.

- A fleet handler that dies between claiming a request and recording its outcome leaves the job `running` for good
  (`Fleet.OrphanReached`, `Fleet.OrphanedForever`), and a job stays `running` in every continuation exactly when no live handler
  owns it (`Fleet.StuckExactlyWhenOrphaned`). That is the price of running nothing twice.
- Generating a Sieve script fails exactly when an enabled autoresponder has a line feed in its subject
  (`SieveCorrectness.BuildFailsExactly`): normalisation lets it through (agent/mail_sieve.py:67), the quoting refuses it
  (agent/mail_sieve.py:28).
- The comment at agent/bandwidth_accounting.py:59-60 says that stored offsets sit after complete lines; line 74 stores the
  position after whatever was read, so a line that is being written during a call counts only what its tail counts
  (`Bandwidth.PartialLineLost`, both directions). A month can also be reported complete although a log was removed between two calls (`Bandwidth.UnnoticedLoss`); `Bandwidth.CompleteMonths` says by how much
  the count is then short.
- A failed write of `.user.ini` restores the file exactly when it was missing, or had content and no carriage returns
  (`PhpIniFile.FailedWriteRestores`).
- A wp-config value is read back exactly when it has no quote and no backslash (`WpConfigLaws.GetAfterReplace`). So publishing a site
  changes the password in its configuration exactly when it has a backslash (`WpSite.PublishedCredentials`).
- When the live database user is not a local one, a publish drops the live database and neither the publish nor its undo can
  create it again (`WpPublish.Server.Publish`; agent/wordpress_staging.py:251-253 drops before 233-234 looks). A selective publish
  never touches the database, but its undo replaces it too: any failure after its snapshot then drops it, the error is
  swallowed, and the directories that were already swapped stay swapped (`WpSelective.SelectivePublish`; agent/wordpress_entry.py:118-121).
- A failed core repair puts back everything exactly when none of the files it replaced was larger than 32 MiB: such a file
  counts as damaged and is replaced, and the undo refuses to write it back, stops there and then removes the snapshot
  (`CoreRepair.Installation.RepairCore`, and `CoreRepair.Installation.RepairReady` for what can be told before the call;
  agent/wordpress_agent.py:197, 315 and 420-424).
- A suspension begun while an activation was interrupted takes a new snapshot of the rows as they are then. The next
  activation brings the owner's sites back exactly when those rows still said what the old snapshot says
  (`Accounts.ReactivationRestores`; `Accounts.SnapshotLost` is a run where they did not).
- `suspended` does not imply that the sites are off. After a suspension that runs to its end they are, exactly when every
  site on at the provider had its row on (`Accounts.SuspensionClears`; `Accounts.SuspendedAfterActivating` is a run without). After
  an activation that fails they are, exactly when every site on before was one that it had done
  (`Accounts.FailedActivation`; `Accounts.SuspendedButOn`); wherever it may fail, exactly when none was on
  (`Accounts.FailedActivationAnywhere`).
- `active` does not imply that rows and provider agree. After a suspension that fails they do, exactly when they did for
  every site that it had not done (`Accounts.FailedSuspension`; `Accounts.ActiveButOff`); wherever it may fail, exactly when they
  did before (`Accounts.FailedSuspensionAnywhere`).
- A mail address is checked without the space around it and becomes a key with it. What the files mean when they are read
  again stays consistent exactly as `MailTransactions.StoredKeeps` says: space before a mailbox address is harmless unless it
  hides that the address is an alias; space after it breaks the maps (`MailTransactions.BlankAfterAddress`) unless it has a line
  break, and then nothing is stored although the request succeeds; a forwarder survives blanks after its source, and
  breaks the maps when its bare source has a mailbox. Without such space every run keeps the maps consistent
  (`MailTransactions.Store.ServeAll`).
- When handlers that apply one DNS change overlap, rolling it back restores the zone exactly when the handler that stored last
  was the first to call the provider, or the change had changed nothing (`DnsChanges.OverlapLosesOriginal`;
  `DnsChanges.SecondStoresLast` is a run where it was not). A handler that dies between changing the zone and recording it has the
  same effect (`DnsRuns.UnrecordedCall`). A late handler takes a row back from rolled back to applied
  (`DnsChanges.RolledBackThenApplied`); `DnsChanges.WriteForward` says exactly which writes do not go forward. Without these, and
  with one change at a time for a name and type, the zone is restored over every run (`DnsRuns.SettledRestored`).
- Rolling back DNS changes in an order that is not the reverse restores the zone exactly when for each name and type the
  snapshot undone last is the original one (`PowerDns.OrderDecides`).
- The limit of 100 domain aliases is on the list as it is given, repetitions included (`ServerNames.SiteConfiguration.SyncAliases`).

## Model

| member | source | states |
|---|---|---|
| Json.SafeResultIdempotent | panel/routes_fleet.py:249-256 | Bounding a result that was bounded changes nothing, so a stored result survives being sent and stored again |
| Json.SafeResultKeepsScalars | panel/routes_fleet.py:249-256 | Of an object of at most 32 fields with short distinct keys exactly the scalar fields survive, in order |
| FleetSelection.SelectedExactly | panel/routes_fleet.py:208-230 | An accepted explicit selection is exactly the named nodes, once each, owned and enabled |
| Fleet.StepKeeps | panel/routes_fleet.py:297-346 | Every atomic step of every handler and sender keeps the invariant over rows, runs, replies and senders |
| Fleet.PlayKeeps | panel/routes_fleet.py:297-346 | So it holds in every interleaving, with requests repeated, delayed or lost and handlers dying anywhere |
| Fleet.AtMostOnce | panel/routes_fleet.py:317-346 | On one panel a request id runs its operation at most once in every run |
| Fleet.FinishedForGood | panel/routes_fleet.py:331-346 | A row that is no longer `running` shows the same status and result in every continuation |
| Fleet.RepliesAgree | panel/routes_fleet.py:318-325 | Two successful answers for one id on one panel agree on operation, status and result |
| Fleet.ReplayReturnsRecord | panel/routes_fleet.py:318-325 | A replay of a finished job answers with the recorded status and the recorded result unchanged, and an error for another operation |
| Fleet.AppliedMeansExecutedOnce | panel/routes_fleet.py:554-579 | When a sender's row is applied, the receiver holds an applied row of the same id and operation that ran exactly once and reported ok |
| Fleet.BatchAccounting | panel/routes_fleet.py:554-579 | One apply call creates one row per selected node under distinct ids; applied and failed counts add up to the nodes selected |
| Fleet.OrphanedForever | panel/routes_fleet.py:326-346 | A job whose handler died after claiming it stays `running` in every continuation and never runs again |
| Fleet.OrphanReached | panel/routes_fleet.py:306-338 | On any panel, any request that passes the first checks can lead to such a job: it arrives, is looked up and claimed, and its handler dies |
| Fleet.StuckExactlyWhenOrphaned | panel/routes_fleet.py:326-346 | After any run, a running job stays `running` in every continuation if and only if no live handler owns it |
| SieveCompiler.MultilineLoop | agent/mail_sieve.py:33-40 | The loop over the body's lines computes the block that the round trip is about |
| SieveCompiler.NormalizeFiltersLoop | agent/mail_sieve.py:74-118 | The loop over the items computes the accepted filters, sorted, or refuses like the checks say |
| SieveCompiler.BuildScriptLoop | agent/mail_sieve.py:151-193 | Appending line by line gives the script that the compiler theorem is about |
| SieveLexing.QuotedRoundTrip | agent/mail_sieve.py:26-30 | Section 2.4.2 of RFC 5228: reading a quoted string gives it back and stops exactly at its closing quote |
| SieveLexing.StuffedLine | agent/mail_sieve.py:37-39 | No line of a body can be read as the terminator, and reading it removes exactly the added dot |
| SieveLexing.MultilineRoundTrip | agent/mail_sieve.py:33-40 | Reading a `text:` block gives the newline-normalised body and stops after the terminator |
| SieveTokens.ScriptSpells | agent/mail_sieve.py:151-193 | The generated text lexes to exactly the tokens of the policy, whatever its strings contain |
| SieveMeaning.ScriptParses | agent/mail_sieve.py:151-193 | The text parses to exactly the commands the policy stands for |
| SieveCorrectness.BuildFailsExactly | agent/mail_sieve.py:151-193 | For a normalised policy generation fails if and only if an enabled autoresponder's subject has a line feed |
| SieveCorrectness.RequiredIsUsed | agent/mail_sieve.py:159-170 | The required capabilities are exactly the ones the rest of the script uses |
| SieveCorrectness.CompilerCorrect | agent/mail_sieve.py:151-193 | For every normalised policy and message, running the script gives the policy's outcome: global filters, then spam, then mailbox filters, then vacation |
| SieveCorrectness.SortIsPermutation | agent/mail_sieve.py:117 | Sorting rearranges the filters by priority and loses none |
| SieveCorrectness.PriorityOrder | agent/mail_sieve.py:117 | The filter that the script applies is the matching one of least priority, the earliest among equals |
| SieveCorrectness.NormalizeOk | agent/mail_sieve.py:74-118 | Whatever list is accepted, its filters meet what the generator needs and are sorted |
| SieveCorrectness.RequestsAreHonoured | agent/mail_sieve.py:56-193 | From the raw request, with its items, spam policy and automatic reply, to delivery: an accepted request yields a script if and only if its enabled reply has no line feed in the stripped subject, and the script then does what the unsorted items say |
| Bandwidth.Scan | agent/bandwidth_accounting.py:49-75 | The read loop counts what the recursive scan of the rest of the file counts, or refuses the offset |
| Bandwidth.ScanLines | agent/bandwidth_accounting.py:62-75 | On whole lines of at most the limit the scanner counts exactly their bytes for the month, piece by piece |
| Bandwidth.PartialLineLost | agent/bandwidth_accounting.py:59-74 | A line that is read in two halves counts what its tail counts as a line of its own, so the count is right if and only if the tail counts as much as the line |
| Bandwidth.Ledger.AccountDomain | agent/bandwidth_accounting.py:115-177 | The stored state after a call is the one of the specification, in every branch |
| Bandwidth.CompleteMonths | agent/bandwidth_accounting.py:115-177 | Over every run, a month reported complete is short of a recount of all history by exactly the lost lines, so it is exact if and only if those count nothing |
| Bandwidth.CompleteIsExact | agent/bandwidth_accounting.py:115-177 | When the log is rotated but never removed, every month reported complete is exact |
| Bandwidth.DatedExactly | agent/bandwidth_accounting.py:26-36 | A line counts for no month but p if and only if it counts nothing or its date is in p |
| Bandwidth.CompleteLogs | agent/bandwidth_accounting.py:26-73 | For any log format and the dates as they are read: a complete month is short of the recount of the log by exactly what the lost lines carry, and exact when the log is never removed |
| Bandwidth.GapIsForGood | agent/bandwidth_accounting.py:153-165 | Once a gap was seen no later month is reported complete |
| Bandwidth.CountIsExactSinceStart | agent/bandwidth_accounting.py:143-158 | With at most one rotation between calls the count is exact for everything since tracking began |
| Bandwidth.UnnoticedLoss | agent/bandwidth_accounting.py:147-152 | A run in which a month is reported complete although a line is missing |
| ServerNames.ReplacementReads | agent/domain_ops.py:30-31 | The replacement is a directive that names exactly the canonical list, the primary domain first |
| ServerNames.Alignment | agent/domain_ops.py:34-42 | The output falls into the same segments as the input, each updated on its own |
| ServerNames.OnlyManagedDirectivesChange | agent/domain_ops.py:21-42 | Over any text, directives that named the primary domain now name exactly the canonical list, everything else is unchanged, and the count is theirs |
| ServerNames.LaterListWins | agent/domain_ops.py:21-42 | Rewriting for one alias list and then another gives what the second alone gives |
| ServerNames.RewritingIsIdempotent | agent/domain_ops.py:21-42 | Rewriting again changes nothing and counts the same directives |
| ServerNames.AliasesAre | agent/domain_ops.py:13-19 | The aliases are exactly the host names that were given, each once and sorted, and fit into a directive |
| ServerNames.OnlyTheSetMatters | agent/domain_ops.py:45-52 | Neither order nor repetition nor spelling of the list that is given matters |
| ServerNames.SiteConfiguration.SyncAliases | agent/domain_ops.py:45-81 | Unless the call succeeds the file is what it was; when it does the file is the text rewritten for the sorted aliases; exactly when it does, with the limit on the list that was given |
| PhpIni.NormalizeLoop | agent/php_ini_agent.py:82-120 | The loop that fills the settings computes the normal form, or refuses |
| PhpIni.OrderIrrelevant | agent/php_ini_agent.py:86-114 | The order of the request's keys does not matter |
| PhpIni.NormalizeIdempotent | agent/php_ini_agent.py:82-120 | Normalising normal settings changes nothing; memory is at least post, post at least upload, each within its limits |
| PhpIniText.SplitFinds | agent/php_ini_agent.py:131-139 | Around a block without markers of its own the split finds exactly that block |
| PhpIniText.ManagedBlockLoop | agent/php_ini_agent.py:123-128 | Appending line by line gives the block |
| PhpIniText.ParseManagedLoop | agent/php_ini_agent.py:142-151 | The loop over the lines reads the settings that the recursive reading gives |
| PhpIniText.GetAfterSet | agent/php_ini_agent.py:131-151 | After writing normal settings into any text that can be split, there is exactly one block, the surroundings are kept up to a line end, and the block reads as written |
| PhpIniText.SetAfterSet | agent/php_ini_agent.py:198-208 | Writing a then b gives the text that writing b gives |
| PhpIniFile.SiteIni.SetSettings | agent/php_ini_agent.py:184-223 | The file after a call is the one of the specification, also when the write fails |
| PhpIniFile.DoneReadsBack | agent/php_ini_agent.py:154-163 | After a call that succeeds, reading gives exactly the normalised settings |
| PhpIniFile.CheckPasses | agent/php_ini_agent.py:213-215 | The verification after a write that worked cannot fail |
| PhpIniFile.FailedWriteRestores | agent/php_ini_agent.py:216-222 | A failed write leaves the file as it was if and only if it was missing, or had content and no carriage returns |
| WpConfig.StatementInvisible | agent/wordpress_staging.py:44-49 | A statement for one key neither hides what is around it from a reader of another key nor is read as one, whatever its value looks like |
| WpConfig.ReplaceDefineAt | agent/wordpress_staging.py:80-88 | Another quote-free value in a match gives a match around that value |
| WpConfigLaws.PutReads | agent/wordpress_staging.py:44-88 | In any text with the key, a quote-free value that is put at the leftmost match is the one read back |
| WpConfigLaws.PutKeepsOthers | agent/wordpress_staging.py:80-88 | Every other key reads what it read before |
| WpConfigLaws.GetAfterReplace | agent/wordpress_staging.py:76-88 | Replacing and reading gives the value back if and only if it has no quote and no backslash |
| WpRewrite.EnvironmentReads | agent/wordpress_staging.py:105-113 | The environment is read back, whether its statement was replaced or added |
| WpRewrite.EnvironmentKeepsOthers | agent/wordpress_staging.py:105-113 | Setting it changes what no other key reads |
| WpRewrite.RewriteIsLens | agent/wordpress_staging.py:91-113 | After the whole rewrite each written key reads its new value, escaped, and every other key of the file what it read before, if and only if neither the password nor the host has a quote |
| WpRewrite.PasswordReadsBack | agent/wordpress_staging.py:101-102 | The password is read back if and only if it has no quote and no backslash |
| WpSite.PreparedEntries | agent/wordpress_staging.py:160-188 | Where each entry of the published tree comes from: the staging site, the live `.well-known`, no maintenance flag, a new configuration |
| WpSite.PublishedCredentials | agent/wordpress_staging.py:438-448 | The published configuration reads the live name, user and host, and the live password if and only if it has no backslash; one that has grown past the size limit reads nothing |
| WpSite.PublishedRest | agent/wordpress_staging.py:91-113 | Every key that a publish does not write is that of the staging site, unless the configuration has grown past the size limit |
| WpPublish.Server.ReplaceDb | agent/wordpress_staging.py:251-258 | Which faults fail it, what it leaves in the database, and that without a local user the database is gone |
| WpPublish.Server.SwapPublic | agent/wordpress_staging.py:273-281 | Both renames or none |
| WpPublish.Server.RestorePublish | agent/wordpress_staging.py:402-415 | The pair of the snapshot comes back, or the directory stays; exactly when it works |
| WpPublish.Server.PutBack | agent/wordpress_staging.py:478-483 | The previous directory gets its name back and the failed one is gone |
| WpPublish.Server.Commit | agent/wordpress_staging.py:450-487 | All or nothing over directory and database, except for a user that is not local |
| WpPublish.Server.Publish | agent/wordpress_staging.py:418-491 | Exactly when a publish succeeds; the tree, database and snapshot it then leaves; otherwise directory and databases as before, or the live database dropped exactly when its user is not local and preparation succeeded |
| WpPublish.Server.RollbackPublish | agent/wordpress_staging.py:494-513 | The pair of the snapshot comes back; the snapshot stays, whatever fails |
| WpPublish.Server.PublishAndRollBack | agent/wordpress_staging.py:418-513 | A publish that succeeded and its rollback leave every public directory and every database as before |
| WpPublish.PlanMeaning | agent/wordpress_staging.py:418-448 | What is published in terms of the two sites |
| WpPublish.UrlsMeaning | agent/wordpress_staging.py:261-270 | The published database is the staging one except for its two addresses |
| WpSelective.StageAll | agent/wordpress_entry.py:79-83 | Exactly when all directories can be copied beside the live ones, and what a failure leaves, with a copy that broke off |
| WpSelective.SwapAll | agent/wordpress_entry.py:85-99 | Exactly when all directories can be swapped; those before the first that cannot be are the staging ones, with the live ones beside them |
| WpSelective.RemovePrepared | agent/wordpress_entry.py:115-117 | Exactly the copies are gone |
| WpSelective.RemoveAside | agent/wordpress_entry.py:104-106 | What remains is the two staging directories and every other entry as it was |
| WpSelective.SelectivePublish | agent/wordpress_entry.py:59-122 | Success changes only the plugins and the themes and no database; failure leaves everything as before, or, exactly when the user is not local, drops the database and leaves the live site with the directories swapped so far, what was there beside them, and no copy but one that broke off |
| CoreRepair.Integrity | agent/wordpress_agent.py:209-245 | It fails exactly on an unsafe path, counts and lists what is missing and mismatched, and says ok exactly when every file is intact |
| CoreRepair.Installation.RollbackSnapshot | agent/wordpress_agent.py:344-360 | Entries are restored in order up to the first file that is too large; nothing else is touched |
| CoreRepair.Installation.RepairAll | agent/wordpress_agent.py:387-413 | The issues before the first that cannot be replaced, told from the files before the call, are replaced by those of the release, each recorded before; nothing else is touched |
| CoreRepair.Undone | agent/wordpress_agent.py:419-425 | Undoing a repair restores every file before the first that is too large and leaves the later ones replaced; so it restores everything if and only if none that was replaced is too large |
| CoreRepair.Fixed | agent/wordpress_agent.py:416-418 | When every issue was replaced the final check finds nothing, unless a name was cut at 300 characters |
| CoreRepair.Installation.RepairCore | agent/wordpress_agent.py:363-425 | The issues are exactly the files missing or mismatched. Success: every catalogue file outside wp-content has its digest and no other file changed. Failure: the issues before the first that cannot be replaced were replaced, and of these exactly the ones from the first too large on stay so |
| CoreRepair.Installation.RepairIssues | agent/wordpress_agent.py:377-425 | The same from the issues on; a failure whose undo works is told apart from one whose undo stops |
| CoreRepair.Installation.RepairReady | agent/wordpress_agent.py:363-425 | From the files before the call: with every issue replaceable, a repair without a fault succeeds, and one whose last check fails leaves everything as before if and only if no mismatched file is larger than 32 MiB |
| CoreRepair.Installation.RollbackRepair | agent/wordpress_agent.py:428-448 | It works exactly when no recorded file is too large; the recorded files come back, or those before the first that is too large, and no other is touched |
| CoreRepair.Installation.RepairAndRollBack | agent/wordpress_agent.py:363-448 | After a repair that succeeds the rollback works, and every file is as before, if and only if no mismatched file was too large |
| Components.Site.RestoreSaved | agent/wordpress_components.py:257-280 | The saved content takes the component's name or nothing changes; exactly when |
| Components.Site.Replace | agent/wordpress_components.py:302-318 | Success is the fetched component with the announced version; otherwise the original is under its own name or set aside |
| Components.Site.UpdateComponent | agent/wordpress_components.py:283-347 | Exactly when it updates; otherwise every directory has its name and content back, nothing is set aside and there is no snapshot; the maintenance flag ends as it began unless clearing it fails |
| Components.Site.RollbackComponent | agent/wordpress_components.py:350-392 | The saved content comes back or nothing changes; exactly when |
| Components.Site.UpdateAndRollBack | agent/wordpress_components.py:283-392 | An update and its rollback leave every directory as before |
| Accounts.FailureUndone | panel/routes_accounts.py:52-62 | A failed toggle leaves every site as it was if and only if the sites that were done had the opposite state |
| Accounts.Panel.ToggleSites | panel/routes_accounts.py:52-62 | Both loops compute what the provider is left with, also when the panel dies in either of them |
| Accounts.Panel.AccountStatus | panel/routes_accounts.py:252-312 | The account, its login, rows, snapshot and provider after a request, in every branch |
| Accounts.StepKeeps | panel/routes_accounts.py:252-312 | A step keeps what the panel remembers of the owner's sites if and only if it is not a suspension that re-snapshots cleared rows |
| Accounts.ActivationRestores | panel/routes_accounts.py:279-311 | An activation that runs to its end brings rows and provider to what the owner had on, and leaves no snapshot |
| Accounts.RunRestores | panel/routes_accounts.py:252-312 | So it does after any run of requests that fail or die anywhere, dropped sites, and changes while active |
| Accounts.ActiveHasNoSnapshot | panel/routes_accounts.py:286-311 | In every run, also one that loses a snapshot, an active account has none stored |
| Accounts.SuspensionClears | panel/routes_accounts.py:267-304 | A suspension that runs to its end clears every row, and leaves every own site off at the provider if and only if each that was on there had its row on |
| Accounts.FailedActivation | panel/routes_accounts.py:286-293 | After an activation that fails at some site every own site is off if and only if each that was on is one it had done |
| Accounts.FailedActivationAnywhere | panel/routes_accounts.py:286-293 | They are off wherever it fails if and only if they were off before |
| Accounts.FailedSuspension | panel/routes_accounts.py:286-293 | After a suspension that fails at some site provider and rows agree if and only if they did for each site it had not done |
| Accounts.FailedSuspensionAnywhere | panel/routes_accounts.py:286-293 | They agree wherever it fails if and only if they agreed before |
| Accounts.ReactivationRestores | panel/routes_accounts.py:267-311 | A suspension and an activation after an interrupted activation bring the owner's sites back if and only if the rows still said what the snapshot says |
| Accounts.SnapshotLost | panel/routes_accounts.py:267-278 | A run with an activation that dies and a new suspension, after which a site never comes back |
| Accounts.SuspendedButOn | panel/routes_accounts.py:286-293 | A run that ends `suspended` with a site on, where suspending again does nothing |
| Accounts.ActiveButOff | panel/routes_accounts.py:286-293 | A run that ends `active` with a site off at the provider and on in its row |
| Accounts.SuspendedAfterActivating | panel/routes_accounts.py:267-304 | A run in which a suspension runs to its end and a site stays on, because an interrupted activation had turned it on without its row |
| MailFiles.Read | agent/mail_backend.py:60-92 | The loop over the lines reads the map of the file |
| MailFiles.RoundTripExactly | agent/mail_backend.py:60-97 | A map is read back from its lines, in any order, if and only if its pairs are clean |
| MailFiles.ContentsClean | agent/mail_backend.py:60-92 | Whatever a file contains, what is read from it is clean |
| MailFiles.Write | agent/mail_backend.py:75-97 | The text of a map, its lines sorted by key, reads as that map if and only if the map is clean |
| MailFiles.Rewrite | agent/mail_backend.py:60-97 | Writing what was read changes nothing that is read |
| MailLines.UserLine | agent/mail_backend.py:80-97 | Wherever it stands in its file, the line of a user whose key has space around it gives the key without the space before it and with the space after it, or nothing when that has a line break |
| MailLines.MapLine | agent/mail_backend.py:60-77 | The line of a pair with space around key and value gives the key up to the first blank after it, or nothing when a line break stands between the two |
| MailStore.ValidatedMembers | agent/mail_agent.py:108-124 | The loop gathers the members or refuses |
| MailStore.GatheredOnce | agent/mail_agent.py:108-124 | The members are the addresses given, each once, without the list itself |
| MailStore.RouteKeeps | agent/mail_agent.py:77-99 | Routing a domain elsewhere keeps the domain of every remaining key served |
| MailStore.ListKeeps | agent/mail_agent.py:127-150 | Synchronising a list never makes a mailbox an alias |
| MailStore.DefaultKeeps | agent/mail_default.py:28-45 | Setting or removing a catch-all keeps the maps consistent |
| MailStore.ApplyKeeps | agent/mail_backend.py:187-284 | The dictionaries that an accepted request asks for, before they are written, have users and boxes in step, boxes and aliases apart, and every key's domain served, if and only if the address it makes a key has no space around it |
| MailDelivery.UpsertDelivers | agent/mail_backend.py:187-196 | A new mailbox gets its mail under its domain and local part, whatever the address was before, and no other address changes |
| MailDelivery.DeleteDelivers | agent/mail_backend.py:222-228 | A removed mailbox leaves its address to the catch-all, and no other address changes |
| MailDelivery.ForwardDelivers | agent/mail_backend.py:251-263 | A forwarder sends its address to its target and changes no other; it is refused exactly for an address with a mailbox |
| MailDelivery.UnforwardDelivers | agent/mail_backend.py:272-277 | A removed forwarder leaves its address to the catch-all and touches no mailbox |
| MailDelivery.DefaultDelivers | agent/mail_default.py:28-45 | A catch-all takes exactly the addresses of its domain that have no mailbox and no alias of their own |
| MailDelivery.RouteDelivers | agent/mail_agent.py:77-97 | Routing a domain elsewhere needs it unused and then stops serving exactly that domain |
| MailDelivery.ListDelivers | agent/mail_agent.py:127-150 | A list sends its address to all its members and changes no other |
| MailTransactions.ApplyClean | agent/mail_backend.py:187-284 | What an accepted request asks for can be written and read back if and only if its own keys and values fit a line |
| MailTransactions.UpsertStored | agent/mail_backend.py:187-202 | Which keys the four files have after a mailbox is added, whatever space stands around its address |
| MailTransactions.ForwardStored | agent/mail_backend.py:251-265 | The same after a forwarder is added |
| MailTransactions.StoredKeeps | agent/mail_backend.py:187-284 | After an accepted request the files mean consistent maps if and only if: for a mailbox, the space after its address has a line break, or there is none and either none before it or the bare address is no alias; for a forwarder, a line break stands between key and value, or its key reads as the bare source and that has no mailbox; always for the other requests |
| MailTransactions.BlankAfterAddress | agent/mail_backend.py:187-202 | A blank after any address without a mailbox: the users have the key with it, the boxes without, and the maps are not consistent |
| MailTransactions.ShortAddress | agent/mail_backend.py:22-28 | There are such addresses |
| MailTransactions.Store.WriteState | agent/mail_backend.py:109-113 | Unless one of the four writes fails the files hold the sorted lines of the state, and mean what is read from them |
| MailTransactions.Store.Serve | agent/mail_backend.py:187-284 | A request that fails at any step takes no effect on any of the four maps; one that succeeds takes effect on all of them if and only if it is writable, and keeps them consistent if and only if StoredKeeps says so |
| MailTransactions.Store.ServeAll | agent/mail_backend.py:187-284 | Over any sequence of requests and faults the files mean what the requests that succeeded make of them; they stay consistent when no address that becomes a key has space around it |
| MailTransactions.TakenConsistent | agent/mail_backend.py:187-284 | The same of the specification of a run |
| MailTransactions.WritableTaken | agent/mail_backend.py:187-284 | A request that is writable makes of the stored maps exactly what it asks for |
| Calendar.YearLength | agent/scheduler_agent.py:61-66 | The closed formula for days before a year follows the Gregorian rule |
| Calendar.IsoWeekMeaning | agent/scheduler_agent.py:61-66 | The year and week that isocalendar computes are those of section 4.1.4 of ISO 8601:2004: the year whose first week is not after the day's and whose next first week is |
| Calendar.IsoWeekIsBlock | agent/scheduler_agent.py:61-66 | Two days have the same ISO year and week if and only if they are in the same week from Monday to Sunday, across year ends too |
| Calendar.SamePeriodIs | agent/scheduler_agent.py:49-66 | Each of the three tests compares the number of the period |
| Scheduler.StepKeeps | agent/scheduler_agent.py:69-186 | Reading the rows, running one, breaking off, asking and switching keep the invariant |
| Scheduler.AtMostOncePerPeriod | agent/scheduler_agent.py:69-87 | Over every run with a clock that does not go back, of two runs of a task in one hour, day or ISO week the later was asked for |
| Scheduler.RequestsConserved | agent/scheduler_agent.py:111-120 | Every request was taken by exactly one run, except one that still waits; every run that was asked for took one |
| Scheduler.FinishRuns | agent/scheduler_agent.py:173-186 | A tick that is not broken off runs exactly the rows that are due, once each and in order |
| Scheduler.WindowRuns | agent/scheduler_agent.py:173-186 | With at most 500 eligible rows, a task in its window that has not run in its period is run |
| Scheduler.Agent.Tick | agent/scheduler_agent.py:173-186 | The loop leaves the table and the log that the specification says |
| PowerDns.Rollback | agent/hosting_ops_agent.py:336-358 | The loop over the snapshot leaves the zone that the specification says |
| PowerDns.Undone | agent/hosting_ops_agent.py:290-307 | A change is undone: the zone has exactly the record sets it had, section 5 of RFC 2181 |
| PowerDns.ReverseUndone | agent/hosting_ops_agent.py:290-358 | Any changes undone in reverse order leave the zone as it was |
| PowerDns.AnyOrderUndone | agent/hosting_ops_agent.py:290-358 | When no two share a name and a type, any order does |
| PowerDns.OrderDecides | agent/hosting_ops_agent.py:290-358 | Any changes undone in any order, with repetitions and gaps, restore the zone if and only if for every key the snapshot undone last, or the zone where none is, says what was there at first |
| PowerDns.WrongOrder | agent/hosting_ops_agent.py:290-358 | So two changes of one key undone in the order they were made restore the zone if and only if the first had changed nothing |
| Cloudflare.Rollback | agent/hosting_ops_agent.py:315-335 | The loop over the saved records leaves the zone that the specification says, or fails |
| Cloudflare.Undone | agent/hosting_ops_agent.py:259-289 | One change is undone: a creation and an update exactly, a removal up to the record's identifier |
| DnsChanges.RowsGoForward | panel/routes_advanced_ops.py:165-200 | Over every run in which no row has two handlers, however they interleave and wherever they die, a row stays, keeps its change, and its status never goes back in preview, applied, rolled back |
| DnsChanges.WriteForward | panel/routes_advanced_ops.py:168-200 | In any state the write that ends a handler takes its row forward if and only if the row is not rolled back, for an apply, or not in preview, for a rollback |
| DnsChanges.OverlapLosesOriginal | panel/routes_advanced_ops.py:168-183 | However any number of handlers that apply one row overlap and wherever some die, rolling the row back restores the zone if and only if the handler that stored last was the first to call, or the change changed nothing |
| DnsChanges.SecondStoresLast | panel/routes_advanced_ops.py:168-183 | The run in which the second of two handlers stores last |
| DnsChanges.RolledBackThenApplied | panel/routes_advanced_ops.py:168-183 | A late handler stores `applied` over a row that was rolled back |
| DnsRuns.SettledRestored | panel/routes_advanced_ops.py:165-200 | Over every run that applies one change at a time for a name and type and dies nowhere between changing the zone and recording it, however it interleaves: once nothing is applied or under way the zone is exactly the original one |
| DnsRuns.UnrecordedCall | panel/routes_advanced_ops.py:168-183 | When a handler dies there and the change is applied again, rolling back restores the zone if and only if the change changed nothing |

## Left out

- Sockets, JSON framing, Flask, sessions, HTTP, name resolution, certbot, nginx and systemctl: what they answer is a parameter or a fault.
- Hashes, tokens and random names: parameters, fresh where the source draws them at random; `last_used` of a token, error texts and the audit log.
- File ownership and modes, symlink and path-escape checks, and size limits of whole trees: taken as met; temporary directories that remain after a failure are not claimed to be gone.
- Two requests at once inside one single-threaded agent, and two status changes of one account at once.
- Fleet: the probe, plan and node tables beyond what `apply` reads, and the length check of the payload.
- Sieve: `sieve_sync` itself, which swaps files and calls the compiler, and its check for redirect loops (agent/mail_sieve.py:196-293).
- Bandwidth: the regular expression of a log line is the parameter `Format`; truncation of a log in place is not among the events, and each appended line is dated in the clock's month.
- Bandwidth.ScanLines: assumes whole lines within the limit, because the scanner skips the others.
- ServerNames.SiteConfiguration.SyncAliases: assumes that writing the old content back succeeds; a primary domain that is not valid raises before the call begins.
- PhpIniFile.SiteIni.SetSettings: file modes and owners are not part of the file.
- `str.strip`, `\s` and `splitlines` are modelled on Unicode; lower case is modelled on ASCII letters, so addresses with the few other letters whose lower case is ASCII are refused here and not there.
- WpRewrite.RewriteIsLens: which keys read what after a quote broke a statement is not said beyond WpRewrite.PasswordReadsBack.
- WpPublish.Server.Publish: a run has one fault, and the steps of its undo fail only for a missing user; the class works for any way to read a site, and WpPublish.WordPress is the one of the source. Sizes are counted in characters.
- WpSelective.SelectivePublish: the tree is written at the end of each loop rather than at each rename, since nothing reads it in between.
- `clone` (agent/wordpress_staging.py:288-361): it removes the previous tree before its last step that can fail, so its commit point is earlier than its end; `publish` has no such gap.
- `_migration_restore` (agent/hosting_ops_agent.py:616-697): its handler takes early failures to mean that the database did not exist, and a failed second rename is not undone, so it is not all-or-nothing.
- DnsRuns.SettledRestored: for two changes of a name and type at once PowerDns.OrderDecides says when their snapshots restore it; the provider is PowerDNS.
- CoreRepair.Installation.RepairCore: catalogue paths are assumed to name distinct files; directories without files are not represented.
- Components: a fault while an old directory is being removed, and a second fault after it.
- Accounts.RunRestores: while an account is not active its sites are only dropped, and undoing a toggle succeeds.
- MailDelivery.DefaultDelivers: mailboxes go before the catch-all, as the comment at agent/mail_default.py:39 says; how Postfix looks addresses up is not modelled.
- MailTransactions.Store.Serve: the directories of mailboxes are not modelled.
- MailTransactions.StoredKeeps: the hash of a password is one line that does not end in space, as agent/mail_backend.py:116-127 makes it.
- Scheduler: what a run does after its row is marked, and tasks that are added, removed or rescheduled.
- PowerDns.Undone: comments of a record set are not restored by the source and not part of the model; the text that a TXT or MX record is encoded to is a parameter.
- Cloudflare.Undone: the provider returns an identifier for a new record, and fields that the snapshot does not put back are not part of a record.
- `_record` and the other validators of the DNS agent, schemas, thin clients, catalogues, scores and quotas: they would only add easy members.
