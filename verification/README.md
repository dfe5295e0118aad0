# Open ProPanel: a verified model

Open ProPanel is a control panel for web hosting, written in Go. This project models the parts of it that
hold state or undo one another, and proves what they keep. `dafny verify dfyconfig.toml` checks everything.

## What is modelled

**Repository jobs.** Every main site (a project) may have one repository. Deploys, activations and builds
run in one background worker for each project; a request that arrives during a run waits, and only the
newest one waits. `RepoJobs.dfy` is the protocol as a state machine: callers that read a row, mark it busy
and submit, workers that look their row up, work, write the outcome and take the next request, linking,
unlinking, panics, crashes and the sweep at start-up, in any interleaving. `JobTable.dfy` is the mutex-guarded
map of job objects that implements the two critical regions. `RepoOutcomes.dfy` records the steps of a run with
their outcomes and proves what a row's status says about them. `RepoJobRaces.dfy` gives two concrete runs.

**The assistant's transcript.** `Transcript.dfy` says what one message does to a conversation against any
model and any tools (a `World` answers every round and every tool call), and what a transcript must look
like to be sent or kept. `Conversation.dfy` is the object and its loop.

**Sites, apps and repositories.** `Database.dfy` holds the tables, the unique and cascade rules and every
single statement the panel issues; `Panel.dfy` the operations as sequences of statements, each of which may
fail; `Import.dfy` the scan in its two insert passes, the relink pass and the prune; `Adoption.dfy` the
renaming of config files with its rollback.

**Files.** `Paths.dfy` is lexical path cleaning, `FileTree.dfy` a jailed tree with the system calls used,
`Unzip.dfy`, `Zip.dfy`, `ZipRoundTrip.dfy` and `Copy.dfy` the archive and copy operations.

**Small stateful parts.** `CronFields.dfy`, `Crontab.dfy` and `CrontabSync.dfy` (the managed block of a
crontab), `CertFiles.dfy`, `CertCache.dfy` and `CertManager.dfy` (the certificate served to a TLS handshake), `Limiter.dfy` and
`LimiterRuns.dfy` (login lockout), `Deliveries.dfy` (webhook replay memory). `Common.dfy`, `Texts.dfy` and
`Splits.dfy` are shared.

Commands, the network, clocks, generated keys and the model's answers are parameters or free choices, so the
results hold whatever they return.

## Where the code and its stated intent differ

- A row can stay busy for ever. A start call that read its row before an unlink and relink, and submits
  after them, pushes the new repository's queued activation out (`RepoJobRaces.StaleSubmissionStrands`); and
  a panic in a follow-up run is recorded on the repository of whoever started the worker
  (`RepoJobRaces.MisrecordedPanicStrands`). `RepoJobs.BusyThroughoutExactly` says these are the only ways.
- The comment on the start-up sweep names two statuses, the statement resets three
  (internal/store/store.go:742-752). The model follows the statement.
- A plain deploy does replace a queued activate (internal/domains/repo.go:165-166).
- An automatic mapping applied after a clone uses the repository id read before it; after an unlink in
  between it names a repository that is gone (`Panel.UnlinkDuringClone`, `Panel.AutoMapAfterUnlink`).
- A change of a site's serving that the web server cannot follow is reported as an error with the new rows
  in place (`Panel.SetServeMode`, `Panel.SetProxyApp`, `Panel.MapSite`).
- Deleting a site removes the artifacts of direct subdomains only; the cascade takes deeper rows as well
  (`Panel.TeardownComplete`, `Panel.DeepRowKeepsArtifacts`); deleting an account removes those of its own sites
  only (`Panel.AccountTeardownComplete`), and protects the last administrator only when the administrators
  can be counted.
- Pruning an imported row takes every row below it, managed ones included (`Import.ManagedRowPruned`,
  `Import.ManagedSurviveExactly`).
- A rejected adoption does not restore the recorded config file when it is the target and is not among the
  files that define the domain, and a torn write stays at the target in that case and when the target was
  new (`Adoption.AllOrNothing`).
- An archive entry such as `../../x` is not skipped, as the comment says, but extracted as `x` below the
  destination: a cleaned name never starts with `../` (`Paths.NormIsPlain`).
- A handshake answered from the cache need not get the pair it looked at: the load of another handshake
  with an equal look can come after it. Then it gets a newer certificate (`CertCache.HitNewerThanStat`) or,
  if that load met files that do not match, the self-signed pair (`CertCache.HitFallsBack`).
- A crontab whose begin marker has lost its end marker loses everything after it on the next write
  (`Crontab.InsideMeans`), and a crontab that cannot be read counts as empty (`CrontabSync.UserCrontab.Sync`).
- A lock can be dropped while it runs if one failure reads the clock twice almost 14 minutes apart
  (`LimiterRuns.LockDroppedExactlyWhen`).

## Model

| member | source | states |
|---|---|---|
| RepoJobs.InvKept | internal/domains/repo.go:155-201 | every step of every interleaving keeps the protocol's invariant |
| RepoJobs.MutualExclusion | internal/domains/repo.go:155-201 | in every reachable state a project has at most one worker, and an entry in the jobs map exactly when it has one |
| RepoJobs.RunsFollowRequests | internal/domains/repo.go:155-201 | the runs of a project are a strictly increasing subsequence of its requests, and a project without a job has executed the newest |
| RepoJobs.NoRequestLost | internal/domains/repo.go:155-201 | after a request the first run that starts executes it or a later one, and the project cannot go idle before |
| RepoJobs.JobsProgress | internal/domains/repo.go:173-200 | a project with a job always has a worker with a step that brings its run nearer to the end |
| RepoJobs.SubmittedAt | internal/domains/repo.go:156-174 | a request starts a run on an idle project and otherwise waits in place of what waited |
| RepoJobs.FinishedAt | internal/domains/repo.go:189-199 | after a run the waiting request is run next, or the project's entry goes |
| RepoJobs.BusyExplainedExactly | internal/domains/repo.go:206-385 | a step breaks "a busy row has live work behind it" exactly when it is one of the two stranding steps |
| RepoJobs.BusyThroughoutExactly | internal/domains/repo.go:206-385 | over every run, crashes included, busy rows have live work behind them at every moment exactly when no step strands one |
| RepoJobs.SubmitStrands | internal/domains/repo.go:221-229 | a submission that displaces another repository's waiting request leaves that row busy with nothing behind it |
| RepoJobs.PanicStrands | internal/domains/repo.go:179-186 | a panic recorded on the wrong repository leaves the row it ran for busy |
| RepoJobs.BenignStrandsNothing | internal/domains/repo.go:206-250 | start calls in one piece with the current row, and panics of a worker's own repository, strand nothing |
| RepoJobs.BenignRunStrandsNothing | internal/domains/repo.go:206-250 | a whole run of calls for linked repositories and panics of a worker's own repository strands nothing |
| RepoJobs.BusyMeansWork | internal/domains/repo.go:206-385 | over every run, crashes included, in which calls submit while their repository is linked and panics hit runs of the repository that started the worker, busy rows have a live run, request or call; with none left no row is busy. Which status a row then has is `RepoOutcomes.RestingRows` |
| RepoJobs.CrashRecovers | internal/store/store.go:742-752 | a crash at any point followed by the sweep at start leaves no row busy and loses no row |
| RepoOutcomes.RunOutcome | internal/domains/repo.go:253-385 | over every legal run: while a run works or publishes, its row has the busy status of its kind and stage, and the newest step recorded on the row is its own; when it has ended and the row is still linked, the row is succeeded exactly when the newest step recorded is its own publish that went well, and failed otherwise; a request made since shows its own status, and a panic in a worker started for another repository is recorded there |
| RepoOutcomes.StatusIsNewestStep | internal/domains/repo.go:206-385 | from a boot to the next, in any interleaving, every linked row shows the outcome of the newest step recorded on it, or what it was at the boot, or newly linked |
| RepoOutcomes.RestingRows | internal/domains/repo.go:206-385 | when every step was benign and no job and no call is left, each row worked on since the boot shows how its last run ended: succeeded exactly when it published well, failed otherwise |
| RepoOutcomes.LastOnMeans | internal/store/store.go:734-740 | the newest entry of a record is the one no later entry on the same row follows |
| RepoOutcomes.SweepExactly | internal/store/store.go:742-752 | the start-up sweep makes cloning, deploying and building rows failed and leaves every other row as it was |
| RepoOutcomes.RowsComeAndGo | internal/domains/repo.go:109-124 | rows come by linking and go by unlinking, under ids not used before, and keep their project |
| RepoOutcomes.CallBecomesRequest | internal/domains/repo.go:206-229 | a start call reads its row, marks it and submits one request for that row and kind of run |
| RepoJobRaces.StaleSubmissionStrands | internal/domains/repo.go:206-229 | a reachable run that ends with a row cloning and no job, worker or call anywhere |
| RepoJobRaces.MisrecordedPanicStrands | internal/domains/repo.go:176-250 | a reachable state in which a panic leaves another repository's row cloning |
| JobTable.Table.JobOf | internal/domains/repo.go:157-164 | the project's job object, made idle when there is none |
| JobTable.Table.Enqueue | internal/domains/repo.go:165-171 | the request waits behind a running job or makes the job running |
| JobTable.Table.Request | internal/domains/repo.go:156-173 | the region implements the protocol's entry on the whole map and starts a worker exactly when none runs |
| JobTable.Table.NextRun | internal/domains/repo.go:189-198 | what the region does with the job object a worker holds; when that is still the project's entry, the protocol's exit on the whole map |
| Transcript.TrimHistory | internal/ai/agent.go:267-278 | cuts at the first clean user turn among the last 80, or nowhere |
| Transcript.TrimKeeps | internal/ai/agent.go:267-278 | trimming keeps the transcript well formed, within 80 turns, and keeps the user turn being answered |
| Transcript.AnswerAppended | internal/ai/agent.go:165-168 | an answer appended and trimmed keeps alternation, the prompt and the bound |
| Transcript.ResultsAppended | internal/ai/agent.go:206-223 | the results of a round answer the tool uses before them, and the next request is well formed |
| Transcript.RoundsKeepTranscript | internal/ai/agent.go:142-233 | from any round on, every request sent is acceptable and at most 81 turns long, and a success leaves a kept transcript of at most 80 |
| Transcript.MessageKeepsTranscript | internal/ai/agent.go:95-139 | one message keeps the transcript acceptable and only cuts old turns at the front; the turn being answered stays |
| Transcript.ConversationStaysValid | internal/ai/agent.go:95-233 | after any sequence of messages, failing at any round, the transcript is one the API accepts |
| Told.TextsPicked | internal/ai/agent.go:175-180 | the texts of an answer are exactly its text blocks that are not blank, trimmed, in order |
| Told.UsesPicked | internal/ai/agent.go:175-184 | the tool uses of an answer are exactly its tool-use blocks, in order |
| Told.OutcomesTold | internal/ai/agent.go:208-216 | result k carries the content and the error flag of the k-th tool call, under the id of the k-th use |
| Told.ActionsPicked | internal/ai/agent.go:217-219 | the actions are exactly the outcomes with a summary, in order, under the name of their tool |
| Told.RoundTells | internal/ai/agent.go:165-223 | the next request is the last one, cut at the front only, with the answer as it came and then the outcomes of its tools |
| Told.CallConverses | internal/ai/agent.go:142-233 | over a whole call, whatever comes back: each request continues the one before in that way, the call fails exactly when the last answer failed, and a successful one ends on one turn with the trimmed texts of the last answer, the refusal, "Done." when that is blank, or the closing text after the last round; the reply joins the texts of all answers and lists the actions of all rounds |
| Conversation.ReadTurn | internal/ai/agent.go:173-184 | the texts that are not blank, trimmed, and the tool uses of an answer, each exactly and in order |
| Conversation.Dispatch | internal/ai/agent.go:206-220 | runs the tools of a round in order: one result for each use with the content and error flag of its outcome, and one action for each outcome with a summary |
| Conversation.TakeTurn | internal/ai/agent.go:165-223 | one answer either closes the transcript with its text or appends the results of its tools, trimmed each time |
| Conversation.Compose | internal/ai/agent.go:99-118 | the operator's text is trimmed and cut to the limit, and the first turn of a chat about a domain names it |
| Conversation.Conversation.Run | internal/ai/agent.go:142-233 | what is sent in each round, what the operator is answered and what is kept, in terms of the answers and tool outcomes themselves (as in `Told.CallConverses`); the loop computes the specified rounds |
| Conversation.Conversation.Send | internal/ai/agent.go:120-139 | one user turn is sent after the transcript; a failed call gives the transcript back as it was |
| Conversation.Conversation.Chat | internal/ai/agent.go:95-139 | the first request is the transcript and one turn with the operator's text, the rest is as `Told.CallConverses` says, and what the operator named is remembered up to its bound; a failed call leaves the transcript exactly as before; a blank one does nothing |
| Database.DoomedIsLeast | internal/store/store.go:174-227 | a cascade takes exactly the least set of rows closed under children |
| Database.DoomedMeansBelow | internal/store/store.go:174-227 | a cascade takes exactly the rows that hang, at any depth, below the rows deleted |
| Database.CascadeMeans | internal/store/store.go:174-227 | deleting rows leaves exactly the site rows not below them, unchanged, with the apps and repositories of the sites that stay |
| Database.KeptExactlyWhenAllowed | internal/store/store.go:174-227 | a statement the constraints accept keeps every table rule exactly when its guard holds |
| Database.CutAnywhere | internal/domains/repo.go:711-722 | a guarded sequence of statements may be cut off after any of them |
| Database.RunsKeepReferences | internal/store/store.go:174-227 | after any prefix of any run of guarded statements: names are unique, a row is a subdomain exactly when it has a parent, a live row it is named under, every proxy site has its app, every mapped site a live repository of its own project |
| Database.ParentsAcyclic | internal/store/store.go:174-227 | following parents the names get strictly shorter, so no row is its own ancestor |
| Database.MigrationKeepsGood | internal/store/store.go:313-322 | the data migration may be cut off after any statement |
| Database.MigrationMeans | internal/store/store.go:313-322 | unmanaged apps without a command go and their sites serve files again; every other app stays with its command, managed, its port tied to its site |
| Database.MigrationIdempotent | internal/store/store.go:313-322 | migrating twice is migrating once, whatever the tables held, and then no new app collides |
| Database.PortsStayAligned | internal/store/store.go:785-802 | every statement keeps an app's port tied to its site |
| Panel.Store.Exec | internal/store/store.go:174-227 | a statement is applied whole or not at all, and keeps the tables consistent |
| Panel.CreateSite | internal/domains/domains.go:137-210 | a created main site is one new managed row with the owner and the name asked for, which no row had; a failure leaves no row, and without a store failure there is a reason for every refusal |
| Panel.AddSubdomain | internal/domains/domains.go:275-362 | a subdomain is one new row under a managed parent, named below it, and is refused only for a stated reason when the store does not fail |
| Panel.SetServeMode | internal/domains/domains.go:215-266 | a refusal changes nothing; otherwise the mode has changed before the app row went, and a server that cannot be brought to match is reported with these rows written |
| Panel.SetApp | internal/domains/app.go:43-60 | the site's app row holds the command asked for and is managed; every other row is as before |
| Panel.SetProxyApp | internal/domains/app.go:17-78 | unless refused, the app row holds the command asked for and is managed, the site's mode is the proxy and every other row is as before, also when the vhost, the reload or the unit then fails; a refusal leaves the tables as they were or with the app row alone |
| Panel.RemoveAppFor | internal/domains/app.go:82-89 | the app row goes, or stays after a store error |
| Panel.LinkRepo | internal/domains/repo.go:57-135 | a repository is attached exactly to a managed main site without one, when its key is written and the store does not fail |
| Panel.UnlinkRepo | internal/domains/repo.go:711-722 | mappings are cleared before the repository row goes, and none of the project's rows is left |
| Panel.MapSite | internal/domains/repo.go:404-458 | unless refused, the site names the repository of its own project and has the mode asked for, also when rendering or the reload then fails; a refusal changes nothing and, when the store does not fail, has a stated reason |
| Panel.AutoMapAfterUnlink | internal/domains/repo.go:302-317 | the automatic mapping keeps the tables consistent exactly when the repository it read is still linked |
| Panel.UnlinkDuringClone | internal/domains/repo.go:302-317 | a table in which an unlink during the clone makes the automatic mapping inconsistent |
| Panel.Adopt | internal/domains/domains.go:967-968 | the last step of an adoption marks one imported row managed |
| Panel.RemoveSite | internal/domains/domains.go:422-447 | deletes the row and its cascade; artifacts go for the managed site and its managed direct subdomains; an imported site is forgotten and its name dismissed |
| Panel.DeleteAccount | internal/domains/domains.go:369-416 | removes the account and every row it owns with what hangs below; the last administrator stays whenever the administrators can be counted; the artifacts of the account's own managed sites go |
| Panel.AccountTeardownComplete | internal/domains/domains.go:384-390 | the sites looked at are all that the cascade takes exactly when no row of another account hangs below them |
| Panel.TeardownComplete | internal/domains/domains.go:433-442 | the artifacts removed cover the cascade exactly when no row hangs below the direct subdomains |
| Panel.DeepRowKeepsArtifacts | internal/domains/domains.go:433-442 | a subdomain of a subdomain that a delete takes without its artifacts |
| Import.ParentDomainIn | internal/domains/domains.go:848-856 | finds the longest name in the set that is a strict dotted suffix |
| Import.ParentNameUnique | internal/domains/domains.go:848-856 | there is only one such name, so the order of the set does not matter |
| Import.Candidates | internal/domains/domains.go:753-763 | the scan takes exactly the valid, untracked, undismissed names found |
| Import.ImportOne | internal/domains/domains.go:778-806 | a candidate becomes a flat row in the first pass, and in the second a row under the row of its parent name when there is one |
| Import.ImportPass | internal/domains/domains.go:788-806 | after a pass every name due in it has a row, and old rows are unchanged |
| Import.InsertCandidates | internal/domains/domains.go:765-806 | after both passes every tracked and discovered name has a row |
| Import.RelinkOne | internal/domains/domains.go:813-822 | a flat imported row goes under its parent name's row when there is one |
| Import.Relink | internal/domains/domains.go:808-824 | afterwards no imported row is flat while its parent name has a row |
| Import.Register | internal/domains/domains.go:765-824 | the three passes together group every new row |
| Import.Prune | internal/domains/domains.go:826-841 | when the store does not fail, the tables are those after one cascade from all stale imported rows |
| Import.PruneIsOneCascade | internal/domains/domains.go:826-841 | deleting the stale rows one by one in any order is one cascade from all of them |
| Import.ManagedSurviveExactly | internal/domains/domains.go:826-841 | every managed row survives the prune exactly when none hangs, at any depth, below a stale imported row |
| Import.ManagedRowPruned | internal/domains/domains.go:826-841 | a table in which the prune takes a managed row whose host is on disk |
| Import.ScanGroups | internal/domains/domains.go:808-824 | after the relink each new row, and each imported row that stood flat, sits where its name puts it, and every other row is unchanged |
| Import.ImportExisting | internal/domains/domains.go:737-843 | each new row and each imported row that stood flat ends with the longest suffix name among tracked and discovered sites as its parent, in any order; the prune then takes exactly the stale rows and what hangs below them |
| Adoption.ConfigDir.DisableAll | internal/domains/domains.go:922-933 | every original that exists moves to its backup name, up to a refusal |
| Adoption.ConfigDir.Restore | internal/domains/domains.go:908-920 | the rollback leads back to the directory it is given |
| Adoption.SetTargetAside | internal/domains/domains.go:934-944 | the target moves to its own backup when another file is in the way, or everything is rolled back |
| Adoption.BackUp | internal/domains/domains.go:922-944 | originals and target are set aside together or the directory is unchanged |
| Adoption.UndoTornWrite | internal/domains/domains.go:954-957 | what the rollback of a failed write leads to |
| Adoption.WriteAndReload | internal/domains/domains.go:954-966 | what the directory is after a torn write, a rejected config and a success |
| Adoption.AdoptSite | internal/domains/domains.go:863-968 | for every outcome the directory after it; on success every file that defined the domain, or the recorded file when none does, is at its backup name with its content and gone from its own unless that is the target, and a site without a recorded file has nothing renamed but a file in the way; refused as shared exactly when one of these files defines another site too; a failure restores every path exactly when its target was protected and the write left nothing behind |
| Adoption.AllOrNothing | internal/domains/domains.go:863-968 | a failed adoption restores every path exactly when the target was protected and the write left nothing behind |
| Adoption.AdoptedKeepsOriginals | internal/domains/domains.go:863-968 | on success every file set aside survives under its backup name, its own name is free unless it is the target, and the target holds the generated config |
| Adoption.RecordedFileLost | internal/domains/domains.go:893-966 | a directory that meets the conditions of an adoption in which a rejected one loses the recorded file |
| Paths.NormIsPlain | internal/filemanager/filemanager.go:100-108 | no input leaves the root: every component of a cleaned path is an ordinary name |
| Paths.NormJoin | internal/filemanager/filemanager.go:100-108 | writing a plain path out and cleaning it gives it back, with or without a final slash |
| Paths.NormGoesOn | internal/filemanager/filemanager.go:100-108 | one more part after a slash of either kind: nothing and `.` stay, `..` drops the last component or stays at the root, a name goes below |
| Paths.NormRooted | internal/filemanager/filemanager.go:100-108 | a slash of either kind in front changes nothing |
| Paths.NormIdempotent | internal/filemanager/filemanager.go:100-108 | cleaning twice is cleaning once |
| Paths.SurvivesExactlyWhen | internal/filemanager/archive.go:194-196 | a path of real names survives exactly when no name holds a backslash |
| FileTree.FileSystem.Mkdir | internal/filemanager/archive.go:286-288 | makes one directory, reports one that exists, or refuses |
| FileTree.FileSystem.MkdirAll | internal/filemanager/archive.go:277-291 | succeeds exactly when nothing but directories is on the way; a refusal leaves nothing behind |
| FileTree.WithDirsWf | internal/filemanager/archive.go:277-291 | the tree stays a tree and holds the path |
| Unzip.UnzipTo | internal/filemanager/archive.go:171-246 | for every archive and destination, at most the limit plus one byte is written, at most the limit on success, no more paths listed than the limit, all below the destination; without symbolic links there, it succeeds exactly when nothing is in the way and both limits hold, gives the specified tree, and changes nothing else |
| Unzip.ExtractAll | internal/filemanager/archive.go:188-246 | the loop over the entries: the counts always, the tree where no symbolic link is met |
| Unzip.Unzip | internal/filemanager/archive.go:165-167 | the same with the panel's own limits |
| Unzip.TargetsBelow | internal/filemanager/archive.go:194-201 | whatever the names in the archive, every listed path lies strictly below the destination |
| Unzip.TargetsListed | internal/filemanager/archive.go:191-243 | the paths listed are those of exactly the entries that make a directory or a file, in order, below the destination |
| Unzip.LastFileStays | internal/filemanager/archive.go:214-233 | the last file of a name in the archive is what lies under it afterwards |
| Unzip.NoFileStays | internal/filemanager/archive.go:202-212 | everywhere else there is what was there before, or a directory exactly where an entry leads |
| Unzip.ExtractEntry | internal/filemanager/archive.go:191-245 | one entry: at most one byte over the room left, always; and the tree it leaves where no symbolic link is met |
| Unzip.CopyLimited | internal/filemanager/archive.go:227-240 | bytes are counted as written, whatever the header declares |
| Zip.ZipRec | internal/filemanager/archive.go:114-159 | in any listing order the entries are exactly the real files and directories at and below the path, without the archive |
| Zip.ZipDir | internal/filemanager/archive.go:119-138 | a directory's own entry and those of everything real below it, in any listing order |
| Zip.ZipNames | internal/filemanager/archive.go:89-112 | where no symbolic link is met, the archive holds exactly the selection, and it fails exactly for a bad or taken archive name or a missing entry |
| ZipRoundTrip.EntryGrafted | internal/filemanager/archive.go:191-245 | an entry made from a path puts that path and its parents back and meets no obstacle |
| ZipRoundTrip.RoundTrip | internal/filemanager/archive.go:89-246 | unzipping a zipped selection into an empty directory gives back exactly its directories and files, and only the limits can stop it |
| Copy.CopyRec | internal/filemanager/archive.go:43-84 | ends for every pair of paths that is not refused and never changes or removes what was there; for paths apart it succeeds exactly when nothing is in the way |
| Copy.CopyChildren | internal/filemanager/archive.go:49-65 | the children in any order: a complete copy below the destination, or a stop with nothing damaged |
| Copy.CopyFile | internal/filemanager/archive.go:66-79 | an existing name stops the copy; a new file equals its source |
| Copy.CopyEntry | internal/filemanager/archive.go:27-41 | which requests are refused; the rest, where no symbolic link is met, copy completely exactly when nothing is in the way, or fail without damage |
| Copy.FreshCopy | internal/filemanager/archive.go:27-84 | onto a fresh name the destination equals the source without symbolic links, and all else is unchanged |
| CronFields.CronValue | internal/cron/cron.go:84-96 | accepts exactly digits or a name of one to nine letters |
| CronFields.ValidCronItem | internal/cron/cron.go:62-80 | accepts exactly the items built from points, ranges and positive steps |
| CronFields.StepIsPositive | internal/cron/cron.go:66-72 | `*/0` and signs are refused: a step is a number with a positive digit, and every such number of 64 bits is taken |
| CronFields.ValidField | internal/cron/cron.go:50-60 | accepts exactly the comma lists of such items within the length limit |
| CronFields.FieldIsOneToken | internal/cron/cron.go:44-60 | an accepted field has no space, newline or comment sign |
| CronFields.CleanCommand | internal/cron/cron.go:100-112 | takes exactly the texts that are a one-line command within the length limit between blanks, and gives back that command |
| CronFields.CommandUnchanged | internal/cron/cron.go:100-112 | a text is given back unchanged exactly when it is such a command |
| Texts.TrimSpace | internal/cron/cron.go:101 | the piece of the text between the blanks around it |
| Texts.TrimmedUnique | internal/cron/cron.go:101 | there is only one such piece |
| CronFields.LineRoundTrip | internal/cron/cron.go:115-117 | cutting a job line at its first five spaces gives back its fields and its command |
| CronFields.LineIsOneLine | internal/cron/cron.go:115-117 | a job is one line and no comment |
| Crontab.InsideMeans | internal/cron/cron.go:165-179 | a line is in the block when a begin line precedes it with no end line in between |
| Crontab.StripManagedBlock | internal/cron/cron.go:160-180 | returns the lines outside every block, in order |
| Crontab.NothingToStrip | internal/cron/cron.go:161-163 | the early return is right: without the begin marker nothing would be removed |
| CrontabSync.UserCrontab.Sync | internal/cron/cron.go:122-157 | installs the kept lines and one line for each job, or changes nothing |
| CrontabSync.Layout | internal/cron/cron.go:138-153 | the lines of the new crontab are the kept ones, the block and the end |
| CrontabSync.HandLinesKept | internal/cron/cron.go:138-145 | every line outside the block is kept, in order, up to empty lines at the end |
| CrontabSync.StripUndoesSync | internal/cron/cron.go:122-180 | stripping what Sync wrote gives back the hand-written text up to blank lines at its end |
| CrontabSync.LastSyncDecides | internal/cron/cron.go:122-180 | a second sync gives the same text as syncing only with its jobs |
| CrontabSync.JobsReadBack | internal/cron/cron.go:138-153 | reading the new crontab line by line gives back every job, in order, inside the block |
| CertCache.InvKept | internal/web/tls.go:72-115 | every step of handshakes and file changes keeps the cache's invariant |
| CertCache.OneLoader | internal/web/tls.go:76-82 | at most one handshake is past the cache check |
| CertCache.SameTimeSameFile | internal/web/tls.go:72-115 | looks that saw the same modification time saw the same file, unchanged in between; what is read after the first look is that file or a newer one |
| CertCache.HitsServeTheDisk | internal/web/tls.go:72-115 | in every reachable state, a hit whose pair loads at its look: if the loads behind the entry came first the answer is that pair; in general it is that pair when neither file changed up to its load and, where changes bring new contents, only then; a pair answered from its own files is never older |
| CertCache.BrokenPairFallsBack | internal/web/tls.go:84-114 | a hit whose two files are there but do not load is answered with a self-signed pair when the loads came first |
| CertCache.HitNewerThanStat | internal/web/tls.go:72-115 | a reachable hit answered with a renewed certificate it had not looked at |
| CertCache.HitFallsBack | internal/web/tls.go:84-114 | a reachable hit answered with the self-signed pair although the pair it looked at loads |
| CertManager.Manager.ResolvePaths | internal/web/tls.go:45-59 | the override, else the drop-in pair, else the self-signed pair; the first two only when both files exist |
| CertManager.Manager.LoadSelfSigned | internal/web/tls.go:85-103 | the self-signed pair is written only when it does not load |
| CertManager.Manager.GetCertificate | internal/web/tls.go:72-115 | what a handshake is answered with, what is written to disk, and what the cache remembers |
| CertManager.RenewedPairIsServed | internal/web/tls.go:72-115 | the next handshake gives the same answer while it resolves the same files with the same times, and otherwise the pair on the disk, if it loads |
| CertManager.NextHandshakeWritesNothing | internal/web/tls.go:105-114 | after a successful handshake the next one writes nothing while nobody changes a file |
| Limiter.LoginLimiter.Allow | internal/web/limiter.go:46-62 | who is let through, the wait to the nearest second, and which entry is forgotten |
| Limiter.LoginLimiter.Fail | internal/web/limiter.go:66-92 | the count, the lock and the purge after a failure |
| Limiter.LockMeans | internal/web/limiter.go:76-82 | no lock up to four failures, then 1, 2, 4, 8, 16, 32 and from the eleventh on 64 seconds |
| Limiter.LoginLimiter.Success | internal/web/limiter.go:95-99 | forgets one address and no other |
| Limiter.Purge | internal/web/limiter.go:84-91 | in any order, removes exactly the entries idle for longer than the limit |
| LimiterRuns.Tracked | internal/web/limiter.go:46-92 | whatever other addresses do, the table counts a persisting address's failures and holds its lock |
| LimiterRuns.Backoff | internal/web/limiter.go:39-92 | the k-th failure for k of at least 11 comes at least 63 + 64 (k - 11) seconds after the fifth |
| LimiterRuns.BackoffIsMet | internal/web/limiter.go:39-92 | the bound is attained for every k |
| LimiterRuns.RunningLockKept | internal/web/limiter.go:46-92 | neither the idle reset nor the purge drops an entry before its lock is over |
| LimiterRuns.LockDroppedExactlyWhen | internal/web/limiter.go:66-80 | a lock can be dropped early exactly when its failure's two clock readings lie too far apart |
| Deliveries.AcceptedSpaced | internal/web/handlers_hooks.go:65-90 | no acceptance repeats one of the last max |
| Deliveries.ReplaysAreFarApart | internal/web/handlers_hooks.go:65-90 | between two acceptances of one id at least max other distinct ids were accepted |
| Deliveries.HoldsNext | internal/web/handlers_hooks.go:77-90 | set and queue hold the same ids without repeats after each acceptance |
| Deliveries.DeliveryCache.Remember | internal/web/handlers_hooks.go:77-90 | reports a duplicate exactly when the id is among the last max accepted |

## Left out

- Transcript.Closing: the closing text is shortened; only that it is not blank matters here.
- Conversation.Conversation.Chat: the store of conversations by id and its eviction of old ones are not modelled, because only one conversation's transcript is at stake; the limits on text count characters where the program counts bytes.
- RepoJobs.BusyMeansWork: writes of a row's status are taken to succeed, and a crash keeps what was written, because store errors there are ignored by the program.
- Panel.SetProxyApp: an app's command stands for its runtime, command and environment.
- Adoption.AdoptSite: renames of the rollback are taken to succeed and backup names to be unused; other outcomes are not covered.
- Unzip.UnzipTo: what becomes of the tree when a symbolic link lies at or below the destination or on the way to it is left open, because the system follows it inside the jail; calls on the tree do not fail for reasons other than what is in it; opening the archive itself is not modelled.
- Zip.ZipNames: what happens when a selected name is a symbolic link, or lies behind one, is left open; names are the single components that the request handler accepts (internal/web/handlers_files.go:911-916); the archive's bytes are its list of entries.
- Copy.CopyEntry: what happens when a symbolic link lies on the way to the source or at the destination is left open, because the system follows it inside the jail; for a destination above the source only termination and the absence of damage are stated, because the copy then reads what it writes; calls on the tree do not fail for reasons other than what is in it.
- CronFields.CleanCommand: text is valid Unicode; byte sequences that are not UTF-8 are not modelled.
- CertManager.Manager.GetCertificate: the contents of a file are a certificate, a key or neither; parsing and key generation are not modelled.
- CertCache.HitsServeTheDisk: resolving the paths is one free choice, and the self-signed pair stored after a failed load is any matching pair.
- Limiter.LoginLimiter.Fail: entries are values in the map, not objects behind pointers; the program holds no other reference to them.
- Commits, error texts, logs, document roots and PHP versions in rows, because no branch of the modelled operations depends on what they hold.
- Time limits of repository jobs and the work itself: a run ends at some point with success, failure or a panic.
- The bound on concurrent password checks, HTTP handlers, templates and the parsing of signatures and payloads.
- File modes and owners, and device files, which the copy and archive code skips like symbolic links.
- The web server's config language and the scanner that finds which files define a domain: the set of such files is an input.
- Switching the web server, certificates from a certificate authority, databases and user accounts other than their deletion.
