# A verified model of the job finder's core logic

This project models the state machines and byte- and text-level transformations at the core of the job
finder in Dafny and proves what they promise for all inputs, all reachable states or all interleavings.

| part | modules |
|---|---|
| Article 12 audit chain, its auditor, its emitter, its external anchor | `CanonicalJson`, `AuditChain`, `AuditEvidence`, `AuditVerdicts`, `AuditEmitter`, `AuditRecords`, `AuditAnchor` |
| Planner that leaves one receipt per step in that chain | `Planner`, `PlannerRuns` |
| Background job queue with workers, retries and process restarts | `IsoTime`, `JobQueue`, `JobQueueRuns`, `JobQueueAttempts` |
| Image metadata strippers and the stored photo | `Bytes`, `JpegStrip`, `PngStrip`, `WebpStrip`, `Base64`, `CvPhoto` |
| Aggregator fan-out merge | `Aggregators`, `MergeKeys`, `MergeConfluence` |
| Monthly spend cap around concurrent AI calls | `SpendCap`, `SpendCapBound` |
| CV Markdown to HTML | `CvHtml`, `CvHtmlReading`, `CvMarkdown`, `CvInline` |
| Facet index and commute graph | `JobIndex`, `CityAdjacency` |
| Accounts and sessions | `AuthStore` |

`Wrappers`, `Sequences` and `StringOrder` hold the option type, facts about sequences and the order of
strings.

## How it is modelled

Code that changes state is a class with methods (`AuditLogEmitter`, `BackgroundJobQueue`, `Ledger`, `Index`,
`Accounts`) and loops are loops (`VerifyChain`, the three strippers, the merge, the HTML converter); every such method is
proved equal to a specification function, and the theorems are about those functions. Runs are sequences of
steps of a transition system whose transitions are the same functions, so interleavings, failed writes,
rotations and restarts are all covered by one induction.

HMAC-SHA256 and SHA-256 are unknown functions; injectivity is assumed only where a statement about tampering
says so (`Injective`). The canonical JSON text is not assumed injective: it is printed character by character
and its injectivity, and that it holds no newline and is never empty, are proved.

Assumptions about the surroundings, all visible in the statements that need them:

- A failed append writes nothing (`Io.writeOk`); the salt is the same across restarts; one process writes. Digests
  are ASCII text.
- What `json.dump` writes, `json.loads` reads back (payload keys are strings), so a log line is modelled by the
  value it parses to, or by its being blank, no JSON, no UTF-8, or JSON the parser gives up on (an integer of more than 4300
  digits, nesting beyond its stack). Strings hold no lone surrogates. A record that
  JSON cannot write at all is one whose `Io.encodes` is false.
- The directory listing an emitter scans shows the rotated files in any order.
- Times lie before the year 10000, where the ISO text stops having a fixed width.
- Money is counted in millionths of a euro and rates in cents per million tokens; rounding is to the nearest,
  ties to even.

## Where the code and its documentation differ

The model follows the code.

- `company_discovery/audit_log.py` says logging failures never propagate. A log file with a line that is no UTF-8, is
  too much for the parser, or is JSON but no object, makes every write of a new process raise, and so does a record that JSON cannot write
  (`AuditEmitter.WriteRaisesIff`, `AuditEmitter.NumberLineRaises`). The auditor raises, too, on such a line and on a
  stored HMAC that is not ASCII (`AuditChain.VerifyChain`).
- `company_discovery/job_queue.py` says a failed job fires up to `max_attempts` times. A reset after a crash
  does not give the attempt back, nor does it stop a job that has none left: a job exceeds its maximum exactly when
  a restart finds it running in its last attempt and it is claimed again (`JobQueueAttempts.AttemptsExceedIff`). The
  bound that holds counts the resets (`JobQueueRuns.QueueSafety`), and it is reached for every maximum and every
  number of resets (`JobQueueAttempts.BoundIsReached`). All of these count claims, as the column `attempt` does: a
  crash between the claim and the start of the handler is an attempt that never fired.
- `company_discovery/cv_photo.py` skips the pad byte of an odd-sized WebP chunk and does not write it back, so
  the output can be read as the kept chunks if and only if all of them but the last are even
  (`WebpStrip.StripsWebp`; `WebpStrip.OddChunkLosesNext` is a family where they are not). A JPEG of nothing but a
  start marker and one APP1 segment is accepted and stored as two bytes that are no JPEG any more
  (`CvPhoto.TypeSurvivesStripping`, `CvPhoto.BareApp1IsNoJpeg`).
- `company_discovery/cost_caps.py` says free modes never cost anything and record zero. They skip the check but
  are recorded at the provider's price, which is zero exactly when prompt and answer round to nothing
  (`SpendCapBound.FreeModeIsFreeIff`); of the pairs the settings accept that concerns the custom provider over local
  HTTP alone (`SpendCapBound.FreeModeChargesCustomOnly`, `SpendCapBound.FreeModeIsCharged`). A prompt whose price rounds to zero is
  never checked, whatever its answer costs (`SpendCapBound.UncheckedIff`), and the month's total only looks at the
  10,000 newest events (`SpendCapBound.CheckSeesAllIff`).
- `company_discovery/aggregators.py` strips a scheme in lower case only (`MergeKeys.CapitalsDoNotMatch`), and scheme, `www.` and the trailing slash only where something follows the
  host's slash (`MergeKeys.NoKeyIff`); bare hosts share a key only when written the same
  (`MergeKeys.BareHostsShareIff`).
- The same file gives postings without a URL made-up keys; of a posting whose URL is literally such
  a key and the posting that was given it one is lost (`MergeConfluence.MergedCountIff`).
- `company_discovery/job_index.py` purges rows that no count sees any more, but forgets with them the facets that a
  later upsert without facets would have kept (`JobIndex.PurgeShowsIff`, `JobIndex.PurgeForgetsRole`).
- `company_discovery/auth.py` means to end a user's sessions on every change of role or second factor. Opening a
  store without an active admin promotes its oldest user, and starting another enrolment switches the second factor
  off, and both leave that user's sessions open (`AuthStore.ChangeEndsSessionsIff`, `AuthStore.PromotionKeepsSession`,
  `AuthStore.NewEnrolmentKeepsSession`). The only caller of the second in `app.py` refuses enrolled users.

## Model

| member | source | states |
|---|---|---|
| `CanonicalJson.PrintInjective` | company_discovery/audit_log.py:268-273 | two JSON values with the same canonical text are the same value |
| `CanonicalJson.PrintPrefixFree` | company_discovery/audit_log.py:268-273 | a canonical text determines where it ends: no value's text is continued by another's |
| `CanonicalJson.PrintPrintable` | company_discovery/audit_anchor.py:78-80 | canonical text is non-empty printable ASCII, so it never holds the newline used to join records |
| `AuditChain.VerifyChain` | company_discovery/audit_log.py:560-673 | the auditor's loops over files, gaps and HMACs return exactly the specified verdict, with its counts, reasons and missing numbers, or raise on undecodable bytes, text the parser gives up on, JSON that is no object, or a stored HMAC outside ASCII |
| `AuditChain.AcceptedIff` | company_discovery/audit_log.py:563-569 | accepted if and only if every line is a v2 record and the sorted records form a dense chain from 1; the count is the number of records |
| `AuditChain.AcceptedIffArrangement` | company_discovery/audit_log.py:583-673 | accepted if and only if the records found are, in some order, an intact chain |
| `AuditVerdicts.VerdictExplained` | company_discovery/audit_log.py:583-673 | every verdict: an accepted log is a chain; any other has an unclean line or a missing file behind clean ones only, a least number that is not 1, a first number out of place, or a first record without the HMAC due, and the verdict names exactly that |
| `AuditVerdicts.StopsAtLine` | company_discovery/audit_log.py:588-617 | reading stops, or raises, at the first unclean line for what is wrong with that line, with the records before it counted |
| `AuditVerdicts.StopsAtFile` | company_discovery/audit_log.py:618-624 | a file that cannot be read is reported with the records before it counted |
| `AuditVerdicts.StartVerdict` | company_discovery/audit_log.py:626-636 | clean files whose least number is not 1 are reported with that number |
| `AuditVerdicts.GapVerdict` | company_discovery/audit_log.py:637-649 | a gap is reported at the first place that shows another number, with exactly the numbers up to the highest that no record has, ascending |
| `AuditVerdicts.HmacVerdict` | company_discovery/audit_log.py:651-671 | a mismatch is reported with the number of the first record whose HMAC is not the one over its predecessor's HMAC and its own content; a stored HMAC outside ASCII makes the comparison raise |
| `AuditEvidence.LinkInjective` | company_discovery/audit_log.py:222-228 | the message `prev + "\n" + canonical` splits in one way only, so equal HMACs mean equal predecessor and equal record |
| `AuditEvidence.HeadCommits` | company_discovery/audit_log.py:651-673 | the last HMAC fixes the length and every record of the chain before it |
| `AuditEvidence.TamperEvident` | company_discovery/audit_log.py:560-673 | two non-empty accepted logs under one salt ending in the same HMAC agree record for record |
| `AuditEvidence.DeletionNoticedIff` | company_discovery/audit_log.py:626-649 | deleting any subset of an intact log is accepted if and only if the deleted records are its last ones |
| `AuditEvidence.VerdictIgnoresLayout` | company_discovery/audit_log.py:583-624 | neither the order of the paths nor the distribution of the records over files changes an ok verdict |
| `AuditEmitter.AuditLogEmitter.LoadChainState` | company_discovery/audit_log.py:177-220 | the recovery scan yields the specified counters or raises with nothing changed, on bytes that are no UTF-8, text the parser gives up on, and JSON that is no object |
| `AuditEmitter.AuditLogEmitter.RotateIfNeeded` | company_discovery/audit_log.py:297-316 | the current file moves behind the rotated ones when it is too large and the rename succeeds, else no file changes; the counters never do |
| `AuditEmitter.AuditLogEmitter.Write` | company_discovery/audit_log.py:230-295 | the whole new state of one write; a write that succeeds ends the current file with every field of the record under the next number, one that fails leaves the lines on disk as they are; the counters move only after the append succeeded |
| `AuditEmitter.AuditLogEmitter.Emit` | company_discovery/audit_log.py:121-173 | an event's record goes through one write and, where that succeeds, ends the current file field by field |
| `AuditEmitter.WriteAppends` | company_discovery/audit_log.py:257-283 | a write that succeeds adds the given record under its number and HMAC as last line; one that does not adds nothing |
| `AuditEmitter.WriteMoves` | company_discovery/audit_log.py:297-316 | a full current file becomes the newest rotated one before the record is written, and no other file ever moves |
| `AuditRecords.EventIsRecorded` | company_discovery/audit_log.py:145-155 | type, identifier, time, duration and outcome of the event are in its record |
| `AuditRecords.IdentifiersAreHashed` | company_discovery/audit_log.py:150-152 | user and session appear hashed, explicit before context, missing as null, and the caller by name or as `system` |
| `AuditRecords.OptionalIffGiven` | company_discovery/audit_log.py:156-170 | each optional field appears exactly when it is given, the phase also from the context; an empty payload is left out |
| `AuditEmitter.ScanRecovers` | company_discovery/audit_log.py:177-220 | scanning an intact log in any file order finds its length and its last HMAC |
| `AuditEmitter.ScanFindsHighest` | company_discovery/audit_log.py:177-220 | whatever the log holds, the scan takes number and HMAC of the first record with the highest number |
| `AuditEmitter.WriteSyncs` | company_discovery/audit_log.py:230-295 | one write, failed or not, with or without rotation or recovery, keeps disk and counters standing for one chain |
| `AuditEmitter.EmitterRefinesJournal` | company_discovery/audit_log.py:68-316 | after any run of emits, failed writes, rotations and restarts the auditor accepts, counts the successful emits and reads exactly the records emitted, in order and with all their fields |
| `AuditEmitter.RestartRecoversCounters` | company_discovery/audit_log.py:177-220 | recovery after any such run yields exactly the counters the writer had in memory |
| `AuditEmitter.WriteRaisesIff` | company_discovery/audit_log.py:177-295 | a write raises if and only if JSON cannot write its record, or the chain is not loaded yet and some file has a line that is no UTF-8, is too much for the parser, or is JSON but no object; in the second case every later write raises too |
| `AuditEmitter.NumberLineRaises` | company_discovery/audit_log.py:209-214 | a log file holding the line `42` makes every write raise |
| `AuditAnchor.OrderedV2Records` | company_discovery/audit_anchor.py:42-68 | collects and sorts the v2 records as specified, or raises on the same lines as the scan |
| `AuditAnchor.CountNonemptyLines` | company_discovery/audit_anchor.py:130-143 | counts the lines that are not blank in the files that exist, or raises on bytes that are no UTF-8 |
| `AuditAnchor.OrderedMeansDecodable` | company_discovery/audit_anchor.py:146-158 | where the records can be read the lines can be counted, so computing an anchor raises only in the first |
| `AuditAnchor.JoinedInjective` | company_discovery/audit_anchor.py:71-81 | the newline join of the records' texts determines the records |
| `AuditAnchor.V2FilesAre` | company_discovery/audit_anchor.py:42-68 | an anchor covers exactly the numbered v2 objects of the files, and reading them fails exactly on the lines that raise |
| `AuditAnchor.AnchorShows` | company_discovery/audit_anchor.py:146-158 | an anchor counts these records and shows the highest number among them and the HMAC of a record that has it |
| `AuditAnchor.AnchorOfAccepted` | company_discovery/audit_anchor.py:146-158 | of a log the auditor accepts it shows as many records and lines as the last number says and the HMAC the chain ends in |
| `AuditAnchor.FilesCount` | company_discovery/audit_anchor.py:130-143 | lines are counted file by file |
| `AuditAnchor.AnchorHoldsIff` | company_discovery/audit_anchor.py:190-235 | an anchor holds for later files if and only if the ordered v2 records, and the line count where there is one, are the anchored ones |
| `AuditAnchor.AnchorReasons` | company_discovery/audit_anchor.py:190-235 | why an anchor fails on later files: raised, records that differ, or only another number of lines |
| `AuditAnchor.ChainAndAnchorIff` | company_discovery/audit_anchor.py:256-263 | on logs the auditor accepts, the anchored records are the ones it checked and the line count is theirs; chain and anchor are both ok if and only if the files are clean and hold exactly these records |
| `Planner.Execute` | civic_agents/planner.py:185-246 | the step loop produces the specified results, errors included, and audit log, with early stop and propagated exceptions; what these are is in the next three rows |
| `Planner.ResultExplained` | civic_agents/planner.py:196-216 | result k of every execution is ok if and only if the input conforms, a handler is registered, it returns an object and that conforms, and then holds exactly that object; which of the other statuses it has otherwise, without output, and with which error |
| `Planner.ResultsEnd` | civic_agents/planner.py:242-246 | a stopping run ends behind its first failed step, any other behind its last step unless it raises |
| `Planner.EmptyAnswerViolates` | civic_agents/planner.py:206-213 | a handler that answers with an empty object has violated its output contract, whatever the specialist |
| `Planner.RunGoal` | civic_agents/planner.py:249-257 | a goal is decomposed and executed; a failing decomposition leaves the log untouched |
| `PlannerRuns.PlanDependsOnKnownNeeds` | civic_agents/planner.py:173-182 | goals with the same set of known needs get the same plan |
| `PlannerRuns.PlanFollowsOrder` | civic_agents/planner.py:173-182 | the plan is the canonical order restricted to the wanted specialists; it fails exactly when a letter or housing context value cannot be converted |
| `PlannerRuns.PlanServesNeeds` | civic_agents/planner.py:173-182 | which need brings in which specialist |
| `PlannerRuns.InputsCarryContext` | civic_agents/planner.py:133-170 | texts and objects of the context reach the inputs under their own names, with the defaults where they are missing |
| `PlannerRuns.InputsConformIff` | civic_agents/planner.py:133-170 | every planned input meets its contract if and only if housing is not wanted or the consent scope is all strings |
| `PlannerRuns.ResultsShape` | civic_agents/planner.py:185-246 | result k belongs to step k; results are missing only behind a failed step of a stopping run |
| `PlannerRuns.RunLeavesReceipts` | civic_agents/planner.py:218-246 | a run adds exactly one record per result, in step order, to a chain the auditor still accepts |
| `PlannerRuns.RunTellsSteps` | civic_agents/planner.py:218-246 | on disk, behind what the log held before, record k says goal, index, specialist and status of step k and fingerprints its input and output |
| `PlannerRuns.ReceiptIs` | civic_agents/planner.py:222-241 | record k of a run is the receipt of step k |
| `PlannerRuns.ReceiptTells` | civic_agents/planner.py:222-233 | the receipt of step k is a `planner_step` record with the goal, index k, the specialist, the status of that step and the first 16 characters of the SHA-256 of its input and output |
| `IsoTime.IsoOrder` | company_discovery/job_queue.py:104-105 | the text order of UTC timestamps is their time order |
| `JobQueue.BackgroundJobQueue.Enqueue` | company_discovery/job_queue.py:211-252 | appends one pending row due at once |
| `JobQueue.BackgroundJobQueue.RegisterHandler` | company_discovery/job_queue.py:195-201 | registers a handler for its kind; an empty kind is refused with nothing changed |
| `JobQueue.BackgroundJobQueue.ClaimOldest` | company_discovery/job_queue.py:353-379 | claims an eligible row than which no eligible one is older, or finds none |
| `JobQueue.BackgroundJobQueue.ReloadAttempt` | company_discovery/job_queue.py:380-386 | the attempt the row shows after the claim |
| `JobQueue.BackgroundJobQueue.Dispatch` | company_discovery/job_queue.py:388-463 | the row after the handler, field by field: completed, dead, waiting 1, 2, 4, ... minutes or the limit for its next attempt, or left running |
| `JobQueue.BackoffIs` | company_discovery/job_queue.py:421-425 | the wait after attempt n is the n-th of 1, 2, 4, ... minutes, or the limit where that is less |
| `JobQueue.BackgroundJobQueue.ResetOrphans` | company_discovery/job_queue.py:179-189 | row by row: running rows become pending without a start time, all others stay |
| `JobQueue.BackgroundJobQueue.Stats` | company_discovery/job_queue.py:267-290 | the snapshot counts the rows of each status, adding up to all rows, and of each kind that occurs |
| `JobQueue.CountsAdd` | company_discovery/job_queue.py:267-290 | each row counts once for its status and once for its kind |
| `JobQueueRuns.QueueSafety` | company_discovery/job_queue.py:179-463 | in every reachable state claims are exclusive and on running rows, `failed` is never entered, the statuses add up to the jobs enqueued, attempts are at most the maximum plus the resets, and total backoff is at most min(2^(m-1) - 1, (m-1) * cap) minutes |
| `JobQueueAttempts.AttemptsExceedIff` | company_discovery/job_queue.py:179-189 | over every run a job ends with more attempts than its maximum if and only if some restart finds it running with none left and it is claimed again later |
| `JobQueueAttempts.BoundIsReached` | company_discovery/job_queue.py:179-189 | for every maximum and every number of resets some run ends with exactly maximum plus resets attempts and the whole backoff budget scheduled |
| `JobQueueAttempts.BackoffIsReached` | company_discovery/job_queue.py:415-438 | under a limit no wait meets some run schedules exactly 2^(m-1) - 1 minutes for m attempts, under one of at most a minute m - 1 times the limit |
| `JobQueueRuns.TerminalForever` | company_discovery/job_queue.py:440-463 | a completed or dead row never changes again |
| `JobQueueRuns.ClaimIsDue` | company_discovery/job_queue.py:353-367 | no job is claimed before it is due |
| `JobQueueRuns.RetryWaits` | company_discovery/job_queue.py:410-438 | after failed attempt n the next claim comes no sooner than 2^(n-1) minutes or the limit, whichever is less, whatever happens in between |
| `JobQueueRuns.WorkIsBounded` | company_discovery/job_queue.py:346-463 | without enqueues and restarts every step of work lowers a measure, so the number of steps is bounded |
| `JobQueueRuns.QueueDrains` | company_discovery/job_queue.py:334-463 | and where no step is left with every job due, every job is completed or dead, provided no worker was lost |
| `JpegStrip.StripJpegExif` | company_discovery/cv_photo.py:74-123 | the scanning loop computes the specified output |
| `JpegStrip.PrintParsed` | company_discovery/cv_photo.py:77-80 | parsing a segment list and printing it gives the input back |
| `JpegStrip.StripsJpeg` | company_discovery/cv_photo.py:74-123 | a well-formed file parses afterwards to its segments without APP1 and APP13, scan included; any other input is unchanged; never longer, idempotent |
| `PngStrip.StripPngMetadata` | company_discovery/cv_photo.py:171-202 | the chunk loop computes the specified output |
| `PngStrip.PrintParsed` | company_discovery/cv_photo.py:171-175 | the chunks read make up the file up to the first IEND |
| `PngStrip.StripsPng` | company_discovery/cv_photo.py:171-202 | a well-formed file keeps exactly the chunks whose name does not start in lower case, in order, and nothing behind IEND; any other input is unchanged; never longer, idempotent |
| `WebpStrip.StripWebpMetadata` | company_discovery/cv_photo.py:126-168 | the chunk loop computes the specified output, or overflows the size field |
| `WebpStrip.ReadsBackIff` | company_discovery/cv_photo.py:155-163 | chunks joined without padding read back as they were if and only if all but the last are even |
| `WebpStrip.StripsWebp` | company_discovery/cv_photo.py:126-168 | what is no WebP or is truncated is unchanged; otherwise the size field overflows exactly from 4 GiB on, or the output is a RIFF container with the right size field that reads back as the kept chunks if and only if these are even but the last, and that a second pass leaves alone if and only if this is so or what follows the first odd chunk, from its second byte on, reads as truncated |
| `WebpStrip.OddChunkLosesNext` | company_discovery/cv_photo.py:160-162 | an odd chunk before an empty one: the output no longer shows the second, and a second pass drops it |
| `WebpStrip.OddAndEmptyExist` | company_discovery/cv_photo.py:160-162 | two such chunks, byte by byte |
| `Base64.RoundTrip` | company_discovery/cv_photo.py:232-247 | the lenient decoder gives back the bytes that were encoded |
| `Base64.TestVectors` | company_discovery/cv_photo.py:232-233 | test vectors of RFC 4648 and the two signs of the alphabet |
| `CvPhoto.NormalisePhotoUpload` | company_discovery/cv_photo.py:205-233 | rejected exactly when empty, too large or of no accepted type; otherwise the data URI of what the stripper of the recognised type returns, from which the size of these bytes is read back |
| `CvPhoto.SizeIsExact` | company_discovery/cv_photo.py:236-247 | the size extracted from a stored photo is the number of bytes stored |
| `CvPhoto.TypeSurvivesStripping` | company_discovery/cv_photo.py:59-202 | stripping keeps a PNG a PNG and a WebP a WebP; a JPEG stays one if and only if a marker remains at its front |
| `CvPhoto.BareApp1IsNoJpeg` | company_discovery/cv_photo.py:74-123 | six bytes accepted as a JPEG and stored as two that are none |
| `Aggregators.Collect` | company_discovery/aggregators.py:1043-1124 | accumulation, merge, outcome ordering and the reports of the completing providers together are the specified lists; report i is the error of task i, if it has one that counts, or its count |
| `Aggregators.OutcomesAreTheirs` | company_discovery/aggregators.py:1115-1123 | with one task per provider asked the outcomes stand in the order of the providers |
| `Aggregators.LastOutcomeCounts` | company_discovery/aggregators.py:1050-1063 | of several outcomes of one provider the last to arrive counts |
| `Aggregators.JobsConcat` | company_discovery/aggregators.py:1064 | the postings of every task are taken in, one task after the other |
| `MergeKeys.SpellingsShareKey` | company_discovery/aggregators.py:1080-1104 | with a path the key is host and path in lower case: scheme, `www.`, trailing slashes, query and fragment do not matter |
| `MergeKeys.PathsShareIff` | company_discovery/aggregators.py:1080-1104 | two addresses with a lower-case scheme and a path share a key if and only if host and path agree up to letter case and trailing slashes |
| `MergeKeys.SlashesAreAPath` | company_discovery/aggregators.py:1089-1104 | with only further slashes behind the host's slash the key is the host with one slash |
| `MergeKeys.QueryIsAPath` | company_discovery/aggregators.py:1089-1104 | a query right behind the host's slash is taken for the path, its mark included, up to the next mark |
| `MergeKeys.NoKeyIff` | company_discovery/aggregators.py:1089-1104 | with a lower-case scheme and a host, the pattern does not match exactly when nothing follows the host's slash or a query with a line break in it |
| `MergeKeys.MatchIff` | company_discovery/aggregators.py:1089-1110 | for every text the pattern matches exactly a lower-case scheme, a non-empty host, a slash and a path that ends; any other text is its own key |
| `MergeKeys.MatchGivesKey` | company_discovery/aggregators.py:1100-1104 | for every address that matches, the key is the host without `www.` and the path up to its end, in lower case, without trailing slashes |
| `MergeKeys.CapitalsDoNotMatch` | company_discovery/aggregators.py:1089 | an address with its scheme in capitals keeps its whole text as its key |
| `MergeKeys.BareHostsShareIff` | company_discovery/aggregators.py:1100-1104 | two spellings of a bare host share a key if and only if their texts are equal |
| `MergeKeys.HostOnly` | company_discovery/aggregators.py:1089 | without a slash behind the host the pattern does not match either |
| `MergeConfluence.MergeListsLongest` | company_discovery/aggregators.py:1088-1124 | for every list the merge returns, for each key it uses once, the first of the longest postings under it |
| `MergeConfluence.MergeConfluent` | company_discovery/aggregators.py:1056-1124 | for every list and every two arrival orders the merged lists are equally long, and survivors with the same URL are equally long, the longest there are |
| `MergeConfluence.MergeDeterministicIff` | company_discovery/aggregators.py:1111-1113 | the merged collection is the same for all arrival orders if and only if no key has two different longest postings |
| `MergeConfluence.ClashOrderShows` | company_discovery/aggregators.py:1105-1113 | a family of lists with a clash and no tie whose merge depends on the order of arrival |
| `MergeConfluence.MergedCountIff` | company_discovery/aggregators.py:1105-1113 | one posting per key and per posting without a URL survive if and only if no URL is a made-up key |
| `MergeConfluence.ClashLosesPosting` | company_discovery/aggregators.py:1105-1110 | two postings of which one is lost |
| `MergeConfluence.OutcomesConfluent` | company_discovery/aggregators.py:1115-1123 | the outcome list does not depend on who completes first |
| `MergeConfluence.FanOutConfluent` | company_discovery/aggregators.py:1043-1124 | the whole fan-out under every order of completion: same outcome list, same reports, equally many postings, longest under every URL, and the very same postings where nothing clashes or ties |
| `SpendCap.EstimateIsNear` | company_discovery/cost_caps.py:182-213 | both halves of an estimate are the price of their tokens rounded to the nearest millionth of a euro, ties to even, each begun four characters counting as one token |
| `SpendCap.Ledger.MonthToDateMicro` | company_discovery/cost_caps.py:244-285 | the loop over the newest events returns the month's recorded cost among them |
| `SpendCap.Ledger.EnforceCap` | company_discovery/cost_caps.py:288-340 | admits exactly the calls that skip the check, or whose prompt fits under the cap with a readable history |
| `SpendCap.Ledger.Dispatch` | company_discovery/analysis.py:797-872 | check, call and record: an admitted call appends its cost record, with provider, mode, month, tokens and price of the call, a refused one at most a refusal note |
| `SpendCapBound.CheckSeesAllIff` | company_discovery/cost_caps.py:262-285 | the check sees the month's whole spend if and only if none of it lies behind the 10,000 newest events |
| `SpendCapBound.SpendIsBounded` | company_discovery/cost_caps.py:288-382 | with at most k checked calls in flight no month's record exceeds cap + c + (k-1)(p+c) plus what was never checked plus what has left the window of newest events, for every interleaving |
| `SpendCapBound.SerialSpendIsBounded` | company_discovery/cost_caps.py:288-382 | serial calls overshoot the cap by one answer at most, but for the same two sums |
| `SpendCapBound.BoundIsReached` | company_discovery/analysis.py:797-872 | for every k and every checked call a run reaches that bound exactly |
| `SpendCapBound.RefusalCostsNothing` | company_discovery/analysis.py:820-840 | a refused call changes no month's spend and is not in flight |
| `SpendCapBound.UncheckedIff` | company_discovery/cost_caps.py:311-316 | a call skips the check if and only if its mode is free or its prompt costs at most half a millionth of a euro |
| `SpendCapBound.UncheckedIsAdmitted` | company_discovery/cost_caps.py:311-316 | such a call is admitted whatever was spent, and its answer is added to the spend |
| `SpendCapBound.FreeModeIsFreeIff` | company_discovery/cost_caps.py:343-382 | a call in a free mode is recorded with no cost if and only if the prices of its prompt and of its answer both round to nothing |
| `SpendCapBound.FreeModeChargesCustomOnly` | company_discovery/ai_providers.py:36-135 | of the provider and mode pairs the settings accept only the custom provider over local HTTP is charged in a free mode |
| `SpendCapBound.FreeModeIsCharged` | company_discovery/ai_providers.py:100-106 | a call the settings accept, in a free mode, that is recorded with a cost |
| `SpendCapBound.OldSpendIsForgotten` | company_discovery/cost_caps.py:264 | 10,000 other events make the check blind to any spend before them |
| `CvHtml.CvMarkdownToHtml` | company_discovery/cv_builder.py:598-648 | the line loop with its list flag computes the specified text, which the rows below read back |
| `CvHtmlReading.LexPrintTokens` | company_discovery/cv_builder.py:566-595 | an HTML reader recovers every printed token: tags, image attributes, escaped characters |
| `CvHtmlReading.InlineIsSpans` | company_discovery/cv_builder.py:585-595 | escaping first and marking bold afterwards prints exactly the bold spans of the unescaped text |
| `CvHtmlReading.OutputIsDocument` | company_discovery/cv_builder.py:598-648 | the loop's list flag groups exactly the maximal runs of list items |
| `CvHtmlReading.WalkDocument` | company_discovery/cv_builder.py:604-648 | every document's tags nest: items only in lists, no list in a list, bold closed where it was opened, images only from image sources |
| `CvHtmlReading.ReadsBack` | company_discovery/cv_builder.py:566-648 | for every Markdown text an HTML reader sees exactly the source's document, text unchanged, well nested; no `<` is anything but a tag of the converter |
| `CvMarkdown.ReadsAsWritten` | company_discovery/cv_builder.py:598-648 | headings, items, images, paragraphs and blank lines written as Markdown lines are what a reader of the HTML sees: each element in order around the text between the white space, lists exactly around the runs of items |
| `CvMarkdown.EveryTextIsWritten` | company_discovery/cv_builder.py:604-645 | every Markdown text is written in such lines |
| `CvMarkdown.SplitMarkdown` | company_discovery/cv_builder.py:604 | splitting takes a text apart where its lines were put together, "\r\n" being one break |
| `CvInline.SpansBold` | company_discovery/cv_builder.py:594 | the first two stars and the next two behind at least one character enclose what is bold |
| `CvInline.SpansPlain` | company_discovery/cv_builder.py:594 | without such pairs nothing is bold |
| `CvInline.PhotoIsShown` | company_discovery/cv_builder.py:566-582 | an image line with a source and a text shows its image if the source is one of an image, else nothing; with its text unless the source ends in what reads like another `alt` |
| `CvInline.StoredPhotoIsShown` | company_discovery/cv_builder.py:440-445 | the line written for a stored photo shows exactly that photo with its text |
| `CityAdjacency.BuildAdjacencyMap` | company_discovery/city_adjacency.py:222-230 | the table answers every key with what a scan of the edge list finds |
| `CityAdjacency.FindNeighbourKeys` | company_discovery/city_adjacency.py:257-273 | the loop computes the specified list of neighbours |
| `CityAdjacency.NeighboursIff` | company_discovery/city_adjacency.py:236-273 | the neighbours are exactly the cities joined by an edge within the time |
| `CityAdjacency.NeighbourHasEdge` | company_discovery/job_index.py:505-526 | every neighbour's minutes and mode are those of an edge within the time that joins it to the city |
| `CityAdjacency.NeighboursSymmetric` | company_discovery/city_adjacency.py:239-243 | being neighbours is symmetric for every time limit, irreflexive, and yields normalised names |
| `JobIndex.Index.UpsertJobs` | company_discovery/job_index.py:320-418 | the table after a batch and the number of rows written |
| `JobIndex.RowsAre` | company_discovery/job_index.py:336-397 | one row for every posting with a URL, in order, with the caller's facets or what the heuristics find in title and description |
| `JobIndex.Index.CountByFacets` | company_discovery/job_index.py:420-452 | counts the live rows that match |
| `JobIndex.Index.CountWithAdjacentCities` | company_discovery/job_index.py:454-533 | the counts of the city and of each neighbour, with minutes and mode of the edge that leads there, and their total |
| `JobIndex.MatchingAreAskedFor` | company_discovery/job_index.py:420-452 | what is counted are the rows not expired, with the facets and in the place asked for |
| `JobIndex.AdjacentAreTold` | company_discovery/job_index.py:505-526 | each neighbour comes with the number of its rows and minutes and mode of an edge that joins it to the city in time |
| `JobIndex.Index.PurgeExpired` | company_discovery/job_index.py:574-582 | removes exactly the rows past their time and returns how many |
| `JobIndex.TotalCountsOnce` | company_discovery/job_index.py:454-533 | with a location given the total counts every live matching row of the city or a neighbour exactly once |
| `JobIndex.IndexRemembers` | company_discovery/job_index.py:398-414 | after any batches and purges a row has the last non-empty facets, the last known date and the last other columns written since it was inserted |
| `JobIndex.PurgeKeepsCounts` | company_discovery/job_index.py:574-582 | a purge changes no count from its own time on |
| `JobIndex.PurgeShowsIff` | company_discovery/job_index.py:398-414 | a purge shows in a later upsert if and only if the purged row had a facet or date the new one lacks |
| `JobIndex.PurgeForgetsRole` | company_discovery/job_index.py:574-582 | an expired row with a role whose posting comes back without one |
| `AuthStore.Accounts.UpdateUserRow` | company_discovery/auth.py:1330-1368 | which of the four errors stops an update, the last active admin being the only one, or every field of the new row and whose sessions end |
| `AuthStore.Accounts.ConfirmTotpEnrollment` | company_discovery/auth.py:866-899 | a right code enables the second factor, stores fresh recovery codes and ends the user's sessions; otherwise nothing changes |
| `AuthStore.Accounts.DisableTotpFor` | company_discovery/auth.py:1308-1328 | the right password disables it, clears the recovery codes and ends the user's sessions; otherwise nothing changes |
| `AuthStore.Accounts.FindSession` | company_discovery/auth.py:686-729 | a user is returned, and both last-seen times set, if and only if the token is known, its user active and its time not over; an expired row is deleted |
| `AuthStore.Accounts.OpenSession` | company_discovery/auth.py:664-684 | a session row for a known user under a fresh token, and nothing else |
| `AuthStore.Accounts.EnsureAdminExists` | company_discovery/auth.py:406-418 | opening a store with users but no active admin promotes an oldest user and changes nothing else |
| `AuthStore.ChangeEndsSessionsIff` | company_discovery/auth.py:1356-1367 | setting the password, a change of role, a deactivation, or a second factor confirmed, disabled or switched off ends the user's sessions if and only if it is not a promotion or a new enrolment of a user with one |
| `AuthStore.PromotionKeepsSession` | company_discovery/auth.py:406-418 | a member with a session, promoted when the store is opened, keeps it |
| `AuthStore.NewEnrolmentKeepsSession` | company_discovery/auth.py:847-864 | an enrolled user with a session who starts another enrolment keeps it, without a second factor |
| `AuthStore.SessionsAreYounger` | company_discovery/auth.py:664-741 | at the end of any run every session was opened after every such change of its user, promotions at opening and new enrolments aside |
| `AuthStore.AdminRemains` | company_discovery/auth.py:1345-1347 | once there is an active admin there is one after every further call |
| `AuthStore.ReopeningFindsAdmin` | company_discovery/auth.py:406-418 | a non-empty store has an active admin once it is opened |

## Left out

- `JobQueueRuns.QueueSafety`: says at most one holder, not exactly one: a handler result that cannot be serialised leaves a running row without holder.
- `MergeConfluence.MergeDeterministicIff`: for lists in which no URL is a made-up key; otherwise it depends on the order of arrival which posting without a URL meets the clash (`ClashOrderShows`). `MergeListsLongest`, `MergeConfluent` and `MergedCountIff` hold for all lists.
- `MergeConfluence.FanOutConfluent`: the events that start and end the stream and the write-through to the index are not part of this model.
- `SpendCapBound.SpendIsBounded`: speaks of recorded spend; a record whose write fails is swallowed by the code and is not in it.
- `CityAdjacency.NeighboursIff`: assumes of the curated edge list that its names are normalised and no edge is a loop; the list itself is not part of this model.
- `AuthStore.SessionsAreYounger`: for calls one after another; the store's methods check and act in separate statements on connections of their own. Sign-on providers, use of recovery codes, mail verification, referrals and account deletion are not part of this model.
- `AuditEmitter.AuditLogEmitter.Emit`: the hash of identifiers is an unknown function; the convenience wrappers around it are left out.
- `Planner.Execute`: what a failed validation reports and the text for a missing handler are unknown functions. Handlers that write to the audit log or change their input are left out.
- What some reasons of the auditor end with: the schema version found, the text of the exception.
- Permission errors while scanning or anchoring: a file is missing or readable. How many lines a reader yields before it meets bytes that are no UTF-8 is taken to be all lines before them.
- Anchor metadata and its upload to a transparency log (`company_discovery/audit_anchor.py:84-127, 271-290`).
- Thread pool, polling and shutdown of the queue; a second process on the same database; job ids (a row's index stands for its id).
- A negative backoff limit, with which retries would be due in the past.
- The flags byte of VP8X.
- Lower-casing outside ASCII in the merge key; the aggregator cache.
- Word boundaries next to letters outside ASCII in the image pattern of the CV converter; assembling the Markdown.
- The empty user id, for which the month's total is always zero; `_dispatch_provider_streaming`, whose check and record are the same.
- Unicode folding and aliases behind `_norm_location` and the seniority and language heuristics: unknown functions here.
- Prompts, AI providers, HTTP, SQL text, encryption, mail, exports and metrics.
