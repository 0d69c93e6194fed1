# A verified model of Monolith

This Dafny project models the stateful core of Monolith and proves what its parts promise together: the event outbox of
the MCP shield, its baseline trust store and tools/list enforcement, the request correlation and the stream framing of
its transports, the dashboard's circuit breaker, triage trail, signed evidence and live fan-out, and the redaction of
matched spans. `dafny verify dfyconfig.toml` checks all of it.

The model has the form of the code. Code that changes files, maps, queues or buffers is a class or a method with loops,
and each such method is proved equal to a function of the old state. The theorems are about those functions, over every
run: a run is a sequence of steps of a small state machine whose steps are the atomic sections of the programs (what runs
under one lock, or between two awaits), interleaved in any order.

| files | what they model |
|---|---|
| `Wrappers`, `Text`, `Encoding` | option and result values, trimming, UTF-8 |
| `Json`, `JsonParse`, `PrettyJson`, `Canonical`, `Evidence` | JSON printed, pretty-printed and parsed, canonical JSON, signed evidence bundles |
| `Spool`, `SpoolFile`, `Outbox`, `OutboxSizes`, `OutboxProtocol`, `OutboxDelivery`, `OutboxBounds`, `OutboxRules` | the durable outbox and its protocol |
| `Names`, `Baseline`, `BaselineSize`, `Enforcement`, `ToolsList`, `Vouching`, `ExchangeFacts`, `EnforcementRules`, `EnforcementReports`, `TrustRuns`, `TrustApproval`, `TrustLimits`, `TrustSize` | the trust store, one tools/list exchange, and runs of proxies and operators over one file |
| `Correlation` | matching responses to tools/list requests across the two forwarding tasks |
| `LineReader`, `LineReading`, `SseStream`, `SseWriting` | framing under every division of the input |
| `Breaker`, `BreakerRuns`, `BreakerEvidence` | the circuit breaker in memory and in SQL |
| `Triage` | validation of transitions and the append-only trail |
| `Recent`, `Fanout`, `FanoutRuns`, `LiveListener`, `FanoutReach`, `FanoutSite`, `FanoutBroker`, `FanoutTenants` | the event broker, the event streams and the database listener |
| `Redaction` | splicing placeholders over matches |

## Where the code differs from what is expected of it

Each of these is a lemma below, with the input that fails and the exact condition under which the property holds.

- A reconcile rewrites the spool even when the dead-letter append failed, so a rejected event can vanish
  (`FailedDeadWriteLoses`). Nothing is lost exactly when every spooled record it dead-letters is accounted for elsewhere
  (`FailedDeadWriteConserves`); for the process at work it is enough that they are in the dead-letter file
  (`FailedDeadWriteIsHarmless`).
- The replay projection measures records as they were. A record without a creation time grows when it is rewritten, and
  can then be evicted by the bound (`UndatedReplayLoses`, `ReplayAppendsExactly`).
- Enqueueing applies the bound only when the bytes overflow, so it can leave more than 10,000 records
  (`EnqueuesPassTheRecordCap`, `EnqueueKeepsTheRecordCap`); the next compaction restores both caps
  (`CompactionRestoresTheCaps`).
- Saving checks none of the limits that load checks. A proxy measures a tool name after trimming it, and load measures it
  raw: a padded name passes inspection, and once it is registered or parked the saved file no longer loads
  (`PaddedNameStopsLoading`, `PaddedNameIsStoredWhen`). Nothing but load measures the file: a proxy that registers tools
  from seventeen lists of a million characters each, every one within the line limit (`LongLine`), has written a file of
  more than 16 MiB that no longer loads (`LongStoreStopsLoading`). A saved store loads exactly when its file is within
  the limits on length, counts and names (`SavedStoreLoads`), and so does one after an approval
  (`ApprovedFileLoads`).
- Operator commands load before they take the lock, so of two that overlap one can drop the other's revocation
  (`OverlappingApproveDropsRevocation`). One drops none but that of the name it approves exactly when it had loaded every
  other that is on disk by the time it writes (`OperatorDropsNoOther`).
- A merge unions revocations: a proxy with unsaved state that still holds a revocation puts it back on disk after an
  operator approved the tool (`UnsavedRevocationReturns`, `ExchangeRevocations`).
- Approving after a revocation restores the earlier trust exactly when no other schema was waiting
  (`ApproveTakesTheOtherSchema`, `ApproveUndoesRevoke`).
- Evidence: an array of one undefined item prints as the empty array (`UndefinedItemCollides`), and a value is told apart
  by its text exactly when no array in it holds an undefined item (`DecidesExactlyWithoutHoles`).
- Circuit breaker: restoring a session that is not revoked forgets its evidence in memory and not in SQL
  (`NeedlessRestoreRun`), and a redelivered event that a restore settled counts again in memory and not in SQL
  (`RedeliveryRun`). The two go on deciding alike exactly while they count the same (`UnalikeAreParted`), and each kind
  of step keeps that exactly under a condition on the step (`IngestKeepsAlike`, `RestoreKeepsAlike`).
- The bridge reads a line inside `select!`; when the other branch wins, what the dropped read had taken is lost
  (`AbandonedReadCutsTheLine`). The next read gives the same exactly when it had taken nothing, or only the carriage
  return of an empty line, or what it left of an over-long line is still too long (`AbandonedReadIsHarmlessWhen`). So an
  over-long line can be accepted by its tail, and an unterminated last line can vanish. A line of blanks, which the
  bridge passes over, is passed over either way.
- An event stream may end the lines of one event with LF and others with CRLF, and the WHATWG HTML standard (section
  9.2.6) ends the event at the blank line either way. Here a blank CRLF after LF is no boundary, and a blank LF after
  CRLF leaves the carriage return in the data (`MixedEndsAreMisread`). The event is read as written exactly when both
  ends are of one kind, or the line before is CRLF and no data (`ClosedEventIsReadWhen`).
- Of two overlapping matches redaction applies one, and the rest of the other stays in clear (`OverlapStaysInClear`, `WhatIsNotCoveredStays`); an
  empty match given before one that starts where it stands has the same effect (`EmptyMatchShadows`). All are applied
  exactly when the matches are disjoint in that sense (`AllMatchesAreApplied`).

## Model

| member | source | states |
|---|---|---|
| OutboxProtocol.NothingIsLost | mcp-shield/src/outbox.rs:331-587 | Over every interleaving of enqueues, snapshots, posts, reconciles (whose spool write may fail), replays (with or without a crash between their two writes) and stopped drains, every enqueued event is spooled, dead-lettered, acknowledged or evicted by the bound; every record on disk is a copy of an enqueued event; spooled records have fewer than 10 attempts; the spool stays within its byte cap and the dead-letter file within both caps. Dead-letter appends succeed. |
| OutboxProtocol.UndeliveredEventsKeepTheirPayload | mcp-shield/src/outbox.rs:469-587 | An event neither acknowledged nor evicted is on disk under the payload it was enqueued with. |
| OutboxProtocol.AckedMeansDelivered | mcp-shield/src/outbox.rs:487-523 | An event becomes acknowledged only by a 2xx answer to a post of a record that is a copy of it. |
| OutboxProtocol.ReconcileResurrectsNothing | mcp-shield/src/outbox.rs:550-587 | However stale its snapshot, a reconcile leaves each event id in the spool at most as often as the re-read file had it: nothing another drainer removed comes back. |
| OutboxProtocol.FailedDeadWriteConserves | mcp-shield/src/outbox.rs:566-586 | When the dead-letter append fails and the spool write does not, conservation survives exactly when every record to be dead-lettered is accounted for elsewhere. |
| OutboxProtocol.FailedDeadWriteIsHarmless | mcp-shield/src/outbox.rs:576-586 | What the process can check: no loss when every spooled record it dead-letters is in the dead-letter file already. |
| OutboxProtocol.FailedDeadWriteLoses | mcp-shield/src/outbox.rs:576-586 | A run of four steps after which an enqueued event is nowhere. |
| OutboxProtocol.PostNextSound | mcp-shield/src/outbox.rs:487-523 | One turn of the drain loop keeps what is known of its three sets: delivered ids are acknowledged, deferred records are retryable copies, dead ones are copies. |
| OutboxDelivery.PassProgress | mcp-shield/src/outbox.rs:469-535 | After a complete forced pass of a lone drainer, whatever is left was there before under the same id and payload, with one attempt more; and every record that was there is acknowledged, dead-lettered, evicted by the bound, or left in that way. |
| OutboxDelivery.TenPassesEmptyTheSpool | mcp-shield/src/outbox.rs:180-193 | Ten complete forced passes with no enqueue or replay between them empty the spool, from any reachable state. |
| OutboxBounds.EnqueueKeepsTheRecordCap | mcp-shield/src/outbox.rs:675-691 | An enqueue leaves at most 10,000 records exactly when there was room for one more or the bytes overflowed. |
| OutboxBounds.EnqueuesPassTheRecordCap | mcp-shield/src/outbox.rs:675-691 | A run of small enqueues, 10,001 or more, that leaves them all in the spool. |
| OutboxBounds.CompactionRestoresTheCaps | mcp-shield/src/outbox.rs:566-586 | Whatever the spool was, a reconcile that writes it and a replay that is accepted leave it within both caps. |
| Outbox.Files.Enqueue | mcp-shield/src/outbox.rs:331-352 | The spool with one fresh record appended, cut from the front only if the byte cap demands it. |
| Outbox.Files.Post | mcp-shield/src/outbox.rs:469-535 | The posting loop computes the sets of delivered, deferred and dead records that the specification assigns to the answers received, and stops where they run out. |
| Outbox.Files.Reconcile | mcp-shield/src/outbox.rs:550-587 | The re-read spool minus what was delivered or dead-lettered, with deferred records updated in place, then bounded; a failed dead write does not stop the spool write. |
| Outbox.Files.Replay | mcp-shield/src/outbox.rs:354-417 | Either nothing selected, or a refusal with both files unchanged, or exactly the selected tenant's records reset and appended, and gone from the dead file unless a crash came between the writes. |
| OutboxSizes.ReplayAppendsExactly | mcp-shield/src/outbox.rs:354-417 | A replay that is not refused evicts nothing exactly when the rewritten records fit, which they always do when they are dated. |
| OutboxSizes.UndatedReplayLoses | mcp-shield/src/outbox.rs:354-417 | An undated record that passes the projection and is dropped by the bound. |
| OutboxRules.DrainLearnsWhatIsDue | mcp-shield/src/outbox.rs:487-523 | A drain with an answer for every record learns an id exactly when some record of it has its next attempt time behind the start of the drain, or the drain is forced; the id is delivered exactly when such a record was answered in the two hundreds. |
| OutboxRules.DrainOutcomes | mcp-shield/src/outbox.rs:487-523 | Whatever is deferred is some posted record that failed with attempts left, with one attempt more; whatever is dead-lettered is some posted record that was answered 400, 401, 403, 413 or 422, or failed for the tenth time. |
| OutboxRules.DeferRetries | mcp-shield/src/outbox.rs:180-193 | A failed record keeps its id, payload and date, gets the reason, and waits 2, 4, 8 up to 256 seconds and less than one more. |
| OutboxRules.NotDueIsUntouched | mcp-shield/src/outbox.rs:487-587 | A record that is not due keeps every field through the reconcile of that drain; only the bound can drop it. |
| OutboxRules.EnqueuedIsDelivered | mcp-shield/src/outbox.rs:331-523 | An enqueued event that fits the spool by itself is due at once: the next drain delivers it if the server takes it, whatever else is spooled. |
| OutboxRules.ReplaySelects | mcp-shield/src/outbox.rs:628-637 | A replay for one tenant selects a printed object exactly when its tenant_id is that tenant, white space aside, and a proper name of at most 128 bytes; a replay for all selects everything. |
| OutboxRules.UnreadableIsNobodys | mcp-shield/src/outbox.rs:621-637 | A payload that is no JSON text is selected for no tenant. |
| OutboxRules.ReplayIsRefusedWhen | mcp-shield/src/outbox.rs:373-392 | A replay is refused exactly when more than 10,000 records or 16 MiB would result, measured as the records stand. |
| OutboxRules.ReplayedStartsAfresh | mcp-shield/src/outbox.rs:354-417 | With room, a selected dated record is in the spool with its id, payload and date, no attempt, no error, due at once; what is not selected stays dead-lettered. |
| Spool.EnforceSpoolBounds | mcp-shield/src/outbox.rs:640-664 | Keeps the longest suffix that meets both caps and returns how many were dropped: every longer suffix breaks a cap. |
| Spool.BoundedLongest | mcp-shield/src/outbox.rs:640-664 | The specification of the bound is maximal: no suffix starting earlier fits. |
| SpoolFile.Read | mcp-shield/src/outbox.rs:716-736 | The line loop computes the record sequence of the text, passing over lines that are not records. |
| SpoolFile.Write | mcp-shield/src/outbox.rs:738-761 | One line of JSON per record. |
| SpoolFile.FilesRoundTrip | mcp-shield/src/outbox.rs:716-761 | Reading back what was written gives the same records in the same order, through JSON printing, escaping and parsing. |
| SpoolFile.AppendAddsOne | mcp-shield/src/outbox.rs:666-673 | Appending a line to any newline-terminated file adds exactly that record to what the file reads as. |
| SpoolFile.CutFileReadsAsPrefix | mcp-shield/src/outbox.rs:716-736 | A written file cut at any character reads back as exactly the records whose text is still whole, which are a prefix. |
| SpoolFile.FileBytes | mcp-shield/src/outbox.rs:675-691 | The length of the file the append path measures is the total the bound is computed from. |
| Json.PrintInjective | mcp-shield/src/fingerprint.rs:49-71 | Distinct JSON values never print alike. |
| JsonParse.ParsePrint | mcp-shield/src/outbox.rs:716-736 | Parsing inverts printing for every value within the recursion limit. |
| JsonParse.CutObjectDoesNotParse | mcp-shield/src/outbox.rs:716-736 | No proper prefix of a printed object parses. |
| Canonical.CanonicalizeDecidesSame | mcp-shield/src/fingerprint.rs:49-71 | Canonical text is equal exactly when the values are equal up to member order at every level, for the Rust byte order and for the JavaScript code-unit order. |
| Evidence.CanonicalizeJsonIsCanonical | dashboard/lib/incident-store.ts:867-880 | The dashboard's printer, which drops undefined members and prints non-finite numbers as null, gives the canonical text of the JSON value. |
| Evidence.CanonicalizeJsonDecides | dashboard/lib/incident-store.ts:867-880 | Two dashboard values print alike exactly when they are the same JSON value up to member order and undefined members. |
| Evidence.UndefinedItemCollides | dashboard/lib/incident-store.ts:867-880 | The smallest exception: an array of one undefined item against the empty array. |
| Evidence.DecidesExactlyWithoutHoles | dashboard/lib/incident-store.ts:867-880 | For every JavaScript value: its text tells it apart from every proper JSON value, up to member order and undefined members, exactly when no array anywhere in it holds an undefined item. |
| Evidence.ExportedBundleVerifies | dashboard/lib/incident-store.ts:882-965 | An exported bundle is intact exactly when the body read back is the signed one up to member order and undefined members, and authenticated exactly when it is also checked with the usable key it was signed with. |
| Evidence.AuthenticatedExactlyWhenSigned | dashboard/lib/incident-store.ts:926-965 | Whatever integrity block arrives, it authenticates a body exactly when the key is usable and the block is the one signed over that body with that key. |
| Evidence.AuthenticatedMeansSigned | dashboard/lib/incident-store.ts:926-965 | One block authenticates two bodies exactly when they are the same up to member order and undefined members. |
| Baseline.BaselineStore.Open | mcp-shield/src/fingerprint.rs:267-400 | A store is loaded only from an absent file or one whose limits hold and whose every entry is authentic. |
| Baseline.BaselineStore.ReloadIfChanged | mcp-shield/src/fingerprint.rs:402-486 | Nothing for an unchanged file, failure without change for one that does not load, replacement when clean, merge when dirty. |
| Baseline.BaselineStore.MergeWith | mcp-shield/src/fingerprint.rs:435-484 | Disk entries win by name, revocations are united, unsaved guesses survive only under names the file lacks. |
| Baseline.BaselineStore.CheckTool | mcp-shield/src/fingerprint.rs:596-627 | A mismatch never overwrites; only a name never seen is registered. |
| Baseline.BaselineStore.RegisterPending | mcp-shield/src/fingerprint.rs:505-529 | Parks a changed schema once and leaves trusted entries alone. |
| Baseline.BaselineStore.ApproveTool | mcp-shield/src/fingerprint.rs:531-548 | Moves exactly the named pending entry into trust and lifts its revocation. |
| Baseline.BaselineStore.RevokeTool | mcp-shield/src/fingerprint.rs:577-594 | Moves exactly the named trusted entry to pending, unless one waits there, and records the revocation. |
| Baseline.BaselineStore.SaveIfDirty | mcp-shield/src/fingerprint.rs:630-715 | Writes only when dirty; a failed write changes neither the file nor the store. |
| Baseline.MergeSound | mcp-shield/src/fingerprint.rs:435-484 | A merge keeps every entry authentic, guesses tracked, and every revocation of either side. |
| Baseline.ApproveUndoesRevoke | mcp-shield/src/fingerprint.rs:531-594 | Approving after revoking restores the trusted entries exactly when no other schema was pending under the name. |
| Baseline.ApproveTakesTheOtherSchema | mcp-shield/src/fingerprint.rs:531-594 | Where another was pending, that one is trusted instead. |
| Baseline.SavedStoreLoads | mcp-shield/src/fingerprint.rs:267-400 | A saved store loads back as itself exactly when its pretty-printed file is at most 16 MiB long and within the limits on counts and names that load checks. |
| TrustApproval.ApprovalTrustsTheParkedTool | mcp-shield/src/main.rs:107-131 | For every file that loads and every name pending in it, revoked or not: load, approve and save leave exactly that entry trusted under the name, no longer pending and not revoked, and every other name as it was. |
| TrustApproval.RevocationParksTheTrustedTool | mcp-shield/src/main.rs:133-156 | Revoking leaves the name untrusted and revoked, its entry pending unless another was, and every other name as it was. |
| TrustApproval.NothingToDecide | mcp-shield/src/main.rs:107-156 | A command about a name the file does not hold for it, or over a file that does not load, leaves the file alone. |
| TrustApproval.ApprovedFileLoads | mcp-shield/src/fingerprint.rs:531-548 | The file an approval writes loads exactly when it is at most 16 MiB long and has at most 10,000 trusted tools: authentication never stands in the way. |
| TrustApproval.TrustIsSticky | mcp-shield/src/fingerprint.rs:402-486 | Over every run whose reloads succeed, in which no write falls inside an operator command and no command is about the name: a trusted entry on disk stays as it is. |
| TrustApproval.ApprovedToolIsHandedOut | mcp-shield/src/proxy.rs:1333-1808 | After an approval and any such run, an exchange that advertises the tool as it was parked, at a proper place, clean and not secret, hands it out with no withholding event, unless the name is revoked on disk or in what the proxy has not saved. |
| TrustApproval.UnsavedWorkReachesTheDisk | mcp-shield/src/fingerprint.rs:435-484 | The next successful save of a proxy with unsaved work puts on disk every entry it registered and every one it parked under names the file lacks, and keeps what waited in a changed file. |
| BaselineSize.FileBytesInAnyOrder | mcp-shield/src/fingerprint.rs:666-677 | The length of the pretty-printed file does not depend on the order in which its maps and its set are written. |
| TrustSize.LongStoreStopsLoading | mcp-shield/src/fingerprint.rs:666-709 | For every number of registered tools and length of description whose product exceeds 16 MiB: a run after which the file is within the limits on counts and names, and no longer loads. |
| TrustSize.LongLine | mcp-shield/src/fingerprint.rs:267-275 | Each list of that run prints in at most 300 bytes more than its description. |
| Enforcement.InspectToolEntries | mcp-shield/src/proxy.rs:1229-1313 | The two loops give each tool the defect the specification assigns it, duplicates counted on trimmed names. |
| ToolsList.InspectAll | mcp-shield/src/proxy.rs:1440-1779 | The loop over advertised tools computes the specified store, list, withheld places and held-back events. |
| ToolsList.AnalyzeToolsList | mcp-shield/src/proxy.rs:1333-1808 | The whole locked exchange on the mutable store: reload, inspection, save, response and ledger as specified. |
| Vouching.AnalyzeDelivers | mcp-shield/src/proxy.rs:1440-1779 | For every list: each place not withheld holds the advertised tool or the trusted one of its name, in enforce mode bound to the trusted hash; no trusted entry changes and no revocation goes. |
| Vouching.AnalyzeReportsTruly | mcp-shield/src/proxy.rs:1431-1735 | Each held-back event claims an enforcement exactly when its place was withheld or changed, and every such place is reported, but for tools the secret boundary answers itself. |
| ExchangeFacts.RebuildReplacesTools | mcp-shield/src/proxy.rs:1815-1830 | The rebuilt response carries the new tools and leaves every other member as it was. |
| ExchangeFacts.AnalysedExchange | mcp-shield/src/proxy.rs:1333-1808 | The line the agent receives lists exactly the delivered tools in order, then the boundary's own; every ledger event is true of that line, and no withheld or changed place goes unreported, but for tools the secret boundary answers itself. |
| ExchangeFacts.FailedExchangeClaimsNothing | mcp-shield/src/proxy.rs:1192-1201 | On every error path the server's own result is forwarded and no event claims otherwise. |
| EnforcementRules.ExchangeHandsOut | mcp-shield/src/proxy.rs:1440-1808 | Place by place, from the advertised list and the reloaded store alone: what the agent receives is, in order, each tool or the trusted one in its place, but for those that are improper, secret, revoked, awaiting approval, or suspicious in enforce mode without a trusted replacement; and no event withholds any other. |
| EnforcementRules.ProperIs | mcp-shield/src/proxy.rs:1229-1313 | A tool is vouched for exactly when it is an object with a name of at most 128 bytes that no other tool claims, and a description, if any, that is text. |
| EnforcementRules.TrustedToolIsHandedOut | mcp-shield/src/proxy.rs:1602-1725 | A proper tool that is trusted as advertised, clean, and neither secret nor revoked is handed out itself, in either mode, and no event says it was withheld. |
| EnforcementRules.FirstSightIsHandedOut | mcp-shield/src/proxy.rs:1521-1725 | So is a clean first sighting where first sightings are trusted. |
| EnforcementRules.MonitorHandsOut | mcp-shield/src/proxy.rs:1602-1725 | In monitor mode every proper tool past the first-contact gate is handed out as advertised, changed or suspicious or not. |
| EnforcementRules.ChangedToolIsRestored | mcp-shield/src/proxy.rs:1621-1687 | In enforce mode a trusted tool that was changed is handed out as it was trusted. |
| EnforcementRules.PlaceStores | mcp-shield/src/proxy.rs:1521-1640 | A proper tool that is let in and unknown is registered, one awaiting approval is parked the first time, with its own fingerprint and description; nothing else changes under its name. |
| EnforcementReports.ExchangeReports | mcp-shield/src/proxy.rs:1440-1735 | In either mode the ledger holds an event of a kind and an action about a place exactly when the list and the reloaded store call for it: a changed schema and a suspicious description are reported even where nothing is enforced. |
| EnforcementReports.AnalysedWhen | mcp-shield/src/proxy.rs:1333-1808 | A list is analysed to its end exactly when no fingerprint fails that deciding on a tool needs. |
| TrustRuns.TrustMeansOnDisk | mcp-shield/src/fingerprint.rs:249-251 | Over every run of proxies and operators: a name counts as contained only if an entry for it has been on disk; guesses are among the tools, and exist only while the store is dirty. |
| TrustRuns.ExchangeKeepsDisk | mcp-shield/src/fingerprint.rs:402-486 | With the reload succeeding, an exchange changes no trusted entry on disk and drops no revocation. |
| TrustRuns.ExchangeRevocations | mcp-shield/src/fingerprint.rs:402-484 | After an exchange a name is revoked in the store exactly when the file had it so, or there was a file and an unsaved store had it so; and on disk exactly when the file had it so, or that and the save succeeded. |
| TrustLimits.UnsavedRevocationReturns | mcp-shield/src/fingerprint.rs:435-484 | A run from nothing: registration, revocation, a registration that cannot be saved, approval, and an exchange about no tool after which the revocation is on disk again. |
| TrustRuns.RevocationIsSticky | mcp-shield/src/proxy.rs:1355-1422 | Once on disk a revocation stays, and every analysed list of any proxy in either mode withholds the tool, until it is approved or the file deleted; reloads succeed and no write falls inside an operator command. |
| TrustRuns.EnforcedRunsHandOutTrustedTools | mcp-shield/src/proxy.rs:1440-1779 | In every run from nothing whose exchanges all enforce, each backend tool handed to an agent has the trusted fingerprint for its name and a description the sanitizer passes, and no name occurs twice. |
| TrustLimits.OperatorRevocations | mcp-shield/src/main.rs:107-156 | What a writing command leaves revoked on disk is what it had loaded, changed by itself. |
| TrustLimits.OperatorDropsNoOther | mcp-shield/src/main.rs:117-121 | A writing command drops no revocation but that of the name it approves exactly when it had loaded every other that is on disk when it writes. |
| TrustLimits.OverlappingApproveDropsRevocation | mcp-shield/src/main.rs:117-121 | Two overlapping commands after which a revocation is off the disk. |
| TrustLimits.PaddedNameStopsLoading | mcp-shield/src/proxy.rs:1229-1313 | For every policy, store and sufficient padding: the tool passes inspection, and if deciding on it changes the store the file saved from it no longer loads. |
| TrustLimits.PaddedNameIsStoredWhen | mcp-shield/src/proxy.rs:1521-1600 | Deciding on it changes the store exactly when it is neither secret, revoked nor blocked, and is not known yet. |
| Correlation.IdKeyInjective | mcp-shield/src/jsonrpc.rs:72-90 | Two usable ids with one key are one id. |
| Correlation.PendingQueue.TrackPending | mcp-shield/src/proxy.rs:884-892 | The id moves or goes to the back, and past the cap the front is evicted and returned. |
| Correlation.PendingQueue.TakePending | mcp-shield/src/proxy.rs:894-900 | Exactly that id is removed, and whether it was there is returned. |
| Correlation.TrackKeeps | mcp-shield/src/proxy.rs:884-892 | Tracking another id keeps this one until as many distinct ids as the cap are behind it. |
| Correlation.RunKeeps | mcp-shield/src/proxy.rs:682-753 | In every interleaving of the two tasks the queue is duplicate-free and within 1,024, and a request reaches the server only after its id was recorded. |
| Correlation.FirstResponseIsAnalysed | mcp-shield/src/proxy.rs:801-840 | In every interleaving the first 2.0 response with a result or an error to a 2.0 tools/list request, whose id is any number or a string of at most 256 bytes, is analysed, unless 1,024 other ids were asked for meanwhile. |
| Correlation.OnlyRequestedIsAnalysed | mcp-shield/src/proxy.rs:801-840 | And only such: what is analysed has the very id of a tools/list request that the agent side had read and that no response since had answered. |
| Correlation.KeyIsId | mcp-shield/src/jsonrpc.rs:72-90 | Between parsed messages, keys are equal exactly when ids are. |
| LineReader.ReadBoundedLine | mcp-shield/src/http_transport.rs:109-144 | For every division of the input: the text of the next line of the whole, end of input, or failure exactly when the line with its terminator exceeds the limit or is not UTF-8; never more than the limit is taken. |
| LineReader.ReadMessages | mcp-shield/src/http_transport.rs:74-89 | The loop over standard input hands on the messages of the whole input, passing over blank lines, up to the first line that fails it. |
| LineReader.ReadingFails | mcp-shield/src/http_transport.rs:74-89 | It fails exactly when some line is too long, is not UTF-8, or is neither blank nor a message. |
| LineReading.ReadingHandsOn | mcp-shield/src/http_transport.rs:74-89 | The texts handed on are, in order and each from its own line, exactly the texts that are not blank of the lines before the first that is too long, not UTF-8 or no message; and the failure says which of the three it was. |
| LineReader.SegmentsAre | mcp-shield/src/http_transport.rs:109-144 | The segments behind those results are the only division of the input into lines. |
| LineReader.WrittenLinesAreRead | mcp-shield/src/http_transport.rs:132-138 | Lines written with either line end read back as themselves. |
| LineReader.AbandonedReadCutsTheLine | mcp-shield/src/http_transport.rs:75-95 | After a read is dropped midway, the tail of its line is read as a line and the rest is lost. |
| LineReader.AbandonedReadIsHarmlessWhen | mcp-shield/src/http_transport.rs:75-95 | For everything a dropped read may have taken: the next read gives the same exactly when that was nothing, or only the carriage return of an empty line, or what it left is too long as well. |
| Encoding.DecodeInvertsEncode | mcp-shield/src/http_transport.rs:141-143 | Bytes are text exactly when they are the UTF-8 encoding of it. |
| Encoding.CutIsTextWhen | mcp-shield/src/http_transport.rs:229-232 | The first bytes of a text are text by themselves exactly when they end at a character boundary. |
| SseStream.NextEventIsTheBoundary | mcp-shield/src/http_transport.rs:393-401 | The boundary found is the first place where either separator stands, and there is none exactly when nothing is found. |
| SseStream.BoundaryStands | mcp-shield/src/http_transport.rs:393-401 | A boundary found in a prefix is the boundary of the whole, whatever follows. |
| SseStream.EventsInPieces | mcp-shield/src/http_transport.rs:227-250 | Splitting a prefix and then its tail with the rest gives the events and the tail of the whole. |
| SseStream.Consume | mcp-shield/src/http_transport.rs:219-255 | For every division into chunks: a size failure exactly when some chunk that arrives while the stream is open overflows the limit beside what is pending, a text failure exactly when the first to fail is not UTF-8 by itself, and otherwise what the undivided text emits and how it ends. |
| SseStream.ChunksOfText | mcp-shield/src/http_transport.rs:229-232 | Chunks that are text by themselves hold the bytes of a text exactly when their texts join to it, so no division at character boundaries changes what is read. |
| SseStream.SmallStreamsNeverOverflow | mcp-shield/src/http_transport.rs:318-323 | A stream within the limit as a whole never overflows. |
| SseWriting.EventGivesItsData | mcp-shield/src/http_transport.rs:403-410 | For an event of any data lines, other fields and comments, each ended by LF or CRLF, with or without the space after the colon: the data is the join of the values in order, and there is none exactly when there is no data line. |
| SseWriting.JoinSplits | mcp-shield/src/http_transport.rs:403-410 | Splitting the data at its line feeds gives the values back. |
| SseWriting.WrittenEventsAreRead | mcp-shield/src/http_transport.rs:393-410 | A stream of such events is read as those events, with nothing left over. |
| SseWriting.ProcessHandsOn | mcp-shield/src/http_transport.rs:233-250 | Of the data of any events, all is handed on while the stream stays open, up to the first answer if there is one, and up to the first refused if one comes before. |
| SseWriting.WrittenMessagesAreRead | mcp-shield/src/http_transport.rs:219-255 | So the messages of a stream of such events are handed on in order and as written, up to the answer or the first that is refused. |
| SseWriting.ClosedEventIsReadWhen | mcp-shield/src/http_transport.rs:393-401 | An event whose blank line may be of either kind is read as written exactly when its last line ends alike, or ends with CRLF and is not data. |
| SseWriting.MixedEndsAreMisread | mcp-shield/src/http_transport.rs:393-410 | One message lost, and one with a carriage return added, by a blank line of the other kind. |
| Breaker.MemoryBreaker.Evaluate | dashboard/lib/incident-store.ts:609-694 | The loops over batch, index and candidates revoke exactly the candidates whose running set and unsettled events show enough layers, in whatever order they are judged. |
| Breaker.MemoryBreaker.Restore | dashboard/lib/incident-store.ts:571-594 | Lifts the revocation, forgets the running set and sets the watermark. |
| Breaker.MemoryBreaker.Revoke | dashboard/lib/incident-store.ts:479-528 | Records the revocation and drops the watermark. |
| Breaker.LayersFromIndex | dashboard/lib/incident-store.ts:646-668 | Counting through the index built once gives what a scan of all events gives. |
| BreakerRuns.RunsAgree | dashboard/lib/incident-store.ts:609-737 | Over every run with an advancing clock whose steps meet the condition below, the memory breaker has revoked exactly the sessions SQL has. |
| BreakerRuns.RestoreKeepsAlike | dashboard/lib/incident-store.ts:571-607 | A restore keeps the two alike exactly when the session was revoked or has no unsettled evidence. |
| BreakerRuns.IngestKeepsAlike | dashboard/lib/incident-store.ts:625-737 | An ingest keeps the two alike, in what they revoke and in what they count for every other session, exactly when redelivered events bring no layer to a session beyond its unsettled evidence, unless that evidence trips the breaker by itself. |
| BreakerRuns.UnalikeAreParted | dashboard/lib/incident-store.ts:645-737 | Where the two have revoked the same but do not count the same, some ingest of new events makes one revoke a session and the other not: being alike is exactly what deciding alike from then on takes. |
| BreakerRuns.OnlyLaterEvidenceTripsAgain | dashboard/lib/incident-store.ts:571-594 | From the restore of a revoked session to its next, over every possible run, SQL revokes it exactly when an operator does or qualifying evidence received later, refusals excepted, comes from enough layers; in runs that keep the two alike so does memory. |
| BreakerRuns.RevokedWithoutRestores | dashboard/lib/incident-store.ts:609-694 | Without restores the sessions revoked in memory are those revoked in SQL: the ones operators named and those whose evidence shows enough layers. |
| BreakerRuns.OrderAndBatchingDoNotMatter | dashboard/lib/incident-store.ts:609-694 | Two such runs with the same evidence and the same operator revocations end with the same revoked sessions. |
| BreakerEvidence.NoiseChangesNothing | dashboard/lib/incident-store.ts:609-737 | Taking every session_quarantined event, and every event of a severity that does not count, out of a run changes no revocation in memory or in SQL, nor anything else that either remembers. |
| BreakerRuns.NeedlessRestorePartsThem | dashboard/lib/incident-store.ts:583-606 | At two layers, in every state with unsettled evidence: a needless restore and an alarm of a new layer, after which SQL has revoked the session and memory has not. |
| BreakerRuns.NeedlessRestoreRun | dashboard/lib/incident-store.ts:583-606 | The same as a run from the start. |
| BreakerRuns.RedeliveryPartsThem | dashboard/lib/incident-store.ts:626-641 | At two layers, in every state with a settled alarm: its redelivery revokes nothing anywhere, and the next alarm of another layer revokes the session in memory and not in SQL. |
| BreakerRuns.RedeliveryRun | dashboard/lib/incident-store.ts:626-641 | The same as a run from the start. |
| Triage.AcceptedExactlyWhen | dashboard/lib/incident-store.ts:1143-1191 | A request is accepted as a transition exactly when its event id is a UUID, its fields supply that transition, and it has a resolution exactly when it resolves. |
| Triage.TextFieldIs | dashboard/lib/incident-store.ts:1103-1115 | A field supplies a text exactly when it is that text, not too long, with only blanks around it; nothing exactly when it is absent, null or blank. |
| Triage.NormalizeProjects | dashboard/lib/incident-store.ts:1103-1191 | An accepted transition spelled out as a request is accepted unchanged. |
| Triage.Store.ApplyTransition | dashboard/lib/incident-store.ts:1200-1228 | An unknown event changes nothing; a known one gets the merged state and one entry at the head of its trail. |
| Triage.TrailDeterminesState | dashboard/lib/incident-store.ts:1200-1228 | Over every run of requests: statuses chain, audit ids fall from the newest, status, assignee, resolution, time and actor are the newest entry's, the note is the latest supplied, and a resolution is present exactly when resolved. |
| Triage.RequestsAccountForTheTrail | dashboard/lib/incident-store.ts:1200-1228 | In every run from an empty ledger, from the accepted requests alone: an incident has the status, resolution, actor and time of the latest, and the latest assignee and note supplied by any; its trail has one entry for each, newest first, with the status before it and the latest assignee supplied up to it. |
| Triage.TrailOnlyGrows | dashboard/lib/incident-store.ts:1215-1227 | A trail grows at its head only, by one entry for each accepted transition of its incident. |
| Triage.AuditIdsAreUnique | dashboard/lib/incident-store.ts:1216-1218 | No two entries of any incidents share an audit id. |
| Triage.EveryRunTells | dashboard/lib/incident-store.ts:1200-1228 | Both hold of every run from an empty ledger. |
| Recent.RecentIsTheLastSent | dashboard/lib/event-ingest.ts:24-34 | Over every run the bounded list holds the last identifiers that were new, and a repeat comes only after more than the bound of others. |
| Fanout.Broker.MarkSeen | dashboard/lib/event-ingest.ts:24-34 | First in, first out within 4,096; an empty identifier is never recorded. |
| Fanout.Broker.Ingest | dashboard/lib/event-ingest.ts:40-58 | An event not seen recently is handed to every subscriber of its tenant and no other. |
| Fanout.EventStream.Live | dashboard/lib/sse-event-stream.ts:69-80 | Held while history loads, sent afterwards; a full buffer ends the stream with its notice. |
| Fanout.EventStream.Replay | dashboard/lib/sse-event-stream.ts:94-107 | History oldest first or a notice, then what was held. |
| FanoutRuns.LifeOfAStream | dashboard/lib/sse-event-stream.ts:55-107 | A stream stays open exactly while its buffer suffices, and then puts out every fresh event of history, held and later events, in that order. |
| FanoutRuns.NoRepeatNoGap | dashboard/lib/sse-event-stream.ts:55-66 | No identifier is put out twice within 2,048 events, and none that was handed in is missing. |
| FanoutRuns.SubscribeThenReplayHasNoGap | dashboard/lib/sse-event-stream.ts:80-107 | When history reaches back to the subscription and events are published in ledger order, the client receives the ledger from the oldest told event on, each event once and in order. |
| LiveListener.KeyIsInjective | dashboard/lib/live-event-listener.ts:97-101 | The key of the pending map identifies the notification. |
| LiveListener.LiveEventListener.Enqueue | dashboard/lib/live-event-listener.ts:97-101 | Seen notifications are ignored; others become pending, and an idle listener starts its drain. |
| LiveListener.LiveEventListener.LookupEnds | dashboard/lib/live-event-listener.ts:118-131 | Found events are ingested in order, and the drain goes on to its next batch, takes what is pending, or ends. |
| LiveListener.BatchedHolds | dashboard/lib/live-event-listener.ts:107-117 | The batches hold exactly the pending notifications that have not been seen. |
| LiveListener.BatchedOnePerTenant | dashboard/lib/live-event-listener.ts:107-117 | A burst costs at most one lookup for each tenant, and no lookup is empty. |
| LiveListener.NoLostWakeUp | dashboard/lib/live-event-listener.ts:97-132 | Over every interleaving, a pending notification implies a running drain, and every notification is pending, in a batch, looked up or had been seen; an idle listener has settled them all. |
| LiveListener.EveryRunIsAwake | dashboard/lib/live-event-listener.ts:97-132 | So it is in every run from the start. |
| LiveListener.LookupsRunOut | dashboard/lib/live-event-listener.ts:103-132 | Each lookup lowers the number of batches and pending notifications, so a drain ends. |
| FanoutReach.FoundIsPutOut | dashboard/lib/live-event-listener.ts:118-128 | An event that a lookup finds and the broker had not seen is put out by every open stream of its tenant past its replay that had not put it out within its window. |
| FanoutReach.BufferedIsPutOut | dashboard/lib/sse-event-stream.ts:94-107 | A stream still replaying when it is handed the event puts it out too, if its buffer suffices. |
| FanoutSite.FromNotificationToClient | dashboard/lib/live-event-listener.ts:97-132 | In every run of notifications, lookups, publications, subscriptions, replays and departures: an idle listener has looked up every notification or it had been seen; and whatever event is ingested unseen has been put out to every client of its tenant then subscribed whose stream is open and past its replay. |
| FanoutSite.IngestedReachesEveryClient | dashboard/lib/sse-event-stream.ts:55-107 | The same from any state in which every stream has put out or still holds what it was handed. |
| FanoutTenants.NoClientSeesAnotherTenant | dashboard/lib/event-ingest.ts:40-58 | In every run of the site: all that a client's stream ever puts out is of the tenant it subscribed for, if the history it is given is. |
| FanoutBroker.PassedOnceAmongMany | dashboard/lib/event-ingest.ts:24-58 | Of all events the broker is given from the start: an identifier is passed on, and again only after more than 4,096 others; an event without one always is. |
| FanoutBroker.PassedIsHandedOut | dashboard/lib/event-ingest.ts:40-58 | What is handed to subscribers is exactly the events passed on, each to the subscribers of its tenant in order. |
| Redaction.Redact | trace-audit/src/redaction.py:12-27 | The splice loop applies, latest start first, exactly the matches that end before the last one applied begins. |
| Redaction.RedactionIsTheRebuiltText | trace-audit/src/redaction.py:18-27 | For in-range matches the result is one left-to-right rebuild over the matches applied. |
| Redaction.AllMatchesAreApplied | trace-audit/src/redaction.py:21-24 | Matches in the text, empty ones included, are all applied exactly when no two overlap and none that is empty is given before another that starts where it stands. |
| Redaction.DisjointMatchesAreAllReplaced | trace-audit/src/redaction.py:12-27 | Disjoint matches each become their placeholder, and every other character is kept in order. |
| Redaction.OrderedIsStable | trace-audit/src/redaction.py:18-18 | The sort keeps the order of matches with one start. |
| Redaction.MatchOrderDoesNotMatter | trace-audit/src/redaction.py:18-22 | Every order of the same matches is taken in the same order exactly when no two different ones start at one place. |
| Redaction.DisjointMatchesInAnyOrder | trace-audit/src/redaction.py:12-27 | Disjoint matches that are not empty give one text in every order, each its placeholder. |
| Redaction.WhatIsNotCoveredStays | trace-audit/src/redaction.py:18-27 | For every list of matches in the text: the result is the pieces between the matches applied with their placeholders between them, and the pieces are, in order, exactly the characters that none of those matches covers. |
| Redaction.ReplacedSpansDoNotShow | trace-audit/src/redaction.py:12-27 | Texts that differ only inside spans that are replaced are redacted to one text. |
| Redaction.OverlapStaysInClear | trace-audit/src/redaction.py:21-24 | For two overlapping matches, the text before the later one stays as it was. |
| Redaction.EmptyMatchShadows | trace-audit/src/redaction.py:21-24 | An empty match given before one that starts where it stands keeps it from being applied, and given after it does not. |

## Left out

- LineReader.ReadMessages: whether a line parses as a JSON-RPC 2.0 message is a parameter.
- Baseline.BaselineStore.Open: the file is absent or a parsed store, and its length is that of its pretty-printed form;
  text that does not parse, or that an editor laid out differently, is not modelled.
- Breaker.MemoryBreaker.Revoke: the reason, trigger and layers of the record are not modelled. They differ between the
  two forms, since memory replaces an active record and SQL keeps it, but nothing decides by them.
- FanoutRuns.SubscribeThenReplayHasNoGap: supposes publication in ledger order and history that reaches back to the
  subscription; without either, every event handed in is still sent, but not in ledger order.
- Redaction.Redact: offsets are natural numbers; a negative one, which Python counts from the end, is not modelled.
- BreakerRuns.RunsAgree: supposes the clock advances between steps, as events and restores of one millisecond tie.
- Sockets, HTTP clients, processes, environment parsing, timers, tracing, keep-alives and the status listener: a post, a
  lookup, a file write or a client's departure is a step with any outcome, and clocks are parameters.
- SHA-256 and HMAC: a digest is compared as the text it is taken of, so collisions and key handling are not modelled.
- The sanitizer's patterns and the secret boundary: a predicate on descriptions and a set of names.
- Torn appends followed by another append, and files cut inside a multi-byte character; reading assumes valid UTF-8.
- Reading a struct from a JSON array, and floating point ranges of JSON numbers.
- Lock failures of the baseline file, and the events that report a failed lock or reload.
- Lone surrogates in JavaScript strings; a character is a Unicode scalar value.
- The circuit breaker's eviction beyond 5,000 sessions. A session is a triple of trimmed names rather than a joined key.
- The SQL form of `applyTransition`: its statements assign the same values as the form without a database.
- Operator commands against each other beyond the two lemmas about overlap: the code gives no serialisability there.
- A keep-alive or send that fails because the client is gone: the same as closing before it.
- Cancellation of a stream read.
- Incident queries and their cursors, which page over a ledger that grows meanwhile and promise no exactly-once view;
  correlation of calls other than tools/list and neutralising of results and errors, which follow the same queue and
  rewriting as tools/list without a store behind them; session reports, login, pages, packaging and benchmarks, which
  share no state with what is modelled.
