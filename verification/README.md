# ecctl: a Dafny model of its protocols and algorithms

ecctl is a command-line client for Alibaba Cloud elastic compute. This project
models the parts of it that are hard to get right and proves what they are for:

- **The native OAuth login** (`FilePrimitives`, `OAuthProtocol`, `OAuthTokens`,
  `OAuthConfig`, `OAuthDisk`, `OAuthRefresh`). A login changes the configuration and a credential-cache
  entry, two files that cannot be replaced together, so it keeps a journal. A
  file is a `Cell`: what a reader sees now, and every value that a power loss may
  leave. `OAuthProtocol` is the protocol as a state machine over those cells and
  the token service; its theorems are about every finite run, with a crash, a power
  loss or a configuration save by another process at any point. `OAuthTokens` is
  about its one-time refresh tokens, and `OAuthConfig` joins its configuration step
  to the store that takes it. `OAuthDisk` and
  `OAuthRefresh` are the imperative code on top of the file primitives. Each of
  their methods extends a ghost run of protocol actions, lets other processes save
  in between, and is proved to take only enabled actions, so every theorem about
  runs is a theorem about the code.
- **Algorithms**: exact decimal canonicalisation of JSON numbers
  (`MetadataNumber`), two-row Levenshtein (`RegionDistance`), the two command-line
  splitters (`ProcessCommand`, `WindowsCommand`), semantic versions (`SemVer`), the
  CNAME walk (`BackendDetection`), rebuilding an object from dotted keys
  (`RequestObject`), the indentation-based YAML editor (`YamlEdit`) and the marked
  block in `.zshrc` (`CompletionBlock`).
- **Smaller state machines**: the configuration store that replays recorded changes
  (`ConfigStore`), the multi-file commit (`FileCommit`) and the single-flight
  credential broker with its identity guard (`CredentialBroker`).

`Common`, `Strings` and `DecimalText` hold what several of them use.

Conventions. Digests and random generations are compared only, so they are plain
values: equal digests mean equal contents. A system call that may fail succeeds or
fails nondeterministically; a `healthy` flag, which the modelled code cannot see,
says that none fails, so that a contract can also say what happens without faults;
`alone` says the same of saves by other processes.
The profile lock is a token that is lost when its holder stops. Remote answers,
clocks and user data are parameters.

## What turned out not to hold

Each is stated as a lemma, with the exact condition or a concrete run.

- Recovery that finds a configuration belonging to neither side of the login drops the
  journal without making that configuration durable. A later power loss can then leave
  the new configuration beside the previous cache entry: a run from a quiet disk in
  `OAuthProtocol.ForeignConfigCanBreakAgreement`. The same can happen where another
  process has gone back to the old authentication, and there recovery even reports
  success (`OAuthProtocol.TakingBackCanBreakAgreement`). The files agree after every
  power loss that leaves no journal if and only if each journal dropped after a roll
  back was dropped with the configuration file synced, or found after a power loss,
  since readers last saw the new configuration (`OAuthProtocol.AgreementSurvivesIff`).
  One sync in front of the roll back would do (`OAuthProtocol.SyncInFrontSuffices`); a
  sync made while the new configuration was still visible would not. Without other
  authentication saved in between the condition always holds
  (`OAuthProtocol.WithoutForeignSaves`).
- Recovery that finds no journal returns nil without making that absence durable, and
  the refresh behind it may then rotate a token that a journal still records. If that
  journal comes back, a spent token can be put back
  (`OAuthTokens.ForeignConfigCanPutBackSpentToken` is such a run from a quiet disk).
  From no moment of a run on can a spent token be left in the cache, whatever other
  processes save and wherever power fails, if and only if every rotation was asked for
  when no journal that may be found had an entry of its generation together with a
  possible new configuration (`OAuthTokens.TokensSurviveIff`); after any other rotation
  a loss is a few steps away (`OAuthTokens.LossFollows`). The condition is told by what
  readers saw and what was synced (`OAuthTokens.SafeRotationByHistory`); a durable
  absence of the journal is enough (`OAuthTokens.DurableAbsenceIsSafe`), and with it
  `OAuthRefresh.Provider.Acquire` keeps the tokens safe. Other rotations cost nothing
  while roll backs are careful (`OAuthTokens.CarefulRollBacksKeepTokens`), as they are
  where nobody else saves other authentication
  (`OAuthTokens.TokensWithoutForeignSaves`).
- A `process_command` that ends in an escaped space or line feed is refused, because
  trimming takes the escaped character away; every other line of quoted words is
  split into what it means (`ProcessCommand.SplitReadsWords` states both).
- An object rebuilt from its dotted keys is not always the object: empty containers,
  objects whose keys are all positive integers, and texts that are themselves JSON
  of a container do not come back. `RequestObject.RebuildsExactly` shows that these
  three are all: without them, and only then, the tree comes back.
- `snapshot` reads the time before it takes the lock, so it may hand out expired
  credentials: exactly those whose expiry lies between that time and the clock, and
  never after a wait (`CredentialBroker.ServesStaleIff`, and over runs
  `CredentialBroker.HandedOutStaleIff`). The handler's second look keeps them back
  (`CredentialBroker.SnapshotCanBeStale`).

The comment on `findPath` says the editor only appends lines; the code also inserts
a request mapping before the `ApiParam` entry. The model follows the code, and the
frame theorem covers both places.

## Model

| member | source | states |
|---|---|---|
| FilePrimitives.Target.AtomicWritePrivate | internal/configfile/transaction.go:221-322 | nil: the new contents are visible and durable; a post-commit error: they are visible; any other error: the target and every value it may have after a power loss are as before |
| FilePrimitives.Target.RemovePrivateFile | internal/configfile/private_remove.go:20-83 | nil: the file is durably absent, whatever was pending before; a post-commit error: it is absent for readers; any other error leaves it; without faults it is nil unless both names are one file |
| FilePrimitives.Target.CleanupTombstone | internal/configfile/private_remove.go:89-94 | dropping the tombstone touches nothing else and may fail silently |
| FilePrimitives.RemovalsConverge | internal/configfile/private_remove.go:20-83 | any sequence of removals, each cut short, failed, or undone by a power loss, leaves only old values or absence, and once one ends in nil the file is durably absent |
| FilePrimitives.Target.BeginPrivateReplace | internal/configfile/transaction.go:326-366 | nothing for a reserve that is not positive or when a preparation step fails, and then nothing is changed; otherwise a fresh replacement, open, uncommitted and bound to its target and reserve |
| FilePrimitives.PrivateReplace.Commit | internal/configfile/transaction.go:368-406 | the three outcomes of a replacement; committed exactly once the rename happened; refused when closed, committed before, or larger than the reserve |
| FilePrimitives.PrivateReplace.Abort | internal/configfile/transaction.go:417-428 | closes the replacement and never undoes a commit |
| OAuthProtocol.RecoveryRestarts | pkg/aliyun/native_oauth_transaction.go:185-277 | a recovery stopped after any of its changes and started again ends where one uninterrupted run ends, and a finished one has nothing left to do |
| OAuthProtocol.FinalByStep | pkg/aliyun/native_oauth_transaction.go:162-218 | an uninterrupted recovery settles the cache and drops the journal, or changes nothing when the entry is somebody else's |
| OAuthProtocol.RecoveryTable | pkg/aliyun/native_oauth_transaction.go:76-277 | the end of every recovery as one table over configuration, cache and log record: which record is left alone, when the entry becomes the next or the previous one or goes, and when only the journal does; an old configuration whose entry is missing ends with the recorded entry and no journal |
| OAuthProtocol.RecoveryRespectsOwners | pkg/aliyun/native_oauth_transaction.go:220-277 | an entry of neither generation is never touched, and one already at the wanted generation keeps its exact contents, so rotated tokens are not rolled back |
| OAuthProtocol.RecoveryAgrees | pkg/aliyun/native_oauth_transaction.go:185-218 | a recovery that gets rid of the journal leaves the cache on the side of the configuration |
| OAuthProtocol.QuietDiskStarts | pkg/aliyun/oauth_configure.go:202-258 | a durable disk without a journal satisfies the invariant for any attempt whose generations are new to it |
| OAuthProtocol.WriteJournalKeepsInv | pkg/aliyun/oauth_configure.go:202-258 | writing the log record of a new attempt, over whatever an earlier one left possible, keeps the invariant |
| OAuthProtocol.ActionKeepsInv | pkg/aliyun/native_oauth_transaction.go:162-313 | every step of login, recovery, refresh, saves by other processes with or without other authentication, unlocking and power loss keeps the invariant, except a journal dropped after a roll back while the new configuration may come back |
| OAuthProtocol.PossibleExactlyIfSeen | pkg/aliyun/native_oauth_transaction.go:186-189 | a power loss can bring back the new configuration if and only if readers saw it with no sync or power loss under anything else since |
| OAuthProtocol.CrashConsistency | pkg/aliyun/native_oauth_transaction.go:162-218 | after every run that keeps the condition of the next row, wherever it stopped: files that may disagree after a power loss mean a durable journal; where no journal may be found the two files agree in every outcome (an old configuration that another process went back to after the login was saved binds the cache to nothing) |
| OAuthProtocol.AgreementSurvivesIff | pkg/aliyun/native_oauth_transaction.go:162-218 | over every run, whoever saves what: the files agree after every power loss that leaves no journal, at every moment, if and only if each journal dropped after a roll back was dropped with the configuration synced, or found after a power loss, since readers last saw the new one |
| OAuthProtocol.SyncInFrontSuffices | pkg/aliyun/native_oauth_transaction.go:185-218 | the condition holds for a roll back that has a sync of the configuration in front of it, made when readers no longer saw the new one, whatever others save after it |
| OAuthProtocol.WithoutForeignSaves | pkg/aliyun/native_oauth_transaction.go:162-218 | a run in which nobody else saves other authentication always keeps that condition, and the stricter one that whole roll backs, not only drops, come with the configuration synced |
| OAuthProtocol.ForeignConfigCanBreakAgreement | pkg/aliyun/native_oauth_transaction.go:211-218 | a run from a quiet disk, through a login and a save of other authentication, to a new configuration beside the previous entry with no journal |
| OAuthProtocol.TakingBackCanBreakAgreement | pkg/aliyun/native_oauth_transaction.go:206-210 | the same end through a save that goes back to the old authentication, where recovery takes the branch that returns nil |
| OAuthProtocol.OthersDoNotDisable | pkg/aliyun/native_oauth_transaction.go:185-218 | a save by another process, durable or not, disables no step of the lock holder that does not look at the configuration itself |
| OAuthProtocol.UnrelatedSavesDoNotDisable | pkg/aliyun/native_oauth_transaction.go:185-218 | a save of unrelated settings, durable or not, disables no step at all |
| OAuthProtocol.OthersCommute | pkg/aliyun/native_oauth_transaction.go:220-291 | it makes no difference on which side of a step that leaves the configuration alone such a save comes |
| OAuthProtocol.RecoveryNeverStuck | pkg/aliyun/native_oauth_transaction.go:162-277 | from every state of a run that keeps the condition above an uninterrupted recovery reaches its end: no entry is refused, no journal is left, and the cache is where the configuration asks for it, at the previous entry for a foreign one |
| OAuthTokens.TokenLinearity | pkg/aliyun/credential_profile_refresh.go:334-445 | over every run whose rotations are safe, whoever saves what: whenever the lock is free, every entry the cache may hold carries the last refresh token issued for its generation, unless a run stopped or failed between answer and commit |
| OAuthTokens.ActionKeepsSafe | pkg/aliyun/credential_profile_refresh.go:334-445 | every step but an unsafe rotation keeps the invariant behind it, whether or not configuration and cache agree |
| OAuthTokens.TokensSurviveIff | pkg/aliyun/native_oauth_transaction.go:163-166 | from no moment of a run on can anything that happens, short of another rotation, leave a spent token in the cache, if and only if each rotation was asked for when no journal that may be found had an entry of its generation and a new configuration that may be found too |
| OAuthTokens.LossFollows | pkg/aliyun/native_oauth_transaction.go:185-218 | after any rotation that breaks the condition some continuation, with no further rotation, leaves a spent token in the cache |
| OAuthTokens.JournalPossibleExactlyIfSeen | pkg/aliyun/native_oauth_transaction.go:293-313 | a power loss can bring a journal back if and only if it was seen with no sync or power loss without it since |
| OAuthTokens.SafeRotationByHistory | pkg/aliyun/native_oauth_transaction.go:163-166 | a rotation is safe if and only if every journal record of its generation is settled, or the configuration was synced since readers last saw the new one of that record |
| OAuthTokens.CarefulRollBacksKeepTokens | pkg/aliyun/native_oauth_transaction.go:206-218 | tokens are kept over every run whose roll backs come with the configuration synced since the new one was last seen, however it rotates |
| OAuthTokens.TokensWithoutForeignSaves | pkg/aliyun/native_oauth_transaction.go:162-218 | tokens are kept over every run in which nobody else saves other authentication |
| OAuthTokens.ForeignConfigCanPutBackSpentToken | pkg/aliyun/native_oauth_transaction.go:211-218 | a run from a quiet disk that drops its journals with care and still ends with a spent token in the cache |
| OAuthProtocol.RecoveryKeepsFinal | pkg/aliyun/native_oauth_transaction.go:185-277 | any number of recoveries, stopped anywhere in a run and taken up by the next holder of the lock, leave the same end state as an uninterrupted one |
| OAuthDisk.Disk.StoreIfGeneration | pkg/aliyun/credential_cache.go:225-247 | replaces the entry only if its generation and mode are still the expected ones; otherwise nothing changes |
| OAuthDisk.Disk.StoreIfMissing | pkg/aliyun/credential_cache.go:249-272 | writes the entry only where there is none |
| OAuthDisk.Disk.CommitCache | pkg/aliyun/credential_cache.go:285-339 | the prepared entry replaces exactly the recorded one; nil means it is durable, a failure without faults that nothing changed; an entry of another mode is told as a changed profile |
| OAuthDisk.Disk.RollbackEntry | pkg/aliyun/credential_cache.go:341-372 | only at the replaced generation is the previous entry put back or the entry removed, durably if nil; a file already gone is taken as rolled back or durably removed |
| OAuthDisk.Disk.ConfirmCache | pkg/aliyun/native_oauth_transaction.go:279-291 | nil means the entry still has the expected owner and is durable; its contents never change; without faults nil exactly when the owner is the expected one |
| OAuthDisk.Disk.InstallNextEntry | pkg/aliyun/native_oauth_transaction.go:220-243 | the only change is the one that `TowardNext` names; nil means the next generation is durably in place; without faults nil exactly when the entry is not refused |
| OAuthDisk.Disk.RestorePreviousEntry | pkg/aliyun/native_oauth_transaction.go:245-277 | the same towards the previous entry or its absence |
| OAuthDisk.Disk.RestoreRecorded | pkg/aliyun/native_oauth_transaction.go:245-277 | the branch with an entry to put back: compare, conditionally store, confirm |
| OAuthDisk.Disk.DeleteJournal | pkg/aliyun/native_oauth_transaction.go:293-313 | nil means the journal is durably gone, also when it was absent already; the other files are untouched |
| OAuthDisk.Disk.ConfirmConfig | pkg/aliyun/native_oauth_transaction.go:186-200 | nil means the configuration was made durable and still was the new one when it was read again, whatever others saved in between |
| OAuthDisk.Disk.RollForward | pkg/aliyun/native_oauth_transaction.go:186-205 | nil means the next entry and the absence of the journal are durable, and the invariant of the protocol is kept on every path |
| OAuthDisk.Disk.RollBack | pkg/aliyun/native_oauth_transaction.go:206-218 | nil means the previous entry and the absence of the journal are durable; the invariant is kept when no new configuration is possible |
| OAuthDisk.Disk.RecoverRecord | pkg/aliyun/native_oauth_transaction.go:185-218 | nil only for the old or the new configuration at its own path, with cache and journal settled durably on its side; the invariant is lost only where it reports that the profile changed, or where somebody took the saved login back |
| OAuthDisk.Disk.Recover | pkg/aliyun/native_oauth_transaction.go:162-218 | nil leaves no journal and, in every reachable state and with others saving in between, agreement that no power loss can end, unless somebody took the saved login back; without faults and interference the visible end is the one that `Final` names and success is told exactly |
| OAuthDisk.Disk.CommitJournal | pkg/aliyun/native_oauth_transaction.go:62-75 | nil means the record is valid, visible and durable, and is the attempt at stake |
| OAuthDisk.Disk.SaveConfig | pkg/config/config.go:422-503 | the save of the login: a profile changed since it was seen is never overwritten and told as changed; an error before the commit leaves the file, any later one means the login is visible |
| OAuthConfig.SaveIsCompareAndSet | pkg/config/config.go:422-503 | the store's save of one login, replayed over the file, is the protocol's configuration step: from the state before the login to its new one, or refused as a changed profile exactly if the file is in another state |
| OAuthDisk.Disk.WriteAhead | pkg/aliyun/oauth_configure.go:210-234 | nil means the log record with the old and new states is durable before anything else changes, whatever others save meanwhile; a profile changed during the login is refused; without faults a failure leaves the journal as it was |
| OAuthDisk.Disk.CommitAttempt | pkg/aliyun/oauth_configure.go:235-263 | behind the durable log record: nil means the new login is durably in both files; every failure has recovery behind it, whose error is part of the outcome and whose success means the journal is gone, but for a configuration that may be in place; without faults a failure, also at an entry of another mode, leaves the previous entry, the old configuration and no journal |
| OAuthDisk.Disk.SaveAndFinish | pkg/aliyun/oauth_configure.go:246-281 | nil means cache and journal are durably settled on the new login, unless somebody took it back at once; every failure but that of a save that may be in place is followed by recovery, with its error joined; without faults it is nil for an unchanged profile, and a profile changed since the log record stays as it is while the cache goes back to the previous entry and the journal goes |
| OAuthDisk.Disk.Configure | pkg/aliyun/oauth_configure.go:90-263 | the ordered steps from the profile lock on, with others saving between them: nil means cache and journal are durably at the new login and the files agree after every power loss, unless somebody took it back at once; without faults and interference it is nil, or refused with nothing changed if the profile changed during the login, and no error at all leaves a journal, another entry or another configuration |
| OAuthRefresh.Provider.AskService | pkg/aliyun/credential_profile_refresh.go:157-191 | a rotation is recorded as pending from the moment the service answers, whether or not the answer arrives; an answer that is used has both tokens and lifetime left, and its refresh token is a new one |
| OAuthRefresh.Provider.CommitToken | pkg/aliyun/credential_profile_refresh.go:384-413 | nil means the rotated pair is durable beside the other fields of the entry and the configuration still names this login; otherwise the rotation stays accounted for |
| OAuthRefresh.Provider.VerifySource | pkg/aliyun/credential_profile_refresh.go:864-891 | nil exactly when the configuration still names this generation, but for read faults |
| OAuthRefresh.Provider.Rotate | pkg/aliyun/credential_profile_refresh.go:157-201 | nil means the service has rotated the token and the pair is durable in the entry, unexpired, before anything is spent |
| OAuthRefresh.Provider.ExchangeAccess | pkg/aliyun/credential_profile_refresh.go:202-239 | the access token is presented exactly once, with no rotation pending; nil means unexpired credentials |
| OAuthRefresh.Provider.Refresh | pkg/aliyun/credential_profile_refresh.go:134-239 | in seconds: with a refresh token and an access token that is missing, of unknown end or within 1200 seconds of it, success means a rotation, and in every other case there is none; the access token exchanged came with the rotation, lasts more than 1200 seconds, or cannot be renewed; an expired refresh token ends the run with nothing changed; a rotation that ends well is durable in the cache |
| OAuthRefresh.Provider.AcquireOwned | pkg/aliyun/credential_profile_refresh.go:365-445 | stored credentials that last longer than 180 seconds are served and nothing changes; otherwise a snapshot means a refresh as above, is held durably in cache and memory, and the configuration still names this login |
| OAuthRefresh.Provider.Acquire | pkg/aliyun/credential_profile_refresh.go:334-445 | credentials in memory that last longer than 180 seconds are served and nothing happens; otherwise the lock is taken, a snapshot means the configuration named this generation, and the entry found is served, refreshed or refused by the rules above; from files whose journal is visible or durably absent every way out keeps the tokens safe, with others saving between the steps; a snapshot is never expired; only a run that reports an error can lose a token, and only of its own generation; a rotation that ends in success is durable |
| OAuthRefresh.Provider.RecoverForSource | pkg/aliyun/credential_profile_refresh.go:341-355 | recovery in front of a refresh spends no token; nil means no journal is left and the configuration that was read names this generation |
| OAuthRefresh.Provider.StoreSnapshot | pkg/aliyun/credential_profile_refresh.go:418-445 | a snapshot is in memory and durably in the entry, beside the tokens as they were, and the configuration still named this generation |
| OAuthRefresh.Provider.StoreResult | pkg/aliyun/credential_profile_refresh.go:426-441 | the STS result is stored beside the same refresh token, durably if nil |
| MetadataNumber.NormalizeMetadataNumber | internal/drift/metadata_diff.go:554-578 | for every number of section 6 of RFC 8259 the result is its canonical text |
| MetadataNumber.CanonicalKeepsValue | internal/drift/metadata_diff.go:553-578 | the canonical text is itself a JSON number of exactly the same value and canonical already |
| MetadataNumber.CanonicalDecides | internal/drift/metadata_diff.go:553-578 | two numbers have the same canonical text if and only if their rational values are equal, whatever their exponents |
| RegionDistance.LevenshteinDistance | pkg/aliyun/location.go:329-367 | the two-row loop computes the recursive distance |
| RegionDistance.DistanceIsLeast | pkg/aliyun/location.go:327-367 | no script of insertions, deletions and substitutions is shorter than the distance |
| RegionDistance.DistanceIsReached | pkg/aliyun/location.go:327-367 | some script is exactly as long |
| RegionDistance.DistanceSymmetric | pkg/aliyun/location.go:327-367 | the distance is symmetric |
| RegionDistance.DistanceTriangle | pkg/aliyun/location.go:327-367 | the distance satisfies the triangle inequality |
| RegionDistance.ClosestRegion | pkg/aliyun/location.go:314-325 | the first candidate that attains the least distance |
| ProcessCommand.SplitCredentialProcessCommand | pkg/aliyun/credentials.go:1502-1586 | the loop with its flags computes the scanning function that the next rows are about |
| ProcessCommand.SplitReadsWords | pkg/aliyun/credentials.go:1502-1586 | every line built of quoted, escaped and plain pieces, as section 2.2 of the POSIX Shell Command Language quotes them, is split into what its words mean, except exactly when trimming takes an escaped last space |
| ProcessCommand.OpenQuoteIsRefused | pkg/aliyun/credentials.go:1578-1580 | a single or double quote that is opened and never closed is an error, behind any line of words and any gap, and whatever trimming takes off its text |
| ProcessCommand.SplitUndoesQuoting | pkg/cli/completion.go:174-176 | every argument list, each argument in single quotes with quotes written `'\''`, comes back from the splitter; only an empty command name is refused |
| WindowsCommand.SplitWindowsCredentialProcessCommand | pkg/aliyun/credentials.go:1592-1649 | the nested loops compute the reading that the next rows are about |
| WindowsCommand.SplitReadsWindowsWords | pkg/aliyun/credentials.go:1588-1649 | every line of words made of unquoted and quoted parts, with backslashes before plain characters, before escaped quotes and before quotes that open or close, the last quote open or not, and any space around, is split into what the words mean; a blank line is refused |
| WindowsCommand.EveryLineIsWords | pkg/aliyun/credentials.go:1592-1649 | every trimmed line that is not empty is such a line of words, so the row above is about every input |
| WindowsCommand.SplitUndoesWindowsQuoting | pkg/aliyun/credentials.go:1588-1649 | every argument list in CommandLineToArgvW quoting, quoted or bare where that is possible, with any gaps, comes back; only an empty command name is refused |
| SemVer.ReadsTheGrammar | cmd/releaseprep/main.go:440-486 | what is read is what sections 2, 9 and 10 of Semantic Versioning 2.0.0 write, and each version has one reading |
| SemVer.ParseSemVersion | cmd/releaseprep/main.go:440-473 | a version exactly for the texts of that grammar, with its core and prerelease; an error otherwise |
| SemVer.ValidateSemVersionIdentifiers | cmd/releaseprep/main.go:475-486 | accepts exactly dotted lists of identifiers, without leading zeros in numeric prerelease ones |
| SemVer.CompareNumericIdentifier | cmd/releaseprep/main.go:533-547 | comparing lengths, then characters, is comparing the numbers |
| SemVer.CompareSemVersion | cmd/releaseprep/main.go:488-531 | the loops compute the precedence of section 11, defined on numbers |
| SemVer.PrecedenceZero | cmd/releaseprep/main.go:488-531 | precedence is zero exactly for equal core and prerelease identifiers, and antisymmetric |
| SemVer.PrecedenceTransitive | cmd/releaseprep/main.go:488-531 | precedence is transitive, strictly where one step is strict |
| SemVer.FloorIsLeast | cmd/releaseprep/main.go:24-24 | `0.2.3-0` is the least version of its core: a version is not below it if and only if its core is at least 0.2.3 |
| SemVer.SignedUpdateV2Required | cmd/releaseprep/main.go:149-162 | an answer exactly for "v" and a version, and it is whether the core is at least 0.2.3 |
| BackendDetection.NormalFormIsTheName | pkg/e2bapi/backend.go:35-37 | two names have one normal form exactly if they differ in case and one final dot only; it is one of them, in lower case, and a fixed point unless two dots end the name |
| BackendDetection.ValidNamesBySpelling | pkg/e2bapi/backend.go:126-141 | the names an answer may hold, told by characters alone: letters, digits, hyphens and underscores, no dot or hyphen at an end or beside a dot, a dot among any 64 in a row, and at most 253 |
| BackendDetection.WithinByLabels | pkg/e2bapi/backend.go:39-41 | a name is within a domain if and only if its last labels are those of the domain |
| BackendDetection.DomainsByLabels | pkg/e2bapi/backend.go:11-12 | the two domains by their labels: e2b.fc.aliyuncs.com and e2b.app |
| BackendDetection.IdentifyBackend | pkg/e2bapi/backend.go:69-124 | at most 8 lookups, none twice, along names that the answers lead to; FC exactly if the last name is in the FC domain, and no name before it is; every other verdict has its reason: native host, address, a name met twice, nine names, or what the last lookup was answered with, a failure, a timeout, an invalid or contradicting record, or no alias; when the resolver tells one chain the verdict is that of the plain walk, whatever extra records came along |
| BackendDetection.Absorb | pkg/e2bapi/backend.go:106-115 | all pairs of an answer are taken in, or it has an invalid one, or the answers so far tell two aliases of one name, as the problem says |
| BackendDetection.FcExactlyWithinEightHops | pkg/e2bapi/backend.go:69-124 | for a host that is neither native E2B nor an address: FC if and only if some name within 8 hops is in the FC domain; no FC record if and only if the chain stops earlier without one |
| BackendDetection.WalkFindsFc | pkg/e2bapi/backend.go:81-123 | loop detection and the hop limit never hide an FC name that is within reach |
| RequestObject.RequestObject | pkg/e2bapi/caller.go:488-512 | an object at the prefix, or the JSON text of one, is the answer; otherwise, when the dotted keys are the leaves of a tree, that tree if and only if nothing below its root is empty, no object in it has only positive integers as keys, and no leaf is the text of a JSON container; such texts come back decoded; a tree of objects, with gaps in its numbers or not, is normalized as it is |
| RequestObject.DecodesExactlyJson | pkg/e2bapi/caller.go:556-573 | a text that is a JSON object or list, with space around it or not, stands for what it decodes to, and every other value for itself |
| RequestObject.InsertAll | pkg/e2bapi/caller.go:502-510 | inserting the decoded leaves in any order gives the tree of exactly those leaves, decoded |
| RequestObject.InsertAddsLeaf | pkg/e2bapi/caller.go:514-525 | inserting a value adds one leaf and keeps every other |
| RequestObject.SameLeaves | pkg/e2bapi/caller.go:514-525 | objects without empty parts are told apart by their leaves, so the order of insertion cannot matter |
| RequestObject.NormalizeNumbered | pkg/e2bapi/caller.go:527-554 | normalizing undoes the numbering of lists, at every depth, if and only if no object looks like a list |
| RequestObject.IndexMeans | pkg/e2bapi/caller.go:532-539 | the keys that count places: digits of a positive 64-bit number, with a plus sign or not |
| RequestObject.ListWithGaps | pkg/e2bapi/caller.go:527-554 | an object whose keys are positive numbers, with gaps or not, becomes the list of its values in the order of the numbers |
| RequestObject.NormalizeKeeps | pkg/e2bapi/caller.go:527-554 | normalizing changes nothing in which no object looks like a list |
| RequestObject.ResultTellsDecoding | pkg/e2bapi/caller.go:509-572 | if normalizing the decoded tree gives the original, nothing in it was decoded |
| RequestObject.RebuildsExactly | pkg/e2bapi/caller.go:509-554 | the three conditions together are equivalent to getting the tree back |
| RequestObject.RebuildsRenewed | pkg/e2bapi/caller.go:509-573 | with leaves that are JSON texts the tree comes back with each of them replaced by what it decodes to, normalized |
| YamlEdit.YamlDoc.BlockEndIndex | internal/specsync/specsync.go:959-971 | the first later line that is not deeper, or the end |
| YamlEdit.YamlDoc.FindPath | internal/specsync/specsync.go:938-957 | the line of the path: at each depth the first line of that indentation and key in the block of the line before |
| YamlEdit.YamlDoc.FindChildKey | internal/specsync/specsync.go:980-993 | the first child line of that key in the block |
| YamlEdit.YamlDoc.InsertAt | internal/specsync/specsync.go:973-978 | the lines go in at the index; all old lines stay in order |
| YamlEdit.PathsAreUnique | internal/specsync/specsync.go:934-957 | only one path leads to a line |
| YamlEdit.InsertKeepsPaths | internal/specsync/specsync.go:934-978 | after an entry is added at a fitting place every path that led to a line leads to the same line, shifted, and every new path goes through the new entry |
| YamlEdit.InsertedResolves | internal/specsync/specsync.go:938-978 | the new key is found under the path of its block |
| YamlEdit.BuiltSchemaField | internal/specsync/specsync.go:650-664 | the built lines are one entry: the key two deeper than its parent, everything else deeper still |
| YamlEdit.BuiltRequestMapping | internal/specsync/specsync.go:685-703 | the same for a request mapping of any kind |
| YamlEdit.BuiltOperationField | internal/specsync/specsync.go:607-618 | the same for the list item of an operation field, whose key is read behind its dash |
| YamlEdit.SchemaFieldReads | internal/specsync/specsync.go:650-683 | a reader of the built field finds its type in the words of the specifications, its description character for character whatever quotes are in it, string items for a list, and no more |
| YamlEdit.RequestMappingReads | internal/specsync/specsync.go:685-703 | a list is mapped by `each`, an object by `from`, anything else by the field itself |
| YamlEdit.OperationFieldReads | internal/specsync/specsync.go:607-618 | the item is the field with `brief: false` |
| YamlEdit.YamlDoc.AddSchemaField | internal/specsync/specsync.go:392-408 | false and unchanged if the path is missing; otherwise the lines go to the end of the block, and an absent key is gained without disturbing any path |
| YamlEdit.YamlDoc.AddTopLevelRequestMapping | internal/specsync/specsync.go:576-589 | the same for `bindings.<name>.request`, before the ApiParam entry where there is one |
| YamlEdit.YamlDoc.AddNestedRequestMapping | internal/specsync/specsync.go:591-605 | the same below the fields of nested parents |
| YamlEdit.YamlDoc.AddOperationField | internal/specsync/specsync.go:607-618 | the same for `operations.<name>.input.fields` |
| CompletionBlock.UpdateZshCompletionRC | pkg/cli/completion.go:180-216 | the line loop computes the rewriting that the next rows are about |
| CompletionBlock.FailsExactlyOnBadMarkers | pkg/cli/completion.go:178-216 | it fails if and only if the markers do not alternate, start first and end last |
| CompletionBlock.MarkersByText | pkg/cli/completion.go:184-195 | a line is a marker exactly if it is the marker text alone, with a newline, a carriage return, or both, or at the end of the file |
| CompletionBlock.KeepsOutside | pkg/cli/completion.go:178-216 | the result is unmarked text, one block and unmarked text again; the block is where the first marker was, or at the end; the text outside of blocks is kept byte for byte, but for one newline before an appended block |
| CompletionBlock.InstallingAgainChangesNothing | pkg/cli/completion.go:178-216 | with a well-formed block the rewriting is idempotent |
| CompletionBlock.LoaderBlockIsWellFormed | pkg/cli/completion.go:136-136 | the block that an installation writes is well formed for every path without a newline |
| CompletionBlock.LoaderSourcesScript | pkg/cli/completion.go:136-136 | between the marker lines the words of the test and of the source command hold the very path, whatever characters are in it |
| ConfigStore.Store.Record | pkg/config/config.go:737-925 | a change is made in memory and recorded, or refused and neither; replaying the record always gives the memory |
| ConfigStore.Store.SaveContext | pkg/config/config.go:422-503 | what is written is the record replayed over what is on disk by then; any refusal leaves the file and the store as they were; with no other writer it is the memory |
| ConfigStore.RecordedIsApplied | pkg/config/config.go:951-969 | replaying a recorded change does what the change did |
| ConfigStore.ReplayKeepsUntouched | pkg/config/config.go:474-480 | whatever another writer saved in the meantime is kept, list elements of any kind included, but for the places that this save is about |
| ConfigStore.SetValueIsSaved | pkg/config/config.go:737-785 | a value that was set, telemetry included, is the one in the field that its key means in the saved file, unless a later change of the same save is about it |
| ConfigStore.SetValueMeans | pkg/config/config.go:737-785 | with the keys, aliases and fields written out: exactly the values that a field takes are accepted, the text is put into that field of the named or current profile, telemetry is on exactly for "true", and no other key is known |
| ConfigStore.KeysAreKnown | pkg/config/config.go:131-176 | each key and alias, with any space around it, is the item stored in its field, and there is no other |
| ConfigStore.ValuesAreKnown | pkg/config/config.go:1054-1080 | the values of each field: a region of hyphened labels, en or zh-CN, json or text, true or false, any text but the empty one for a credential |
| ConfigStore.RegionsAreHyphenated | pkg/config/config.go:240-256 | the character loop accepts exactly two or more labels of lower-case letters and digits joined by hyphens, up to 63 characters, but for one name |
| ConfigStore.ProfileIsSelected | pkg/config/config.go:792-824 | selecting needs a profile of that name; switching makes a missing one with its name and JSON output; either makes it current |
| ConfigStore.EmptyFileIsDefault | pkg/config/config.go:971-984 | without a file there is one default profile, current, that prints JSON |
| ConfigStore.RecordNamesProfile | pkg/config/config.go:737-925 | the record of a change names the profile that was current when it was made, and a login in its normal form |
| ConfigStore.ModeTellsSessionToken | pkg/config/config.go:770-781 | after a credential is set, the profile is current and its mode tells whether a session token is stored |
| ConfigStore.LoginReplacesOnlyAuth | pkg/config/config.go:859-925 | a login replaces the authentication of its profile by exactly its own and changes no other field of it |
| ConfigStore.LoginForgetsCredentials | pkg/config/config.go:143-150 | no key, token or other credential of an earlier kind is left beside a login |
| ConfigStore.LoginIsConditional | pkg/config/config.go:859-925 | a login is stored exactly if its names are well formed and file, profile and authentication are still those it was made against |
| ConfigStore.LoginNeedsStrictFile | pkg/config/config.go:525-567 | a file that decodes is refused exactly for a login over one whose names are missing, padded or repeated |
| ConfigStore.LoginKeepsFileStrict | pkg/config/config.go:525-567 | a login over a strict file leaves a strict file |
| ConfigStore.ApplyKeepsUntouched | pkg/config/config.go:859-969 | no change alters a field, of this or another profile or of the telemetry settings, or an element of the profile list, that it is not about |
| ConfigStore.LoginsDoNotOverwrite | pkg/config/config.go:886-901 | of two logins made against the same state the second to be saved is refused |
| ConfigStore.SettingsDoNotBlockLogin | pkg/config/config.go:152-161 | settings that are no credentials do not change the digest a login is compared with |
| FileCommit.FileSystem.CommitFileUpdates | internal/specsync/transaction.go:29-49 | success gives every target its new contents and mode; when staging fails or the rollback reports no error every file is as it was; no other file ever changes; a single failing call is always survived or undone, so a failed rollback means two; no temporary is left but where removing it failed; one file under two names is never committed twice; without faults, distinct targets are committed |
| FileCommit.FileSystem.StageFileUpdates | internal/specsync/transaction.go:51-108 | distinct targets with their old files known and the new ones waiting, none of them one existing file under two names; or nothing changed, with a fault or a repeated target, but temporaries that could not be removed |
| FileCommit.FileSystem.RollbackFileUpdates | internal/specsync/transaction.go:170-191 | no error means every committed target has its old contents, mode or absence again; an error means a call failed |
| FileCommit.FileSystem.WriteSiblingTemp | internal/specsync/transaction.go:140-168 | a new file under a name that was nobody's, with its data and mode |
| CredentialBroker.OperationIdentityGuard.Validate | pkg/aliyun/identity.go:76-87 | does what the validation function says: a set identity stays, a refusal changes nothing, acceptance leaves the keys as they are |
| CredentialBroker.OperationIdentityGuard.ValidateLocked | pkg/aliyun/identity.go:89-123 | the same for the part under the lock; an identity is first set from a valid proof or from the answer of the service, and has the expected hash where one is expected |
| CredentialBroker.GuardKeepsIdentity | pkg/aliyun/identity.go:89-123 | an identity, once set, is never replaced by another |
| CredentialBroker.AcceptedExactly | pkg/aliyun/identity.go:76-160 | what is accepted, in full: the credentials accepted last, a proof for these very keys, endpoint, account and type of the expected and set identity, or such an answer where there is no proof |
| CredentialBroker.AcceptedAgain | pkg/aliyun/identity.go:76-123 | what was accepted is accepted again without asking |
| CredentialBroker.AcceptedBelongs | pkg/aliyun/identity.go:76-140 | what the guard accepts belongs to its identity, whether by fingerprint, proof or answer, and the proof it attaches is true |
| CredentialBroker.OwnIdentityIsAccepted | pkg/aliyun/identity.go:76-123 | credentials of the guard's own identity are accepted whenever the identity service can be asked |
| CredentialBroker.NewGuardIsSound | pkg/aliyun/identity.go:60-74 | a guard that is made has the true identity of its first snapshot |
| CredentialBroker.Broker.StartRefreshLocked | pkg/aliyun/credential_broker.go:184-191 | starts a refresh exactly if refreshing is enabled and none is in flight |
| CredentialBroker.Broker.FinishRefreshLocked | pkg/aliyun/credential_broker.go:191-206 | no refresh is left in flight; the current snapshot is replaced exactly by a result with both keys that has not expired, of a refresh that did not fail |
| CredentialBroker.Broker.SnapshotBegin | pkg/aliyun/credential_broker.go:140-163 | a copy exactly if the current snapshot had not expired at the time read; a wait is for the refresh in flight; unavailable only if refreshing is disabled; a refresh starts exactly if enabled, none is in flight, and the copy served has no end or at most 180 seconds |
| CredentialBroker.Broker.SnapshotEnd | pkg/aliyun/credential_broker.go:172-182 | the current snapshot exactly if it has not expired by this section, so no wait ends with expired credentials |
| CredentialBroker.BrokerIsSafe | pkg/aliyun/credential_broker.go:120-207 | in every interleaving: one refresh in flight and the one the broker knows, only seeded or accepted snapshots current or handed out, only complete and unexpired ones served, and the guard's identity fixed |
| CredentialBroker.BrokerIsSafeFromStart | pkg/aliyun/credential_broker.go:49-69 | so it is for every broker from its start, seeded or not, with a sound guard or none |
| CredentialBroker.WaitersAreWoken | pkg/aliyun/credential_broker.go:156-207 | a request never waits on a channel that nobody will close: whatever the acquirer and the identity service answer, the rest of the refresh it waits for, at most three steps, wakes it |
| CredentialBroker.OneAcquisition | pkg/aliyun/credential_broker.go:184-207 | two acquisitions are never in flight at once |
| CredentialBroker.ServedBelongs | pkg/aliyun/credential_broker.go:73-105 | what a guarded broker serves has both keys, is unexpired at that moment, and was seeded or belongs to the identity the guard had from the start |
| CredentialBroker.HandlerServes | pkg/aliyun/credential_broker.go:73-105 | a request is answered with its copy exactly if that has both keys and has not expired by then |
| CredentialBroker.CurrentChangesOnlyForTheBetter | pkg/aliyun/credential_broker.go:191-206 | only a seed or a successful, complete, unexpired refresh changes what is current |
| CredentialBroker.ServesStaleIff | pkg/aliyun/credential_broker.go:140-155 | the first section serves a copy that has expired by then if and only if the expiry lies between the time read and the clock |
| CredentialBroker.HandedOutStaleIff | pkg/aliyun/credential_broker.go:140-182 | in every run a copy that is handed out has expired if and only if it was handed out before a wait and its expiry lies between the time its request read and the clock |
| CredentialBroker.SnapshotCanBeStale | pkg/aliyun/credential_broker.go:140-155 | such a run, in which the copy is not served |

## Left out

- FilePrimitives.Target.AtomicWritePrivate: stands for AtomicWrite as well; the metadata that AtomicWrite keeps (mode, owner, extended attributes) is not modelled.
- FilePrimitives.Target.RemovePrivateFile: the contents of the tombstone are kept for the model's own branches only; what an outside program does to it is not followed beyond a link of both names.
- A sync makes one file durable; that syncing a directory settles its other entries too is not used, so durability is claimed for less than a file system gives.
- OAuthProtocol.AgreementSurvivesIff: assumes of other processes only that they do not draw the random generation of a login, and so never produce the state that it writes; what they save otherwise, and when, is arbitrary.
- OAuthTokens.TokensSurviveIff: assumes that the service gives out no token that the disk already carries.
- OAuthConfig.SaveIsCompareAndSet: leaves out the other fields of the configuration, which OAuthDisk.Disk.SaveConfig takes as arbitrary and ConfigStore follows.
- OAuthDisk.Disk.Recover: with no visible journal it returns nil without making that absence durable, as the code does; that the files agree all the same is part of its contract.
- OAuthDisk.Disk.Others: saves of other processes come between the steps of recovery, login and refresh that concern different files, not inside one of them; OAuthProtocol.OthersCommute says why that is enough for the steps on cache and journal, and a step on the configuration holds its file lock or is a single read or sync with saves let in before and behind it.
- OAuthDisk.Disk.Configure: begins at the profile lock; the browser, the callback listener, the token request before it and the account check are a given answer.
- `updated_at` of a cache entry, the size limits on reading, the journal's version and path fields and the validity of JSON are not modelled beyond a failing read.
- RequestObject.ListWithGaps: keys with a sign or leading zeros beside the plain one stand for the same number; what a list then holds twice or lacks is in NormalizeObject, with no result of its own.
- OAuthRefresh.Provider.Refresh: token and STS endpoints are nondeterministic answers; the lifetime arithmetic keeps the margins but not the clamping of absurd durations.
- Cloud SSO logins, OAuth profiles kept by other tools, role assumption and the other credential providers are not modelled.
- MetadataNumber.NormalizeMetadataNumber: covers valid JSON numbers, the only ones its caller passes; normalizeMetadata and diffMetadataMaps would add map traversals only.
- Strings.ToLower and ConfigStore.ToUpper are ASCII; names and keys here are.
- RequestObject.InsertAll: objects are values rather than maps changed in place, so sharing between a decoded value and the tree is not captured; the order of sort.Strings is replaced by any order, which covers it where no key lies below another.
- RequestObject.RequestObject: covers trees whose keys have no dot, as dotted keys cannot tell others apart, and lists no longer than an int counts.
- YamlEdit.YamlDoc.AddSchemaField: takes the description already collapsed to one line; choosing names, types and operations for an API drift is not modelled.
- BackendDetection.IdentifyBackend: the context's deadline is one more way for a lookup to fail; the caller's cache of the result is left out.
- SemVer.ParseSemVersion: the texts of the errors are not told apart.
- ConfigStore.Store.SaveContext: file locking, resolving the path again and the loss of digits when a number passes through a float are left out; the outcome of the write is a parameter.
- ConfigStore.Store.Record: a failing change leaves the memory alone; that the original may fill in a missing profile list first is part of loading here.
- FileCommit.FileSystem.CommitFileUpdates: paths are resolved by a given function, a random temporary name is never that of an output, other processes are not modelled, and nothing is claimed for a crash in the middle.
- CredentialBroker.BrokerIsSafe: HTTP, tokens in the URL, timeouts and closing are given-up requests or left out; identities are compared by hash and type, as in the code.
- CredentialBroker.AcceptedBelongs: assumes that proofs on acquired snapshots and the identity service tell the truth.
- Region and credential precedence tables, error texts, localisation, telemetry, redaction, packaging and the other resources of the repository are table lookups or plumbing.
