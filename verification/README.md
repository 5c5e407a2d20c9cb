# Verified models of ai-team-sync

ai-team-sync lets several coding agents work on the same repositories at once. It keeps sessions,
advisory locks on files, ticket mail and a completion outbox in one database, reaps sessions that
went silent, refuses unsafe service restarts, and installs git hooks. This project models its
stateful and string-level cores in Dafny and proves what their documentation promises.

Run `dafny verify dfyconfig.toml`.

## How the system is modelled

**Completion outbox** (`Outbox`, `OutboxRuns`, `OutboxHealth`, `OutboxTable`, `OutboxReplay`).
A table of event rows and any number of sender passes. One run interleaves recording, claiming a
batch under a fresh token, reading it back by that token, posting a row, recording its outcome,
crashing, requeueing and (for an in-memory database) suppressing, each as one atomic step. Time is an
integer argument of each step; a pass's clock reading is never later than its commit. The invariants are
over every finite run. The same statements are also a class whose methods update one table in place, with whatever other
processes commit after the claim and during each send as arbitrary functions.

**Paths, patterns and readers** (`PyStrings`, `Globs`, `PosixPaths`, `ScopePaths`, `LockReaders`,
`FileIndexes`, `ReaderOrders`, `UnlistedOverlaps`). `Globs` is a recursive model of Python's `fnmatch`:
`*` crosses "/", bracket classes follow `fnmatch.translate` as of Python 3.11 (`[]]`, `[!...]`, ranges,
an unclosed "["). On it stand
path canonicalisation, the conservative overlap tests, the placement of queries and locks in absolute
space, and the file index with its symlink aliases. A file is *covered* when either enforcement
reader says so: the edit hook's `scope_matches` or the lock reader's `reader_covers`.

**Ticket roles and mail** (`Tickets`, `TicketRuns`, `TicketStore`). Sessions with a role on a ticket,
messages with an append-only delivery log, and the handoffs they carry. A run interleaves creation,
pausing, explicit completion, reaping, resurrection, rescoping, sending, pool claims, reconciliation and
acknowledgement. Every batch of moves names the messages that are acknowledged between the SELECT and
their own compare-and-set.

**Reaper** (`Reaper`). Pass 1 judges each active session in the world of its own moment; before each
guarded transaction of pass 2 an arbitrary function of the world is applied.

**Restarts** (`JsonValues`, `RestartGate`, `Heartbeats`, `SafeRestarts`). Decoded JSON read the way
Python reads it; the acceptance of unit tables and the evidence behind a clear verdict; the heartbeat
and the pre-issue check; and `ats safe-restart` as a method over a script of answers nobody can trust,
which returns its exit and the trace of its effects. Every event of the trace is shown to be one of the
script's answers, and what is issued and posted is characterised by those answers. An automaton says
which effect may follow which; the method is proved to stay inside it, and the order of effects is
proved of every trace of the automaton. One table gives the exit and the posted outcomes of every case.
An interruption is any modelled call raising a non-Exception; there may be several.

**Smaller cores.** The hook installer over a directory of files (`HookTexts`, `GitHooks`,
`HookRoundTrips`), the capability keyring (`Keyring`), worker families (`Workers`) and the lock
de-duplication plan (`DedupeLocks`).

## What was found

Where the code and its own words disagree, the model follows the code.

- A delivered event can be sent again, and not only when a response was lost: nothing is read between a
  pass's SELECT and its sends. Without a requeue it happens exactly when a sender posts more than the
  120 s lease after its own clock reading; after a requeue, with any delay (`OutboxHealth.ResendDelays`).
  Fifty rows at 10 s each do not fit the lease; `FittingBatchKeepsClaims` says which batches do.
- `canonical_relpath` is not idempotent: "./:x" is accepted as ":x", which is then refused. It is a
  fixed point exactly when the first component kept does not begin with ":"
  (`ScopePaths.RelpathFixedPoint`).
- Indexed overlap can depend on the argument order. It never does exactly when names lead both ways,
  for all readers (`FileIndexes.IndexedOrderExact`) and for the real ones on canonical names
  (`ReaderOrders.ReadersOrderExact`); a link to an unlisted file is enough to break that
  (`UnlistedLinkExample`). A built index is safe when every listed name reaches a listed file and no
  alias name was already taken (`ExpandedIsClosed`, `ClosedIsReversible`).
- Overlap without a listing can miss a collision when every ".." of a pattern stands inside a bracket
  class: the readers compare such a pattern as text, the overlap test collapses the ".."
  (`UnlistedOverlaps.HiddenParentExample`). It never does when no component is "..", when one stands
  where no class is open, or when the canonical form spells out no more than the pattern does.
- A contributor need not stay scoped: PATCH rewrites a session's scope without looking at its role
  (`TicketRuns.RescopedContributor`). The role of a contributor or reviewer fits in just the states in
  which it is scoped as it was (`JoinedRoleFits`).
- An appended post hook is restored exactly when nothing but newlines is left of the call line once it
  is taken out: always for a hooks directory without a line-breaking character in its path, not for
  one with, say, a form feed (`HookRoundTrips.PlainDirClears`, `BrokenDirStays`). Its "\r\n" line ends
  come back as "\n".
- Exit 0 of a safe restart needs more than an accepted success: a 200 whose body cannot be read exits
  1 although the server recorded the success (`SafeRestarts.UnreadableReceipt`). The pre-issue check
  does not look at the status code of the drain snapshot (`Heartbeats.SnapshotCodeIsIgnored`), and a
  heartbeat thread that dies of an exception it does not catch is not noticed (`DeadThreadIsSilent`).
- "From here an outcome is always reported" holds from the `try` on. What raises between the cleared
  drain and the `try` escapes with no outcome posted (`SafeRestarts.SafeRestart`).

## Model

| member | source | states |
|---|---|---|
| Outbox.SelectionExists | src/ai_team_sync/completion_events.py:238-240 | the candidate query always has an answer: open rows, oldest first, at most the limit, none older left out |
| Outbox.BackoffBounds | src/ai_team_sync/completion_events.py:187-188 | retries wait between 30 s and 3600 s, never less than before, doubling until the cap |
| OutboxRuns.RunKeepsInv | src/ai_team_sync/completion_events.py:191-297 | every interleaving keeps the outbox invariant: rows, their claims and every sender's batch agree |
| OutboxRuns.ClaimedRowsArePending | src/ai_team_sync/models.py:236-247 | in every reachable state a claimed row is undelivered, unrejected and unsuppressed, and no row has two ends |
| OutboxRuns.OutcomeIsTheHolders | src/ai_team_sync/completion_events.py:199-206 | a row is ended only by the current holder of its claim, delivered exactly on that holder's 2xx; an in-memory database only suppresses |
| OutboxRuns.DeliveredWasAccepted | src/ai_team_sync/completion_events.py:259-269 | Echo has answered 2xx for every delivered event |
| OutboxRuns.DeliveredIsFinal | src/ai_team_sync/completion_events.py:191-206 | once delivered (or suppressed) a row never changes again, whatever steps follow, requeueing included |
| OutboxRuns.ClaimHeldOn | src/ai_team_sync/completion_events.py:241-246 | a claim stands, whatever other rows its sender finishes meanwhile, until the sender finishes this row, the row is requeued, or another claim takes it |
| OutboxRuns.ClaimsAreALeaseApart | src/ai_team_sync/completion_events.py:42-44 | without a requeue a second sender claims a row its first sender has not finished only strictly more than CLAIM_LEASE_S after the first claim |
| OutboxRuns.LiveSenderKeepsClaim | src/ai_team_sync/completion_events.py:214-221 | a sender inside its lease whose row was not requeued still holds the claim when it records the outcome |
| OutboxRuns.FittingBatchKeepsClaims | src/ai_team_sync/completion_events.py:42-44 | when rows per pass times time per row fits the lease, no live sender loses a claim |
| OutboxRuns.ResendOnlyByStaleSender | src/ai_team_sync/completion_events.py:209-223 | a delivered row is posted again only by a sender past its lease, or after a requeue |
| OutboxRuns.PendingReopens | src/ai_team_sync/completion_events.py:191-196 | a pending row is open again once recording, the last requeue and the last attempt plus RETRY_CAP_S are past |
| OutboxRuns.FailureWaitsItsBackoff | src/ai_team_sync/completion_events.py:270-277 | after a held failure the row is unclaimed and open again exactly from the pass's time plus the backoff of its attempts |
| OutboxHealth.EmittedAddsUp | src/ai_team_sync/completion_events.py:325-340 | in every reachable state emitted = delivered + pending + rejected + suppressed |
| OutboxHealth.RetriesAddUp | src/ai_team_sync/completion_events.py:338-338 | the retries counter is the sum over rows of their attempts beyond the first |
| OutboxHealth.AttemptsCountClaims | src/ai_team_sync/completion_events.py:241-246 | a row's attempts counts the claims of it over the whole run |
| OutboxHealth.ResendDelays | src/ai_team_sync/completion_events.py:209-223 | the delays after which a sender can post an already delivered row: without a requeue exactly those beyond CLAIM_LEASE_S, with one exactly those not negative |
| OutboxTables.OutboxTable.RecordCompletion | src/ai_team_sync/completion_events.py:159-176 | a known event id changes nothing; a new one is pending, unattempted and open exactly from its first attempt time; no other row changes |
| OutboxTables.OutboxTable.Finish | src/ai_team_sync/completion_events.py:199-206 | only the holder of the token writes: the row is freed, delivered exactly on 2xx, rejected exactly on 409 or 422, and otherwise open again exactly from its retry time; no other row changes |
| OutboxTables.OutboxTable.Requeue | src/ai_team_sync/completion_events.py:286-297 | each named row neither delivered nor suppressed is open from now on and not before, the others are untouched, and the count is of those it reopens |
| OutboxTables.OutboxTable.SendClaimed | src/ai_team_sync/completion_events.py:252-283 | row by row: a row still held is delivered or rejected at the time its send finished, by 2xx or by 409 and 422, and otherwise stays as pending as it was, freed and open again exactly from the pass's time plus the backoff of its attempts; a row no longer held and every other row keep what they have; each send is counted by what became of it |
| OutboxTables.OutboxTable.DeliverPending | src/ai_team_sync/completion_events.py:209-283 | a pass claims, then sends row by row as above; over an in-memory database it ends exactly the open rows; switched off it touches nothing; due = delivered + failed + rejected + suppressed + lost_claim |
| OutboxTables.HeldRowIsRecorded | src/ai_team_sync/completion_events.py:252-276 | after the whole pass: a row held at its own send and left alone since is delivered, rejected, or pending, unclaimed and open exactly from the pass's time plus its backoff |
| OutboxTables.ClaimedRow | src/ai_team_sync/completion_events.py:241-246 | the claiming statement row by row: exactly the picked rows still open get the token, a lease of 120 s, one more attempt and its time |
| OutboxTables.ClaimedByToken | src/ai_team_sync/completion_events.py:247-253 | a pass reads back by its fresh token only rows it claimed, and each of them unless its claim was taken away in between |
| OutboxTables.UndisturbedPass | src/ai_team_sync/completion_events.py:252-283 | a pass whose claims nobody takes loses none and counts each answer under its own name |
| OutboxReplay.EventIdInjective | src/ai_team_sync/completion_events.py:76-79 | an event id names one session and one completion time |
| OutboxReplay.ReplayPlan | src/ai_team_sync/completion_events.py:365-382 | the loop computes the plan, in order of completion |
| OutboxReplay.PlanIsSound | src/ai_team_sync/completion_events.py:365-382 | an event is planned exactly when some completed session lacks it and wants one; each names its session, completion time, reason and handoff |
| OutboxReplay.PlanKeepsOrder | src/ai_team_sync/completion_events.py:365-382 | the plan is in order of completion |
| OutboxReplay.PlanHasOneEach | src/ai_team_sync/completion_events.py:365-382 | no event id is planned twice, so applying the plan breaks no primary key |
| OutboxReplay.ReplayApply | src/ai_team_sync/completion_events.py:385-393 | adds one pending, unattempted row per planned event, with its reason and handoff flag, and touches no other |
| OutboxReplay.ReplayTwice | src/ai_team_sync/completion_events.py:365-393 | planning again after applying finds nothing, and every wanted session has its event |
| Globs.EscapedPrefix | src/ai_team_sync/scope_paths.py:214-216 | an escaped text in front of a pattern matches exactly that text, then the pattern |
| Globs.LiteralPrefix | src/ai_team_sync/scope_paths.py:107-115 | glob-free text in front of a pattern matches itself, character for character |
| Globs.LiteralMatchesItself | src/ai_team_sync/scope_paths.py:124-125 | a glob-free pattern matches exactly itself |
| Globs.StarPrefix | src/ai_team_sync/scope_paths.py:273-284 | "*" in front of a pattern matches exactly when the pattern matches some suffix |
| Globs.AnyPrefix | src/ai_team_sync/scope_paths.py:124-125 | "?" in front of a pattern takes exactly one character, whichever it is |
| Globs.MembersPrefix | src/ai_team_sync/scope_paths.py:124-125 | a class of single characters in front of a pattern takes exactly one of its members |
| Globs.OthersPrefix | src/ai_team_sync/scope_paths.py:124-125 | a negated class takes exactly one character that is no member |
| Globs.RangePrefix | src/ai_team_sync/scope_paths.py:124-125 | a range takes exactly the characters from its first to its last, both included |
| Globs.OpenPrefix | src/ai_team_sync/scope_paths.py:124-125 | a "[" that is never closed stands for itself |
| ScopePaths.RelpathAccepted | src/ai_team_sync/scope_paths.py:38-60 | an accepted path is canonical and keeps exactly the named components of its input |
| ScopePaths.RelpathAccepts | src/ai_team_sync/scope_paths.py:38-60 | which inputs are accepted, character by character and component by component |
| ScopePaths.RelpathFixedPoint | src/ai_team_sync/scope_paths.py:38-60 | canonicalising a result again gives it back exactly when the first component kept does not begin with ":", and refuses it otherwise |
| ScopePaths.RelpathDropsDot | src/ai_team_sync/scope_paths.py:38-60 | every canonical path is the result of some accepted input |
| ScopePaths.RelpathColonExample | src/ai_team_sync/scope_paths.py:47-47 | "./:x" is accepted and its own result refused |
| ScopePaths.ClaimReadsAsFnmatch | src/ai_team_sync/scope_paths.py:63-76 | an authority claim covers what fnmatch says of it, and for "dir/**" the directory itself |
| ScopePaths.CanonicalPatternSlash | src/ai_team_sync/scope_paths.py:85-104 | a canonical pattern never begins with two slashes |
| LockReaders.CanonicalUnderRoot | src/ai_team_sync/scope_paths.py:85-104 | an absolute pattern under its root has the relative pattern as its canonical form |
| LockReaders.CanonicalPatternIs | src/ai_team_sync/scope_paths.py:79-104 | of any pattern under any root: relative ones are normalised; absolute ones are too, and lose the components of their root if they begin with them and there are any, so under "/" or no absolute root they stay absolute |
| ScopePaths.LiteralPrefixLoop | src/ai_team_sync/scope_paths.py:107-115 | the loop returns the longest glob-free run of leading parts, and whether any part is left |
| ScopePaths.MayOverlapNeverMisses | src/ai_team_sync/scope_paths.py:118-136 | a file at or under the path that either reader covers by the pattern makes them overlap, for every pattern given without a leading slash, as the callers do |
| ScopePaths.MayOverlapIsExact | src/ai_team_sync/scope_paths.py:118-136 | the test holds exactly when the pattern is empty, matches the path as text, or agrees with it on every leading component before the pattern's first glob |
| ScopePaths.MayOverlapExactOnLiterals | src/ai_team_sync/scope_paths.py:133-134 | for a glob-free pattern the test holds exactly when one path lies at or under the other |
| ScopePaths.GlobFreeIsExact | src/ai_team_sync/scope_paths.py:299-314 | both readers read a glob-free pattern as exactly the path it spells |
| ScopePaths.DirectoryForms | src/ai_team_sync/hooks/pre_tool_use_lockcheck.py:75-90 | the edit hook's "dir/**" covers exactly the directory and what lies under it, and "dir/*" exactly the files in it |
| ScopePaths.AlgebraicNeverMisses | src/ai_team_sync/scope_paths.py:383-396 | if any file is covered by both canonical patterns, by either reader, they overlap |
| ScopePaths.AlgebraicIsExact | src/ai_team_sync/scope_paths.py:383-396 | the pattern test holds exactly when one pattern is everything, one is absolute and the other not, or they agree component by component up to the first glob of either, a glob-free one compared as a path |
| ScopePaths.AlgebraicSymmetric | src/ai_team_sync/scope_paths.py:383-396 | the pattern test does not depend on the order of its arguments |
| LockReaders.EscapedDirectory | src/ai_team_sync/scope_paths.py:214-216 | an escaped directory in front of "/" and a pattern: the directory as text, the pattern on the rest |
| LockReaders.AnchoredPlacement | src/ai_team_sync/scope_paths.py:273-284 | an anchored lock covers exactly the paths under its own root whose rest its relative pattern matches |
| LockReaders.AnchoredRoot | src/ai_team_sync/scope_paths.py:242-260 | an anchored lock on its root covers exactly that root |
| LockReaders.AnchoredStaysInside | src/ai_team_sync/scope_paths.py:287-296 | for every query and lock that can be placed, an anchored lock covers an absolute query only at or under its own root |
| LockReaders.PlacementOnlyAdds | src/ai_team_sync/scope_paths.py:287-296 | outside that guard placement takes away nothing the raw comparison reports, and the raw comparison is all there is where either side cannot be placed |
| LockReaders.Unplaceable | src/ai_team_sync/scope_paths.py:219-260 | which queries and which locks cannot be placed |
| LockReaders.QueryPlace | src/ai_team_sync/scope_paths.py:219-239 | where every query that can be placed is placed: normalised, absolute if it is or has a root, with a trailing slash if its text says it is a directory |
| LockReaders.LexicalPatternIs | src/ai_team_sync/scope_paths.py:193-211 | the lexical form of a pattern: its components other than "" and ".", a leading slash if it has one and a trailing one if its text says it is a directory |
| LockReaders.AbsoluteLock | src/ai_team_sync/scope_paths.py:273-296 | an absolute lock covers a placed query exactly by its lexical pattern or by the raw comparison |
| LockReaders.UnanchoredSuffixes | src/ai_team_sync/scope_paths.py:273-284 | an unanchored relative lock covers an absolute query exactly when its pattern matches some "/"-boundary suffix |
| LockReaders.CanonicalQuery | src/ai_team_sync/scope_paths.py:219-240 | where a canonical path is placed, under a root and under none |
| LockReaders.CoverageIsFnmatch | src/ai_team_sync/scope_paths.py:287-296 | under one root or none, reader_covers of a canonical path and a relative pattern without ".." is plain fnmatch of the relative path, by the pattern as written or lexically normalised |
| LockReaders.SpellingsAgree | src/ai_team_sync/scope_paths.py:219-240 | a relative path under its root and the joined absolute path are placed at the same point |
| FileIndexes.ExpandAliases | src/ai_team_sync/repo_files.py:246-250 | every self-named file under an aliased directory gets its alias name unless taken; nothing else is added or changed |
| FileIndexes.ExpandedIsUnique | src/ai_team_sync/repo_files.py:246-250 | that description leaves one result: which names are added, and for which file |
| FileIndexes.BuildAliases | src/ai_team_sync/scope_paths.py:339-346 | the alias table lists exactly the other names of each real file |
| FileIndexes.NamesOf | src/ai_team_sync/scope_paths.py:348-353 | the names returned are exactly those the index gives the file |
| FileIndexes.IndexedOverlapComplete | src/ai_team_sync/scope_paths.py:399-428 | two listed names of one real file, one covered by each pattern, make the patterns overlap in both orders |
| FileIndexes.IndexedOverlapExact | src/ai_team_sync/scope_paths.py:399-428 | with a listing patterns overlap exactly when they are equal, one matches the other as text, two names of one listed file are covered, or one names a file not created yet that the other covers by that name or by a name of what it resolves to, in either order |
| FileIndexes.IndexedOverlapByAnyName | src/ai_team_sync/scope_paths.py:362-371 | a listed name covered by one pattern and any name of the same file covered by the other make them overlap |
| FileIndexes.IndexedOrderExact | src/ai_team_sync/scope_paths.py:399-428 | for every reader and every two patterns the indexed answer is independent of their order, exactly when names lead both ways: a name of a listed name's file is listed, and its own file answers to the first name |
| FileIndexes.ClosedIsReversible | src/ai_team_sync/scope_paths.py:339-353 | an index in which every name of a file leads back to it is one whose names lead both ways |
| FileIndexes.UnlistedLinkExample | src/ai_team_sync/scope_paths.py:418-421 | with the readers themselves: a link to an unlisted file, and two patterns that overlap in one order only |
| ReaderOrders.ReadersOrderExact | src/ai_team_sync/scope_paths.py:399-428 | on an index of canonical names, under any placeable root, the real readers' answer is independent of the order of every two patterns exactly when names lead both ways |
| FileIndexes.ExpandedIsClosed | src/ai_team_sync/repo_files.py:230-251 | in an expanded listing every name of a file leads back to it exactly when every listed name reaches a listed file and no alias name was already taken by another file |
| UnlistedOverlaps.UnlistedOverlapComplete | src/ai_team_sync/scope_paths.py:413-417 | with no listing, a canonical file both patterns cover makes them overlap, for relative patterns as written that the readers and the test read alike: without "..", with one outside every class, or spelling out what their canonical form does |
| UnlistedOverlaps.MatchKeeps | src/ai_team_sync/scope_paths.py:85-104 | a file such a pattern covers, by either reader, lies under every leading component the canonical form spells out |
| UnlistedOverlaps.ParentNeverMatches | src/ai_team_sync/scope_paths.py:247-249 | a pattern with a ".." component where no class is open matches no canonical path, raw text comparison included |
| UnlistedOverlaps.SuffixMatch | src/ai_team_sync/scope_paths.py:118-125 | what the closed tokens at the front of a pattern leave over is matched by a suffix of the path |
| UnlistedOverlaps.NoClassIsOutside | src/ai_team_sync/scope_paths.py:247-249 | a ".." with no "[" before it stands where no class is open |
| UnlistedOverlaps.HiddenParentExample | src/ai_team_sync/scope_paths.py:247-249 | inside a class ".." does match: "[x/../y/]/c" and "x/?" both cover "x/c" and are said not to overlap |
| FileIndexes.AbsoluteOverlapSymmetric | src/ai_team_sync/repo_files.py:339-344 | patterns placed in no common repository overlap in both orders or in none |
| FileIndexes.AbsoluteOverlapComplete | src/ai_team_sync/repo_files.py:339-344 | a file covered by one absolute form of each is never missed |
| TicketRuns.ResolvedRole | src/ai_team_sync/ticket_roles.py:100-151 | exactly who becomes owner, contributor, reviewer or nothing |
| TicketRuns.RunKeepsInv | src/ai_team_sync/ticket_roles.py:83-302 | every run keeps single ownership, a role on every ticket session, and messages whose log, recipient and handoff agree |
| TicketRuns.OneLiveOwner | src/ai_team_sync/ticket_roles.py:5-20 | in every reachable state at most one active or paused session owns a ticket in an account |
| TicketRuns.OwnerIsFound | src/ai_team_sync/ticket_roles.py:83-97 | the owner query answers with an active or paused owner of the account other than the excluded session, and with none exactly when there is none |
| TicketRuns.RolesFitWhenGiven | src/ai_team_sync/ticket_roles.py:144-172 | a created contributor is scoped and a created reviewer is not, and a demoted owner becomes whichever fits its scope |
| TicketRuns.ReturningSession | src/ai_team_sync/ticket_roles.py:154-172 | a reaped owner that comes back keeps the ticket unless another live session owns it by then, and then goes on as what its scope fits; nobody else's row changes |
| TicketRuns.RolesFitUntilRescoped | src/ai_team_sync/ticket_roles.py:144-172 | from then on role and scope fit in every state until a PATCH changes whether the session is scoped |
| TicketRuns.JoinedRoleFits | src/ai_team_sync/ticket_roles.py:144-172 | a contributor or reviewer keeps its role over any run, and the role fits its scope in exactly the states in which it is scoped as it was |
| TicketRuns.RescopeBreaksFit | src/ai_team_sync/routers/sessions.py:1690-1691 | a PATCH is possible in every state, and breaks the fit exactly when it changes whether the session is scoped |
| TicketRuns.RescopedContributor | src/ai_team_sync/routers/sessions.py:1690-1691 | a run that leaves a live contributor unscoped: PATCH rewrites the scope without looking at the role |
| TicketRuns.LogGivesRecipient | src/ai_team_sync/message_lifecycle.py:14-23 | the log hands a message out and takes it back by turns, replaying it gives the recipient, who is another session of the ticket in the sender's account; the recipient's agent name and the handoff agree |
| TicketRuns.MessagesFollow | src/ai_team_sync/message_lifecycle.py:26-61 | over any stretch of a run an acknowledged message never moves and no log entry is lost |
| TicketRuns.ReconciledMessage | src/ai_team_sync/ticket_roles.py:199-258 | unread general mail held by a live contributor or reviewer, by a session that explicitly completed its role, or by the one named goes to the owner unless the owner sent it, else to the pool, with the release, its reason and the assignment logged, unless it is acknowledged first; every other message is untouched |
| TicketRuns.SentToOwner | src/ai_team_sync/ticket_roles.py:175-196 | a ticket message is addressed at send time to the live owner of the sender's account, and pooled only when there is none but the sender or the account is unknown |
| TicketRuns.CompletedHoldsNothing | src/ai_team_sync/message_lifecycle.py:26-61 | an explicit completion leaves the session no unread ticket mail: each goes to the pool, logged as released, unless acknowledged first; other messages are untouched |
| TicketRuns.ReconcileSettles | src/ai_team_sync/ticket_roles.py:199-258 | afterwards no unread general mail is held by a live contributor or reviewer, an explicitly completed role-holder or the named holder, and reconciling again moves nothing |
| TicketRuns.ClaimedMessage | src/ai_team_sync/ticket_roles.py:261-302 | a pool claim takes exactly the unread pooled mail of the owner's ticket and account that others sent, and logs it |
| TicketRuns.OwnerMayClaim | src/ai_team_sync/ticket_roles.py:261-302 | a session may claim the pool exactly when it is an owner, active or paused |
| TicketRuns.OwnerCollects | src/ai_team_sync/ticket_roles.py:199-302 | after reconciling and claiming, no other sender's mail of the account is in the pool or with a session that may not hold it |
| TicketStores.TicketStore.MoveRow | src/ai_team_sync/ticket_roles.py:232-256 | one compare-and-set: message, log and handoff change together exactly when recipient and receipt still match, and nothing else does |
| TicketStores.TicketStore.MoveRows | src/ai_team_sync/ticket_roles.py:230-257 | the row loop is the fold of its moves, and counts the rows nobody acknowledged first |
| TicketStores.TicketStore.Reconcile | src/ai_team_sync/ticket_roles.py:199-258 | the in-place reconciliation is the one the statements above are about, with its count |
| TicketStores.TicketStore.ClaimPool | src/ai_team_sync/ticket_roles.py:261-302 | claims for live owners only, every selected row, and counts them |
| TicketStores.TicketStore.Release | src/ai_team_sync/message_lifecycle.py:26-61 | releases the unread ticket mail of a session, and counts it |
| TicketStores.TicketStore.YieldOwnership | src/ai_team_sync/ticket_roles.py:154-172 | demotes exactly a returning owner whose ticket is taken, and moves its mail in the same step |
| Reaper.IdleMeansSilent | src/ai_team_sync/background_tasks.py:162-177 | a session is idle exactly when everything it ever did is older than its window, the fast one with a heartbeat and the slow one without |
| Reaper.RetirementIsExact | src/ai_team_sync/background_tasks.py:217-306 | a session silent in the state the transaction commits against is completed; its locks go, each journalled once with its own clock and root; one reaped event is recorded |
| Reaper.RetirementSparesTheRest | src/ai_team_sync/background_tasks.py:217-306 | a session not silent in the state the transaction commits against is left alone; every other session's row, locks and events are unchanged |
| Reaper.Service.RetireOne | src/ai_team_sync/background_tasks.py:216-322 | the guarded transaction is that retirement: its compare-and-set never misses |
| Reaper.Service.AutoComplete | src/ai_team_sync/background_tasks.py:138-330 | with arbitrary activity between the passes the sweep retires candidate by candidate in the state each transaction sees, and its count is the number of those that transaction saw silent |
| Reaper.SweepCounts | src/ai_team_sync/background_tasks.py:190-330 | under any interference the sweep completes exactly the candidates that are silent in the state their own transaction sees, and counts them |
| Reaper.Service.CheckExpiredLocks | src/ai_team_sync/background_tasks.py:74-110 | every unexpired lock stays; an expired one goes exactly when its session exists and it is not the exclusive lock of an active session or a paused one that is not stale; the rest keep their order and number |
| Reaper.QuietSweep | src/ai_team_sync/background_tasks.py:190-330 | undisturbed, the sweep changes only sessions that were silent, leaves none of its candidates silent and touches no other session |
| Reaper.RetireSparesOthers | src/ai_team_sync/background_tasks.py:162-177 | retiring one session changes no other session's verdict |
| Reaper.Service.RunCleanupOnce | src/ai_team_sync/background_tasks.py:333-343 | after a cleanup no session is silent; a lock is still there exactly when it was not due and its session was not retired; sessions only go from active to completed by the reaper |
| RestartGate.ParseUnit | src/ai_team_sync/restart_gate.py:238-320 | an accepted table yields the gate it describes, key by key with each default, and a refused table describes no gate at all |
| RestartGate.LoopProbes | src/ai_team_sync/restart_gate.py:251-267 | the probe loop returns what every entry says, in order, or the error of the first that says no probe |
| RestartGate.InterpretInflight | src/ai_team_sync/restart_gate.py:393-439 | clear exactly for a provably single, idle service with no foreign drain; unavailable exactly when that cannot be told or an expected drain is missing |
| RestartGate.InterpretComfyui | src/ai_team_sync/restart_gate.py:442-455 | clear exactly for two empty queues |
| RestartGate.RunProbe | src/ai_team_sync/restart_gate.py:458-481 | a probe is clear exactly on its own evidence; timeouts, refusals and malformed answers never are |
| RestartGate.Overall | src/ai_team_sync/restart_gate.py:484-490 | a round is clear exactly when it is not empty and every probe is |
| RestartGate.ProbeRound | src/ai_team_sync/restart_gate.py:498-507 | a round is clear exactly when every probe of the unit has its evidence |
| RestartGate.ClearedOnEvidence | src/ai_team_sync/restart_gate.py:13-33 | fail closed: an accepted unit clears exactly when each of its probes proved its own part quiet, and unless the table waives a class of evidence under its own key a probe of that kind is among them, or both drain URLs are there |
| Heartbeats.Heartbeat.BeatOnce | src/ai_team_sync/safe_restart.py:133-154 | what one renewal answer changes; no flag is ever taken back; a refusal or an uncaught exception ends the thread |
| Heartbeats.Heartbeat.Beat | src/ai_team_sync/safe_restart.py:133-161 | the thread is lost exactly when some answer it heard was a refusal; it hears up to the first refusal or uncaught exception, and has counted the renewals before it |
| Heartbeats.LostIsHeard | src/ai_team_sync/safe_restart.py:133-161 | nothing is lost exactly when each answer up to the thread's end keeps an active lease and, where needed, the drain, or is a failure of the request |
| Heartbeats.PreissueCheck | src/ai_team_sync/safe_restart.py:182-220 | empty exactly when the lease proves itself and, for drain units, every service proves it drains for this lease with nothing in flight; which exceptions leave it, and when |
| Heartbeats.SnapshotCodeIsIgnored | src/ai_team_sync/safe_restart.py:204-220 | a drain snapshot with any status code and the right body passes the check |
| Heartbeats.DeadThreadIsSilent | src/ai_team_sync/safe_restart.py:156-161 | a thread that died of an uncaught exception reports nothing lost, whatever is answered later |
| SafeRestarts.SafeRestart | src/ai_team_sync/safe_restart.py:243-405 | every event of the trace is an answer the command got; the restart is issued exactly when lease, drain, heartbeat and re-check were all granted, a success posted exactly when the restart then returned 0 and a look in time saw the unit up under a new process; and every way the command ends: its exit and the outcomes it posts, by what was answered |
| SafeRestarts.Run | src/ai_team_sync/safe_restart.py:243-405 | the command ends refused, released, unauthorized, cleared with the exception of the gap, or with an outcome posted, by those same conditions on the answers |
| SafeRestarts.Lease | src/ai_team_sync/safe_restart.py:256-270 | the lease is asked for again without the session exactly on a 404 |
| SafeRestarts.Authorized | src/ai_team_sync/safe_restart.py:335-399 | from the try on, whatever raises, an outcome is posted; the outcomes posted and the exit, by the answers: what the restart came to, or failed where it or its report raised, or aborted |
| SafeRestarts.Reprove | src/ai_team_sync/safe_restart.py:336-340 | goes on exactly when no renewal was refused or lost a needed drain, and the lease and every drain snapshot prove the authorization |
| SafeRestarts.Verify | src/ai_team_sync/safe_restart.py:351-381 | it ends by the first round that says something: success, failed, or an exception of the look, the health check or the sleep; and times out exactly when no round reached in time says anything |
| SafeRestarts.VerifyEndsOnce | src/ai_team_sync/safe_restart.py:351-381 | the answers determine how verification ends |
| SafeRestarts.RestartIsAuthorized | src/ai_team_sync/safe_restart.py:13-34 | a restart happens at most once, straight after an unlost heartbeat and a re-check that held, behind a granted lease and a cleared drain |
| SafeRestarts.OutcomeIsTrue | src/ai_team_sync/safe_restart.py:383-389 | "aborted" is posted exactly when nothing is ever issued; "success" only after rc 0, a new nonzero process id and a 2xx health check since |
| SafeRestarts.LegalIsBacked | src/ai_team_sync/safe_restart.py:243-405 | each phase of the protocol stands for events that happened |
| SafeRestarts.UnreadableReceipt | src/ai_team_sync/safe_restart.py:315-333 | a call whose success the server answers 200 with an unreadable body exits 1 |
| HookTexts.KeepLines | src/ai_team_sync/git_hook_install.py:206-217 | the loop computes the text kept, which KeptIsExact describes |
| HookTexts.KeptIsExact | src/ai_team_sync/git_hook_install.py:206-217 | kept are exactly the lines, whole and in order, that are neither a marker line nor right after one and holding the call |
| HookTexts.AppendRoundTrip | src/ai_team_sync/git_hook_install.py:205-218 | appending the call and taking it out gives the hook's text with one trailing newline exactly when only newlines are left of the call |
| HookTexts.UniversalConcat | src/ai_team_sync/git_hook_install.py:152-152 | reading in text mode distributes over appending, but for a line end split in two |
| GitHooks.HooksDir.Install | src/ai_team_sync/git_hook_install.py:135-185 | installs hook by hook and reports what it did of each; InstallKeepsAll says what that leaves |
| GitHooks.HooksDir.InstallOne | src/ai_team_sync/git_hook_install.py:146-184 | whatever the hook's files were: a chained file that is there is never replaced, another's post hook is the head of the new one or left alone, any other is kept under the chained name or left alone with SkippedChained, a hook of ours gets the given interpreter's runner; the verdict says which; every other file stays |
| GitHooks.HooksDir.Uninstall | src/ai_team_sync/git_hook_install.py:188-223 | uninstalls hook by hook |
| GitHooks.HooksDir.UninstallOne | src/ai_team_sync/git_hook_install.py:194-222 | whatever the hook's files were: the runner goes, a wrapper gives way to what it was chained from, the call is taken out of a hook of ours, another's hook stays; every other file stays |
| HookRoundTrips.InstallAgainChangesNoHook | src/ai_team_sync/git_hook_install.py:29-31 | a repeated install changes no hook file, from any files and by any two interpreters |
| HookRoundTrips.InstallPreserves | src/ai_team_sync/git_hook_install.py:15-31 | from any files: no chained file is ever changed, whatever text the hook had is afterwards at its head or in the chained file, a skipped hook is exactly as it was, and any other is ours with a current runner |
| HookRoundTrips.InstallKeepsAll | src/ai_team_sync/git_hook_install.py:135-185 | the same of an install of any list of hooks over any directory, and nothing else changes; each hook's first verdict says what was found |
| HookRoundTrips.UninstallKeepsAll | src/ai_team_sync/git_hook_install.py:188-223 | an uninstall over any directory leaves each listed hook as described, loses no chained text, and changes nothing else |
| HookRoundTrips.UninstallRestores | src/ai_team_sync/git_hook_install.py:188-223 | one uninstall gives a hook's files back exactly when an appended call can be taken out |
| HookRoundTrips.RoundTrip | src/ai_team_sync/git_hook_install.py:135-223 | from a clean directory any installs, then uninstall, restore every file, an appended hook with one trailing newline: both directions |
| HookRoundTrips.PlainDirClears | src/ai_team_sync/git_hook_install.py:167-168 | a hooks path without a line break always lets the call be taken out |
| HookRoundTrips.BrokenDirStays | src/ai_team_sync/git_hook_install.py:205-218 | a path broken by a character str.splitlines breaks at leaves a piece of the call behind |
| Keyrings.Keyring.Evict | src/ai_team_sync/session_pointer.py:515-522 | the loop computes the eviction |
| Keyrings.Keyring.Save | src/ai_team_sync/session_pointer.py:525-546 | replaces only the session's own entry, last and open, then evicts |
| Keyrings.Keyring.Mark | src/ai_team_sync/session_pointer.py:549-576 | changes exactly an entry whose state moves forward, and says so |
| Keyrings.Keyring.Load | src/ai_team_sync/session_pointer.py:616-634 | answers for exactly the session asked about; a revoked entry answers nothing |
| Keyrings.EvictionIsExact | src/ai_team_sync/session_pointer.py:315-322 | eviction drops the oldest entries that are not open, in order, and no more of them than it must |
| Keyrings.KeyringIsSound | src/ai_team_sync/session_pointer.py:315-322 | over any saves and marks no open entry is lost, every entry has its own last saved token, there are at most 32 or all are open, in the order of their last saves |
| Keyrings.StatesMoveForward | src/ai_team_sync/session_pointer.py:549-556 | between two saves of a session its state never moves back and its token stays |
| Workers.Registered | src/ai_team_sync/workers.py:198-212 | the loop finds the class of the longest registered prefix |
| Workers.LongestWins | src/ai_team_sync/workers.py:198-212 | the class found is registered, a prefix of the label, and every other registered prefix is a prefix of it |
| Workers.LabelGets | src/ai_team_sync/workers.py:215-268 | what a label gets at creation and at every later look: the class of its longest registered prefix if unbound, that class bound to the peer if it lists the account, and otherwise, or with no registered prefix, the restricted class |
| Workers.CheckBoundFamilies | src/ai_team_sync/workers.py:352-367 | accepts a registry exactly when every class under a bound one is bound to a subset of its accounts |
| Workers.BoundFamilyHolds | src/ai_team_sync/workers.py:226-244 | a label with any bound prefix gets the restricted class, or a class bound to accounts every bound prefix lists, the peer's among them |
| Workers.SessionKeepsItsClass | src/ai_team_sync/workers.py:246-268 | a session resolves to the class and binding its creation gave |
| Workers.BindingNeverGrows | src/ai_team_sync/workers.py:246-268 | under any later registry a session is bound only as at creation, and a bound one falls back only to restricted |
| DedupeLocks.Plan | scripts/dedupe_scope_locks.py:50-75 | of the locks of one session whose root and canonical pattern agree, two or more, the one that outranks the others is kept, others with authority are retained and the rest removed; a lock without a twin is in no bucket; the rank is live, exclusive, authority, expiry, id |
| DedupeLocks.BuildGroups | scripts/dedupe_scope_locks.py:52-56 | the groups are exactly the rows of each lane, in order |
| DedupeLocks.Strongest | scripts/dedupe_scope_locks.py:66-69 | the keeper ranks above every other row of its lane |
| DedupeLocks.RemovedIsCovered | scripts/dedupe_scope_locks.py:14-18 | every removed row bears no authority and leaves a keeper of its own lane above it, live and exclusive if it was |
| DedupeLocks.RemovedLockIsCovered | scripts/dedupe_scope_locks.py:14-18 | a removed lock bears no authority, and a lock of the same session, root and canonical pattern that outranks it is kept, live and exclusive if it was |
| DedupeLocks.KeeperIsLive | scripts/dedupe_scope_locks.py:14-18 | a lane with a live, or live exclusive, row keeps such a row |
| DedupeLocks.ReplanRemovesNothing | scripts/dedupe_scope_locks.py:50-75 | planning again once the removed rows are gone, at the same time, removes nothing |

## Left out

- HTTP, SQL, asyncio, subprocess, threads, systemd and git: each call is an atomic step or an arbitrary
  answer; statements the database serialises are single steps.
- Event payloads, their hashes and the wire format: an event is its id, reason and handoff flag, and the
  uncommitted file names a reap reports are not modelled.
- `replace_lifecycle_marker` and the summaries it rewrites: text extraction by regular expression.
- Lock restoration after a mistaken reap, and the renewal of journalled locks on resurrection.
- `RepoContext.place` and `resolved_relpath`: they ask git and the file system where a path lies;
  overlap starts from placed values and an abstract listing.
- Readdressing a message, direct mail and decisions: they keep their exact addressee whatever its role.
- Between a SELECT of mail and its compare-and-sets only acknowledgements interleave; the other writers
  take the acquisition guard or the database's writer lock.
- Console output, hints, dashboards, briefs and evidence collectors: display.
- TOML and JSON parsing, URL and path syntax: values start parsed; the bootstrap table of a unit and the
  syntax checks are arbitrary predicates. The bootstrap restart and its evidence are not modelled.
- The sanity of a grant's body before authorization, the wrapper's background thread timing, and the
  clock: a verification round takes half a second or more.
- What the wrapper script does after its head line, the runner's text, and which texts count as shell
  scripts: arbitrary, so the round trip holds for any of them. Unknown hook names, unreadable hooks,
  symbolic links, file modes and undecodable bytes.
- File permissions, locking and the on-disk form of the keyring; the legacy and delegated files are what
  they answer.
- Worker capabilities, cost classes and the building of entries.
- The order of lanes in the de-duplication report, and of the other rows within a lane.
- UnlistedOverlapComplete: takes stripped relative patterns; absolute ones under a repository root are
  compared after the root is cut off, which is not modelled for a root that holds glob characters. Of
  patterns whose every ".." hides in a class it says nothing more: whether one misses a file depends on
  which paths its classes match.
- ReadersOrderExact: asks for canonical names; a listed name that holds glob characters is not covered.
- CoverageIsFnmatch: asks for a canonical, stripped path and a stripped relative pattern without "..";
  query paths with a trailing slash are placed but not compared.
- MayOverlapNeverMisses: takes patterns without a leading slash, the form its documentation asks for.
- ExpandAliases: takes no link that points at itself, as `_build_index` skips those.
- RunCleanupOnce: is about a cleanup nobody else writes during; AutoComplete has no such limit.
- ClearedOnEvidence: two equal probes of a unit get equal answers; ProbeRound has no such limit.
