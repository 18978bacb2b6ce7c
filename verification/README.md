# Railway bridge defect priorities: verified model

This project models the write paths of the railway bridge defect platform and proves what they keep.

* **The versioned write protocol.** A request for a bridge, an inspection, a defect or a priority
  decision runs as separate database steps: read the row, check the request against that copy,
  compare the stored version with the client's expected version and overwrite, append an audit entry,
  read again. `Protocol` defines these steps once (`StepThread`), lets the steps of any number of
  requests interleave (`System`, `Step`, `Exec`) and runs one request alone (`Serve`). Theorems are
  about every run `Exec(Initial(tb), run)` from any sound tables.
* **The objects that do it.** `Services` has the repository and the record services as classes that
  overwrite tables step by step; every service method is proved to be the uninterrupted run of its
  request, with the effect `Acceptance` states in terms of roles, names and columns. `Refinement` connects both with a reference that serves one request atomically.
* **The rate limiter**, with its bucket map, the cleanup loop and the Redis-first path.
* **Edges of the system**: seeding, the overview's counts, listing, the client's store, and the
  buttons the page offers.

The compare uses the expected version of the request, not the version of the copy it has just read.
Some theorems hold for any expected version; others need it to have been returned by an earlier read
of the record, which is how the frontend obtains it. A request of that kind is *backed*
(`Thread.backed`), and `AllBacked` asks it of the requests on one record only. What a version that was
not read can do is stated exactly by `Finality.GuessedVersionReopens`. `commits`, `lost` and `seen` in
`System` are history, read by no step.

## Files

| file | content |
|---|---|
| Text, Workflow, Records | strings, the four status graphs, rows, revisions, conditional writes, sound tables |
| Protocol, Invariants, History | steps of a request, interleaving, invariants for any expected versions, facts about every commit |
| Finality, Contention, Refinement, Review, Journey, Audit | the main theorems about runs |
| Effects, Acceptance | what commits, entries and responses hold column by column; which requests are accepted and what each answer is |
| Serving, Services, Seeding | one request from beginning to end; repository, services and start-up seeding as imperative code |
| RateLimit, Paging, Access, Client | limiter, listing, buttons against server, entity store |

## Findings

* **A final decision can be rewritten by a guessed version.** The repository's README calls observe,
  restrict and urgent final states that cannot be overwritten. In fact a final decision keeps its status,
  fields and revisions in every continuation if and only if no request is *armed* against it: one that
  was checked while the decision was a draft, has not written yet, and expects the version now stored
  (`Finality.FinalExactly`). A request waiting on a draft can become armed if and only if it expects a
  version ahead of the stored one (`Finality.GuessedVersionReopens`), which versions taken from reads
  never are (`Finality.BackedIsUnarmed`). Requests that arrive when the decision is final are refused
  whatever they expect (`Finality.FinalForever`).
* **A delete can remove a decision finalised after its check**, since it compares no version
  (`Finality.DeleteHitsFinal`); its audit entry then names the status it had read. With versions from reads
  it happens exactly if a finalisation commits between the delete's read and its write
  (`Refinement.DeleteFoundFinal`), and this is the only way in which an interleaving of such requests is not
  equivalent to a serial order (`Refinement.DisciplinedClientsSeeSerialOrder`).
* **Buttons and server disagree on user names with outer white space**: the page compares the raw name with the
  preparer, the server the trimmed one (`Access.ButtonsMatchServer`). Stored preparers are trimmed, so
  it only happens that a button is offered and then refused (`Access.OnlyOffersTooMuch`,
  `Access.OfferedButRefused`). The seeded user names have no outer white space, and nothing in the
  repository calls `CreateUser`, so such a name has to come from elsewhere.
* **The seeding counts live decisions, the unique index on codes sees all**: with every decision soft-deleted and
  a seed code among them it would fail (`Seeding.SeedPriorityDecisions`). It takes tables this program
  did not write: two of the seeded decisions are final, stay live under all requests of all later
  processes, and make every later seeding a no-op (`Seeding.SeededStaysPopulated`).
* **A page size above 100** becomes 20 in the handler and would become 100 in the repository
  (`Paging.Normalisations`).

## Model

| member | source | states |
|---|---|---|
| Workflow.CyclicEdges | backend/internal/constants/status.go:28-48 | the bridge, inspection and defect graphs are one law: an edge joins listed statuses one or two places forward or one place back, and every such pair is an edge |
| Workflow.EdgesByPosition | backend/internal/constants/status.go:28-48 | the same law over positions in the lists of statuses as the graphs name them |
| Records.OrderByVersionSorts | backend/internal/repository/priority_decision.go:54-56 | the revision query returns all revisions of the decision, each once, in ascending version order |
| Records.NextRevisionIsNew | backend/internal/model/priority_decision.go:34-35 | in sound tables the unique (decision, version) index has no entry for the next version |
| Invariants.RevisionChain | backend/internal/repository/priority_decision.go:59-84 | whatever expected versions are sent and however requests interleave, every decision keeps revisions 1..version without gap or duplicate, the last one showing the row's status, evidence and, but for its update time, full snapshot, the first one signed by the preparer, final ones by somebody else; rows only move to higher versions or become deleted |
| Invariants.InsertNeverRejected | backend/internal/repository/priority_decision.go:69-84 | a checked update or transition commits exactly if the row is live at the expected version and conflicts otherwise; the unique index never rejects the insert after a successful compare |
| Invariants.ReadsAreCoherent | backend/internal/repository/priority_decision.go:52-58 | a response read in two queries, with anything in between, has revisions 1..m, m at least the row's version, and the revision of that version fits the row's status and evidence |
| Invariants.HeldVersions | frontend/src/stores/factory.ts:16-19 | no version ever shown to a client exceeds the stored one, so a backed expected version never exceeds that of the copy the request reads |
| Invariants.ResponsesAreSeen | frontend/src/stores/factory.ts:9-19 | in every run the version of every response was recorded as shown, so a request built from a response is backed |
| Finality.NoStaleOverwrite | backend/internal/repository/priority_decision.go:69-80 | at a successful compare the copy that was checked is the stored row if and only if the expected version does not exceed its version, hence for every backed request |
| Finality.FinalisationCarriesDraft | backend/internal/service/priority_decision.go:119-131 | a backed finalisation starts from a draft and changes status, version and update time of the row only |
| Finality.FinalisationCarriesEvidence | backend/internal/service/priority_decision.go:127-131 | its revision comes right after the draft's and carries the same evidence |
| Finality.FinalExactly | backend/internal/service/priority_decision.go:75-77 | no continuation of a run rewrites a final decision if and only if no waiting request that had checked the draft expects the stored version; none touches a live one at all if and only if no delete waits either |
| Finality.FinalForever | backend/internal/service/priority_decision.go:75-77 | without such a request a final decision keeps its row and revisions whatever requests follow and whatever versions they expect; only a delete that had already passed its check can set the deleted flag |
| Finality.FinalFromTheStart | backend/internal/service/priority_decision.go:119-121 | a decision that is final when a process starts is never touched by it |
| Finality.BackedIsUnarmed | frontend/src/stores/factory.ts:19 | no backed request can rewrite a final decision |
| Finality.FinalRevisionIsLast | backend/internal/model/priority_decision.go:29-31 | with backed requests a chain has at most one final revision, the last |
| Finality.ReadYourFinalisation | backend/internal/service/priority_decision.go:131-137 | a backed priority transition that succeeds returns the requested status, the version after the expected one and exactly that many revisions, whatever else ran |
| Finality.ReadYourWrite | backend/internal/service/priority_decision.go:101-105 | a successful update or transition returns a version beyond the expected one, for any expected versions |
| Finality.GuessedVersionReopens | backend/internal/service/priority_decision.go:95-101 | a waiting update or transition of a draft can rewrite it after a finalisation, all joining requests being backed, if and only if it expects a version ahead of the stored draft; an update makes it a draft again |
| Finality.DeleteHitsFinal | backend/internal/service/priority_decision.go:140-152 | a waiting delete of a draft can remove it after a backed finalisation, and its audit entry names draft |
| Contention.OneWinner | backend/internal/repository/priority_decision.go:71-80 | of requests racing for one version of a live record, amid any other requests on it and while it is not deleted, either all wait and the record is unchanged or exactly one commit has spent the version, on the row they had found; every racer but its author waits or ended in a version conflict and committed nothing |
| Contention.AllOthersConflict | backend/internal/repository/base.go:59-69 | once a racer has had its turn there is that one commit, and every other racer that had its turn has conflicted; if all who expect the version race, its author is one of them |
| Refinement.InterleavingIsSerial | backend/internal/service/priority_decision.go:43-152 | rows and revisions of an interleaved run are those of serving its committed requests atomically, one at a time, in commit order, if each commit found what its check had seen |
| Refinement.DisciplinedClientsSeeSerialOrder | backend/internal/service/priority_decision.go:43-152 | with backed updates and transitions an interleaving is equivalent to its commits served one at a time in commit order if and only if no finalisation committed between the read and the write of a delete of the same decision |
| Refinement.FaithfulWrites | backend/internal/service/defect_finding.go:83-87 | a committed update or transition found the row it had checked if and only if its expected version was not ahead of the copy |
| Refinement.FaithfulDeletes | backend/internal/service/priority_decision.go:140-152 | for any expected versions a committed delete was still allowed by the row it found unless it is of a decision whose last write before it was a finalisation committed after the read |
| Refinement.FoundFinal | backend/internal/repository/priority_decision.go:69-84 | for any expected versions a write that had checked a draft found it final exactly if the last write before it was a finalisation committed after its read |
| Refinement.DeleteFoundFinal | backend/internal/service/priority_decision.go:145-150 | with backed requests a committed delete found its decision final exactly if a finalisation committed between its read and its write |
| Refinement.ServeIsAtomic | backend/internal/service/priority_decision.go:70-138 | a request served alone has exactly the effect of the atomic reference, and none if the reference refuses it |
| History.StepCases | backend/internal/service/priority_decision.go:63-65 | every step either commits one request, with the recorded copy, stored row, result, entry and revision, or changes no row and no revision |
| Effects.RowsAreWritten | backend/internal/repository/base.go:59-70 | the stored rows are those of the start overwritten by what the commits left, in commit order |
| Effects.CreateStores | backend/internal/service/priority_decision.go:52-65 | a committed creation stores the given code and fields in version 1 of its kind's initial status, and for a decision its author as preparer |
| Effects.UpdateStores | backend/internal/service/priority_decision.go:84-101 | a committed update stores the given fields, the next version and its time, keeps the status it had read, and changes no other column of the stored row |
| Effects.TransitionStores | backend/internal/service/defect_finding.go:97-106 | a committed transition of any kind stores the status asked for; when backed it changes status, version and update time only |
| Effects.DeleteStores | backend/internal/repository/base.go:72-81 | a committed delete sets the deleted flag of a live row and nothing else, and writes no revision |
| Effects.RevisionStores | backend/internal/service/priority_decision.go:127-131 | the revision of a commit has the version and status it left, the evidence given or read, the reason, and the actor and request id of the request |
| Effects.EntryNames | backend/internal/service/security.go:58-73 | the audit entry of a commit names actor and request id as they came, system and untracked exactly for empty ones, the operation, the record and the statuses before and after |
| Effects.CodesStayUnique | backend/internal/model/base.go:13 | in every run no two records of a kind share a code, deleted ones included |
| Effects.ResponsesTellTruth | backend/internal/service/priority_decision.go:131-137 | success means exactly one commit of the request, a reported audit failure one too, a refusal or conflict none; no request commits twice |
| Effects.ResponsesShowStored | backend/internal/repository/priority_decision.go:52-58 | a returned row was, at some moment of the run, the stored live row of the record the request names or has created |
| Effects.StoreDown | backend/internal/service/priority_decision.go:71-74 | a failed database step before or after the audit append changes nothing and is reported |
| Acceptance.RolesAllowed | backend/internal/middleware/auth.go:78-89 | everybody reads, operators, reviewers and administrators write, administrators delete |
| Acceptance.CreateServed | backend/internal/service/priority_decision.go:43-68 | a creation served alone is accepted exactly from a writer with code and texts, a new id and an unused code; what it stores and answers, and the error otherwise |
| Acceptance.UpdateServed | backend/internal/service/priority_decision.go:70-106 | an update served alone is accepted exactly for the stored version of a live record, of a decision only as a draft from its preparer or an administrator; what it stores and answers, and the error otherwise |
| Acceptance.TransitionServed | backend/internal/service/priority_decision.go:108-138 | the same for a transition: edge and version, of a decision a reviewer or administrator who is not the preparer; a failed audit append is reported, but the write stays |
| Acceptance.DeleteServed | backend/internal/service/priority_decision.go:140-152 | the same for a delete |
| Acceptance.FetchServed | backend/internal/repository/priority_decision.go:52-58 | a read returns a live record as stored with all its revisions, and nothing else |
| History.VersionsSpentOnce | backend/internal/repository/base.go:59-69 | of two committed updates or transitions of one record of any kind the later one expected the higher version, in every run: no version is spent twice |
| History.StaleMeansOvertaken | backend/internal/repository/priority_decision.go:69-80 | the copy a request had checked was out of date at its commit exactly if another write of the record committed after its read |
| Review.IndependentReview | backend/internal/service/priority_decision.go:113-118 | for any expected versions, a final revision comes from a transition by a reviewer or admin who is not the author of revision 1, the recorded preparer; a later draft revision from an update by that preparer or an admin |
| Review.RevisionsAreWritten | backend/internal/repository/priority_decision.go:81-82 | the revisions of a decision are those it started with followed by those of the commits on it, in commit order, and preparers never change |
| Journey.StatusesFormWalk | backend/internal/service/defect_finding.go:92-112 | with backed requests the committed statuses of a record are a walk in its graph, starting at the initial status if it was created and ending at the stored one |
| Journey.RankFollowsMoves | backend/internal/service/inspection_round.go:92-112 | after f forward and b backward transitions and u updates of a bridge, inspection or defect the version has grown by f+b+u and the rank by between f-b and 2f-b |
| Audit.ExactConservation | backend/internal/repository/base.go:83-100 | at every state of every run, the change of a status count is the logged flow plus lost and pending flow plus the skew of commits whose copy had another status than the stored row |
| Audit.AuditFlowConservation | backend/internal/service/defect_finding.go:108-122 | when no entry is pending or lost, the requests on records of the kind are backed and no write overtook a delete of one, each status count of the kind is the starting count plus logged arrivals minus departures, in any order of the log |
| Audit.AuditCompleteness | backend/internal/service/security.go:58-73 | at every state, for any expected versions, the versions a record gained are its logged writes plus those awaiting their entry plus those whose entry was lost |
| Audit.LogMatchesRevisions | backend/internal/service/priority_decision.go:127-134 | with every entry written, an actor and request id sign as many new log entries of a decision as new revisions bear them, or bear none where the log has system and untracked |
| Audit.AuditBalance | backend/internal/service/security.go:68-72 | for each measure, every committed entry is logged, lost or pending, exactly once |
| Audit.LogIsCommits | backend/internal/service/security.go:68-72 | with no append outstanding, logged and lost entries together are, as multisets, those of the start and exactly those of the commits |
| Services.Database.Get | backend/internal/repository/priority_decision.go:52-58 | a live row with its ordered revisions, or nothing |
| Services.Database.CreateWithRevision | backend/internal/repository/priority_decision.go:59-68 | row and revision are both stored, or nothing is, when the id, the code or the revision exists |
| Services.Database.Update | backend/internal/repository/base.go:59-70 | the row is overwritten, but for its identity columns, exactly if it is live at the expected version |
| Services.Database.UpdateWithRevision | backend/internal/repository/priority_decision.go:69-84 | conflict, rejected revision or both writes, with rollback |
| Services.Database.Delete | backend/internal/repository/base.go:72-81 | sets the deleted flag of a live row, reports any other |
| Services.Database.Audit | backend/internal/service/security.go:58-73 | appends one entry with the actor and request id given, system and untracked for empty ones |
| Services.RequiredTexts | backend/internal/service/priority_decision.go:158-163 | the required texts of the input as it came are not blank, which is the check on the cleaned input |
| Services.CleanedTexts | backend/internal/service/priority_decision.go:53-61 | every text is stored trimmed, the related code in upper case too, other columns as they come |
| Text.TrimCuts | backend/internal/service/priority_decision.go:158-163 | trimming cuts white space off both ends and nothing else |
| Services.PriorityDecisionService.Create | backend/internal/service/priority_decision.go:43-68 | tables and outcome are those of the uninterrupted run of the request, and from sound tables those of `CreateEffect`, stated by columns |
| Services.PriorityDecisionService.Update | backend/internal/service/priority_decision.go:70-106 | the same for an update and `UpdateEffect`: accepted or refused by roles and names, the given fields stored |
| Services.PriorityDecisionService.Transition | backend/internal/service/priority_decision.go:108-138 | the same for a transition and `TransitionEffect`: the status asked for stored |
| Services.PriorityDecisionService.Delete | backend/internal/service/priority_decision.go:140-152 | the same for a delete and `DeleteEffect` |
| Services.CyclicRecordService.Create | backend/internal/service/bridge_asset.go:42-62 | the same for the other three kinds, whose creation returns the inserted item |
| Services.CyclicRecordService.Update | backend/internal/service/inspection_round.go:64-90 | the same for an update of those kinds |
| Services.CyclicRecordService.Transition | backend/internal/service/defect_finding.go:92-112 | the same for a transition of those kinds |
| Services.CyclicRecordService.Delete | backend/internal/service/bridge_asset.go:114-123 | the same for a delete of those kinds |
| Seeding.SeedPriorityDecisions | backend/internal/database/database.go:206-253 | fills a table without live decisions with three whole chains in one transaction, leaves any other alone, and fails without effect exactly if a soft-deleted row holds a seed code |
| Seeding.PlantedIsSound | backend/internal/database/database.go:235-250 | a seeded decision and its one or two revisions keep the tables sound |
| Seeding.SeedsAsShipped | backend/internal/database/database.go:213-247 | the three decisions as planted: codes, statuses, versions, preparer, and revisions signed operator and reviewer with the same evidence |
| Seeding.SeededChainsAreFinalLast | backend/internal/database/database.go:241-247 | a seeded chain has at most one final revision, the last |
| Seeding.FirstSeedingSucceeds | backend/internal/database/database.go:206-210 | tables without any decision are seeded and no code is taken |
| Seeding.SeedStays | backend/internal/database/database.go:221-231 | a seeded final decision keeps its row and revisions through all runs of all later processes |
| Seeding.SeededStaysPopulated | backend/internal/database/database.go:206-210 | seeded tables always keep a live decision, so every later seeding changes nothing and does not fail |
| Seeding.StatusCounts | backend/internal/repository/base.go:83-100 | the map built from the grouped rows gives each status its number of live records, zero when missing |
| RateLimit.Limiter.CleanupLocal | backend/internal/middleware/ratelimit.go:85-94 | deleting while iterating leaves exactly the buckets of the current or a later minute, and nothing changes below 512 entries |
| RateLimit.Limiter.IncrementLocal | backend/internal/middleware/ratelimit.go:71-83 | the bucket map stays the function of the history of calls, and the new count is returned |
| RateLimit.Limiter.Admit | backend/internal/middleware/ratelimit.go:37-55 | the Redis count decides, or the local one when Redis fails; admitted means at most the limit |
| RateLimit.WindowIsMinute | backend/internal/middleware/ratelimit.go:74-79 | a window is the interval from one full minute to the next |
| RateLimit.LimiterCountsHistory | backend/internal/middleware/ratelimit.go:71-94 | with a clock that does not fall back, the returned count is the number of calls of the key, in the whole history, with readings in the same minute of 60 seconds |
| RateLimit.WindowAdmitsUpToLimit | backend/internal/middleware/ratelimit.go:48-52 | of n calls of a key with readings in one minute exactly min(n, limit) are admitted on the local path |
| RateLimit.IntervalBound | backend/internal/middleware/ratelimit.go:48-52 | any interval of k minutes admits at most (k+1)*limit calls of a key |
| RateLimit.FallbackBound | backend/internal/middleware/ratelimit.go:37-69 | with any calls to Redis failing a minute admits at most 2*limit requests of a key |
| RateLimit.MemoryBound | backend/internal/middleware/ratelimit.go:85-94 | after every call there are at most max(512, keys of the current minute) buckets |
| RateLimit.NeverOvercounts | backend/internal/middleware/ratelimit.go:76-82 | whatever the clock does, a bucket never counts more calls than were made |
| RateLimit.FallingBackForgets | backend/internal/middleware/ratelimit.go:77-79 | a clock that falls back makes the limiter forget calls |
| Paging.PagesTile | backend/internal/repository/base.go:29-47 | pages 1 to ceil(total/pageSize) in a row show every live matching row exactly once, by falling update time and, for equal times, falling id |
| Paging.PageShows | backend/internal/repository/base.go:34-47 | item i of page p is item (p - 1) * pageSize + i of all pages in a row, every page but the last is full, and total counts all |
| Paging.Normalisations | backend/internal/handler/system.go:149-159 | the repository leaves the handler's page alone; by themselves the two differ exactly above page size 100, 20 against 100; below 1 both take 20 |
| Access.ButtonsMatchServer | frontend/src/components/EntityPage.vue:23-28 | a transition is offered if and only if the server accepts it at the current version, except exactly when trimming the user name decides whether the user is the preparer |
| Access.TrimmedNamesAgree | backend/internal/handler/system.go:170-176 | for user names without outer white space offer and acceptance always agree |
| Access.PreparersStayTrimmed | backend/internal/handler/system.go:170-176 | in every run of requests with trimmed actors stored preparers are trimmed names |
| Access.OnlyOffersTooMuch | frontend/src/components/EntityPage.vue:23-28 | the server accepts nothing that is not offered, and refuses an offered transition exactly for a user name with outer white space whose trimmed form prepared the draft |
| Access.OfferedButRefused | backend/internal/service/priority_decision.go:116-118 | a reviewer whose name starts with a blank is offered a transition of a draft of her own and refused |
| Access.TablesAgree | frontend/src/utils/format.ts:10-19 | the frontend's transition table is the server's |
| Access.RolesAtLeast | frontend/src/hooks/useAuth.ts:7-14 | the page's role comparison names operators and above, or reviewers and administrators |
| Access.RequireRoles | backend/internal/middleware/auth.go:62-76 | the guard admits exactly the listed roles |
| Client.EntityStore.Load | frontend/src/stores/factory.ts:9 | items are replaced on success and kept on failure; what is held was received |
| Client.EntityStore.Transition | frontend/src/stores/factory.ts:16-22 | the request sent expects a version some response carried; after success the items are those of the reload, after failure those of before |
| Client.ClientsAreBacked | frontend/src/stores/factory.ts:16-19 | a request expecting a version the system has shown is backed, and that version is not ahead of the stored one |

## Left out

- HTTP routing, JSON, tokens, password hashing, login, security headers, configuration, start-up retries, styles and scripts.
- The database beyond what is used: atomic transactions, row-level compare and set, live-row filtering, unique indexes and fresh ids are taken as given; a commit whose acknowledgement is lost is not modelled.
- The revision table is kept as its index on the decision id: the revisions of each decision in insertion order.
- Texts arrive in the protocol already trimmed and upper-cased (the service classes clean the business fields and the code; status and reason are taken as trimmed); upper-casing is limited to ASCII letters.
- Status texts are constructors of one datatype; texts the code does not name are `Unlisted`.
- Detail text and time of audit entries, and the creation time of revisions.
- The update time the database layer may set itself when it overwrites a row: `RevisionChain` promises nothing about the one in a snapshot.
- A Redis that loses a counter within its minute: answers for a key and minute are taken to differ.
- Search matching: an arbitrary filter on items stands for the search and status conditions.
- Versions are natural numbers; the wrap-around of an unsigned integer is not modelled.
- The seeding of users, bridges, inspections and defects, and the demonstration texts of the seeded decisions.
- The audit queries (`ListAudits`, `AuditSummary`, `EntityHistory`): they order by time alone, so tiling does not hold of them.
- In the service classes the store does not fail; store failures at any step are part of `Protocol`.
- Services.PriorityDecisionService.Create: the role is a ghost parameter, checked by the route guard before the service is reached.
