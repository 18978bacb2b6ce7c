// A request as a sequence of separate database steps, and the system in which the steps of many
// requests interleave. The steps are those of the four record services: read the row, check the
// request against that copy, write conditionally, append the audit entry, read the row again.
module Protocol {
  import opened Workflow
  import opened Text
  import opened Records

  datatype Op =
    | Create(code: string, input: Fields)
    | Update(id: nat, input: Fields, expected: nat)
    | Transition(id: nat, target: Status, expected: nat, reason: string)
    | Delete(id: nat)
    | Fetch(id: nat)

  // actor and role come from the verified token. All texts of an operation are already in the form
  // the services store: trimmed, and upper-cased in the case of the two codes.
  datatype Request = Request(kind: Kind, op: Op, actor: string, role: Role, requestId: string)

  datatype Error =
    | Forbidden | NotFound | InvalidInput | InvalidTransition | VersionConflict
    | DecisionLocked | NotDecisionOwner | ReviewRole | SeparationOfDuty
    | AuditFailed | StoreError

  datatype Outcome = Returned(row: Row, revisions: seq<Revision>) | Removed | Failed(error: Error)

  // Where a request stands between two database steps.
  datatype Pc =
    | Begin
    | Inserting
    | Ready(snap: Row)
    | Auditing(key: Key, entry: Entry, item: Row)
    | Reread(key: Key)
    | Preload(key: Key, row: Row)
    | Done(outcome: Outcome)

  // What a step takes from outside: the clock, the id the database assigns, and whether the
  // store, or the audit append, fails.
  datatype Env = Env(now: int, freshId: nat, storeOk: bool, auditOk: bool)

  // ---- the checks ------------------------------------------------------------

  function RoleRank(role: Role): nat {
    match role case Viewer => 1 case Operator => 2 case Reviewer => 3 case Admin => 4
  }

  // The route guards: everybody reads, operators and above write, administrators delete.
  predicate RouteAllows(req: Request) {
    match req.op
    case Fetch(_) => true
    case Delete(_) => req.role == Admin
    case _ => RoleRank(req.role) >= RoleRank(Operator)
  }

  predicate FilledIn(kind: Kind, f: Fields) {
    && f.name != "" && f.facility != "" && f.owner != ""
    && (kind == Priority ==> f.evidence != "" && f.relatedCode != "")
  }

  // The service's verdict on a request, given the copy of the row it read.
  function Check(req: Request, row: Row): Option<Error> {
    match req.op
    case Update(_, input, _) =>
      if req.kind == Priority && row.status != InitialStatus(Priority) then Some(DecisionLocked)
      else if req.kind == Priority && req.actor != row.preparedBy && req.role != Admin then Some(NotDecisionOwner)
      else if Blank(row.code) || !FilledIn(req.kind, input) then Some(InvalidInput)
      else None
    case Transition(_, target, _, _) =>
      if req.kind == Priority && req.role != Reviewer && req.role != Admin then Some(ReviewRole)
      else if req.kind == Priority && req.actor == row.preparedBy then Some(SeparationOfDuty)
      else if !CanTransition(req.kind, row.status, target) then Some(InvalidTransition)
      else None
    case Delete(_) =>
      if req.kind == Priority && row.status != InitialStatus(Priority) then Some(DecisionLocked)
      else None
    case _ => None
  }

  // ---- what is written -------------------------------------------------------

  function NewRow(req: Request, now: int): Row
    requires req.op.Create?
  {
    Row(req.op.code, InitialStatus(req.kind), 1, req.op.input,
        if req.kind == Priority then req.actor else "", now, now, false)
  }

  // The row an update or a transition wants to store, computed from the copy it read.
  function Desired(op: Op, snap: Row, now: int): Row
    requires op.Update? || op.Transition?
  {
    match op
    case Update(_, input, expected) => snap.(fields := input, version := expected + 1, updatedAt := now)
    case Transition(_, target, expected, _) => snap.(status := target, version := expected + 1, updatedAt := now)
  }

  function ReasonOf(op: Op): string {
    match op
    case Create(_, _) => "decision draft created"
    case Update(_, _, _) => "draft business fields updated"
    case Transition(_, _, _, reason) => reason
    case _ => ""
  }

  function NewRevision(id: nat, item: Row, req: Request): Revision {
    Revision(id, item.version, item.status, item.fields.evidence, ReasonOf(req.op), req.actor, req.requestId, Full(item))
  }

  function AuditActor(actor: string): string { if actor == "" then "system" else actor }

  function AuditRequestId(requestId: string): string { if requestId == "" then "untracked" else requestId }

  function VerbOf(op: Op): Verb {
    match op
    case Create(_, _) => CreateVerb
    case Transition(_, _, _, _) => TransitionVerb
    case Delete(_) => DeleteVerb
    case _ => UpdateVerb
  }

  function NewEntry(req: Request, key: Key, before: Option<Status>, after: Option<Status>): Entry {
    Entry(AuditActor(req.actor), AuditRequestId(req.requestId), VerbOf(req.op), key, before, after)
  }

  // ---- the steps of one request ----------------------------------------------

  predicate Targets(op: Op) { !op.Create? }

  function KeyOf(req: Request): Key
    requires Targets(req.op)
  {
    Key(req.kind, req.op.id)
  }

  // Route guard, first read and checks.
  function BeginStep(rows: map<Key, Row>, req: Request): Pc {
    if !RouteAllows(req) then Done(Failed(Forbidden))
    else match req.op
      case Create(code, input) => if code != "" && FilledIn(req.kind, input) then Inserting else Done(Failed(InvalidInput))
      case Fetch(_) => Reread(KeyOf(req))
      case _ =>
        if !Live(rows, KeyOf(req)) then Done(Failed(NotFound))
        else match Check(req, rows[KeyOf(req)])
          case Some(e) => Done(Failed(e))
          case None => Ready(rows[KeyOf(req)])
  }

  // Insert the row and, for a decision, its first revision, in one transaction.
  function InsertStep(tb: Tables, req: Request, env: Env): (Tables, Pc)
    requires req.op.Create?
  {
    var key := Key(req.kind, env.freshId);
    var row := NewRow(req, env.now);
    // The revision is built before the database has set the two time stamps.
    var rev := NewRevision(key.id, row.(createdAt := 0, updatedAt := 0), req);
    if key in tb.rows || CodeTaken(tb.rows, req.kind, row.code) then (tb, Done(Failed(StoreError)))
    else if req.kind == Priority && HasRevision(tb.revisions, rev.decisionId, rev.version) then (tb, Done(Failed(StoreError)))
    else
      (tb.(rows := tb.rows[key := row],
           revisions := if req.kind == Priority then InsertRevision(tb.revisions, rev) else tb.revisions),
       Auditing(key, NewEntry(req, key, None, Some(row.status)), row))
  }

  // Compare and set plus, for a decision, the revision, in one transaction; or the soft delete.
  function WriteStep(tb: Tables, req: Request, snap: Row, env: Env): (Tables, Pc)
    requires req.op.Update? || req.op.Transition? || req.op.Delete?
  {
    var key := KeyOf(req);
    if req.op.Delete? then
      if Live(tb.rows, key) then
        (tb.(rows := tb.rows[key := tb.rows[key].(deleted := true)]),
         Auditing(key, NewEntry(req, key, Some(snap.status), None), snap))
      else (tb, Done(Failed(NotFound)))
    else
      var next := Desired(req.op, snap, env.now);
      var rev := NewRevision(key.id, next, req);
      match CompareAndSet(tb.rows, key, req.op.expected, next)
      case None => (tb, Done(Failed(VersionConflict)))
      case Some(rows) =>
        if req.kind == Priority && HasRevision(tb.revisions, rev.decisionId, rev.version) then (tb, Done(Failed(StoreError)))
        else
          (tb.(rows := rows, revisions := if req.kind == Priority then InsertRevision(tb.revisions, rev) else tb.revisions),
           Auditing(key, NewEntry(req, key, Some(snap.status), Some(next.status)), next))
  }

  // A failed append is ignored by create and update and reported by transition and delete.
  function AuditStep(tb: Tables, req: Request, pc: Pc, env: Env): (Tables, Pc)
    requires pc.Auditing?
  {
    (if env.auditOk then tb.(audits := tb.audits + [pc.entry]) else tb,
     if !env.auditOk && (req.op.Transition? || req.op.Delete?) then Done(Failed(AuditFailed))
     else if req.op.Delete? then Done(Removed)
     else if req.op.Create? && req.kind != Priority then Done(Returned(pc.item, []))
     else Reread(pc.key))
  }

  // The read that ends a request: the row, then, for a decision, its revisions in a second query.
  function RereadStep(tb: Tables, pc: Pc): Pc
    requires pc.Reread? || pc.Preload?
  {
    match pc
    case Reread(key) =>
      if !Live(tb.rows, key) then Done(Failed(NotFound))
      else if key.kind == Priority then Preload(key, tb.rows[key])
      else Done(Returned(tb.rows[key], []))
    case Preload(key, row) => Done(Returned(row, SelectRevisions(tb.revisions, key.id)))
  }

  function StepThread(tb: Tables, req: Request, pc: Pc, env: Env): (Tables, Pc) {
    if pc.Done? then (tb, pc)
    else if pc.Auditing? then AuditStep(tb, req, pc, env)
    else if !env.storeOk then (tb, Done(Failed(StoreError)))
    else match pc
      case Begin => (tb, BeginStep(tb.rows, req))
      case Inserting => if req.op.Create? then InsertStep(tb, req, env) else (tb, pc)
      case Ready(snap) =>
        if req.op.Update? || req.op.Transition? || req.op.Delete? then WriteStep(tb, req, snap, env) else (tb, pc)
      case Reread(_) => (tb, RereadStep(tb, pc))
      case Preload(_, _) => (tb, RereadStep(tb, pc))
      case _ => (tb, pc)
  }

  // ---- the interleaved system -------------------------------------------------

  // backed: the expected version had been returned for that record by an earlier read.
  datatype Thread = Thread(req: Request, backed: bool, pc: Pc)

  // History of a committed write: what the request had read, what it found stored, what it left.
  datatype Commit = Commit(
    t: nat, req: Request, key: Key, env: Env, snap: Row, stored: Row, left: Row,
    entry: Entry, written: Option<Revision>)

  // seen, commits and lost are history: versions returned by reads, committed writes in commit
  // order, audit entries whose append failed.
  datatype System = System(
    tables: Tables, threads: seq<Thread>,
    seen: set<(Key, nat)>, commits: seq<Commit>, lost: seq<Entry>)

  datatype Action =
    | Submit(req: Request)
    | Show(key: Key)           // a list or read response carries the record's version to a client
    | Advance(t: nat, env: Env)   // the next database step of request t

  predicate Versioned(op: Op) { op.Update? || op.Transition? }

  predicate Backed(seen: set<(Key, nat)>, req: Request) {
    Versioned(req.op) ==> (KeyOf(req), req.op.expected) in seen
  }

  // The version a response carries back to the client.
  function ResponseSeen(before: Pc, after: Pc): set<(Key, nat)> {
    if after.Done? && after.outcome.Returned? && (before.Auditing? || before.Reread? || before.Preload?)
    then {(before.key, after.outcome.row.version)}
    else {}
  }

  predicate Commits(before: Pc, after: Pc) {
    (before.Inserting? || before.Ready?) && after.Auditing?
  }

  function Appended(rs: seq<Revision>, later: seq<Revision>): Option<Revision> {
    if |later| > |rs| then Some(later[|later| - 1]) else None
  }

  function NewCommit(t: nat, th: Thread, tb: Tables, later: Tables, pc: Pc, env: Env): Commit
    requires Commits(th.pc, pc)
  {
    var item := pc.item;
    Commit(t, th.req, pc.key, env,
           if th.pc.Ready? then th.pc.snap else item,
           if pc.key in tb.rows then tb.rows[pc.key] else item,
           if pc.key in later.rows then later.rows[pc.key] else item,
           pc.entry,
           Appended(RevisionsOf(tb.revisions, pc.key.id), RevisionsOf(later.revisions, pc.key.id)))
  }

  function AdvanceThread(s: System, t: nat, env: Env): System
    requires t < |s.threads|
  {
    var th := s.threads[t];
    var (tables, pc) := StepThread(s.tables, th.req, th.pc, env);
    System(tables, s.threads[t := th.(pc := pc)],
           s.seen + ResponseSeen(th.pc, pc),
           if Commits(th.pc, pc) then s.commits + [NewCommit(t, th, s.tables, tables, pc, env)] else s.commits,
           if th.pc.Auditing? && !env.auditOk then s.lost + [th.pc.entry] else s.lost)
  }

  function Step(s: System, a: Action): System {
    match a
    case Submit(req) => s.(threads := s.threads + [Thread(req, Backed(s.seen, req), Begin)])
    case Show(key) => if Live(s.tables.rows, key) then s.(seen := s.seen + {(key, s.tables.rows[key].version)}) else s
    case Advance(t, env) => if t < |s.threads| then AdvanceThread(s, t, env) else s
  }

  function Exec(s: System, run: seq<Action>): System {
    if run == [] then s else Step(Exec(s, run[..|run| - 1]), run[|run| - 1])
  }

  function Initial(tb: Tables): System {
    System(tb, [], {}, [], [])
  }

  // ---- one request alone -------------------------------------------------------

  function Remaining(pc: Pc): nat {
    match pc
    case Begin => 6 case Inserting => 5 case Ready(_) => 5 case Auditing(_, _, _) => 4
    case Reread(_) => 3 case Preload(_, _) => 2 case Done(_) => 1
  }

  // The places a request of that kind can stand at.
  predicate Fits(req: Request, pc: Pc) {
    match pc
    case Inserting => req.op.Create?
    case Ready(_) => req.op.Update? || req.op.Transition? || req.op.Delete?
    case _ => true
  }

  // Run a request to its end with nothing else in between.
  function Solo(tb: Tables, req: Request, pc: Pc, env: Env): (Tables, Outcome)
    requires Fits(req, pc)
    decreases Remaining(pc)
  {
    if pc.Done? then (tb, pc.outcome)
    else
      var (later, next) := StepThread(tb, req, pc, env);
      Solo(later, req, next, env)
  }

  function Serve(tb: Tables, req: Request, env: Env): (Tables, Outcome) {
    Solo(tb, req, Begin, env)
  }

  lemma SoloUnfolds(tb: Tables, req: Request, pc: Pc, env: Env)
    requires Fits(req, pc) && !pc.Done?
    ensures var (later, next) := StepThread(tb, req, pc, env);
            Solo(tb, req, pc, env) == Solo(later, req, next, env)
  {
  }
}
