// The repository and the record services as the program runs them: objects that overwrite stored
// tables step by step. Each service method is proved to be the uninterrupted run of its request.
module Services {
  import opened Workflow
  import opened Text
  import opened Records
  import opened Protocol
  import opened Serving
  import opened Acceptance

  // The database as the repositories use it. A transaction that fails leaves it as it was.
  class Database {
    var rows: map<Key, Row>
    var revisions: RevisionTable
    var audits: seq<Entry>

    ghost function State(): Tables
      reads this
    {
      Tables(rows, revisions, audits)
    }

    constructor ()
      ensures State() == Tables(map[], map[], [])
    {
      rows, revisions, audits := map[], map[], [];
    }

    // The row if it is live, then its revisions in version order.
    method Get(key: Key) returns (row: Option<Row>, history: seq<Revision>)
      ensures row == if Live(rows, key) then Some(rows[key]) else None
      ensures history == if key.kind == Priority && Live(rows, key) then SelectRevisions(revisions, key.id) else []
    {
      row, history := None, [];
      if key in rows && !rows[key].deleted {
        row := Some(rows[key]);
        if key.kind == Priority {
          history := SelectRevisions(revisions, key.id);
        }
      }
    }

    method Read(key: Key) returns (out: Outcome)
      ensures out == FinalRead(State(), key)
    {
      var row, history := Get(key);
      out := if row.None? then Failed(NotFound) else Returned(row.value, history);
    }

    method Create(key: Key, item: Row) returns (ok: bool)
      modifies this`rows
      ensures ok == (key !in old(rows) && !CodeTaken(old(rows), key.kind, item.code))
      ensures rows == if ok then old(rows)[key := item] else old(rows)
    {
      ok := key !in rows && !(exists k :: k in rows && k.kind == key.kind && rows[k].code == item.code);
      if ok {
        rows := rows[key := item];
      }
    }

    method AppendRevision(revision: Revision) returns (ok: bool)
      modifies this`revisions
      ensures ok == !HasRevision(old(revisions), revision.decisionId, revision.version)
      ensures revisions == if ok then InsertRevision(old(revisions), revision) else old(revisions)
    {
      ok := !HasRevision(revisions, revision.decisionId, revision.version);
      if ok {
        revisions := InsertRevision(revisions, revision);
      }
    }

    method CreateWithRevision(key: Key, item: Row, revision: Revision) returns (ok: bool)
      modifies this`rows, this`revisions
      ensures ok == (&& key !in old(rows) && !CodeTaken(old(rows), key.kind, item.code)
                     && !HasRevision(old(revisions), key.id, revision.version))
      ensures rows == if ok then old(rows)[key := item] else old(rows)
      ensures revisions == if ok then InsertRevision(old(revisions), revision.(decisionId := key.id)) else old(revisions)
    {
      var saved := rows;
      ok := Create(key, item);
      if ok {
        var linked := revision.(decisionId := key.id);
        ok := AppendRevision(linked);
        if !ok {
          rows := saved;
        }
      }
    }

    // The optimistic lock: false when no live row has the expected version.
    method Update(key: Key, expected: nat, item: Row) returns (affected: bool)
      modifies this`rows
      ensures affected == CompareAndSet(old(rows), key, expected, item).Some?
      ensures rows == if affected then CompareAndSet(old(rows), key, expected, item).value else old(rows)
    {
      affected := key in rows && !rows[key].deleted && rows[key].version == expected;
      if affected {
        var stored := rows[key];
        rows := rows[key := item.(code := stored.code, createdAt := stored.createdAt,
                                  deleted := stored.deleted, preparedBy := stored.preparedBy)];
      }
    }

    method UpdateWithRevision(key: Key, expected: nat, item: Row, revision: Revision) returns (error: Option<Error>)
      modifies this`rows, this`revisions
      ensures error == (if CompareAndSet(old(rows), key, expected, item).None? then Some(VersionConflict)
                        else if HasRevision(old(revisions), key.id, revision.version) then Some(StoreError)
                        else None)
      ensures rows == if error.None? then CompareAndSet(old(rows), key, expected, item).value else old(rows)
      ensures revisions == if error.None? then InsertRevision(old(revisions), revision.(decisionId := key.id)) else old(revisions)
    {
      var saved := rows;
      var affected := Update(key, expected, item);
      if !affected {
        return Some(VersionConflict);
      }
      var linked := revision.(decisionId := key.id);
      var ok := AppendRevision(linked);
      if !ok {
        rows := saved;
        return Some(StoreError);
      }
      error := None;
    }

    method Delete(key: Key) returns (affected: bool)
      modifies this`rows
      ensures affected == Live(old(rows), key)
      ensures rows == if affected then old(rows)[key := old(rows)[key].(deleted := true)] else old(rows)
    {
      affected := key in rows && !rows[key].deleted;
      if affected {
        rows := rows[key := rows[key].(deleted := true)];
      }
    }

    // The audit append; available tells whether the log accepts the entry.
    method Audit(req: Request, key: Key, before: Option<Status>, after: Option<Status>, available: bool) returns (ok: bool)
      modifies this`audits
      ensures ok == available
      ensures audits == if available then old(audits) + [NewEntry(req, key, before, after)] else old(audits)
      ensures available ==>
                var e := audits[|old(audits)|];
                && e.actor == (if |req.actor| > 0 then req.actor else "system")
                && e.requestId == (if |req.requestId| > 0 then req.requestId else "untracked")
                && e.key == key && e.before == before && e.after == after
    {
      var actor, requestId := req.actor, req.requestId;
      if actor == "" {
        actor := "system";
      }
      if requestId == "" {
        requestId := "untracked";
      }
      ok := available;
      if ok {
        audits := audits + [Entry(actor, requestId, VerbOf(req.op), key, before, after)];
      }
    }
  }

  // ---- request texts -------------------------------------------------------------------------

  function CleanCode(code: string): string { Upper(Trim(code)) }

  function Cleaned(f: Fields): Fields {
    f.(name := Trim(f.name), description := Trim(f.description), facility := Trim(f.facility),
       owner := Trim(f.owner), category := Trim(f.category), metricUnit := Trim(f.metricUnit),
       evidence := Trim(f.evidence), relatedCode := CleanCode(f.relatedCode))
  }

  // Every text is stored trimmed, the related code in upper case too; the other columns as they come.
  lemma CleanedTexts(f: Fields)
    ensures var c := Cleaned(f);
            && c.name == Trim(f.name) && c.description == Trim(f.description) && c.facility == Trim(f.facility)
            && c.owner == Trim(f.owner) && c.category == Trim(f.category) && c.metricUnit == Trim(f.metricUnit)
            && c.evidence == Trim(f.evidence) && c.relatedCode == Upper(Trim(f.relatedCode))
            && c.riskLevel == f.riskLevel && c.metricValue == f.metricValue && c.effectiveAt == f.effectiveAt
  {
  }

  // The required texts of the input; a decision needs evidence and a related code as well.
  method RequiredTexts(kind: Kind, f: Fields) returns (filled: bool)
    ensures filled == FilledIn(kind, Cleaned(f))
    ensures filled <==> && !Blank(f.name) && !Blank(f.facility) && !Blank(f.owner)
                        && (kind == Priority ==> !Blank(f.evidence) && !Blank(f.relatedCode))
  {
    BlankMeansTrimmedAway(f.name);
    BlankMeansTrimmedAway(f.facility);
    BlankMeansTrimmedAway(f.owner);
    BlankMeansTrimmedAway(f.evidence);
    BlankMeansTrimmedAway(f.relatedCode);
    filled := !(Trim(f.name) == "" || Trim(f.facility) == "" || Trim(f.owner) == "");
    if kind == Priority {
      filled := filled && !(Trim(f.evidence) == "" || Trim(f.relatedCode) == "");
    }
  }

  method CodeGiven(code: string) returns (given: bool)
    ensures given == !Blank(code)
    ensures given == (CleanCode(code) != "")
  {
    given := Trim(code) != "";
    BlankMeansTrimmedAway(code);
  }

  class PriorityDecisionService {
    const db: Database

    constructor (db: Database)
      ensures this.db == db
    {
      this.db := db;
    }

    // Create: the texts are checked and cleaned; Insert does the rest.
    method Create(code: string, input: Fields, actor: string, requestId: string,
                  now: int, freshId: nat, auditOk: bool, ghost role: Role) returns (out: Outcome)
      requires RoleRank(role) >= RoleRank(Operator)
      modifies db
      ensures var req := Request(Priority, Op.Create(CleanCode(code), Cleaned(input)), actor, role, requestId);
              (db.State(), out) == Serve(old(db.State()), req, WorkingEnv(now, freshId, auditOk))
      ensures var req := Request(Priority, Op.Create(CleanCode(code), Cleaned(input)), actor, role, requestId);
              Sound(old(db.State())) ==> CreateEffect(old(db.State()), req, WorkingEnv(now, freshId, auditOk), db.State(), out)
    {
      ghost var req := Request(Priority, Op.Create(CleanCode(code), Cleaned(input)), actor, role, requestId);
      if Sound(db.State()) { CreateServed(db.State(), req, WorkingEnv(now, freshId, auditOk)); }
      var given := CodeGiven(code);
      var filled := RequiredTexts(Priority, input);
      out := Insert(given && filled, CleanCode(code), Cleaned(input), actor, requestId, now, freshId, auditOk, role);
    }

    method Insert(valid: bool, code: string, fields: Fields, actor: string, requestId: string,
                  now: int, freshId: nat, auditOk: bool, ghost role: Role) returns (out: Outcome)
      requires RoleRank(role) >= RoleRank(Operator) && valid == (code != "" && FilledIn(Priority, fields))
      modifies db
      ensures var req := Request(Priority, Op.Create(code, fields), actor, role, requestId);
              (db.State(), out) == Serve(old(db.State()), req, WorkingEnv(now, freshId, auditOk))
    {
      ghost var full := Request(Priority, Op.Create(code, fields), actor, role, requestId);
      ghost var env := WorkingEnv(now, freshId, auditOk);
      SoloBegin(db.State(), full, env);
      if !valid {
        return Failed(InvalidInput);
      }
      var key := Key(Priority, freshId);
      var req := Request(Priority, Op.Create(code, fields), actor, Operator, requestId);
      var item := Row(code, InitialStatus(Priority), 1, fields, actor, now, now, false);
      var revision := NewRevision(freshId, item.(createdAt := 0, updatedAt := 0), req);
      SoloInsert(db.State(), full, env);
      var ok := db.CreateWithRevision(key, item, revision);
      if !ok {
        return Failed(StoreError);
      }
      SoloAfterCommit(db.State(), full, key, NewEntry(full, key, None, Some(item.status)), item, env);
      var _ := db.Audit(req, key, None, Some(item.status), auditOk);
      out := db.Read(key);
    }

    // The common end of update and transition: revision, conditional write, audit, final read.
    // snap is the row that was read, current the changed copy.
    method Save(req: Request, expected: nat, before: Status, current: Row, auditOk: bool, ghost snap: Row, ghost now: int)
      returns (out: Outcome)
      requires req.kind == Priority && Versioned(req.op) && req.op.expected == expected
      requires before == snap.status && current == Desired(req.op, snap, now)
      modifies db
      ensures (db.State(), out) == Solo(old(db.State()), req, Ready(snap), WorkingEnv(now, 0, auditOk))
    {
      var key := KeyOf(req);
      ghost var env := WorkingEnv(now, 0, auditOk);
      SoloWrite(db.State(), req, snap, env);
      var revision := NewRevision(key.id, current, req);
      var error := db.UpdateWithRevision(key, expected, current, revision);
      if error.Some? {
        return Failed(error.value);
      }
      SoloAfterCommit(db.State(), req, key, NewEntry(req, key, Some(before), Some(current.status)), current, env);
      var audited := db.Audit(req, key, Some(before), Some(current.status), auditOk);
      if !audited && req.op.Transition? {
        return Failed(AuditFailed);
      }
      out := db.Read(key);
    }

    method Update(id: nat, input: Fields, expected: nat, actor: string, role: Role, requestId: string,
                  now: int, auditOk: bool) returns (out: Outcome)
      requires RoleRank(role) >= RoleRank(Operator)
      modifies db
      ensures var req := Request(Priority, Op.Update(id, Cleaned(input), expected), actor, role, requestId);
              (db.State(), out) == Serve(old(db.State()), req, WorkingEnv(now, 0, auditOk))
      ensures var req := Request(Priority, Op.Update(id, Cleaned(input), expected), actor, role, requestId);
              Sound(old(db.State())) ==> UpdateEffect(old(db.State()), req, WorkingEnv(now, 0, auditOk), db.State(), out)
    {
      ghost var req := Request(Priority, Op.Update(id, Cleaned(input), expected), actor, role, requestId);
      if Sound(db.State()) { UpdateServed(db.State(), req, WorkingEnv(now, 0, auditOk)); }
      var filled := RequiredTexts(Priority, input);
      out := Edit(id, Cleaned(input), filled, expected, actor, role, requestId, now, auditOk);
    }

    method Edit(id: nat, fields: Fields, filled: bool, expected: nat, actor: string, role: Role, requestId: string,
                now: int, auditOk: bool) returns (out: Outcome)
      requires RoleRank(role) >= RoleRank(Operator) && filled == FilledIn(Priority, fields)
      modifies db
      ensures var req := Request(Priority, Op.Update(id, fields, expected), actor, role, requestId);
              (db.State(), out) == Serve(old(db.State()), req, WorkingEnv(now, 0, auditOk))
    {
      var req := Request(Priority, Op.Update(id, fields, expected), actor, role, requestId);
      SoloBegin(db.State(), req, WorkingEnv(now, 0, auditOk));
      var row, _ := db.Get(KeyOf(req));
      if row.None? {
        return Failed(NotFound);
      }
      var current := row.value;
      if current.status != InitialStatus(Priority) {
        return Failed(DecisionLocked);
      }
      if actor != current.preparedBy && role != Admin {
        return Failed(NotDecisionOwner);
      }
      var given := CodeGiven(current.code);
      if !given || !filled {
        return Failed(InvalidInput);
      }
      current := current.(fields := fields);
      current := current.(version := expected + 1);
      current := current.(updatedAt := now);
      out := Save(req, expected, current.status, current, auditOk, row.value, now);
    }

    // target and reason are the trimmed texts of the body.
    method Transition(id: nat, target: Status, expected: nat, reason: string, actor: string, role: Role, requestId: string,
                      now: int, auditOk: bool) returns (out: Outcome)
      requires RoleRank(role) >= RoleRank(Operator)
      modifies db
      ensures var req := Request(Priority, Op.Transition(id, target, expected, reason), actor, role, requestId);
              (db.State(), out) == Serve(old(db.State()), req, WorkingEnv(now, 0, auditOk))
      ensures var req := Request(Priority, Op.Transition(id, target, expected, reason), actor, role, requestId);
              Sound(old(db.State())) ==> TransitionEffect(old(db.State()), req, WorkingEnv(now, 0, auditOk), db.State(), out)
    {
      var req := Request(Priority, Op.Transition(id, target, expected, reason), actor, role, requestId);
      if Sound(db.State()) { TransitionServed(db.State(), req, WorkingEnv(now, 0, auditOk)); }
      SoloBegin(db.State(), req, WorkingEnv(now, 0, auditOk));
      var row, _ := db.Get(KeyOf(req));
      if row.None? {
        return Failed(NotFound);
      }
      var current := row.value;
      if role != Reviewer && role != Admin {
        return Failed(ReviewRole);
      }
      if actor == current.preparedBy {
        return Failed(SeparationOfDuty);
      }
      if !CanTransition(Priority, current.status, target) {
        return Failed(InvalidTransition);
      }
      var before := current.status;
      current := current.(status := target);
      current := current.(version := expected + 1);
      current := current.(updatedAt := now);
      out := Save(req, expected, before, current, auditOk, row.value, now);
    }

    method Delete(id: nat, actor: string, requestId: string, auditOk: bool, ghost now: int) returns (out: Outcome)
      modifies db
      ensures var req := Request(Priority, Op.Delete(id), actor, Admin, requestId);
              (db.State(), out) == Serve(old(db.State()), req, WorkingEnv(now, 0, auditOk))
      ensures var req := Request(Priority, Op.Delete(id), actor, Admin, requestId);
              Sound(old(db.State())) ==> DeleteEffect(old(db.State()), req, WorkingEnv(now, 0, auditOk), db.State(), out)
    {
      var req := Request(Priority, Op.Delete(id), actor, Admin, requestId);
      if Sound(db.State()) { DeleteServed(db.State(), req, WorkingEnv(now, 0, auditOk)); }
      var key := Key(Priority, id);
      ghost var env := WorkingEnv(now, 0, auditOk);
      SoloBegin(db.State(), req, env);
      var row, _ := db.Get(key);
      if row.None? {
        return Failed(NotFound);
      }
      var current := row.value;
      if current.status != InitialStatus(Priority) {
        return Failed(DecisionLocked);
      }
      SoloWrite(db.State(), req, current, env);
      var affected := db.Delete(key);
      if !affected {
        return Failed(NotFound);
      }
      SoloAfterCommit(db.State(), req, key, NewEntry(req, key, Some(current.status), None), current, env);
      var audited := db.Audit(req, key, Some(current.status), None, auditOk);
      out := if audited then Removed else Failed(AuditFailed);
    }
  }

  type CyclicKind = k: Kind | k != Priority witness Bridge

  // The services of bridges, inspections and defects, which differ in their graph only.
  class CyclicRecordService {
    const db: Database
    const kind: CyclicKind

    constructor (db: Database, kind: CyclicKind)
      ensures this.db == db && this.kind == kind
    {
      this.db, this.kind := db, kind;
    }

    method Create(code: string, input: Fields, actor: string, requestId: string,
                  now: int, freshId: nat, auditOk: bool, ghost role: Role) returns (out: Outcome)
      requires RoleRank(role) >= RoleRank(Operator)
      modifies db
      ensures var req := Request(kind, Op.Create(CleanCode(code), Cleaned(input)), actor, role, requestId);
              (db.State(), out) == Serve(old(db.State()), req, WorkingEnv(now, freshId, auditOk))
      ensures var req := Request(kind, Op.Create(CleanCode(code), Cleaned(input)), actor, role, requestId);
              Sound(old(db.State())) ==> CreateEffect(old(db.State()), req, WorkingEnv(now, freshId, auditOk), db.State(), out)
    {
      ghost var req := Request(kind, Op.Create(CleanCode(code), Cleaned(input)), actor, role, requestId);
      if Sound(db.State()) { CreateServed(db.State(), req, WorkingEnv(now, freshId, auditOk)); }
      var given := CodeGiven(code);
      var filled := RequiredTexts(kind, input);
      out := Insert(given && filled, CleanCode(code), Cleaned(input), actor, requestId, now, freshId, auditOk, role);
    }

    method Insert(valid: bool, code: string, fields: Fields, actor: string, requestId: string,
                  now: int, freshId: nat, auditOk: bool, ghost role: Role) returns (out: Outcome)
      requires RoleRank(role) >= RoleRank(Operator) && valid == (code != "" && FilledIn(kind, fields))
      modifies db
      ensures var req := Request(kind, Op.Create(code, fields), actor, role, requestId);
              (db.State(), out) == Serve(old(db.State()), req, WorkingEnv(now, freshId, auditOk))
    {
      ghost var full := Request(kind, Op.Create(code, fields), actor, role, requestId);
      ghost var env := WorkingEnv(now, freshId, auditOk);
      SoloBegin(db.State(), full, env);
      if !valid {
        return Failed(InvalidInput);
      }
      var key := Key(kind, freshId);
      var req := Request(kind, Op.Create(code, fields), actor, Operator, requestId);
      var item := Row(code, InitialStatus(kind), 1, fields, "", now, now, false);
      SoloInsert(db.State(), full, env);
      var ok := db.Create(key, item);
      if !ok {
        return Failed(StoreError);
      }
      SoloAfterCommit(db.State(), full, key, NewEntry(full, key, None, Some(item.status)), item, env);
      var _ := db.Audit(req, key, None, Some(item.status), auditOk);
      out := Returned(item, []);
    }

    method Save(req: Request, expected: nat, before: Status, current: Row, auditOk: bool, ghost snap: Row, ghost now: int)
      returns (out: Outcome)
      requires req.kind == kind && Versioned(req.op) && req.op.expected == expected
      requires before == snap.status && current == Desired(req.op, snap, now)
      modifies db
      ensures (db.State(), out) == Solo(old(db.State()), req, Ready(snap), WorkingEnv(now, 0, auditOk))
    {
      var key := KeyOf(req);
      ghost var env := WorkingEnv(now, 0, auditOk);
      SoloWrite(db.State(), req, snap, env);
      var affected := db.Update(key, expected, current);
      if !affected {
        return Failed(VersionConflict);
      }
      SoloAfterCommit(db.State(), req, key, NewEntry(req, key, Some(before), Some(current.status)), current, env);
      var audited := db.Audit(req, key, Some(before), Some(current.status), auditOk);
      if !audited && req.op.Transition? {
        return Failed(AuditFailed);
      }
      out := db.Read(key);
    }

    method Update(id: nat, input: Fields, expected: nat, actor: string, role: Role, requestId: string,
                  now: int, auditOk: bool) returns (out: Outcome)
      requires RoleRank(role) >= RoleRank(Operator)
      modifies db
      ensures var req := Request(kind, Op.Update(id, Cleaned(input), expected), actor, role, requestId);
              (db.State(), out) == Serve(old(db.State()), req, WorkingEnv(now, 0, auditOk))
      ensures var req := Request(kind, Op.Update(id, Cleaned(input), expected), actor, role, requestId);
              Sound(old(db.State())) ==> UpdateEffect(old(db.State()), req, WorkingEnv(now, 0, auditOk), db.State(), out)
    {
      ghost var req := Request(kind, Op.Update(id, Cleaned(input), expected), actor, role, requestId);
      if Sound(db.State()) { UpdateServed(db.State(), req, WorkingEnv(now, 0, auditOk)); }
      var filled := RequiredTexts(kind, input);
      out := Edit(id, Cleaned(input), filled, expected, actor, role, requestId, now, auditOk);
    }

    method Edit(id: nat, fields: Fields, filled: bool, expected: nat, actor: string, role: Role, requestId: string,
                now: int, auditOk: bool) returns (out: Outcome)
      requires RoleRank(role) >= RoleRank(Operator) && filled == FilledIn(kind, fields)
      modifies db
      ensures var req := Request(kind, Op.Update(id, fields, expected), actor, role, requestId);
              (db.State(), out) == Serve(old(db.State()), req, WorkingEnv(now, 0, auditOk))
    {
      var req := Request(kind, Op.Update(id, fields, expected), actor, role, requestId);
      SoloBegin(db.State(), req, WorkingEnv(now, 0, auditOk));
      var row, _ := db.Get(KeyOf(req));
      if row.None? {
        return Failed(NotFound);
      }
      var current := row.value;
      var given := CodeGiven(current.code);
      if !given || !filled {
        return Failed(InvalidInput);
      }
      current := current.(fields := fields);
      current := current.(version := expected + 1);
      current := current.(updatedAt := now);
      out := Save(req, expected, current.status, current, auditOk, row.value, now);
    }

    method Transition(id: nat, target: Status, expected: nat, reason: string, actor: string, role: Role, requestId: string,
                      now: int, auditOk: bool) returns (out: Outcome)
      requires RoleRank(role) >= RoleRank(Operator)
      modifies db
      ensures var req := Request(kind, Op.Transition(id, target, expected, reason), actor, role, requestId);
              (db.State(), out) == Serve(old(db.State()), req, WorkingEnv(now, 0, auditOk))
      ensures var req := Request(kind, Op.Transition(id, target, expected, reason), actor, role, requestId);
              Sound(old(db.State())) ==> TransitionEffect(old(db.State()), req, WorkingEnv(now, 0, auditOk), db.State(), out)
    {
      var req := Request(kind, Op.Transition(id, target, expected, reason), actor, role, requestId);
      if Sound(db.State()) { TransitionServed(db.State(), req, WorkingEnv(now, 0, auditOk)); }
      SoloBegin(db.State(), req, WorkingEnv(now, 0, auditOk));
      var row, _ := db.Get(KeyOf(req));
      if row.None? {
        return Failed(NotFound);
      }
      var current := row.value;
      if !CanTransition(kind, current.status, target) {
        return Failed(InvalidTransition);
      }
      var before := current.status;
      current := current.(status := target);
      current := current.(version := expected + 1);
      current := current.(updatedAt := now);
      out := Save(req, expected, before, current, auditOk, row.value, now);
    }

    method Delete(id: nat, actor: string, requestId: string, auditOk: bool, ghost now: int) returns (out: Outcome)
      modifies db
      ensures var req := Request(kind, Op.Delete(id), actor, Admin, requestId);
              (db.State(), out) == Serve(old(db.State()), req, WorkingEnv(now, 0, auditOk))
      ensures var req := Request(kind, Op.Delete(id), actor, Admin, requestId);
              Sound(old(db.State())) ==> DeleteEffect(old(db.State()), req, WorkingEnv(now, 0, auditOk), db.State(), out)
    {
      var req := Request(kind, Op.Delete(id), actor, Admin, requestId);
      if Sound(db.State()) { DeleteServed(db.State(), req, WorkingEnv(now, 0, auditOk)); }
      var key := Key(kind, id);
      ghost var env := WorkingEnv(now, 0, auditOk);
      SoloBegin(db.State(), req, env);
      var row, _ := db.Get(key);
      if row.None? {
        return Failed(NotFound);
      }
      var current := row.value;
      SoloWrite(db.State(), req, current, env);
      var affected := db.Delete(key);
      if !affected {
        return Failed(NotFound);
      }
      SoloAfterCommit(db.State(), req, key, NewEntry(req, key, Some(current.status), None), current, env);
      var audited := db.Audit(req, key, Some(current.status), None, auditOk);
      out := if audited then Removed else Failed(AuditFailed);
    }
  }
}
