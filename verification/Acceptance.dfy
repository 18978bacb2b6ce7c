// Which requests are accepted, what each answer is, and what a request served alone leaves behind,
// said in terms of roles, names and columns.
module Acceptance {
  import opened Workflow
  import opened Text
  import opened Records
  import opened Protocol
  import opened Serving

  // Viewers read only; operators, reviewers and administrators write; administrators delete.
  lemma RolesAllowed(req: Request)
    ensures RouteAllows(req) <==>
              req.op.Fetch? || (if req.op.Delete? then req.role == Admin else req.role in {Operator, Reviewer, Admin})
  {
  }

  // The texts a write has to carry: name, facility and owner, and for a decision evidence and related code.
  ghost predicate HasTexts(kind: Kind, f: Fields) {
    && |f.name| > 0 && |f.facility| > 0 && |f.owner| > 0
    && (kind == Priority ==> |f.evidence| > 0 && |f.relatedCode| > 0)
  }

  // An update is accepted from any writer with all texts at the stored version of a live record with a
  // code; of a decision only while it is a draft, and only from its preparer or an administrator.
  ghost predicate MayUpdate(rows: map<Key, Row>, key: Key, req: Request)
    requires req.op.Update?
  {
    && req.role in {Operator, Reviewer, Admin} && key in rows && !rows[key].deleted
    && rows[key].version == req.op.expected && !Blank(rows[key].code) && HasTexts(req.kind, req.op.input)
    && (req.kind == Priority ==> rows[key].status == Draft && (req.actor == rows[key].preparedBy || req.role == Admin))
  }

  // A transition needs an edge of the graph and the stored version; of a decision a reviewer or
  // administrator who is not its preparer.
  ghost predicate MayTransition(rows: map<Key, Row>, key: Key, req: Request)
    requires req.op.Transition?
  {
    && req.role in {Operator, Reviewer, Admin} && key in rows && !rows[key].deleted
    && rows[key].version == req.op.expected && CanTransition(req.kind, rows[key].status, req.op.target)
    && (req.kind == Priority ==> req.role in {Reviewer, Admin} && req.actor != rows[key].preparedBy)
  }

  ghost predicate MayDelete(rows: map<Key, Row>, key: Key, req: Request) {
    req.role == Admin && key in rows && !rows[key].deleted && (req.kind == Priority ==> rows[key].status == Draft)
  }

  ghost predicate MayCreate(rows: map<Key, Row>, key: Key, req: Request)
    requires req.op.Create?
  {
    && req.role in {Operator, Reviewer, Admin} && |req.op.code| > 0 && HasTexts(req.kind, req.op.input)
    && key !in rows && (forall k :: k in rows && k.kind == req.kind ==> rows[k].code != req.op.code)
  }

  // The response shows this row and, for a decision, as many revisions as it has versions.
  ghost predicate Shows(out: Outcome, kind: Kind, row: Row) {
    out.Returned? && out.row == row && |out.revisions| == if kind == Priority then row.version else 0
  }

  // ---- running one request ---------------------------------------------------------------------

  // The write of a checked request and what follows it.
  lemma ServeReady(tb: Tables, req: Request, env: Env)
    requires env.storeOk && (Versioned(req.op) || req.op.Delete?) && BeginStep(tb.rows, req).Ready?
    ensures var (later, pc) := WriteStep(tb, req, tb.rows[KeyOf(req)], env);
            if pc.Done? then Serve(tb, req, env) == (later, pc.outcome)
            else pc.Auditing? && Serve(tb, req, env) == AfterCommit(later, req, pc.key, pc.entry, pc.item, env.auditOk)
  {
    SoloBegin(tb, req, env);
    var (later, pc) := WriteStep(tb, req, tb.rows[KeyOf(req)], env);
    SoloWrite(tb, req, tb.rows[KeyOf(req)], env);
    if pc.Auditing? { SoloAfterCommit(later, req, pc.key, pc.entry, pc.item, env); }
  }

  // A decision with a complete chain is read with as many revisions as it has versions.
  lemma ReadShows(tb: Tables, key: Key)
    requires Live(tb.rows, key) && (key.kind == Priority ==> Chain(RevisionsOf(tb.revisions, key.id), tb.rows[key]))
    ensures Shows(FinalRead(tb, key), key.kind, tb.rows[key])
  {
    if key.kind == Priority { OrderByVersionKeeps(RevisionsOf(tb.revisions, key.id)); }
  }

  // The chain after one more revision is as long as the new version.
  lemma ReadShowsNext(tb: Tables, later: Tables, key: Key, row: Row, r: Revision)
    requires Sound(tb) && key in tb.rows && later.rows == tb.rows[key := row] && !row.deleted
    requires row.version == tb.rows[key].version + 1 && r.version == row.version && r.decisionId == key.id
    requires later.revisions == if key.kind == Priority then InsertRevision(tb.revisions, r) else tb.revisions
    ensures Shows(FinalRead(later, key), key.kind, row)
  {
    if key.kind == Priority {
      assert Chain(RevisionsOf(tb.revisions, key.id), tb.rows[key]);
      OrderByVersionKeeps(RevisionsOf(later.revisions, key.id));
    }
  }

  // What an update does and answers: served from tb, it leaves later and returns out.
  ghost predicate UpdateEffect(tb: Tables, req: Request, env: Env, later: Tables, out: Outcome)
    requires req.op.Update?
  {
    var key := Key(req.kind, req.op.id);
    if MayUpdate(tb.rows, key, req) then
      var row := tb.rows[key].(fields := req.op.input, version := tb.rows[key].version + 1, updatedAt := env.now);
      later.rows == tb.rows[key := row] && Shows(out, req.kind, row)
    else
      later == tb && out == Failed(
        if req.role == Viewer then Forbidden
        else if key !in tb.rows || tb.rows[key].deleted then NotFound
        else if req.kind == Priority && tb.rows[key].status != Draft then DecisionLocked
        else if req.kind == Priority && req.actor != tb.rows[key].preparedBy && req.role != Admin then NotDecisionOwner
        else if Blank(tb.rows[key].code) || !HasTexts(req.kind, req.op.input) then InvalidInput
        else VersionConflict)
  }

  // The outcome of guard and checks.
  lemma UpdateBegins(rows: map<Key, Row>, req: Request)
    requires req.op.Update?
    ensures var key := Key(req.kind, req.op.id);
            BeginStep(rows, req) ==
              if req.role == Viewer then Done(Failed(Forbidden))
              else if key !in rows || rows[key].deleted then Done(Failed(NotFound))
              else if req.kind == Priority && rows[key].status != Draft then Done(Failed(DecisionLocked))
              else if req.kind == Priority && req.actor != rows[key].preparedBy && req.role != Admin then Done(Failed(NotDecisionOwner))
              else if Blank(rows[key].code) || !HasTexts(req.kind, req.op.input) then Done(Failed(InvalidInput))
              else Ready(rows[key])
  {
    RolesAllowed(req);
  }

  lemma UpdateServed(tb: Tables, req: Request, env: Env)
    requires Sound(tb) && env.storeOk && req.op.Update?
    ensures UpdateEffect(tb, req, env, Serve(tb, req, env).0, Serve(tb, req, env).1)
  {
    var key := KeyOf(req);
    UpdateBegins(tb.rows, req);
    SoloBegin(tb, req, env);
    if BeginStep(tb.rows, req).Ready? {
      ServeReady(tb, req, env);
      if tb.rows[key].version == req.op.expected { UpdateWritten(tb, req, env); }
    }
  }

  lemma UpdateWritten(tb: Tables, req: Request, env: Env)
    requires Sound(tb) && req.op.Update? && BeginStep(tb.rows, req).Ready? && tb.rows[KeyOf(req)].version == req.op.expected
    ensures var key := KeyOf(req);
            var row := tb.rows[key].(fields := req.op.input, version := tb.rows[key].version + 1, updatedAt := env.now);
            var (later, pc) := WriteStep(tb, req, tb.rows[key], env);
            && pc.Auditing? && later.rows == tb.rows[key := row]
            && AfterCommit(later, req, pc.key, pc.entry, pc.item, env.auditOk).0.rows == later.rows
            && Shows(AfterCommit(later, req, pc.key, pc.entry, pc.item, env.auditOk).1, req.kind, row)
  {
    var key := KeyOf(req);
    var row := tb.rows[key].(fields := req.op.input, version := tb.rows[key].version + 1, updatedAt := env.now);
    var (later, pc) := WriteStep(tb, req, tb.rows[key], env);
    if req.kind == Priority { NextRevisionIsNew(tb, key.id); }
    ReadShowsNext(tb, later, key, row, NewRevision(key.id, row, req));
  }

  // What a transition does and answers; a failed audit append is reported, but the write stays.
  ghost predicate TransitionEffect(tb: Tables, req: Request, env: Env, later: Tables, out: Outcome)
    requires req.op.Transition?
  {
    var key := Key(req.kind, req.op.id);
    if MayTransition(tb.rows, key, req) then
      var row := tb.rows[key].(status := req.op.target, version := tb.rows[key].version + 1, updatedAt := env.now);
      later.rows == tb.rows[key := row] && (if env.auditOk then Shows(out, req.kind, row) else out == Failed(AuditFailed))
    else
      later == tb && out == Failed(
        if req.role == Viewer then Forbidden
        else if key !in tb.rows || tb.rows[key].deleted then NotFound
        else if req.kind == Priority && req.role == Operator then ReviewRole
        else if req.kind == Priority && req.actor == tb.rows[key].preparedBy then SeparationOfDuty
        else if !CanTransition(req.kind, tb.rows[key].status, req.op.target) then InvalidTransition
        else VersionConflict)
  }

  lemma TransitionBegins(rows: map<Key, Row>, req: Request)
    requires req.op.Transition?
    ensures var key := Key(req.kind, req.op.id);
            BeginStep(rows, req) ==
              if req.role == Viewer then Done(Failed(Forbidden))
              else if key !in rows || rows[key].deleted then Done(Failed(NotFound))
              else if req.kind == Priority && req.role == Operator then Done(Failed(ReviewRole))
              else if req.kind == Priority && req.actor == rows[key].preparedBy then Done(Failed(SeparationOfDuty))
              else if !CanTransition(req.kind, rows[key].status, req.op.target) then Done(Failed(InvalidTransition))
              else Ready(rows[key])
  {
    RolesAllowed(req);
  }

  lemma TransitionServed(tb: Tables, req: Request, env: Env)
    requires Sound(tb) && env.storeOk && req.op.Transition?
    ensures TransitionEffect(tb, req, env, Serve(tb, req, env).0, Serve(tb, req, env).1)
  {
    var key := KeyOf(req);
    TransitionBegins(tb.rows, req);
    SoloBegin(tb, req, env);
    if BeginStep(tb.rows, req).Ready? {
      ServeReady(tb, req, env);
      if tb.rows[key].version == req.op.expected { TransitionWritten(tb, req, env); }
    }
  }

  lemma TransitionWritten(tb: Tables, req: Request, env: Env)
    requires Sound(tb) && req.op.Transition? && BeginStep(tb.rows, req).Ready? && tb.rows[KeyOf(req)].version == req.op.expected
    ensures var key := KeyOf(req);
            var row := tb.rows[key].(status := req.op.target, version := tb.rows[key].version + 1, updatedAt := env.now);
            var (later, pc) := WriteStep(tb, req, tb.rows[key], env);
            && pc.Auditing? && later.rows == tb.rows[key := row]
            && AfterCommit(later, req, pc.key, pc.entry, pc.item, env.auditOk).0.rows == later.rows
            && var out := AfterCommit(later, req, pc.key, pc.entry, pc.item, env.auditOk).1;
               if env.auditOk then Shows(out, req.kind, row) else out == Failed(AuditFailed)
  {
    var key := KeyOf(req);
    var row := tb.rows[key].(status := req.op.target, version := tb.rows[key].version + 1, updatedAt := env.now);
    var (later, pc) := WriteStep(tb, req, tb.rows[key], env);
    if req.kind == Priority { NextRevisionIsNew(tb, key.id); }
    ReadShowsNext(tb, later, key, row, NewRevision(key.id, row, req));
  }

  // What a delete does and answers.
  ghost predicate DeleteEffect(tb: Tables, req: Request, env: Env, later: Tables, out: Outcome)
    requires req.op.Delete?
  {
    var key := Key(req.kind, req.op.id);
    if MayDelete(tb.rows, key, req) then
      && later.rows == tb.rows[key := tb.rows[key].(deleted := true)] && later.revisions == tb.revisions
      && out == (if env.auditOk then Removed else Failed(AuditFailed))
    else
      later == tb && out == Failed(
        if req.role != Admin then Forbidden
        else if key !in tb.rows || tb.rows[key].deleted then NotFound
        else DecisionLocked)
  }

  lemma DeleteServed(tb: Tables, req: Request, env: Env)
    requires env.storeOk && req.op.Delete?
    ensures DeleteEffect(tb, req, env, Serve(tb, req, env).0, Serve(tb, req, env).1)
  {
    RolesAllowed(req);
    SoloBegin(tb, req, env);
    if BeginStep(tb.rows, req).Ready? { ServeReady(tb, req, env); }
  }

  // What a creation does and answers.
  ghost predicate CreateEffect(tb: Tables, req: Request, env: Env, later: Tables, out: Outcome)
    requires req.op.Create?
  {
    var key := Key(req.kind, env.freshId);
    if MayCreate(tb.rows, key, req) then
      && key in later.rows && later.rows == tb.rows[key := later.rows[key]]
      && later.rows[key].code == req.op.code && later.rows[key].fields == req.op.input && later.rows[key].version == 1
      && later.rows[key].status == (match req.kind case Bridge => Active case Inspection => Planned case Defect => New case Priority => Draft)
      && later.rows[key].preparedBy == (if req.kind == Priority then req.actor else "")
      && Shows(out, req.kind, later.rows[key])
    else
      later == tb && out == Failed(
        if req.role == Viewer then Forbidden
        else if |req.op.code| == 0 || !HasTexts(req.kind, req.op.input) then InvalidInput
        else StoreError)
  }

  lemma CreateServed(tb: Tables, req: Request, env: Env)
    requires Sound(tb) && env.storeOk && req.op.Create?
    ensures CreateEffect(tb, req, env, Serve(tb, req, env).0, Serve(tb, req, env).1)
  {
    RolesAllowed(req);
    SoloBegin(tb, req, env);
    if BeginStep(tb.rows, req).Inserting? {
      var (later, pc) := InsertStep(tb, req, env);
      SoloInsert(tb, req, env);
      if Key(req.kind, env.freshId) !in tb.rows { NoRevisionsYet(tb, req.kind, env.freshId); }
      if pc.Auditing? {
        SoloAfterCommit(later, req, pc.key, pc.entry, pc.item, env);
        CreatedShows(tb, req, env);
      }
    }
  }

  lemma NoRevisionsYet(tb: Tables, kind: Kind, id: nat)
    requires Sound(tb) && Key(kind, id) !in tb.rows
    ensures kind == Priority ==> RevisionsOf(tb.revisions, id) == []
  {
  }

  lemma CreatedShows(tb: Tables, req: Request, env: Env)
    requires Sound(tb) && req.op.Create? && InsertStep(tb, req, env).1.Auditing?
    ensures var (later, pc) := InsertStep(tb, req, env);
            && pc.key in later.rows
            && AfterCommit(later, req, pc.key, pc.entry, pc.item, env.auditOk).0.rows == later.rows
            && Shows(AfterCommit(later, req, pc.key, pc.entry, pc.item, env.auditOk).1, req.kind, later.rows[pc.key])
  {
    var (later, pc) := InsertStep(tb, req, env);
    NoRevisionsYet(tb, req.kind, env.freshId);
    if req.kind == Priority {
      assert |RevisionsOf(later.revisions, pc.key.id)| == 1;
      OrderByVersionKeeps(RevisionsOf(later.revisions, pc.key.id));
    }
  }

  // A read returns a live record as it is stored, with its revisions, and nothing else.
  lemma FetchServed(tb: Tables, req: Request, env: Env)
    requires Sound(tb) && env.storeOk && req.op.Fetch?
    ensures var key := Key(req.kind, req.op.id);
            var (later, out) := Serve(tb, req, env);
            && later == tb
            && (if key in tb.rows && !tb.rows[key].deleted then Shows(out, req.kind, tb.rows[key]) else out == Failed(NotFound))
            && (out.Returned? && req.kind == Priority ==> out.revisions == RevisionsOf(tb.revisions, req.op.id))
  {
    var key := KeyOf(req);
    SoloBegin(tb, req, env);
    SoloFinalRead(tb, req, key, env);
    if Live(tb.rows, key) {
      ReadShows(tb, key);
      if req.kind == Priority { SelectShowsChain(tb, req.op.id); }
    }
  }
}
