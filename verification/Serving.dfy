// One request served from beginning to end, in the steps its service method goes through.
module Serving {
  import opened Workflow
  import opened Records
  import opened Protocol

  // What the read that ends a request returns.
  function FinalRead(tb: Tables, key: Key): Outcome {
    if !Live(tb.rows, key) then Failed(NotFound)
    else Returned(tb.rows[key], if key.kind == Priority then SelectRevisions(tb.revisions, key.id) else [])
  }

  lemma SoloStep(tb: Tables, req: Request, pc: Pc, env: Env)
    requires Fits(req, pc) && !pc.Done?
    ensures var (later, next) := StepThread(tb, req, pc, env);
            Solo(tb, req, pc, env) == if next.Done? then (later, next.outcome) else Solo(later, req, next, env)
  {
    var (later, next) := StepThread(tb, req, pc, env);
    SoloUnfolds(tb, req, pc, env);
    SoloDone(later, req, next, env);
  }

  lemma SoloDone(tb: Tables, req: Request, pc: Pc, env: Env)
    ensures pc.Done? ==> Solo(tb, req, pc, env) == (tb, pc.outcome)
  {
  }

  lemma SoloBegin(tb: Tables, req: Request, env: Env)
    requires env.storeOk
    ensures var pc := BeginStep(tb.rows, req);
            Serve(tb, req, env) == if pc.Done? then (tb, pc.outcome) else Solo(tb, req, pc, env)
  {
    SoloStep(tb, req, Begin, env);
  }

  lemma SoloInsert(tb: Tables, req: Request, env: Env)
    requires env.storeOk && req.op.Create?
    ensures var (later, pc) := InsertStep(tb, req, env);
            Solo(tb, req, Inserting, env) == if pc.Done? then (later, pc.outcome) else Solo(later, req, pc, env)
  {
    SoloStep(tb, req, Inserting, env);
  }

  lemma SoloWrite(tb: Tables, req: Request, snap: Row, env: Env)
    requires env.storeOk && (Versioned(req.op) || req.op.Delete?)
    ensures var (later, pc) := WriteStep(tb, req, snap, env);
            Solo(tb, req, Ready(snap), env) == if pc.Done? then (later, pc.outcome) else Solo(later, req, pc, env)
  {
    SoloStep(tb, req, Ready(snap), env);
  }

  lemma SoloFinalRead(tb: Tables, req: Request, key: Key, env: Env)
    requires env.storeOk
    ensures Solo(tb, req, Reread(key), env) == (tb, FinalRead(tb, key))
  {
    SoloStep(tb, req, Reread(key), env);
    if Live(tb.rows, key) && key.kind == Priority { SoloStep(tb, req, Preload(key, tb.rows[key]), env); }
  }

  // What is left of a request once its write is committed.
  function AfterCommit(tb: Tables, req: Request, key: Key, entry: Entry, item: Row, auditOk: bool): (Tables, Outcome) {
    var later := if auditOk then tb.(audits := tb.audits + [entry]) else tb;
    if !auditOk && (req.op.Transition? || req.op.Delete?) then (later, Failed(AuditFailed))
    else if req.op.Delete? then (later, Removed)
    else if req.op.Create? && req.kind != Priority then (later, Returned(item, []))
    else (later, FinalRead(later, key))
  }

  lemma SoloAfterCommit(tb: Tables, req: Request, key: Key, entry: Entry, item: Row, env: Env)
    requires env.storeOk
    ensures Solo(tb, req, Auditing(key, entry, item), env) == AfterCommit(tb, req, key, entry, item, env.auditOk)
  {
    var later := if env.auditOk then tb.(audits := tb.audits + [entry]) else tb;
    SoloStep(tb, req, Auditing(key, entry, item), env);
    SoloFinalRead(later, req, key, env);
  }

  function WorkingEnv(now: int, freshId: nat, auditOk: bool): Env { Env(now, freshId, true, auditOk) }
}
