// What every reachable state of the interleaved system satisfies, for any expected versions.
module Invariants {
  import opened Workflow
  import opened Records
  import opened Protocol

  // A row and the revisions read for it in a second query fit together.
  ghost predicate CoherentRead(row: Row, rs: seq<Revision>) {
    && 1 <= row.version <= |rs|
    && (forall i :: 0 <= i < |rs| ==> rs[i].version == i + 1)
    && rs[row.version - 1].status == row.status
    && rs[row.version - 1].evidence == row.fields.evidence
  }

  // The revision table has a revision for the version of a row read earlier.
  ghost predicate Documented(tb: Tables, id: nat, row: Row) {
    var rs := RevisionsOf(tb.revisions, id);
    && 1 <= row.version <= |rs|
    && rs[row.version - 1].status == row.status
    && rs[row.version - 1].evidence == row.fields.evidence
  }

  ghost predicate Addressed(req: Request, key: Key) {
    key.kind == req.kind && (Targets(req.op) ==> key == KeyOf(req))
  }

  // The stored version has passed the one the request expected.
  ghost predicate Passed(op: Op, version: nat) {
    Versioned(op) ==> op.expected < version
  }

  ghost predicate ThreadOk(tb: Tables, th: Thread) {
    var req, op := th.req, th.req.op;
    match th.pc
    case Begin =>
      th.backed && Versioned(op) ==> KeyOf(req) in tb.rows && op.expected <= tb.rows[KeyOf(req)].version
    case Inserting => op.Create? && RouteAllows(req) && op.code != "" && FilledIn(req.kind, op.input)
    case Ready(snap) =>
      && (op.Update? || op.Transition? || op.Delete?)
      && RouteAllows(req) && Check(req, snap) == None && !snap.deleted && IsListed(req.kind, snap.status)
      && KeyOf(req) in tb.rows && Evolves(snap, tb.rows[KeyOf(req)])
      && (th.backed && Versioned(op) ==> op.expected <= snap.version)
    case Auditing(key, entry, item) =>
      && !op.Fetch? && Addressed(req, key) && key in tb.rows && Passed(op, tb.rows[key].version)
      && entry.key == key
      && (op.Create? ==> item.version == 1)
    case Reread(key) =>
      Addressed(req, key) && (op.Fetch? || (key in tb.rows && Passed(op, tb.rows[key].version)))
    case Preload(key, row) =>
      && Addressed(req, key) && key.kind == Priority && key in tb.rows && Evolves(row, tb.rows[key])
      && Passed(op, row.version) && Documented(tb, key.id, row)
    case Done(outcome) =>
      outcome.Returned? ==>
        Passed(op, outcome.row.version) && (req.kind == Priority ==> CoherentRead(outcome.row, outcome.revisions))
  }

  ghost predicate SeenOk(tb: Tables, seen: set<(Key, nat)>) {
    forall p :: p in seen ==> p.0 in tb.rows && p.1 <= tb.rows[p.0].version
  }

  ghost predicate Inv(s: System) {
    && Sound(s.tables)
    && (forall i :: 0 <= i < |s.threads| ==> ThreadOk(s.tables, s.threads[i]))
    && SeenOk(s.tables, s.seen)
  }

  // ---- one step -----------------------------------------------------------------

  lemma ThreadStable(tb: Tables, later: Tables, th: Thread)
    requires TablesEvolve(tb, later) && ThreadOk(tb, th)
    ensures ThreadOk(later, th)
  {
    match th.pc {
      case Preload(key, row) =>
        assert RevisionsOf(tb.revisions, key.id) <= RevisionsOf(later.revisions, key.id);
      case _ =>
    }
  }

  // r describes the version of a decision that row is.
  ghost predicate Describes(r: Revision, id: nat, row: Row) {
    && r.decisionId == id && r.version == row.version
    && r.status == row.status && r.evidence == row.fields.evidence && Depicts(r.snapshot, row)
  }

  lemma StoreEvolves(tb: Tables, key: Key, row: Row, r: Revision)
    requires key in tb.rows ==> Evolves(tb.rows[key], row)
    ensures TablesEvolve(tb, tb.(rows := tb.rows[key := row], revisions := InsertRevision(tb.revisions, r)))
  {
  }

  // Storing a row of a decision together with the revision that makes its chain complete.
  lemma StoreDecision(tb: Tables, key: Key, row: Row, r: Revision)
    requires Sound(tb) && key.kind == Priority && r.decisionId == key.id && IsListed(Priority, row.status)
    requires Chain(RevisionsOf(tb.revisions, key.id) + [r], row)
    ensures var later := tb.(rows := tb.rows[key := row], revisions := InsertRevision(tb.revisions, r));
            Sound(later)
  {
    var later := tb.(rows := tb.rows[key := row], revisions := InsertRevision(tb.revisions, r));
    forall k | k in later.rows && k.kind == Priority
      ensures Chain(RevisionsOf(later.revisions, k.id), later.rows[k])
    {
      if k != key { assert Chain(RevisionsOf(tb.revisions, k.id), tb.rows[k]); }
    }
  }

  lemma ChainStarts(r: Revision, id: nat, row: Row)
    requires Describes(r, id, row) && row.version == 1
    requires row.status == Draft && r.actor == row.preparedBy
    ensures Chain([r], row)
  {
  }

  lemma ChainGrows(rs: seq<Revision>, was: Row, r: Revision, id: nat, row: Row)
    requires Chain(rs, was) && Describes(r, id, row)
    requires row.version == was.version + 1 && row.preparedBy == was.preparedBy
    requires row.status != Draft ==> r.actor != row.preparedBy
    ensures Chain(rs + [r], row)
  {
  }

  lemma NewDecision(tb: Tables, key: Key, row: Row, r: Revision)
    requires Sound(tb) && key.kind == Priority && key !in tb.rows
    requires Describes(r, key.id, row) && row.version == 1
    requires row.status == Draft && r.actor == row.preparedBy
    ensures !HasRevision(tb.revisions, key.id, 1)
    ensures var later := tb.(rows := tb.rows[key := row], revisions := InsertRevision(tb.revisions, r));
            Sound(later) && TablesEvolve(tb, later)
  {
    assert RevisionsOf(tb.revisions, key.id) + [r] == [r];
    ChainStarts(r, key.id, row);
    StoreDecision(tb, key, row, r);
    StoreEvolves(tb, key, row, r);
  }

  lemma NextVersion(tb: Tables, key: Key, row: Row, r: Revision)
    requires Sound(tb) && key.kind == Priority && key in tb.rows && !tb.rows[key].deleted
    requires Evolves(tb.rows[key], row) && row.version == tb.rows[key].version + 1
    requires Describes(r, key.id, row) && IsListed(Priority, row.status)
    requires row.status != Draft ==> r.actor != row.preparedBy
    ensures !HasRevision(tb.revisions, key.id, r.version)
    ensures var later := tb.(rows := tb.rows[key := row], revisions := InsertRevision(tb.revisions, r));
            Sound(later) && TablesEvolve(tb, later)
  {
    NextRevisionIsNew(tb, key.id);
    ChainGrows(RevisionsOf(tb.revisions, key.id), tb.rows[key], r, key.id, row);
    StoreDecision(tb, key, row, r);
    StoreEvolves(tb, key, row, r);
  }

  lemma SameRevisions(tb: Tables, key: Key, row: Row)
    requires Sound(tb) && 1 <= row.version && IsListed(key.kind, row.status)
    requires key in tb.rows ==> Evolves(tb.rows[key], row)
    requires key.kind == Priority ==> key in tb.rows && row == tb.rows[key].(deleted := row.deleted)
    ensures var later := tb.(rows := tb.rows[key := row]);
            Sound(later) && TablesEvolve(tb, later)
  {
    var later := tb.(rows := tb.rows[key := row]);
    forall k | k in later.rows && k.kind == Priority
      ensures Chain(RevisionsOf(later.revisions, k.id), later.rows[k])
    {
      assert Chain(RevisionsOf(tb.revisions, k.id), tb.rows[k]);
    }
  }

  lemma InsertRecordKeeps(tb: Tables, req: Request, env: Env)
    requires Sound(tb) && req.op.Create? && Key(req.kind, env.freshId) !in tb.rows
    ensures var later := InsertStep(tb, req, env).0; Sound(later) && TablesEvolve(tb, later)
  {
    var key, row := Key(req.kind, env.freshId), NewRow(req, env.now);
    if req.kind == Priority {
      NewDecision(tb, key, row, NewRevision(key.id, row.(createdAt := 0, updatedAt := 0), req));
    } else {
      SameRevisions(tb, key, row);
    }
  }

  // The transaction of create keeps the tables sound.
  lemma InsertKeeps(tb: Tables, th: Thread, env: Env)
    requires Sound(tb) && th.pc.Inserting? && ThreadOk(tb, th)
    ensures var (later, pc) := InsertStep(tb, th.req, env);
            Sound(later) && TablesEvolve(tb, later) && ThreadOk(later, th.(pc := pc))
  {
    if Key(th.req.kind, env.freshId) !in tb.rows { InsertRecordKeeps(tb, th.req, env); }
  }

  // A checked request leads to a listed status, and to a final one only by a reviewer's hand.
  lemma CheckedStatus(req: Request, snap: Row, now: int)
    requires Check(req, snap) == None && Versioned(req.op) && IsListed(req.kind, snap.status)
    ensures var next := Desired(req.op, snap, now);
            && IsListed(req.kind, next.status)
            && (req.kind == Priority && next.status != Draft ==>
                  req.op.Transition? && req.actor != snap.preparedBy && req.role in {Reviewer, Admin})
            && (req.kind == Priority ==> snap.status == Draft)
  {
    if req.op.Transition? {
      if req.kind == Priority { DecisionEdges(snap.status, req.op.target); }
      else { CyclicEdges(req.kind, snap.status, req.op.target); }
    }
  }

  // What a successful compare stores.
  function Merged(stored: Row, next: Row): Row {
    next.(code := stored.code, createdAt := stored.createdAt, deleted := stored.deleted, preparedBy := stored.preparedBy)
  }

  // The transaction of update and transition keeps the tables sound, and its insert always succeeds.
  lemma CommitKeeps(tb: Tables, th: Thread, env: Env)
    requires Sound(tb) && th.pc.Ready? && ThreadOk(tb, th) && Versioned(th.req.op)
    requires Live(tb.rows, KeyOf(th.req)) && tb.rows[KeyOf(th.req)].version == th.req.op.expected
    ensures var key := KeyOf(th.req);
            var next := Desired(th.req.op, th.pc.snap, env.now);
            var (later, pc) := WriteStep(tb, th.req, th.pc.snap, env);
            && later.rows == tb.rows[key := Merged(tb.rows[key], next)]
            && later.revisions == (if th.req.kind == Priority then InsertRevision(tb.revisions, NewRevision(key.id, next, th.req)) else tb.revisions)
            && later.audits == tb.audits
            && pc == Auditing(key, NewEntry(th.req, key, Some(th.pc.snap.status), Some(next.status)), next)
            && Sound(later) && TablesEvolve(tb, later)
  {
    var req, snap := th.req, th.pc.snap;
    var key := KeyOf(req);
    var next := Desired(req.op, snap, env.now);
    var row := Merged(tb.rows[key], next);
    assert IsListed(key.kind, snap.status);
    CheckedStatus(req, snap, env.now);
    if req.kind == Priority {
      NextVersion(tb, key, row, NewRevision(key.id, next, req));
    } else {
      SameRevisions(tb, key, row);
    }
  }

  lemma DeleteKeeps(tb: Tables, th: Thread, env: Env)
    requires Sound(tb) && th.pc.Ready? && ThreadOk(tb, th) && th.req.op.Delete?
    ensures var (later, pc) := WriteStep(tb, th.req, th.pc.snap, env);
            Sound(later) && TablesEvolve(tb, later)
  {
    var key := KeyOf(th.req);
    if Live(tb.rows, key) { SameRevisions(tb, key, tb.rows[key].(deleted := true)); }
  }

  lemma WriteKeeps(tb: Tables, th: Thread, env: Env)
    requires Sound(tb) && th.pc.Ready? && ThreadOk(tb, th)
    ensures var (later, pc) := WriteStep(tb, th.req, th.pc.snap, env);
            Sound(later) && TablesEvolve(tb, later) && ThreadOk(later, th.(pc := pc))
  {
    var key := KeyOf(th.req);
    if th.req.op.Delete? {
      DeleteKeeps(tb, th, env);
    } else if Live(tb.rows, key) && tb.rows[key].version == th.req.op.expected {
      CommitKeeps(tb, th, env);
    }
  }

  lemma RowQueryKeeps(tb: Tables, th: Thread)
    requires Sound(tb) && th.pc.Reread? && ThreadOk(tb, th)
    ensures ThreadOk(tb, th.(pc := RereadStep(tb, th.pc)))
  {
    var key := th.pc.key;
    if Live(tb.rows, key) && key.kind == Priority { SelectShowsChain(tb, key.id); }
  }

  lemma RevisionQueryKeeps(tb: Tables, th: Thread)
    requires Sound(tb) && th.pc.Preload? && ThreadOk(tb, th)
    ensures ThreadOk(tb, th.(pc := RereadStep(tb, th.pc)))
  {
    SelectShowsChain(tb, th.pc.key.id);
  }

  lemma AuditKeeps(tb: Tables, th: Thread, env: Env)
    requires Sound(tb) && th.pc.Auditing? && ThreadOk(tb, th)
    ensures var (later, pc) := AuditStep(tb, th.req, th.pc, env);
            Sound(later) && TablesEvolve(tb, later) && ThreadOk(later, th.(pc := pc))
  {
  }

  lemma BeginKeeps(tb: Tables, th: Thread)
    requires Sound(tb) && th.pc.Begin? && ThreadOk(tb, th)
    ensures ThreadOk(tb, th.(pc := BeginStep(tb.rows, th.req)))
  {
  }

  lemma StepThreadKeeps(tb: Tables, th: Thread, env: Env)
    requires Sound(tb) && ThreadOk(tb, th)
    ensures var (later, pc) := StepThread(tb, th.req, th.pc, env);
            Sound(later) && TablesEvolve(tb, later) && ThreadOk(later, th.(pc := pc))
  {
    if th.pc.Done? || (!th.pc.Auditing? && !env.storeOk) {
      assert ThreadOk(tb, th.(pc := Done(Failed(StoreError))));
    } else {
      match th.pc {
        case Begin => BeginKeeps(tb, th);
        case Inserting => InsertKeeps(tb, th, env);
        case Ready(_) => WriteKeeps(tb, th, env);
        case Auditing(_, _, _) => AuditKeeps(tb, th, env);
        case Reread(_) => RowQueryKeeps(tb, th);
        case Preload(_, _) => RevisionQueryKeeps(tb, th);
      }
    }
  }

  // ---- the system -----------------------------------------------------------------

  // Requests are never forgotten and never change what they asked for.
  ghost predicate ThreadsPersist(s: System, later: System) {
    && |s.threads| <= |later.threads|
    && (forall i :: 0 <= i < |s.threads| ==>
          later.threads[i].req == s.threads[i].req && later.threads[i].backed == s.threads[i].backed)
  }

  lemma AdvanceKeeps(s: System, t: nat, env: Env)
    requires Inv(s) && t < |s.threads|
    ensures Inv(AdvanceThread(s, t, env))
    ensures TablesEvolve(s.tables, AdvanceThread(s, t, env).tables)
  {
    var th := s.threads[t];
    var later := AdvanceThread(s, t, env);
    StepThreadKeeps(s.tables, th, env);
    forall i | 0 <= i < |later.threads| ensures ThreadOk(later.tables, later.threads[i]) {
      if i != t { ThreadStable(s.tables, later.tables, s.threads[i]); }
    }
    ResponseKeeps(s.tables, th, env);
  }

  // The version a response carries is never ahead of the stored one.
  lemma ResponseKeeps(tb: Tables, th: Thread, env: Env)
    requires Sound(tb) && ThreadOk(tb, th)
    ensures var (later, pc) := StepThread(tb, th.req, th.pc, env); SeenOk(tb, ResponseSeen(th.pc, pc))
  {
  }

  lemma StepKeeps(s: System, a: Action)
    requires Inv(s)
    ensures Inv(Step(s, a)) && TablesEvolve(s.tables, Step(s, a).tables) && ThreadsPersist(s, Step(s, a))
  {
    match a {
      case Advance(t, env) => if t < |s.threads| { AdvanceKeeps(s, t, env); }
      case _ =>
    }
  }

  lemma {:induction false} ExecKeeps(s: System, run: seq<Action>)
    requires Inv(s)
    ensures Inv(Exec(s, run)) && TablesEvolve(s.tables, Exec(s, run).tables) && ThreadsPersist(s, Exec(s, run))
  {
    if run != [] {
      var before := Exec(s, run[..|run| - 1]);
      ExecKeeps(s, run[..|run| - 1]);
      StepKeeps(before, run[|run| - 1]);
      EvolveTransitive(s.tables, before.tables, Exec(s, run).tables);
    }
  }

  // ---- main results ---------------------------------------------------------------

  // From sound tables, whatever expected versions the requests carry and however they interleave,
  // every decision keeps its full chain of revisions, and tables only ever move forward.
  lemma RevisionChain(tb: Tables, run: seq<Action>)
    requires Sound(tb)
    ensures var s := Exec(Initial(tb), run);
            Inv(s) && Sound(s.tables) && TablesEvolve(tb, s.tables)
  {
    ExecKeeps(Initial(tb), run);
  }

  // The unique index never rejects the insert after a successful compare: with the store working,
  // a request that passed its checks fails only on the version or on a deleted row.
  lemma InsertNeverRejected(s: System, t: nat, env: Env)
    requires Inv(s) && t < |s.threads| && s.threads[t].pc.Ready? && Versioned(s.threads[t].req.op) && env.storeOk
    ensures var req, pc := s.threads[t].req, Step(s, Advance(t, env)).threads[t].pc;
            if Live(s.tables.rows, KeyOf(req)) && s.tables.rows[KeyOf(req)].version == req.op.expected
            then pc.Auditing? else pc == Done(Failed(VersionConflict))
  {
    var req := s.threads[t].req;
    if Live(s.tables.rows, KeyOf(req)) && s.tables.rows[KeyOf(req)].version == req.op.expected {
      CommitKeeps(s.tables, s.threads[t], env);
    }
  }

  // A response, whatever ran between the query for the row and the query for its revisions, shows
  // revisions 1..m with m at least the row's version, and the revision of that version fits the row.
  lemma ReadsAreCoherent(tb: Tables, run: seq<Action>, t: nat)
    requires Sound(tb)
    requires var s := Exec(Initial(tb), run);
             && t < |s.threads| && s.threads[t].req.kind == Priority
             && s.threads[t].pc.Done? && s.threads[t].pc.outcome.Returned?
    ensures var out := Exec(Initial(tb), run).threads[t].pc.outcome; CoherentRead(out.row, out.revisions)
  {
    ExecKeeps(Initial(tb), run);
    assert ThreadOk(Exec(Initial(tb), run).tables, Exec(Initial(tb), run).threads[t]);
  }

  // A version a client holds, however old, never exceeds the stored one; so an expected version
  // taken from an earlier read does not exceed the version of the copy the request then reads.
  lemma HeldVersions(tb: Tables, run: seq<Action>)
    requires Sound(tb)
    ensures var s := Exec(Initial(tb), run);
            && SeenOk(s.tables, s.seen)
            && (forall i :: 0 <= i < |s.threads| && s.threads[i].backed && s.threads[i].pc.Ready?
                  && Versioned(s.threads[i].req.op)
                  ==> s.threads[i].req.op.expected <= s.threads[i].pc.snap.version)
  {
    var s := Exec(Initial(tb), run);
    ExecKeeps(Initial(tb), run);
    assert forall i :: 0 <= i < |s.threads| ==> ThreadOk(s.tables, s.threads[i]);
  }

  // What a client may base an expected version on: every version a response carried has been seen.
  ghost predicate ResponsesSeen(s: System) {
    forall i :: 0 <= i < |s.threads| && Targets(s.threads[i].req.op) && s.threads[i].pc.Done? && s.threads[i].pc.outcome.Returned?
      ==> (KeyOf(s.threads[i].req), s.threads[i].pc.outcome.row.version) in s.seen
  }

  lemma ResponsesSeenStep(s: System, a: Action)
    requires Inv(s) && ResponsesSeen(s)
    ensures ResponsesSeen(Step(s, a))
  {
    if a.Advance? && a.t < |s.threads| { assert ThreadOk(s.tables, s.threads[a.t]); }
  }

  lemma {:induction false} ResponsesAreSeen(tb: Tables, run: seq<Action>)
    requires Sound(tb)
    ensures ResponsesSeen(Exec(Initial(tb), run))
  {
    if run != [] {
      ResponsesAreSeen(tb, run[..|run| - 1]);
      ExecKeeps(Initial(tb), run[..|run| - 1]);
      ResponsesSeenStep(Exec(Initial(tb), run[..|run| - 1]), run[|run| - 1]);
    }
  }
}
