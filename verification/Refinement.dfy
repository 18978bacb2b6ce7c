// The interleaved system against a reference that serves one request at a time.
module Refinement {
  import opened Workflow
  import opened Records
  import opened Protocol
  import opened Invariants
  import opened Finality
  import opened History

  // A write request served in one atomic step: read, check, write. None when it is refused.
  function Atomic(tb: Tables, req: Request, env: Env): Option<Tables> {
    if !RouteAllows(req) then None
    else match req.op
      case Create(code, input) => AtomicCreate(tb, req, env)
      case Fetch(_) => None
      case Delete(_) =>
        if Live(tb.rows, KeyOf(req)) && Check(req, tb.rows[KeyOf(req)]) == None
        then Some(tb.(rows := tb.rows[KeyOf(req) := tb.rows[KeyOf(req)].(deleted := true)]))
        else None
      case Update(_, _, expected) => AtomicWrite(tb, req, env, expected)
      case Transition(_, _, expected, _) => AtomicWrite(tb, req, env, expected)
  }

  function AtomicCreate(tb: Tables, req: Request, env: Env): Option<Tables>
    requires req.op.Create?
  {
    var key, row := Key(req.kind, env.freshId), NewRow(req, env.now);
    if req.op.code != "" && FilledIn(req.kind, req.op.input) && key !in tb.rows && !CodeTaken(tb.rows, req.kind, row.code)
    then Some(Store(tb, key, row, NewRevision(key.id, row.(createdAt := 0, updatedAt := 0), req)))
    else None
  }

  // The new row is computed from the stored row itself.
  function AtomicWrite(tb: Tables, req: Request, env: Env, expected: nat): Option<Tables>
    requires Versioned(req.op)
  {
    var key := KeyOf(req);
    if Live(tb.rows, key) && Check(req, tb.rows[key]) == None && tb.rows[key].version == expected
    then var row := Desired(req.op, tb.rows[key], env.now); Some(Store(tb, key, row, NewRevision(key.id, row, req)))
    else None
  }

  function Store(tb: Tables, key: Key, row: Row, r: Revision): Tables {
    tb.(rows := tb.rows[key := row],
        revisions := if key.kind == Priority then InsertRevision(tb.revisions, r) else tb.revisions)
  }

  // Serve the requests of a history one after the other, in commit order.
  ghost function Replay(tb: Tables, cs: seq<Commit>): Option<Tables> {
    if cs == [] then Some(tb)
    else match Replay(tb, cs[..|cs| - 1])
      case None => None
      case Some(now) => Atomic(now, cs[|cs| - 1].req, cs[|cs| - 1].env)
  }

  // The check was made on what the write then found: for an update or a transition the very row,
  // for a delete a row that still allows it.
  ghost predicate Faithful(c: Commit) {
    match c.req.op
    case Create(_, _) => true
    case Delete(_) => Check(c.req, c.stored) == None
    case _ => c.snap == c.stored
  }

  ghost predicate AllFaithful(cs: seq<Commit>) {
    forall i :: 0 <= i < |cs| ==> Faithful(cs[i])
  }

  // Rows and revisions agree; the audit log is written outside the transactions.
  ghost predicate SameRecords(tb: Tables, other: Tables) {
    tb.rows == other.rows && tb.revisions == other.revisions
  }

  ghost predicate Refines(base: Tables, s: System) {
    var served := Replay(base, s.commits);
    served.Some? && SameRecords(served.value, s.tables)
  }

  lemma CommitIsAtomic(c: Commit, th: Thread, tb: Tables, later: Tables, served: Tables)
    requires CommitOk(c, th) && Faithful(c) && Applies(c, tb, later) && SameRecords(served, tb)
    ensures var next := Atomic(served, c.req, c.env); next.Some? && SameRecords(next.value, later)
  {
  }

  lemma RefinesStep(base: Tables, s: System, a: Action)
    requires Inv(s) && HistoryOk(s) && Refines(base, s) && AllFaithful(Step(s, a).commits)
    ensures Refines(base, Step(s, a))
  {
    var later := Step(s, a);
    var committed := StepCases(s, a);
    if committed {
      var n := |s.commits|;
      var c := later.commits[n];
      assert CommitAtOk(later, n);
      CommitIsAtomic(c, later.threads[c.t], s.tables, later.tables, Replay(base, s.commits).value);
    }
  }

  lemma FaithfulBefore(s: System, a: Action)
    requires Inv(s) && HistoryOk(s) && AllFaithful(Step(s, a).commits)
    ensures AllFaithful(s.commits)
  {
    var committed := StepCases(s, a);
    if committed {
      forall i | 0 <= i < |s.commits| ensures Faithful(s.commits[i]) {
        assert Step(s, a).commits[..|s.commits|][i] == Step(s, a).commits[i];
      }
    }
  }

  // Refinement: in any interleaving whose commits were faithful, rows and revisions are what serving
  // the committed requests atomically, one at a time and in commit order, produces.
  lemma {:induction false} InterleavingIsSerial(tb: Tables, run: seq<Action>)
    requires Sound(tb) && AllFaithful(Exec(Initial(tb), run).commits)
    ensures Refines(tb, Exec(Initial(tb), run))
  {
    if run != [] {
      var before, a := Exec(Initial(tb), run[..|run| - 1]), run[|run| - 1];
      ExecKeeps(Initial(tb), run[..|run| - 1]);
      HistoryKeeps(Initial(tb), run[..|run| - 1]);
      FaithfulBefore(before, a);
      InterleavingIsSerial(tb, run[..|run| - 1]);
      RefinesStep(tb, before, a);
    }
  }

  // ---- which commits are faithful ----------------------------------------------------

  // An update or transition is faithful exactly when the expected version was not ahead of the copy it had read.
  lemma FaithfulWrites(s: System, i: nat)
    requires HistoryOk(s) && i < |s.commits| && Versioned(s.commits[i].req.op)
    ensures var c := s.commits[i]; Faithful(c) <==> c.req.op.expected <= c.snap.version
    ensures s.commits[i].t < |s.threads| && (s.threads[s.commits[i].t].backed ==> Faithful(s.commits[i]))
  {
    assert CommitAtOk(s, i);
  }

  // ---- final decisions in a history ------------------------------------------------------

  // A finalisation of the same decision committed between the read and the write of commit i.
  ghost predicate FinalisedMeanwhile(cs: seq<Commit>, j: nat, i: nat)
    requires j < |cs| && i < |cs|
  {
    Overtakes(cs, j, i) && cs[j].req.op.Transition?
  }

  lemma FinalIsTransition(c: Commit, th: Thread, row: Row)
    requires CommitOk(c, th) && c.key.kind == Priority && Wrote(c, c.key, row) && row.status != Draft
    ensures c.req.op.Transition?
  {
  }

  lemma WriterOfFinal(s: System, i: nat) returns (j: nat)
    requires Journal(s) && i < |s.commits|
    requires var c := s.commits[i]; c.key.kind == Priority && !c.req.op.Create? && c.stored.status != Draft
    ensures j < i && FinalisedMeanwhile(s.commits, j, i) && s.commits[j].left.version == s.commits[i].stored.version
  {
    CopyWasDraft(s, i);
    assert CommitExplained(s.commits, i);
    j :| 0 <= j < i && Wrote(s.commits[j], s.commits[i].key, s.commits[i].stored);
    assert CommitAtOk(s, j);
    FinalIsTransition(s.commits[j], s.threads[s.commits[j].t], s.commits[i].stored);
  }

  lemma CopyWasDraft(s: System, i: nat)
    requires HistoryOk(s) && i < |s.commits|
    requires var c := s.commits[i]; c.key.kind == Priority && !c.req.op.Create?
    ensures var c := s.commits[i];
            && c.snap.status == Draft && c.snap.version <= c.stored.version
            && (c.stored.status != Draft ==> c.snap.version < c.stored.version)
  {
    assert CommitAtOk(s, i);
  }

  lemma FinalisationLeavesFinal(s: System, j: nat)
    requires HistoryOk(s) && j < |s.commits| && s.commits[j].key.kind == Priority && s.commits[j].req.op.Transition?
    ensures s.commits[j].left.status != Draft
  {
    assert CommitAtOk(s, j);
    DecisionEdges(s.commits[j].snap.status, s.commits[j].req.op.target);
  }

  // Final decisions of a history stayed as they were: what later commits found, and what is stored.
  ghost predicate FinalsStay(s: System, key: Key) {
    && (forall j :: 0 <= j < |s.commits| && s.commits[j].key == key && s.commits[j].left.status != Draft ==>
          key in s.tables.rows && s.tables.rows[key].version == s.commits[j].left.version)
    && (forall j, i :: 0 <= j < i < |s.commits| && s.commits[j].key == key == s.commits[i].key && s.commits[j].left.status != Draft ==>
          s.commits[i].stored.version == s.commits[j].left.version)
  }

  lemma FinalsStayCommit(s: System, later: System, key: Key)
    requires key.kind == Priority && HistoryOk(later) && AllBacked(later, key)
    requires Extends(s, later) && Applies(later.commits[|s.commits|], s.tables, later.tables)
    requires InSequence(s) && FinalsStay(s, key)
    ensures FinalsStay(later, key)
  {
    var n := |s.commits|;
    var c := later.commits[n];
    assert CommitAtOk(later, n) && later.commits == s.commits + [c];
    forall j | 0 <= j < n && later.commits[j].key == key == c.key && later.commits[j].left.status != Draft
      ensures c.stored.version == later.commits[j].left.version == c.left.version
    {
      assert Evolves(s.commits[j].left, s.tables.rows[key]);
      if Versioned(c.req.op) { CheckedStatus(c.req, c.snap, c.env.now); }
    }
  }

  lemma {:induction false} BackedFinalsStay(tb: Tables, run: seq<Action>, key: Key)
    requires Sound(tb) && key.kind == Priority && AllBacked(Exec(Initial(tb), run), key)
    ensures FinalsStay(Exec(Initial(tb), run), key)
  {
    if run != [] {
      var s, a := Exec(Initial(tb), run[..|run| - 1]), run[|run| - 1];
      JournalKeeps(Initial(tb), run[..|run| - 1]);
      StepKeeps(s, a);
      BackedBefore(s, Step(s, a), key);
      BackedFinalsStay(tb, run[..|run| - 1], key);
      var committed := StepCases(s, a);
      if committed { FinalsStayCommit(s, Step(s, a), key); }
    }
  }

  // When a write finds a decision final although its check had seen a draft, for any expected
  // versions: exactly if the last write before it was a finalisation committed after its read.
  lemma FoundFinal(tb: Tables, run: seq<Action>, i: nat)
    requires Sound(tb) && i < |Exec(Initial(tb), run).commits|
    requires var c := Exec(Initial(tb), run).commits[i]; c.key.kind == Priority && !c.req.op.Create?
    ensures var cs := Exec(Initial(tb), run).commits;
            cs[i].stored.status != Draft <==>
              exists j :: 0 <= j < |cs| && FinalisedMeanwhile(cs, j, i) && cs[j].left.version == cs[i].stored.version
  {
    var s := Exec(Initial(tb), run);
    JournalKeeps(Initial(tb), run);
    if s.commits[i].stored.status != Draft {
      var j := WriterOfFinal(s, i);
    }
    forall j | 0 <= j < |s.commits| && FinalisedMeanwhile(s.commits, j, i) && s.commits[j].left.version == s.commits[i].stored.version
      ensures s.commits[i].stored.status != Draft
    {
      FinalisationLeavesFinal(s, j);
      assert Evolves(s.commits[j].left, s.commits[i].stored);
    }
  }

  // With versions taken from reads: a committed delete found its decision final exactly if a
  // finalisation of it committed between the delete's read and its write.
  lemma DeleteFoundFinal(tb: Tables, run: seq<Action>, i: nat)
    requires Sound(tb) && i < |Exec(Initial(tb), run).commits|
    requires var s := Exec(Initial(tb), run);
             s.commits[i].req.op.Delete? && s.commits[i].key.kind == Priority && AllBacked(s, s.commits[i].key)
    ensures var cs := Exec(Initial(tb), run).commits;
            cs[i].stored.status != Draft <==> exists j :: 0 <= j < |cs| && FinalisedMeanwhile(cs, j, i)
  {
    var s := Exec(Initial(tb), run);
    JournalKeeps(Initial(tb), run);
    FoundFinal(tb, run, i);
    BackedFinalsStay(tb, run, s.commits[i].key);
    forall j | 0 <= j < |s.commits| && FinalisedMeanwhile(s.commits, j, i)
      ensures s.commits[j].left.version == s.commits[i].stored.version
    {
      FinalisationLeavesFinal(s, j);
    }
  }

  // A committed delete was still allowed by the row it found, for any expected versions, unless it is of
  // a decision and the last write before it was a finalisation committed after its read.
  lemma FaithfulDeletes(tb: Tables, run: seq<Action>, i: nat)
    requires Sound(tb) && i < |Exec(Initial(tb), run).commits| && Exec(Initial(tb), run).commits[i].req.op.Delete?
    ensures var cs := Exec(Initial(tb), run).commits;
            Faithful(cs[i]) <==>
              !(cs[i].key.kind == Priority
                && exists j :: 0 <= j < |cs| && FinalisedMeanwhile(cs, j, i) && cs[j].left.version == cs[i].stored.version)
    ensures var c := Exec(Initial(tb), run).commits[i];
            c.snap.version == c.stored.version ==> Faithful(c) && c.snap.status == c.stored.status
  {
    var s := Exec(Initial(tb), run);
    JournalKeeps(Initial(tb), run);
    assert CommitAtOk(s, i);
    if s.commits[i].key.kind == Priority { FoundFinal(tb, run, i); }
  }

  // ---- when an interleaving is serial ------------------------------------------------------

  // The versions of all updates and transitions came from earlier reads.
  ghost predicate VersionsFromReads(s: System) {
    forall i :: 0 <= i < |s.threads| && Versioned(s.threads[i].req.op) ==> s.threads[i].backed
  }

  // No delete of a decision was overtaken by a finalisation of it.
  ghost predicate DeletesInTime(cs: seq<Commit>) {
    forall i, j :: 0 <= i < |cs| && 0 <= j < |cs| && cs[i].req.op.Delete? && cs[i].key.kind == Priority
      ==> !FinalisedMeanwhile(cs, j, i)
  }

  lemma FaithfulMeansInTime(tb: Tables, run: seq<Action>)
    requires Sound(tb) && VersionsFromReads(Exec(Initial(tb), run))
    ensures var cs := Exec(Initial(tb), run).commits; AllFaithful(cs) <==> DeletesInTime(cs)
  {
    var s := Exec(Initial(tb), run);
    HistoryKeeps(Initial(tb), run);
    forall i | 0 <= i < |s.commits|
      ensures Faithful(s.commits[i]) <==> (s.commits[i].req.op.Delete? && s.commits[i].key.kind == Priority ==> s.commits[i].stored.status == Draft)
    {
      assert CommitAtOk(s, i);
      if Versioned(s.commits[i].req.op) { FaithfulWrites(s, i); }
    }
    forall i | 0 <= i < |s.commits| && s.commits[i].req.op.Delete? && s.commits[i].key.kind == Priority
      ensures s.commits[i].stored.status != Draft <==> exists j :: 0 <= j < |s.commits| && FinalisedMeanwhile(s.commits, j, i)
    {
      DeleteFoundFinal(tb, run, i);
    }
  }

  // The reference refuses a delete that found the decision final.
  lemma UnfaithfulDelete(c: Commit, th: Thread, tb: Tables, later: Tables, served: Tables)
    requires CommitOk(c, th) && c.req.op.Delete? && !Faithful(c) && Applies(c, tb, later) && SameRecords(served, tb)
    ensures Atomic(served, c.req, c.env).None?
  {
  }

  // The histories the reference can serve: those that are faithful, and no others.
  ghost predicate ServedExactly(base: Tables, s: System) {
    if AllFaithful(s.commits) then Refines(base, s) else Replay(base, s.commits).None?
  }

  lemma ServedStep(base: Tables, s: System, a: Action)
    requires Inv(s) && HistoryOk(s) && ServedExactly(base, s) && VersionsFromReads(Step(s, a))
    ensures ServedExactly(base, Step(s, a))
  {
    var later := Step(s, a);
    var committed := StepCases(s, a);
    if AllFaithful(later.commits) {
      FaithfulBefore(s, a);
      RefinesStep(base, s, a);
    } else if committed {
      var n := |s.commits|;
      var c := later.commits[n];
      assert CommitAtOk(later, n) && later.commits == s.commits + [c];
      if AllFaithful(s.commits) {
        assert !Faithful(c);
        UnfaithfulDelete(c, later.threads[c.t], s.tables, later.tables, Replay(base, s.commits).value);
      }
    }
  }

  lemma {:induction false} ServedInFull(tb: Tables, run: seq<Action>)
    requires Sound(tb) && VersionsFromReads(Exec(Initial(tb), run))
    ensures ServedExactly(tb, Exec(Initial(tb), run))
  {
    if run != [] {
      var s, a := Exec(Initial(tb), run[..|run| - 1]), run[|run| - 1];
      ExecKeeps(Initial(tb), run[..|run| - 1]);
      HistoryKeeps(Initial(tb), run[..|run| - 1]);
      StepKeeps(s, a);
      forall i | 0 <= i < |s.threads| && Versioned(s.threads[i].req.op) ensures s.threads[i].backed {
        assert Step(s, a).threads[i].req == s.threads[i].req;
      }
      ServedInFull(tb, run[..|run| - 1]);
      ServedStep(tb, s, a);
    }
  }

  // With versions taken from reads an interleaving is equivalent to serving its commits one at a time,
  // in commit order, if and only if no finalisation overtook a delete of the same decision.
  lemma DisciplinedClientsSeeSerialOrder(tb: Tables, run: seq<Action>)
    requires Sound(tb) && VersionsFromReads(Exec(Initial(tb), run))
    ensures Refines(tb, Exec(Initial(tb), run)) <==> DeletesInTime(Exec(Initial(tb), run).commits)
  {
    FaithfulMeansInTime(tb, run);
    ServedInFull(tb, run);
  }

  // ---- a request alone -------------------------------------------------------------------

  // After its commit a request changes neither rows nor revisions.
  lemma {:induction false} SoloTail(tb: Tables, req: Request, pc: Pc, env: Env)
    requires Fits(req, pc) && (pc.Auditing? || pc.Reread? || pc.Preload? || pc.Done?)
    ensures SameRecords(Solo(tb, req, pc, env).0, tb)
    decreases Remaining(pc)
  {
    if !pc.Done? {
      var (later, next) := StepThread(tb, req, pc, env);
      SoloUnfolds(tb, req, pc, env);
      SoloTail(later, req, next, env);
    }
  }

  // Served without interference, a request has exactly the effect of the atomic reference, and none
  // when the reference refuses it.
  lemma ServeIsAtomic(tb: Tables, req: Request, env: Env)
    requires Sound(tb) && env.storeOk
    ensures var atomic := Atomic(tb, req, env);
            SameRecords(Serve(tb, req, env).0, if atomic.Some? then atomic.value else tb)
  {
    var pc := BeginStep(tb.rows, req);
    SoloUnfolds(tb, req, Begin, env);
    if pc.Inserting? {
      var (later, next) := InsertStep(tb, req, env);
      SoloUnfolds(tb, req, pc, env);
      SoloTail(later, req, next, env);
      if Key(req.kind, env.freshId) !in tb.rows { assert RevisionsOf(tb.revisions, env.freshId) == [] || req.kind != Priority; }
    } else if pc.Ready? {
      ServeWrite(tb, req, pc.snap, env);
    } else {
      SoloTail(tb, req, pc, env);
    }
  }

  lemma ServeWrite(tb: Tables, req: Request, snap: Row, env: Env)
    requires Sound(tb) && env.storeOk && BeginStep(tb.rows, req) == Ready(snap)
    ensures var atomic := Atomic(tb, req, env);
            SameRecords(Solo(tb, req, Ready(snap), env).0, if atomic.Some? then atomic.value else tb)
  {
    var (later, next) := WriteStep(tb, req, snap, env);
    SoloUnfolds(tb, req, Ready(snap), env);
    SoloTail(later, req, next, env);
    if req.kind == Priority { NextRevisionIsNew(tb, req.op.id); }
  }
}
