// What the compare protects when expected versions come from earlier reads: no stale overwrite,
// immutability of final decisions, and what a request may conclude from its own response.
module Finality {
  import opened Workflow
  import opened Text
  import opened Records
  import opened Protocol
  import opened Invariants

  predicate OnRecord(req: Request, key: Key) {
    Targets(req.op) && KeyOf(req) == key
  }

  // Every update and transition of this record was sent with a version some read had returned.
  ghost predicate AllBacked(s: System, key: Key) {
    forall i :: 0 <= i < |s.threads| && Versioned(s.threads[i].req.op) && OnRecord(s.threads[i].req, key)
      ==> s.threads[i].backed
  }

  lemma BackedBefore(s: System, later: System, key: Key)
    requires ThreadsPersist(s, later) && AllBacked(later, key)
    ensures AllBacked(s, key)
  {
    forall i | 0 <= i < |s.threads| && Versioned(s.threads[i].req.op) && OnRecord(s.threads[i].req, key)
      ensures s.threads[i].backed
    {
      assert later.threads[i].req == s.threads[i].req;
    }
  }

  // The request stands before its write and the compare would succeed.
  ghost predicate Matches(tb: Tables, th: Thread) {
    && th.pc.Ready? && Versioned(th.req.op) && Live(tb.rows, KeyOf(th.req))
    && tb.rows[KeyOf(th.req)].version == th.req.op.expected
  }

  // When the compare succeeds, the copy the request checked is the stored row exactly if the
  // expected version does not exceed the version of that copy; a version from an earlier read never does.
  lemma NoStaleOverwrite(tb: Tables, th: Thread)
    requires Sound(tb) && ThreadOk(tb, th) && Matches(tb, th)
    ensures th.pc.snap == tb.rows[KeyOf(th.req)] <==> th.req.op.expected <= th.pc.snap.version
    ensures th.backed ==> th.pc.snap == tb.rows[KeyOf(th.req)]
  {
  }

  // The effect of a successful compare on the revisions of the decision.
  lemma CommitRevisions(tb: Tables, th: Thread, env: Env)
    requires Sound(tb) && ThreadOk(tb, th) && Matches(tb, th) && th.req.kind == Priority
    ensures var key := KeyOf(th.req);
            var (later, pc) := WriteStep(tb, th.req, th.pc.snap, env);
            RevisionsOf(later.revisions, key.id)
              == RevisionsOf(tb.revisions, key.id) + [NewRevision(key.id, Desired(th.req.op, th.pc.snap, env.now), th.req)]
  {
    var key := KeyOf(th.req);
    CommitKeeps(tb, th, env);
  }

  lemma DraftIsOnlySource(th: Thread, row: Row)
    requires th.req.kind == Priority && th.req.op.Transition? && Check(th.req, row) == None
    ensures row.status == Draft && th.req.op.target in {Observe, Restrict, Urgent}
  {
    DecisionEdges(row.status, th.req.op.target);
  }

  lemma EvidenceKept(rs: seq<Revision>, row: Row)
    requires Chain(rs, row)
    ensures |rs| > 0 && rs[|rs| - 1].evidence == row.fields.evidence
  {
  }

  lemma CommitRows(tb: Tables, th: Thread, env: Env)
    requires Sound(tb) && ThreadOk(tb, th) && Matches(tb, th)
    ensures WriteStep(tb, th.req, th.pc.snap, env).0.rows
         == tb.rows[KeyOf(th.req) := Merged(tb.rows[KeyOf(th.req)], Desired(th.req.op, th.pc.snap, env.now))]
  {
    CommitKeeps(tb, th, env);
  }

  // A finalisation backed by a read changes status, version and update time, and nothing else.
  lemma FinalisationCarriesDraft(tb: Tables, th: Thread, env: Env)
    requires Sound(tb) && ThreadOk(tb, th) && Matches(tb, th) && th.backed
    requires th.req.kind == Priority && th.req.op.Transition?
    ensures var key, target := KeyOf(th.req), th.req.op.target;
            var stored := tb.rows[key];
            && stored.status == Draft && target in {Observe, Restrict, Urgent}
            && WriteStep(tb, th.req, th.pc.snap, env).0.rows
                 == tb.rows[key := stored.(status := target, version := stored.version + 1, updatedAt := env.now)]
  {
    NoStaleOverwrite(tb, th);
    CommitRows(tb, th, env);
    DraftIsOnlySource(th, tb.rows[KeyOf(th.req)]);
  }

  // Its revision follows the draft's and carries the same evidence.
  lemma FinalisationCarriesEvidence(tb: Tables, th: Thread, env: Env)
    requires Sound(tb) && ThreadOk(tb, th) && Matches(tb, th) && th.backed
    requires th.req.kind == Priority && th.req.op.Transition?
    ensures var id := KeyOf(th.req).id;
            var rs := RevisionsOf(tb.revisions, id);
            var rs' := RevisionsOf(WriteStep(tb, th.req, th.pc.snap, env).0.revisions, id);
            && |rs'| == |rs| + 1 && rs <= rs' && |rs| > 0
            && rs'[|rs|].evidence == rs[|rs| - 1].evidence && rs'[|rs|].status == th.req.op.target
  {
    var key := KeyOf(th.req);
    NoStaleOverwrite(tb, th);
    CommitRevisions(tb, th, env);
    EvidenceKept(RevisionsOf(tb.revisions, key.id), tb.rows[key]);
  }

  // ---- final decisions ----------------------------------------------------------

  // A delete of this record has passed its check and not yet written.
  ghost predicate PendingDelete(s: System, key: Key) {
    exists i :: 0 <= i < |s.threads| && s.threads[i].pc.Ready? && s.threads[i].req.op.Delete? && KeyOf(s.threads[i].req) == key
  }

  ghost predicate IsFinal(s: System, key: Key) {
    key.kind == Priority && key in s.tables.rows && s.tables.rows[key].status != Draft
  }

  // The stored decision is the same, except that its deleted flag may have been set.
  ghost predicate SameDecision(tb: Tables, later: Tables, key: Key)
    requires key in tb.rows
  {
    && key in later.rows
    && later.rows[key] == tb.rows[key].(deleted := later.rows[key].deleted)
    && RevisionsOf(later.revisions, key.id) == RevisionsOf(tb.revisions, key.id)
  }

  lemma InsertElsewhere(tb: Tables, req: Request, env: Env, key: Key)
    requires req.op.Create? && key in tb.rows
    ensures var later := InsertStep(tb, req, env).0;
            && key in later.rows && later.rows[key] == tb.rows[key]
            && (key.kind == Priority ==> RevisionsOf(later.revisions, key.id) == RevisionsOf(tb.revisions, key.id))
  {
  }

  lemma WriteElsewhere(tb: Tables, req: Request, snap: Row, env: Env, key: Key)
    requires (Versioned(req.op) || req.op.Delete?) && key in tb.rows && KeyOf(req) != key
    ensures var later := WriteStep(tb, req, snap, env).0;
            && key in later.rows && later.rows[key] == tb.rows[key]
            && (key.kind == Priority ==> RevisionsOf(later.revisions, key.id) == RevisionsOf(tb.revisions, key.id))
  {
  }

  // A write that is not on this record leaves its row and its revisions alone.
  lemma OtherRecords(tb: Tables, th: Thread, env: Env, key: Key)
    requires Sound(tb) && ThreadOk(tb, th) && key in tb.rows
    requires !th.pc.Ready? || KeyOf(th.req) != key
    ensures var (later, pc) := StepThread(tb, th.req, th.pc, env);
            && key in later.rows && later.rows[key] == tb.rows[key]
            && (key.kind == Priority ==> RevisionsOf(later.revisions, key.id) == RevisionsOf(tb.revisions, key.id))
  {
    match th.pc {
      case Inserting => InsertElsewhere(tb, th.req, env, key);
      case Ready(snap) => WriteElsewhere(tb, th.req, snap, env, key);
      case _ =>
    }
  }

  // A request that cannot commit changes neither rows nor revisions by its write.
  lemma LosingWrite(tb: Tables, th: Thread, env: Env)
    requires th.pc.Ready? && Versioned(th.req.op) && !Matches(tb, th)
    ensures StepThread(tb, th.req, th.pc, env).0 == tb
  {
  }

  // This request stands before its write of the record and its compare would succeed.
  ghost predicate ArmedFor(tb: Tables, th: Thread, key: Key) {
    Matches(tb, th) && KeyOf(th.req) == key
  }

  ghost predicate Armed(s: System, key: Key) {
    exists i :: 0 <= i < |s.threads| && ArmedFor(s.tables, s.threads[i], key)
  }

  // Against a final decision a request can be armed only with a version ahead of the copy it checked.
  lemma ArmedGuessed(tb: Tables, th: Thread, key: Key)
    requires Sound(tb) && ThreadOk(tb, th) && ArmedFor(tb, th, key)
    requires key.kind == Priority && tb.rows[key].status != Draft
    ensures !th.backed && th.req.op.expected > th.pc.snap.version
  {
    NoStaleOverwrite(tb, th);
    CheckedStatus(th.req, th.pc.snap, 0);
  }

  lemma BackedIsUnarmed(s: System, key: Key)
    requires Inv(s) && IsFinal(s, key) && AllBacked(s, key)
    ensures !Armed(s, key)
  {
    forall i | 0 <= i < |s.threads| && ArmedFor(s.tables, s.threads[i], key) ensures false {
      ArmedGuessed(s.tables, s.threads[i], key);
    }
  }

  lemma FinalThreadStep(tb: Tables, th: Thread, env: Env, key: Key)
    requires Sound(tb) && ThreadOk(tb, th) && !ArmedFor(tb, th, key)
    requires key.kind == Priority && key in tb.rows && tb.rows[key].status != Draft
    ensures var later := StepThread(tb, th.req, th.pc, env).0;
            && SameDecision(tb, later, key)
            && ((th.pc.Ready? && th.req.op.Delete? && KeyOf(th.req) == key) || later.rows[key] == tb.rows[key])
  {
    if th.pc.Ready? && KeyOf(th.req) == key {
      if Versioned(th.req.op) { LosingWrite(tb, th, env); }
    } else {
      OtherRecords(tb, th, env, key);
    }
  }

  // Once the decision is final no request passes its check any more, so none becomes armed by its own step.
  lemma StaysUnarmed(tb: Tables, th: Thread, env: Env, key: Key)
    requires ThreadOk(tb, th) && !ArmedFor(tb, th, key)
    requires key.kind == Priority && key in tb.rows && tb.rows[key].status != Draft
    ensures var (later, pc) := StepThread(tb, th.req, th.pc, env); !ArmedFor(later, th.(pc := pc), key)
  {
  }

  // No delete passes its check once the decision is final.
  lemma NoNewDelete(tb: Tables, th: Thread, env: Env, key: Key)
    requires key.kind == Priority && key in tb.rows && tb.rows[key].status != Draft
    requires !(th.pc.Ready? && th.req.op.Delete? && KeyOf(th.req) == key)
    ensures var pc := StepThread(tb, th.req, th.pc, env).1;
            !(pc.Ready? && th.req.op.Delete? && KeyOf(th.req) == key)
  {
  }

  // A request is not armed by what others leave of the final decision.
  lemma OtherStaysUnarmed(tb: Tables, later: Tables, th: Thread, key: Key)
    requires key in tb.rows && SameDecision(tb, later, key) && (tb.rows[key].deleted ==> later.rows[key].deleted)
    requires !ArmedFor(tb, th, key)
    ensures !ArmedFor(later, th, key)
  {
  }

  lemma UnarmedStep(s: System, t: nat, env: Env, key: Key, i: nat)
    requires Inv(s) && IsFinal(s, key) && !Armed(s, key) && t < |s.threads| && i < |s.threads|
    requires SameDecision(s.tables, AdvanceThread(s, t, env).tables, key)
    ensures var later := AdvanceThread(s, t, env); !ArmedFor(later.tables, later.threads[i], key)
  {
    assert ThreadOk(s.tables, s.threads[i]) && !ArmedFor(s.tables, s.threads[i], key);
    if t == i {
      StaysUnarmed(s.tables, s.threads[i], env, key);
    } else {
      AdvanceKeeps(s, t, env);
      OtherStaysUnarmed(s.tables, AdvanceThread(s, t, env).tables, s.threads[i], key);
    }
  }

  lemma NobodyArms(s: System, a: Action, key: Key)
    requires Inv(s) && IsFinal(s, key) && !Armed(s, key) && SameDecision(s.tables, Step(s, a).tables, key)
    ensures !Armed(Step(s, a), key)
  {
    if a.Advance? && a.t < |s.threads| {
      forall i | 0 <= i < |s.threads|
        ensures !ArmedFor(Step(s, a).tables, Step(s, a).threads[i], key)
      {
        UnarmedStep(s, a.t, a.env, key, i);
      }
    } else {
      forall i | 0 <= i < |s.threads| ensures !ArmedFor(s.tables, s.threads[i], key) {
      }
    }
  }

  lemma FinalStep(s: System, a: Action, key: Key)
    requires Inv(s) && IsFinal(s, key) && !Armed(s, key)
    ensures SameDecision(s.tables, Step(s, a).tables, key)
    ensures !PendingDelete(s, key) ==>
              !PendingDelete(Step(s, a), key) && Step(s, a).tables.rows[key] == s.tables.rows[key]
  {
    if a.Advance? && a.t < |s.threads| {
      var th := s.threads[a.t];
      assert ThreadOk(s.tables, th) && !ArmedFor(s.tables, th, key);
      FinalThreadStep(s.tables, th, a.env, key);
      if !PendingDelete(s, key) { NoNewDelete(s.tables, th, a.env, key); }
    }
  }

  // Terminal immutability: once a decision is final and no request is armed against it, no
  // interleaving of any further requests, whatever versions they expect, changes its row or its
  // revisions. Only its deleted flag can still be set, by a delete that had already passed its check.
  lemma {:induction false} FinalForever(s: System, run: seq<Action>, key: Key)
    requires Inv(s) && IsFinal(s, key) && !Armed(s, key)
    ensures SameDecision(s.tables, Exec(s, run).tables, key) && !Armed(Exec(s, run), key)
    ensures !PendingDelete(s, key) ==>
              !PendingDelete(Exec(s, run), key) && Exec(s, run).tables.rows[key] == s.tables.rows[key]
  {
    if run != [] {
      var before := Exec(s, run[..|run| - 1]);
      ExecKeeps(s, run[..|run| - 1]);
      FinalForever(s, run[..|run| - 1], key);
      FinalStep(before, run[|run| - 1], key);
      NobodyArms(before, run[|run| - 1], key);
    }
  }

  // The stored decision is the very same, its deleted flag included.
  ghost predicate Untouched(tb: Tables, later: Tables, key: Key)
    requires key in tb.rows
  {
    SameDecision(tb, later, key) && later.rows[key] == tb.rows[key]
  }

  lemma ArmedRewrites(s: System, key: Key) returns (run: seq<Action>)
    requires Inv(s) && Armed(s, key)
    ensures !SameDecision(s.tables, Exec(s, run).tables, key)
  {
    var i :| 0 <= i < |s.threads| && ArmedFor(s.tables, s.threads[i], key);
    CommitAt(s, i);
    run := [Advance(i, GOOD)];
    ExecOne(s, run[0]);
  }

  lemma PendingDeletes(s: System, key: Key) returns (run: seq<Action>)
    requires Inv(s) && PendingDelete(s, key) && Live(s.tables.rows, key)
    ensures !Untouched(s.tables, Exec(s, run).tables, key)
  {
    var i :| 0 <= i < |s.threads| && s.threads[i].pc.Ready? && s.threads[i].req.op.Delete? && KeyOf(s.threads[i].req) == key;
    run := [Advance(i, GOOD)];
    ExecOne(s, run[0]);
  }

  // Exactly when a final decision is safe: no continuation of the run rewrites it if and only if no
  // request is armed against it, and none touches it at all if and only if no delete is pending either.
  lemma FinalExactly(s: System, key: Key)
    requires Inv(s) && IsFinal(s, key)
    ensures (forall run :: SameDecision(s.tables, Exec(s, run).tables, key)) <==> !Armed(s, key)
    ensures (forall run :: Untouched(s.tables, Exec(s, run).tables, key))
       <==> !Armed(s, key) && !(Live(s.tables.rows, key) && PendingDelete(s, key))
  {
    if Armed(s, key) {
      var run := ArmedRewrites(s, key);
    } else {
      forall run ensures SameDecision(s.tables, Exec(s, run).tables, key) { FinalForever(s, run, key); }
      if Live(s.tables.rows, key) && PendingDelete(s, key) {
        var run := PendingDeletes(s, key);
      } else {
        forall run ensures Untouched(s.tables, Exec(s, run).tables, key) {
          FinalForever(s, run, key);
          ExecKeeps(s, run);
        }
      }
    }
  }

  // A decision that is final when a process starts is never touched by it, whatever its requests expect.
  lemma FinalFromTheStart(tb: Tables, run: seq<Action>, key: Key)
    requires Sound(tb) && key.kind == Priority && key in tb.rows && tb.rows[key].status != Draft
    ensures Untouched(tb, Exec(Initial(tb), run).tables, key)
  {
    FinalForever(Initial(tb), run, key);
  }

  // All revisions but the last are drafts.
  ghost predicate OneFinal(rs: seq<Revision>) {
    forall i :: 0 <= i < |rs| - 1 ==> rs[i].status == Draft
  }

  ghost predicate OneFinalAt(tb: Tables, key: Key) {
    key in tb.rows ==> OneFinal(RevisionsOf(tb.revisions, key.id))
  }

  lemma OneFinalCommit(tb: Tables, th: Thread, env: Env)
    requires Sound(tb) && ThreadOk(tb, th) && Matches(tb, th) && th.backed && th.req.kind == Priority
    requires OneFinal(RevisionsOf(tb.revisions, KeyOf(th.req).id))
    ensures OneFinal(RevisionsOf(WriteStep(tb, th.req, th.pc.snap, env).0.revisions, KeyOf(th.req).id))
  {
    var rs := RevisionsOf(tb.revisions, KeyOf(th.req).id);
    NoStaleOverwrite(tb, th);
    CommitRevisions(tb, th, env);
    CheckedStatus(th.req, th.pc.snap, env.now);
    assert Chain(rs, tb.rows[KeyOf(th.req)]);
  }

  lemma OneFinalBirth(tb: Tables, th: Thread, env: Env, key: Key)
    requires Sound(tb) && ThreadOk(tb, th) && key.kind == Priority && key !in tb.rows
    ensures OneFinalAt(StepThread(tb, th.req, th.pc, env).0, key)
  {
    var later := StepThread(tb, th.req, th.pc, env).0;
    if key in later.rows {
      StepThreadKeeps(tb, th, env);
      assert Chain(RevisionsOf(later.revisions, key.id), later.rows[key]);
    }
  }

  lemma OneFinalThreadStep(tb: Tables, th: Thread, env: Env, key: Key)
    requires Sound(tb) && ThreadOk(tb, th) && key.kind == Priority && key in tb.rows && OneFinalAt(tb, key)
    requires Versioned(th.req.op) && OnRecord(th.req, key) ==> th.backed
    ensures OneFinalAt(StepThread(tb, th.req, th.pc, env).0, key)
  {
    if th.pc.Ready? && KeyOf(th.req) == key {
      if Matches(tb, th) {
        OneFinalCommit(tb, th, env);
      } else if Versioned(th.req.op) {
        LosingWrite(tb, th, env);
      }
    } else {
      OtherRecords(tb, th, env, key);
    }
  }

  lemma OneFinalStep(s: System, a: Action, key: Key)
    requires Inv(s) && AllBacked(s, key) && key.kind == Priority && OneFinalAt(s.tables, key)
    ensures OneFinalAt(Step(s, a).tables, key)
  {
    if a.Advance? && a.t < |s.threads| {
      if key in s.tables.rows { OneFinalThreadStep(s.tables, s.threads[a.t], a.env, key); }
      else { OneFinalBirth(s.tables, s.threads[a.t], a.env, key); }
    }
  }

  // A chain has at most one final revision and it is the last.
  lemma {:induction false} FinalRevisionIsLast(s: System, run: seq<Action>, key: Key)
    requires Inv(s) && key.kind == Priority && OneFinalAt(s.tables, key) && AllBacked(Exec(s, run), key)
    ensures OneFinalAt(Exec(s, run).tables, key)
  {
    if run != [] {
      var before := Exec(s, run[..|run| - 1]);
      ExecKeeps(s, run[..|run| - 1]);
      StepKeeps(before, run[|run| - 1]);
      BackedBefore(before, Exec(s, run), key);
      FinalRevisionIsLast(s, run[..|run| - 1], key);
      OneFinalStep(before, run[|run| - 1], key);
    }
  }

  // ---- what a response proves ---------------------------------------------------

  predicate Finalisation(req: Request) {
    req.kind == Priority && req.op.Transition?
  }

  // From its commit on, a finalisation finds its own result whenever it looks.
  ghost predicate Settled(tb: Tables, th: Thread)
    requires Finalisation(th.req)
  {
    var key, target, version := KeyOf(th.req), th.req.op.target, th.req.op.expected + 1;
    && (th.pc.Auditing? || th.pc.Reread? || th.pc.Preload? ==>
          key in tb.rows && target != Draft && tb.rows[key].status == target && tb.rows[key].version == version)
    && (th.pc.Preload? ==> th.pc.row.status == target && th.pc.row.version == version)
    && (th.pc.Done? && th.pc.outcome.Returned? ==>
          var out := th.pc.outcome;
          out.row.status == target && out.row.version == version && |out.revisions| == version)
  }

  lemma SettlingWrite(tb: Tables, th: Thread, env: Env)
    requires Sound(tb) && ThreadOk(tb, th) && Finalisation(th.req) && th.pc.Ready?
    ensures var (later, pc) := WriteStep(tb, th.req, th.pc.snap, env); Settled(later, th.(pc := pc))
  {
    if Matches(tb, th) {
      CommitKeeps(tb, th, env);
      DraftIsOnlySource(th, th.pc.snap);
    }
  }

  lemma SettlingOwnStep(tb: Tables, th: Thread, env: Env)
    requires Sound(tb) && ThreadOk(tb, th) && Finalisation(th.req) && Settled(tb, th)
    ensures var (later, pc) := StepThread(tb, th.req, th.pc, env); Settled(later, th.(pc := pc))
  {
    match th.pc {
      case Ready(_) => SettlingWrite(tb, th, env);
      case Preload(key, _) => SelectShowsChain(tb, key.id);
      case _ =>
    }
  }

  lemma SettledStep(s: System, a: Action, t: nat)
    requires Inv(s) && t < |Step(s, a).threads| && Finalisation(Step(s, a).threads[t].req)
    requires AllBacked(s, KeyOf(Step(s, a).threads[t].req))
    requires t < |s.threads| ==> Finalisation(s.threads[t].req) && Settled(s.tables, s.threads[t])
    ensures Settled(Step(s, a).tables, Step(s, a).threads[t])
  {
    if t < |s.threads| && a.Advance? && a.t < |s.threads| {
      var th := s.threads[t];
      if a.t == t {
        SettlingOwnStep(s.tables, th, a.env);
      } else if th.pc.Auditing? || th.pc.Reread? || th.pc.Preload? {
        BackedIsUnarmed(s, KeyOf(th.req));
        FinalThreadStep(s.tables, s.threads[a.t], a.env, KeyOf(th.req));
      }
    }
  }

  // Read your finalisation: a priority transition that reports success reports the requested
  // status, the version after the expected one and exactly that many revisions, whatever else ran.
  lemma {:induction false} ReadYourFinalisation(tb: Tables, run: seq<Action>, t: nat)
    requires Sound(tb)
    requires var s := Exec(Initial(tb), run);
             t < |s.threads| && Finalisation(s.threads[t].req) && AllBacked(s, KeyOf(s.threads[t].req))
    ensures var th := Exec(Initial(tb), run).threads[t];
            && Settled(Exec(Initial(tb), run).tables, th)
            && (th.pc.Done? && th.pc.outcome.Returned? ==>
                  var out := th.pc.outcome;
                  && out.row.status == th.req.op.target && out.row.version == th.req.op.expected + 1
                  && |out.revisions| == th.req.op.expected + 1)
  {
    if run != [] {
      var before, after := Exec(Initial(tb), run[..|run| - 1]), Exec(Initial(tb), run);
      ExecKeeps(Initial(tb), run[..|run| - 1]);
      StepKeeps(before, run[|run| - 1]);
      BackedBefore(before, after, KeyOf(after.threads[t].req));
      if t < |before.threads| {
        ReadYourFinalisation(tb, run[..|run| - 1], t);
      }
      SettledStep(before, run[|run| - 1], t);
    }
  }

  // A successful update or transition, for any expected versions, reports a version beyond the expected one.
  lemma ReadYourWrite(tb: Tables, run: seq<Action>, t: nat)
    requires Sound(tb)
    requires var s := Exec(Initial(tb), run);
             && t < |s.threads| && Versioned(s.threads[t].req.op)
             && s.threads[t].pc.Done? && s.threads[t].pc.outcome.Returned?
    ensures var th := Exec(Initial(tb), run).threads[t]; th.req.op.expected + 1 <= th.pc.outcome.row.version
  {
    ExecKeeps(Initial(tb), run);
    assert ThreadOk(Exec(Initial(tb), run).tables, Exec(Initial(tb), run).threads[t]);
  }

  // ---- guessed versions and late deletes -------------------------------------------

  const GOOD: Env := Env(0, 0, true, true)

  lemma ExecOne(s: System, a: Action)
    ensures Exec(s, [a]) == Step(s, a)
  {
    assert [a][..0] == [];
  }

  lemma ExecThen(s: System, run: seq<Action>, a: Action)
    ensures Exec(s, run + [a]) == Step(Exec(s, run), a)
  {
    assert (run + [a])[..|run|] == run;
  }

  lemma {:induction false} ExecConcat(s: System, run: seq<Action>, more: seq<Action>)
    ensures Exec(s, run + more) == Exec(Exec(s, run), more)
  {
    if more == [] {
      assert run + more == run;
    } else {
      var front, last := more[..|more| - 1], more[|more| - 1];
      ExecConcat(s, run, front);
      ExecThen(s, run + front, last);
      ExecThen(Exec(s, run), front, last);
      assert run + more == run + front + [last] && more == front + [last];
    }
  }

  // A matching write of a checked copy, seen from the whole system.
  lemma CommitAt(s: System, t: nat)
    requires Inv(s) && t < |s.threads| && Matches(s.tables, s.threads[t])
    ensures var req := s.threads[t].req;
            var key, next := KeyOf(req), Desired(req.op, s.threads[t].pc.snap, GOOD.now);
            var later := Step(s, Advance(t, GOOD));
            && later.tables.rows == s.tables.rows[key := Merged(s.tables.rows[key], next)]
            && |later.threads| == |s.threads|
            && (forall i :: 0 <= i < |s.threads| && i != t ==> later.threads[i] == s.threads[i])
            && later.threads[t].backed == s.threads[t].backed
  {
    CommitKeeps(s.tables, s.threads[t], GOOD);
  }

  // The record is shown, and a request based on that version reads and writes it at once.
  function ShowAndWrite(s: System, key: Key, req: Request): seq<Action> {
    [Show(key), Submit(req), Advance(|s.threads|, GOOD), Advance(|s.threads|, GOOD)]
  }

  // The request would be accepted for the record as it is.
  ghost predicate Acceptable(tb: Tables, key: Key, req: Request) {
    && Live(tb.rows, key) && Versioned(req.op) && OnRecord(req, key) && RouteAllows(req)
    && Check(req, tb.rows[key]) == None && req.op.expected == tb.rows[key].version
  }

  lemma ShowAndRead(s: System, key: Key, req: Request)
    requires Acceptable(s.tables, key, req)
    ensures var n := |s.threads|;
            var s2 := Step(Step(s, Show(key)), Submit(req));
            s2.tables == s.tables && s2.threads == s.threads + [Thread(req, true, Begin)]
    ensures var n := |s.threads|;
            var s3 := Step(Step(Step(s, Show(key)), Submit(req)), Advance(n, GOOD));
            s3.tables == s.tables && s3.threads == s.threads + [Thread(req, true, Ready(s.tables.rows[key]))]
  {
  }

  // The later system has the requests of the earlier one where they were, and only backed new ones.
  ghost predicate JoinedByBacked(s: System, later: System) {
    && Inv(later) && s.threads <= later.threads
    && (forall i :: |s.threads| <= i < |later.threads| ==> later.threads[i].backed)
  }

  lemma ExecFour(s: System, a: Action, b: Action, c: Action, d: Action)
    ensures Exec(s, [a, b, c, d]) == Step(Step(Step(Step(s, a), b), c), d)
  {
    ExecOne(s, a);
    ExecThen(s, [a], b);
    ExecThen(s, [a] + [b], c);
    ExecThen(s, [a] + [b] + [c], d);
    assert [a, b, c, d] == [a] + [b] + [c] + [d];
  }

  lemma WriteOnce(s: System, key: Key, req: Request)
    requires Inv(s) && Acceptable(s.tables, key, req)
    ensures var later := Exec(s, ShowAndWrite(s, key, req));
            && JoinedByBacked(s, later)
            && later.tables.rows == s.tables.rows[key := Desired(req.op, s.tables.rows[key], GOOD.now)]
  {
    var n := |s.threads|;
    var read := Step(Step(Step(s, Show(key)), Submit(req)), Advance(n, GOOD));
    ExecFour(s, Show(key), Submit(req), Advance(n, GOOD), Advance(n, GOOD));
    ExecKeeps(s, ShowAndWrite(s, key, req));
    ShowAndRead(s, key, req);
    StepKeeps(s, Show(key));
    StepKeeps(Step(s, Show(key)), Submit(req));
    StepKeeps(Step(Step(s, Show(key)), Submit(req)), Advance(n, GOOD));
    CommitAt(read, n);
  }

  const FILLED := Fields("n", "", "f", "o", "", "", 0.0, "", 0, "e", "c")

  // An edit by an administrator, and a finalisation by a reviewer who is not the preparer.
  function AnyEdit(row: Row, id: nat): Request {
    Request(Priority, Update(id, FILLED, row.version), row.preparedBy, Admin, "")
  }

  function AnyFinal(row: Row, id: nat): Request {
    Request(Priority, Transition(id, Observe, row.version, ""), row.preparedBy + "x", Reviewer, "")
  }

  ghost predicate LiveDraft(tb: Tables, key: Key) {
    key.kind == Priority && Live(tb.rows, key) && tb.rows[key].status == Draft
  }

  lemma EditIsAcceptable(tb: Tables, key: Key)
    requires LiveDraft(tb, key) && !Blank(tb.rows[key].code)
    ensures Acceptable(tb, key, AnyEdit(tb.rows[key], key.id))
  {
  }

  lemma FinalIsAcceptable(tb: Tables, key: Key)
    requires LiveDraft(tb, key)
    ensures Acceptable(tb, key, AnyFinal(tb.rows[key], key.id))
  {
    var name := tb.rows[key].preparedBy;
    assert |name + "x"| != |name|;
  }

  // Backed edits take a draft to any higher version.
  lemma {:induction false} EditUpTo(s: System, key: Key, version: nat) returns (run: seq<Action>)
    requires Inv(s) && LiveDraft(s.tables, key) && !Blank(s.tables.rows[key].code) && s.tables.rows[key].version <= version
    ensures var later := Exec(s, run);
            JoinedByBacked(s, later) && LiveDraft(later.tables, key) && later.tables.rows[key].version == version
    decreases version - s.tables.rows[key].version
  {
    run := [];
    if s.tables.rows[key].version < version {
      var edit := AnyEdit(s.tables.rows[key], key.id);
      var first := ShowAndWrite(s, key, edit);
      EditIsAcceptable(s.tables, key);
      WriteOnce(s, key, edit);
      var rest := EditUpTo(Exec(s, first), key, version);
      ExecConcat(s, first, rest);
      run := first + rest;
    }
  }

  // A backed finalisation.
  lemma Finalise(s: System, key: Key) returns (run: seq<Action>)
    requires Inv(s) && LiveDraft(s.tables, key)
    ensures var later := Exec(s, run);
            && JoinedByBacked(s, later) && IsFinal(later, key)
            && later.tables.rows[key].version == s.tables.rows[key].version + 1 && !later.tables.rows[key].deleted
  {
    var final := AnyFinal(s.tables.rows[key], key.id);
    FinalIsAcceptable(s.tables, key);
    WriteOnce(s, key, final);
    run := ShowAndWrite(s, key, final);
  }

  // In this continuation of the run, with only backed requests joining, the decision becomes final
  // while request t still waits, and then t rewrites it: an update makes it a draft again.
  ghost predicate Rewrites(s: System, run: seq<Action>, t: nat)
    requires t < |s.threads| && Targets(s.threads[t].req.op)
  {
    var key, later := KeyOf(s.threads[t].req), Exec(s, run);
    var after := Step(later, Advance(t, GOOD));
    && JoinedByBacked(s, later) && IsFinal(later, key)
    && key in after.tables.rows && after.tables.rows[key].version == later.tables.rows[key].version + 1
    && (s.threads[t].req.op.Update? ==> after.tables.rows[key].status == Draft)
  }

  lemma OvertakenWrite(s: System, later: System, t: nat)
    requires Inv(later) && t < |s.threads| && t < |later.threads| && later.threads[t] == s.threads[t]
    requires s.threads[t].req.kind == Priority && Matches(later.tables, s.threads[t])
    ensures var key, after := KeyOf(s.threads[t].req), Step(later, Advance(t, GOOD));
            && key in after.tables.rows && after.tables.rows[key].version == later.tables.rows[key].version + 1
            && (s.threads[t].req.op.Update? ==> after.tables.rows[key].status == Draft)
  {
    CommitAt(later, t);
    assert ThreadOk(later.tables, later.threads[t]);
    CheckedStatus(s.threads[t].req, s.threads[t].pc.snap, GOOD.now);
  }

  // Only a compare that succeeds moves the record on to its next version.
  lemma VersionMovesByMatch(s: System, t: nat)
    requires t < |s.threads| && s.threads[t].pc.Ready? && Versioned(s.threads[t].req.op) && !Matches(s.tables, s.threads[t])
    ensures Step(s, Advance(t, GOOD)).tables == s.tables
  {
    LosingWrite(s.tables, s.threads[t], GOOD);
  }

  lemma OnlyGuessesRewrite(s: System, run: seq<Action>, t: nat)
    requires Inv(s) && t < |s.threads| && s.threads[t].pc.Ready? && Versioned(s.threads[t].req.op)
    requires LiveDraft(s.tables, KeyOf(s.threads[t].req)) && Rewrites(s, run, t)
    ensures s.threads[t].req.op.expected > s.tables.rows[KeyOf(s.threads[t].req)].version
  {
    var later := Exec(s, run);
    assert later.threads[t] == s.threads[t];
    if !Matches(later.tables, later.threads[t]) { VersionMovesByMatch(later, t); }
    ExecKeeps(s, run);
  }

  // The guess that defeats the compare: an update or transition that has checked a decision can rewrite
  // it after a finalisation, all requests that join being backed, if and only if it expects a version
  // ahead of the stored draft. (An update is only checked with a code, which every creation demands.)
  lemma GuessedVersionReopens(s: System, t: nat)
    requires Inv(s) && t < |s.threads| && s.threads[t].pc.Ready? && Versioned(s.threads[t].req.op)
    requires LiveDraft(s.tables, KeyOf(s.threads[t].req))
    requires s.threads[t].req.op.Transition? ==> !Blank(s.threads[t].pc.snap.code)
    ensures (exists run :: Rewrites(s, run, t))
       <==> s.threads[t].req.op.expected > s.tables.rows[KeyOf(s.threads[t].req)].version
  {
    var th := s.threads[t];
    var key := KeyOf(th.req);
    forall run | Rewrites(s, run, t) ensures th.req.op.expected > s.tables.rows[key].version { OnlyGuessesRewrite(s, run, t); }
    if th.req.op.expected > s.tables.rows[key].version {
      assert ThreadOk(s.tables, th);
      var edits := EditUpTo(s, key, th.req.op.expected - 1);
      var final := Finalise(Exec(s, edits), key);
      ExecConcat(s, edits, final);
      var later := Exec(s, edits + final);
      assert later.threads[t] == Exec(s, edits).threads[t] == th;
      OvertakenWrite(s, later, t);
      assert Rewrites(s, edits + final, t);
    }
  }

  lemma DeleteAt(s: System, t: nat)
    requires t < |s.threads| && s.threads[t].pc.Ready? && s.threads[t].req.op.Delete? && Live(s.tables.rows, KeyOf(s.threads[t].req))
    ensures var key, after := KeyOf(s.threads[t].req), Step(s, Advance(t, GOOD));
            && after.tables.rows == s.tables.rows[key := s.tables.rows[key].(deleted := true)]
            && after.threads[t].pc.Auditing? && after.threads[t].pc.entry.before == Some(s.threads[t].pc.snap.status)
  {
  }

  // A delete compares no version: one that has checked a draft can remove the decision after a backed
  // finalisation, and its audit entry then names the status it had read.
  lemma DeleteHitsFinal(s: System, t: nat) returns (run: seq<Action>)
    requires Inv(s) && t < |s.threads| && s.threads[t].pc.Ready? && s.threads[t].req.op.Delete?
    requires LiveDraft(s.tables, KeyOf(s.threads[t].req))
    ensures var key, later := KeyOf(s.threads[t].req), Exec(s, run);
            var after := Step(later, Advance(t, GOOD));
            && JoinedByBacked(s, later) && IsFinal(later, key) && Live(later.tables.rows, key)
            && IsFinal(after, key) && !Live(after.tables.rows, key)
            && after.threads[t].pc.Auditing? && after.threads[t].pc.entry.before == Some(Draft)
  {
    assert ThreadOk(s.tables, s.threads[t]);
    run := Finalise(s, KeyOf(s.threads[t].req));
    assert Exec(s, run).threads[t] == s.threads[t];
    DeleteAt(Exec(s, run), t);
  }
}
