// Requests that race for the same version of one record, among any other requests.
module Contention {
  import opened Workflow
  import opened Records
  import opened Protocol
  import opened Invariants
  import opened Finality
  import opened History

  // The write attempt is over.
  predicate PastWrite(pc: Pc) {
    pc.Auditing? || pc.Reread? || pc.Preload? || pc.Done?
  }

  predicate Won(pc: Pc) {
    PastWrite(pc) && pc != Done(Failed(VersionConflict))
  }

  // An update or transition of the record that expects version v.
  predicate Rival(req: Request, key: Key, v: nat) {
    Versioned(req.op) && KeyOf(req) == key && req.op.expected == v
  }

  // It has been checked and is about to write.
  ghost predicate Runner(th: Thread, key: Key, v: nat) {
    th.pc.Ready? && Rival(th.req, key, v)
  }

  // Some requests race for the stored version of a live record. Whatever else is in flight may be
  // on the same record, and expect the same version or any other.
  ghost predicate Race(s: System, racers: set<nat>, key: Key, v: nat) {
    && racers != {} && Live(s.tables.rows, key) && s.tables.rows[key].version == v
    && (forall i :: i in racers ==> i < |s.threads| && Runner(s.threads[i], key, v))
  }

  // The commits a run adds include no delete of the record.
  ghost predicate NotDeleted(s: System, now: System, key: Key) {
    forall m :: |s.commits| <= m < |now.commits| && now.commits[m].key == key ==> !now.commits[m].req.op.Delete?
  }

  // The store works for the racers, and the record is not deleted.
  ghost predicate FairRun(s: System, run: seq<Action>, racers: set<nat>, key: Key) {
    && (forall a :: a in run && a.Advance? && a.t in racers ==> a.env.storeOk)
    && NotDeleted(s, Exec(s, run), key)
  }

  // This commit took version v of the record to the next.
  predicate Spends(c: Commit, key: Key, v: nat) {
    c.key == key && Rival(c.req, key, v)
  }

  // Nothing has happened to this request since.
  ghost predicate Waiting(s: System, now: System, i: nat) {
    i < |s.threads| && i < |now.threads| && now.threads[i] == s.threads[i]
  }

  ghost predicate Beaten(now: System, i: nat) {
    i < |now.threads| && now.threads[i].pc == Done(Failed(VersionConflict))
  }

  // The record is as it was, and every racer still waits.
  ghost predicate Undecided(s: System, now: System, racers: set<nat>, key: Key) {
    && key in s.tables.rows && key in now.tables.rows && now.tables.rows[key] == s.tables.rows[key]
    && |s.commits| <= |now.commits|
    && (forall m :: |s.commits| <= m < |now.commits| ==> now.commits[m].key != key && now.commits[m].t !in racers)
    && (forall i :: i in racers ==> Waiting(s, now, i))
  }

  // Commit n is the one that spent the version, on the row all racers had found, and the first write
  // of the record since. Of the racers nobody else has committed anything: they wait or are beaten.
  ghost predicate Decided(s: System, now: System, racers: set<nat>, key: Key, v: nat, n: nat) {
    && |s.commits| <= n < |now.commits|
    && key in s.tables.rows && now.commits[n].stored == s.tables.rows[key]
    && key in now.tables.rows && now.tables.rows[key].version > v
    && (forall m :: |s.commits| <= m < n ==> now.commits[m].key != key)
    && (forall m :: |s.commits| <= m < |now.commits| ==> (Spends(now.commits[m], key, v) <==> m == n))
    && (forall m :: |s.commits| <= m < |now.commits| && now.commits[m].t in racers ==> m == n)
    && DecidedFor(s, now, racers, now.commits[n].t)
  }

  // What has become of the racers, winner being the request that spent the version.
  ghost predicate DecidedFor(s: System, now: System, racers: set<nat>, winner: nat) {
    && winner < |now.threads| && Won(now.threads[winner].pc)
    && (winner < |s.threads| ==> !PastWrite(s.threads[winner].pc))
    && (forall i :: i in racers && i != winner ==> Waiting(s, now, i) || Beaten(now, i))
  }

  // After its write attempt a request commits nothing more.
  lemma AfterWrite(tb: Tables, th: Thread, env: Env)
    requires PastWrite(th.pc)
    ensures var (later, pc) := StepThread(tb, th.req, th.pc, env);
            PastWrite(pc) && (Won(th.pc) ==> Won(pc)) && !Commits(th.pc, pc)
  {
  }

  lemma FirstWrite(tb: Tables, th: Thread, env: Env)
    requires Sound(tb) && ThreadOk(tb, th) && Matches(tb, th) && env.storeOk
    ensures Commits(th.pc, StepThread(tb, th.req, th.pc, env).1)
  {
    CommitKeeps(tb, th, env);
  }

  lemma BeatenWrite(tb: Tables, th: Thread, env: Env, key: Key, v: nat)
    requires key in tb.rows && tb.rows[key].version != v && env.storeOk
    requires Runner(th, key, v) || th.pc == Done(Failed(VersionConflict))
    ensures StepThread(tb, th.req, th.pc, env) == (tb, Done(Failed(VersionConflict)))
  {
  }

  // A commit on a record that exists and is not deleted by it took the stored version to the next.
  lemma CommitSpends(c: Commit, th: Thread, tb: Tables, later: Tables, key: Key)
    requires CommitOk(c, th) && Applies(c, tb, later) && key in tb.rows && c.key == key && !c.req.op.Delete?
    ensures c.stored == tb.rows[key] && Spends(c, key, tb.rows[key].version)
    ensures key in later.rows && later.rows[key].version == tb.rows[key].version + 1
  {
  }

  // Requests whose write attempt is over have it behind them for good.
  ghost predicate PastWritesStay(s: System, now: System) {
    |s.threads| <= |now.threads| && forall i :: 0 <= i < |s.threads| && PastWrite(s.threads[i].pc) ==> PastWrite(now.threads[i].pc)
  }

  lemma PastWritesStep(s: System, now: System, a: Action)
    requires PastWritesStay(s, now)
    ensures PastWritesStay(s, Step(now, a))
  {
    if a.Advance? && a.t < |now.threads| && PastWrite(now.threads[a.t].pc) {
      AfterWrite(now.tables, now.threads[a.t], a.env);
    }
  }

  // later is now after a commit c of its request t.
  ghost predicate CommittedBy(now: System, later: System, t: nat, c: Commit) {
    && t < |now.threads| && later.commits == now.commits + [c] && c.t == t
    && CommitOk(c, now.threads[t]) && Applies(c, now.tables, later.tables)
    && !PastWrite(now.threads[t].pc)
    && |later.threads| == |now.threads| && later.threads[t].pc.Auditing?
    && (forall i :: 0 <= i < |now.threads| && i != t ==> later.threads[i] == now.threads[i])
  }

  lemma StepCommits(now: System, t: nat, env: Env) returns (commit: Option<Commit>)
    requires Inv(now) && t < |now.threads|
    ensures var later := AdvanceThread(now, t, env);
            match commit
            case Some(c) => CommittedBy(now, later, t, c) && later.commits[|now.commits|] == c
            case None =>
              && later.commits == now.commits && later.tables.rows == now.tables.rows
              && !Commits(now.threads[t].pc, later.threads[t].pc)
  {
    var later := AdvanceThread(now, t, env);
    var committed := ThreadCases(now, t, env);
    commit := if committed then Some(later.commits[|now.commits|]) else None;
    assert committed ==> later.commits == now.commits + [commit.value];
  }

  lemma CommitDecides(s: System, now: System, later: System, t: nat, c: Commit, racers: set<nat>, key: Key, v: nat)
    requires Race(s, racers, key, v) && PastWritesStay(s, now) && Undecided(s, now, racers, key)
    requires CommittedBy(now, later, t, c) && c.key == key && !c.req.op.Delete?
    ensures Decided(s, later, racers, key, v, |now.commits|)
  {
    CommitSpends(c, now.threads[t], now.tables, later.tables, key);
  }

  lemma RacersAim(s: System, now: System, racers: set<nat>, key: Key, v: nat)
    requires Race(s, racers, key, v) && Undecided(s, now, racers, key)
    ensures forall i :: i in racers ==> i < |now.threads| && OnRecord(now.threads[i].req, key)
  {
    forall i | i in racers ensures i < |now.threads| && OnRecord(now.threads[i].req, key) {
      assert Runner(s.threads[i], key, v) && Waiting(s, now, i);
    }
  }

  lemma CommitElsewhere(s: System, now: System, later: System, t: nat, c: Commit, racers: set<nat>, key: Key, v: nat)
    requires Race(s, racers, key, v) && Undecided(s, now, racers, key)
    requires CommittedBy(now, later, t, c) && c.key != key
    ensures Undecided(s, later, racers, key)
  {
    RacersAim(s, now, racers, key, v);
  }

  // The step of a racer that still waits while the version is unspent is a commit.
  lemma RacerCommits(s: System, now: System, t: nat, env: Env, racers: set<nat>, key: Key, v: nat)
    requires Race(s, racers, key, v) && Inv(now) && Undecided(s, now, racers, key) && t in racers && env.storeOk
    ensures t < |now.threads| && Commits(now.threads[t].pc, StepThread(now.tables, now.threads[t].req, now.threads[t].pc, env).1)
  {
    assert Runner(s.threads[t], key, v) && Waiting(s, now, t) && ThreadOk(now.tables, now.threads[t]);
    FirstWrite(now.tables, now.threads[t], env);
  }

  lemma UndecidedStep(s: System, now: System, t: nat, env: Env, racers: set<nat>, key: Key, v: nat) returns (decided: bool)
    requires Race(s, racers, key, v) && Inv(now) && PastWritesStay(s, now)
    requires Undecided(s, now, racers, key) && t < |now.threads| && (t in racers ==> env.storeOk)
    requires NotDeleted(s, AdvanceThread(now, t, env), key)
    ensures if decided then Decided(s, AdvanceThread(now, t, env), racers, key, v, |now.commits|)
            else Undecided(s, AdvanceThread(now, t, env), racers, key)
  {
    var later := AdvanceThread(now, t, env);
    var commit := StepCommits(now, t, env);
    decided := commit.Some? && commit.value.key == key;
    if decided {
      CommitDecides(s, now, later, t, commit.value, racers, key, v);
    } else if commit.Some? {
      CommitElsewhere(s, now, later, t, commit.value, racers, key, v);
    } else if t in racers {
      RacerCommits(s, now, t, env, racers, key, v);
    }
  }

  lemma DecidedCommit(s: System, now: System, later: System, t: nat, c: Commit, racers: set<nat>, key: Key, v: nat, n: nat)
    requires Decided(s, now, racers, key, v, n) && CommittedBy(now, later, t, c) && t !in racers
    requires c.key == key ==> !c.req.op.Delete?
    ensures Decided(s, later, racers, key, v, n)
  {
    if c.key == key { CommitSpends(c, now.threads[t], now.tables, later.tables, key); }
  }

  lemma DecidedIdle(s: System, now: System, later: System, t: nat, pc: Pc, racers: set<nat>, key: Key, v: nat, n: nat)
    requires Decided(s, now, racers, key, v, n) && t < |now.threads|
    requires later.commits == now.commits && later.tables.rows == now.tables.rows
    requires later.threads == now.threads[t := now.threads[t].(pc := pc)]
    requires t == now.commits[n].t ==> Won(pc)
    requires t in racers && t != now.commits[n].t ==> pc == Done(Failed(VersionConflict))
    ensures Decided(s, later, racers, key, v, n)
  {
  }

  lemma DecidedStep(s: System, now: System, t: nat, env: Env, racers: set<nat>, key: Key, v: nat, n: nat)
    requires Race(s, racers, key, v) && Inv(now)
    requires Decided(s, now, racers, key, v, n) && t < |now.threads| && (t in racers ==> env.storeOk)
    requires NotDeleted(s, AdvanceThread(now, t, env), key)
    ensures Decided(s, AdvanceThread(now, t, env), racers, key, v, n)
  {
    var th := now.threads[t];
    var later := AdvanceThread(now, t, env);
    var (_, pc) := StepThread(now.tables, th.req, th.pc, env);
    if t == now.commits[n].t {
      AfterWrite(now.tables, th, env);
    } else if t in racers {
      assert Runner(s.threads[t], key, v);
      BeatenWrite(now.tables, th, env, key, v);
    }
    var commit := StepCommits(now, t, env);
    if commit.Some? {
      DecidedCommit(s, now, later, t, commit.value, racers, key, v, n);
    } else {
      DecidedIdle(s, now, later, t, pc, racers, key, v, n);
    }
  }

  // Where the race stands: decided by commit n, or not decided.
  ghost predicate Standing(s: System, now: System, racers: set<nat>, key: Key, v: nat, decided: bool, n: nat) {
    if decided then Decided(s, now, racers, key, v, n) else Undecided(s, now, racers, key)
  }

  lemma RaceStep(s: System, now: System, a: Action, racers: set<nat>, key: Key, v: nat, decided: bool, n: nat)
    returns (decided': bool, n': nat)
    requires Race(s, racers, key, v) && Inv(now) && PastWritesStay(s, now)
    requires Standing(s, now, racers, key, v, decided, n)
    requires (a.Advance? && a.t in racers ==> a.env.storeOk) && NotDeleted(s, Step(now, a), key)
    ensures Standing(s, Step(now, a), racers, key, v, decided', n')
  {
    decided', n' := decided, n;
    if a.Advance? && a.t < |now.threads| {
      if decided {
        DecidedStep(s, now, a.t, a.env, racers, key, v, n);
      } else {
        decided' := UndecidedStep(s, now, a.t, a.env, racers, key, v);
        n' := |now.commits|;
      }
    }
  }

  lemma FairFront(s: System, run: seq<Action>, racers: set<nat>, key: Key)
    requires run != [] && Inv(s) && FairRun(s, run, racers, key)
    ensures FairRun(s, run[..|run| - 1], racers, key) && Inv(Exec(s, run[..|run| - 1]))
    ensures run[|run| - 1].Advance? && run[|run| - 1].t in racers ==> run[|run| - 1].env.storeOk
  {
    var now := Exec(s, run[..|run| - 1]);
    ExecKeeps(s, run[..|run| - 1]);
    assert Step(now, run[|run| - 1]).commits[..|now.commits|] == now.commits;
    forall m | |s.commits| <= m < |now.commits| && now.commits[m].key == key ensures !now.commits[m].req.op.Delete? {
      assert Exec(s, run).commits[m] == now.commits[m];
    }
  }

  // One winner: of any non-empty set of requests racing for a version, amid any other requests, while
  // the record is not deleted, either all still wait and the record is unchanged, or exactly one commit
  // has spent the version, on the row they had found, and each racer but its author waits or has
  // ended in a version conflict without committing anything.
  lemma {:induction false} OneWinner(s: System, run: seq<Action>, racers: set<nat>, key: Key, v: nat)
    returns (decided: bool, n: nat)
    requires Inv(s) && Race(s, racers, key, v) && FairRun(s, run, racers, key)
    ensures Standing(s, Exec(s, run), racers, key, v, decided, n) && PastWritesStay(s, Exec(s, run))
  {
    if run == [] {
      decided, n := false, 0;
    } else {
      var now := Exec(s, run[..|run| - 1]);
      FairFront(s, run, racers, key);
      decided, n := OneWinner(s, run[..|run| - 1], racers, key, v);
      PastWritesStep(s, now, run[|run| - 1]);
      decided, n := RaceStep(s, now, run[|run| - 1], racers, key, v, decided, n);
    }
  }

  // All requests of the system that expect the version and had not made their attempt are in the race.
  ghost predicate AllRivalsRace(s: System, now: System, racers: set<nat>, key: Key, v: nat) {
    forall i :: 0 <= i < |now.threads| && Rival(now.threads[i].req, key, v) && i !in racers
      ==> i < |s.threads| && PastWrite(s.threads[i].pc)
  }

  // Once some racer has had its turn exactly one commit has spent the version; once all have, every
  // racer but its author has conflicted. If all who expect the version race, the author is one of them.
  lemma AllOthersConflict(s: System, run: seq<Action>, racers: set<nat>, key: Key, v: nat) returns (n: nat)
    requires Inv(s) && HistoryOk(s) && Race(s, racers, key, v) && FairRun(s, run, racers, key)
    requires exists i :: i in racers && i < |Exec(s, run).threads| && !Exec(s, run).threads[i].pc.Ready?
    ensures var now := Exec(s, run);
            && Decided(s, now, racers, key, v, n)
            && (forall i :: i in racers && i != now.commits[n].t && i < |now.threads| && !now.threads[i].pc.Ready? ==> Beaten(now, i))
            && (AllRivalsRace(s, now, racers, key, v) ==> now.commits[n].t in racers)
  {
    var now := Exec(s, run);
    var decided;
    decided, n := OneWinner(s, run, racers, key, v);
    forall i | i in racers && i < |now.threads| && !now.threads[i].pc.Ready? ensures !Waiting(s, now, i) {
      assert Runner(s.threads[i], key, v);
    }
    HistoryKeeps(s, run);
    assert decided ==> CommitAtOk(now, n);
  }
}
