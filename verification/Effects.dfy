// What committed requests leave in the tables, the log and the responses, column by column.
module Effects {
  import opened Workflow
  import opened Records
  import opened Protocol
  import opened Invariants
  import opened History

  // ---- rows --------------------------------------------------------------------------------

  // The rows that the commits of a history leave, one written over the other.
  function Laid(rows: map<Key, Row>, cs: seq<Commit>): map<Key, Row> {
    if cs == [] then rows else Laid(rows, cs[..|cs| - 1])[cs[|cs| - 1].key := cs[|cs| - 1].left]
  }

  lemma LaidAppend(rows: map<Key, Row>, cs: seq<Commit>, c: Commit)
    ensures Laid(rows, cs + [c]) == Laid(rows, cs)[c.key := c.left]
  {
    assert (cs + [c])[..|cs|] == cs;
  }

  lemma LaidStep(rows: map<Key, Row>, s: System, a: Action)
    requires Inv(s) && HistoryOk(s) && s.tables.rows == Laid(rows, s.commits)
    ensures Step(s, a).tables.rows == Laid(rows, Step(s, a).commits)
  {
    var later := Step(s, a);
    var committed := StepCases(s, a);
    if committed {
      var c := later.commits[|s.commits|];
      assert later.commits == s.commits + [c];
      LaidAppend(rows, s.commits, c);
    }
  }

  // The stored rows are those of the start with what the commits left, in commit order.
  lemma {:induction false} RowsAreWritten(tb: Tables, run: seq<Action>)
    requires Sound(tb)
    ensures Exec(Initial(tb), run).tables.rows == Laid(tb.rows, Exec(Initial(tb), run).commits)
  {
    if run != [] {
      var s, a := Exec(Initial(tb), run[..|run| - 1]), run[|run| - 1];
      RowsAreWritten(tb, run[..|run| - 1]);
      ExecKeeps(Initial(tb), run[..|run| - 1]);
      HistoryKeeps(Initial(tb), run[..|run| - 1]);
      LaidStep(tb.rows, s, a);
    }
  }

  // An update stores the fields it was given, the next version and its time, and keeps the status it
  // had read; every other column of the stored row stays.
  lemma UpdateStores(tb: Tables, run: seq<Action>, i: nat)
    requires Sound(tb) && i < |Exec(Initial(tb), run).commits| && Exec(Initial(tb), run).commits[i].req.op.Update?
    ensures var c := Exec(Initial(tb), run).commits[i];
            && c.stored.version == c.req.op.expected
            && c.left == c.stored.(fields := c.req.op.input, status := c.snap.status,
                                   version := c.stored.version + 1, updatedAt := c.env.now)
  {
    HistoryKeeps(Initial(tb), run);
    assert CommitAtOk(Exec(Initial(tb), run), i);
  }

  // A transition stores the status asked for, the next version and its time, and the fields it had
  // read; with a version from a read it changes status, version and update time only.
  lemma TransitionStores(tb: Tables, run: seq<Action>, i: nat)
    requires Sound(tb) && i < |Exec(Initial(tb), run).commits| && Exec(Initial(tb), run).commits[i].req.op.Transition?
    ensures var s := Exec(Initial(tb), run);
            var c := s.commits[i];
            && c.stored.version == c.req.op.expected
            && c.left == c.stored.(fields := c.snap.fields, status := c.req.op.target,
                                   version := c.stored.version + 1, updatedAt := c.env.now)
            && c.t < |s.threads|
            && (s.threads[c.t].backed ==>
                  c.left == c.stored.(status := c.req.op.target, version := c.stored.version + 1, updatedAt := c.env.now))
  {
    HistoryKeeps(Initial(tb), run);
    assert CommitAtOk(Exec(Initial(tb), run), i);
  }

  // A creation stores the given code and fields in version 1 of the initial status of its kind, and
  // for a decision its author as preparer.
  lemma CreateStores(tb: Tables, run: seq<Action>, i: nat)
    requires Sound(tb) && i < |Exec(Initial(tb), run).commits| && Exec(Initial(tb), run).commits[i].req.op.Create?
    ensures var c := Exec(Initial(tb), run).commits[i];
            var row := c.left;
            && c.key == Key(c.req.kind, c.env.freshId)
            && row.code == c.req.op.code && row.fields == c.req.op.input && row.version == 1 && !row.deleted
            && row.createdAt == row.updatedAt == c.env.now
            && row.status == (match c.req.kind case Bridge => Active case Inspection => Planned case Defect => New case Priority => Draft)
            && row.preparedBy == (if c.req.kind == Priority then c.req.actor else "")
  {
    HistoryKeeps(Initial(tb), run);
    assert CommitAtOk(Exec(Initial(tb), run), i);
  }

  lemma DeleteStores(tb: Tables, run: seq<Action>, i: nat)
    requires Sound(tb) && i < |Exec(Initial(tb), run).commits| && Exec(Initial(tb), run).commits[i].req.op.Delete?
    ensures var c := Exec(Initial(tb), run).commits[i];
            !c.stored.deleted && c.left == c.stored.(deleted := true) && c.written == None
  {
    HistoryKeeps(Initial(tb), run);
    assert CommitAtOk(Exec(Initial(tb), run), i);
  }

  // ---- revisions ---------------------------------------------------------------------------

  // The revision of a committed write of a decision shows what it left, and who asked for what and why.
  lemma RevisionStores(tb: Tables, run: seq<Action>, i: nat)
    requires Sound(tb) && i < |Exec(Initial(tb), run).commits|
    requires var c := Exec(Initial(tb), run).commits[i]; c.key.kind == Priority && !c.req.op.Delete?
    ensures var c := Exec(Initial(tb), run).commits[i];
            && c.written.Some?
            && var r := c.written.value;
               && r.decisionId == c.key.id && r.version == c.left.version && r.status == c.left.status
               && r.actor == c.req.actor && r.requestId == c.req.requestId
               && (match c.req.op
                   case Create(_, input) => r.evidence == input.evidence && r.reason == "decision draft created"
                   case Update(_, input, _) => r.evidence == input.evidence && r.reason == "draft business fields updated"
                   case Transition(_, _, _, reason) => r.evidence == c.snap.fields.evidence && r.reason == reason
                   case _ => false)
               && r.snapshot.Full? && r.snapshot.row.fields == c.left.fields
               && r.snapshot.row.code == c.left.code && r.snapshot.row.preparedBy == c.left.preparedBy
  {
    HistoryKeeps(Initial(tb), run);
    assert CommitAtOk(Exec(Initial(tb), run), i);
  }

  // ---- audit entries -----------------------------------------------------------------------

  // The entry of a commit names the actor and the request as they came, "system" and "untracked" only
  // where they were empty, the operation, the record, the status the request had read and the one it wrote.
  lemma EntryNames(tb: Tables, run: seq<Action>, i: nat)
    requires Sound(tb) && i < |Exec(Initial(tb), run).commits|
    ensures var c := Exec(Initial(tb), run).commits[i];
            && (c.req.actor != "" ==> c.entry.actor == c.req.actor)
            && (c.req.actor == "" ==> c.entry.actor == "system")
            && (c.req.requestId != "" ==> c.entry.requestId == c.req.requestId)
            && (c.req.requestId == "" ==> c.entry.requestId == "untracked")
            && c.entry.key == c.key
            && (match c.req.op
                case Create(_, _) => c.entry.action == CreateVerb && c.entry.before == None && c.entry.after == Some(c.left.status)
                case Update(_, _, _) =>
                  c.entry.action == UpdateVerb && c.entry.before == Some(c.snap.status) && c.entry.after == Some(c.snap.status)
                case Transition(_, target, _, _) =>
                  c.entry.action == TransitionVerb && c.entry.before == Some(c.snap.status) && c.entry.after == Some(target)
                case Delete(_) => c.entry.action == DeleteVerb && c.entry.before == Some(c.snap.status) && c.entry.after == None
                case Fetch(_) => false)
  {
    HistoryKeeps(Initial(tb), run);
    assert CommitAtOk(Exec(Initial(tb), run), i);
  }

  // ---- codes -------------------------------------------------------------------------------

  ghost predicate UniqueCodes(rows: map<Key, Row>) {
    forall k, l :: k in rows && l in rows && k != l && k.kind == l.kind ==> rows[k].code != rows[l].code
  }

  // Two records of a kind never share a code, not even with a deleted one, in any run.
  lemma {:induction false} CodesStayUnique(tb: Tables, run: seq<Action>)
    requires Sound(tb) && UniqueCodes(tb.rows)
    ensures UniqueCodes(Exec(Initial(tb), run).tables.rows)
  {
    if run != [] {
      var s, a := Exec(Initial(tb), run[..|run| - 1]), run[|run| - 1];
      CodesStayUnique(tb, run[..|run| - 1]);
      ExecKeeps(Initial(tb), run[..|run| - 1]);
      HistoryKeeps(Initial(tb), run[..|run| - 1]);
      StepKeeps(s, a);
      var committed := StepCases(s, a);
      if committed {
        var c := Step(s, a).commits[|s.commits|];
        assert CommitAtOk(Step(s, a), |s.commits|);
        CodesAfter(s.tables, Step(s, a).tables, c);
      }
    }
  }

  lemma CodesAfter(tb: Tables, later: Tables, c: Commit)
    requires UniqueCodes(tb.rows) && TablesEvolve(tb, later) && Applies(c, tb, later) && c.key.kind == c.req.kind
    ensures UniqueCodes(later.rows)
  {
    forall k, l | k in later.rows && l in later.rows && k != l && k.kind == l.kind
      ensures later.rows[k].code != later.rows[l].code
    {
      if k in tb.rows && l in tb.rows { assert tb.rows[k].code != tb.rows[l].code; }
    }
  }

  // ---- what a response says about the request ----------------------------------------------

  function CommitsOf(cs: seq<Commit>, t: nat): nat {
    if cs == [] then 0 else CommitsOf(cs[..|cs| - 1], t) + (if cs[|cs| - 1].t == t then 1 else 0)
  }

  // How many commits a request has made, by where it stands.
  ghost predicate TellsTruth(th: Thread, commits: nat) {
    match th.pc
    case Begin => commits == 0
    case Inserting => commits == 0
    case Ready(_) => commits == 0
    case Auditing(_, _, _) => commits == 1
    case Reread(_) => commits == if th.req.op.Fetch? then 0 else 1
    case Preload(_, _) => commits == if th.req.op.Fetch? then 0 else 1
    case Done(Returned(_, _)) => commits == if th.req.op.Fetch? then 0 else 1
    case Done(Removed) => commits == 1 && th.req.op.Delete?
    case Done(Failed(AuditFailed)) => commits == 1 && (th.req.op.Transition? || th.req.op.Delete?)
    case Done(Failed(NotFound)) => commits <= 1
    case Done(Failed(StoreError)) => commits <= 1
    case Done(Failed(_)) => commits == 0
  }

  lemma TruthStep(tb: Tables, th: Thread, env: Env, commits: nat)
    requires ThreadOk(tb, th) && TellsTruth(th, commits)
    ensures var pc := StepThread(tb, th.req, th.pc, env).1;
            TellsTruth(th.(pc := pc), commits + if Commits(th.pc, pc) then 1 else 0)
  {
  }

  lemma CommitsOfAppend(cs: seq<Commit>, c: Commit, t: nat)
    ensures CommitsOf(cs + [c], t) == CommitsOf(cs, t) + if c.t == t then 1 else 0
  {
    assert (cs + [c])[..|cs|] == cs;
  }

  lemma {:induction false} NotYet(s: System, cs: seq<Commit>, t: nat)
    requires t >= |s.threads| && forall i :: 0 <= i < |cs| ==> cs[i].t < |s.threads|
    ensures CommitsOf(cs, t) == 0
  {
    if cs != [] { NotYet(s, cs[..|cs| - 1], t); }
  }

  // A response tells what became of the request: success means exactly one commit, a reported audit
  // failure means one commit too, and a refusal or a conflict means none. No request commits twice.
  lemma {:induction false} ResponsesTellTruth(tb: Tables, run: seq<Action>, t: nat)
    requires Sound(tb) && t < |Exec(Initial(tb), run).threads|
    ensures var s := Exec(Initial(tb), run); TellsTruth(s.threads[t], CommitsOf(s.commits, t))
  {
    if run != [] {
      var s, a := Exec(Initial(tb), run[..|run| - 1]), run[|run| - 1];
      ExecKeeps(Initial(tb), run[..|run| - 1]);
      HistoryKeeps(Initial(tb), run[..|run| - 1]);
      if t < |s.threads| {
        ResponsesTellTruth(tb, run[..|run| - 1], t);
      } else {
        forall i | 0 <= i < |s.commits| ensures s.commits[i].t < |s.threads| { assert CommitAtOk(s, i); }
        NotYet(s, s.commits, t);
      }
      if a.Advance? && a.t < |s.threads| { TruthAdvances(s, a.t, a.env, t); }
    }
  }

  lemma TruthAdvances(s: System, u: nat, env: Env, t: nat)
    requires Inv(s) && u < |s.threads| && t < |s.threads| && TellsTruth(s.threads[t], CommitsOf(s.commits, t))
    ensures var later := AdvanceThread(s, u, env); TellsTruth(later.threads[t], CommitsOf(later.commits, t))
  {
    var th := s.threads[u];
    var (tables, pc) := StepThread(s.tables, th.req, th.pc, env);
    if Commits(th.pc, pc) { CommitsOfAppend(s.commits, NewCommit(u, th, s.tables, tables, pc, env), t); }
    if u == t {
      assert ThreadOk(s.tables, th);
      TruthStep(s.tables, th, env, CommitsOf(s.commits, t));
    }
  }

  // A database step that fails changes nothing and ends the request in a store error.
  lemma StoreDown(s: System, t: nat, env: Env)
    requires t < |s.threads| && !env.storeOk && !s.threads[t].pc.Done? && !s.threads[t].pc.Auditing?
    ensures var later := Step(s, Advance(t, env));
            && later.tables == s.tables && later.commits == s.commits && later.seen == s.seen
            && later.threads[t].pc == Done(Failed(StoreError))
  {
  }

  // ---- what a response shows -----------------------------------------------------------------

  // At some moment of the run the live record was stored as this row.
  ghost predicate ShownAt(tb: Tables, run: seq<Action>, k: nat, key: Key, row: Row)
    requires k <= |run|
  {
    var rows := Exec(Initial(tb), run[..k]).tables.rows;
    key in rows && !rows[key].deleted && rows[key] == row
  }

  ghost predicate WasStored(tb: Tables, run: seq<Action>, key: Key, row: Row) {
    exists k :: 0 <= k <= |run| && ShownAt(tb, run, k, key, row)
  }

  // The record a request is about: the one it names, or the one it has created.
  ghost predicate About(s: System, t: nat, key: Key)
    requires t < |s.threads|
  {
    var req := s.threads[t].req;
    if req.op.Create? then exists i :: 0 <= i < |s.commits| && s.commits[i].t == t && s.commits[i].key == key
    else key == KeyOf(req)
  }

  // The row a request is about to return, or has returned, was stored.
  ghost predicate ShowsStored(tb: Tables, run: seq<Action>, s: System, t: nat)
    requires t < |s.threads|
  {
    match s.threads[t].pc
    case Auditing(key, _, item) =>
      About(s, t, key) && (s.threads[t].req.op.Create? ==> WasStored(tb, run, key, item))
    case Reread(key) => About(s, t, key)
    case Preload(key, row) => About(s, t, key) && WasStored(tb, run, key, row)
    case Done(Returned(row, _)) => exists key :: About(s, t, key) && WasStored(tb, run, key, row)
    case _ => true
  }

  lemma StillStored(tb: Tables, run: seq<Action>, key: Key, row: Row)
    requires run != [] && WasStored(tb, run[..|run| - 1], key, row)
    ensures WasStored(tb, run, key, row)
  {
    var front := run[..|run| - 1];
    var k :| 0 <= k <= |front| && ShownAt(tb, front, k, key, row);
    assert front[..k] == run[..k];
    assert ShownAt(tb, run, k, key, row);
  }

  lemma StoredNow(tb: Tables, run: seq<Action>, key: Key)
    requires Live(Exec(Initial(tb), run).tables.rows, key)
    ensures WasStored(tb, run, key, Exec(Initial(tb), run).tables.rows[key])
  {
    assert run[..|run|] == run;
    assert ShownAt(tb, run, |run|, key, Exec(Initial(tb), run).tables.rows[key]);
  }

  lemma StillAbout(s: System, later: System, t: nat, key: Key)
    requires t < |s.threads| && ThreadsPersist(s, later) && About(s, t, key)
    requires s.commits <= later.commits
    ensures About(later, t, key)
  {
    if s.threads[t].req.op.Create? {
      var i :| 0 <= i < |s.commits| && s.commits[i].t == t && s.commits[i].key == key;
      assert later.commits[i] == s.commits[i];
    }
  }

  lemma StillShows(tb: Tables, run: seq<Action>, s: System, later: System, t: nat)
    requires run != [] && t < |s.threads| && ThreadsPersist(s, later) && s.commits <= later.commits
    requires later.threads[t] == s.threads[t] && ShowsStored(tb, run[..|run| - 1], s, t)
    ensures ShowsStored(tb, run, later, t)
  {
    match s.threads[t].pc {
      case Auditing(key, _, item) =>
        StillAbout(s, later, t, key);
        if s.threads[t].req.op.Create? { StillStored(tb, run, key, item); }
      case Reread(key) => StillAbout(s, later, t, key);
      case Preload(key, row) =>
        StillAbout(s, later, t, key);
        StillStored(tb, run, key, row);
      case Done(Returned(row, _)) =>
        var key :| About(s, t, key) && WasStored(tb, run[..|run| - 1], key, row);
        StillAbout(s, later, t, key);
        StillStored(tb, run, key, row);
      case _ =>
    }
  }

  lemma CommitsKept(s: System, a: Action)
    ensures s.commits <= Step(s, a).commits
  {
  }

  // One step of the request itself: later is the state after the whole run.
  ghost predicate OwnStep(tb: Tables, run: seq<Action>, s: System, t: nat, env: Env, later: System) {
    && run != [] && Inv(s) && t < |s.threads| && later == AdvanceThread(s, t, env) && later == Exec(Initial(tb), run)
    && ThreadsPersist(s, later) && s.commits <= later.commits
    && ShowsStored(tb, run[..|run| - 1], s, t)
  }

  lemma AuditShows(tb: Tables, run: seq<Action>, s: System, t: nat, env: Env, later: System)
    requires OwnStep(tb, run, s, t, env, later) && s.threads[t].pc.Auditing?
    ensures ShowsStored(tb, run, later, t)
  {
    var pc := s.threads[t].pc;
    StillAbout(s, later, t, pc.key);
    if s.threads[t].req.op.Create? { StillStored(tb, run, pc.key, pc.item); }
  }

  lemma RereadShows(tb: Tables, run: seq<Action>, s: System, t: nat, env: Env, later: System)
    requires OwnStep(tb, run, s, t, env, later) && s.threads[t].pc.Reread?
    ensures ShowsStored(tb, run, later, t)
  {
    var key := s.threads[t].pc.key;
    StillAbout(s, later, t, key);
    assert later.tables == s.tables;
    if Live(s.tables.rows, key) { StoredNow(tb, run, key); }
  }

  lemma PreloadShows(tb: Tables, run: seq<Action>, s: System, t: nat, env: Env, later: System)
    requires OwnStep(tb, run, s, t, env, later) && s.threads[t].pc.Preload?
    ensures ShowsStored(tb, run, later, t)
  {
    var pc := s.threads[t].pc;
    StillAbout(s, later, t, pc.key);
    StillStored(tb, run, pc.key, pc.row);
  }

  lemma OtherPcShows(tb: Tables, run: seq<Action>, s: System, t: nat, env: Env, later: System)
    requires OwnStep(tb, run, s, t, env, later) && (s.threads[t].pc.Begin? || s.threads[t].pc.Ready?)
    ensures ShowsStored(tb, run, later, t)
  {
    if s.threads[t].pc.Ready? { WriteShows(s, t, env); }
  }

  lemma ShowsStep(tb: Tables, run: seq<Action>, s: System, t: nat, env: Env, later: System)
    requires OwnStep(tb, run, s, t, env, later)
    ensures ShowsStored(tb, run, later, t)
  {
    match s.threads[t].pc {
      case Inserting => InsertShows(tb, run, s, t, env);
      case Auditing(_, _, _) => AuditShows(tb, run, s, t, env, later);
      case Reread(_) => RereadShows(tb, run, s, t, env, later);
      case Preload(_, _) => PreloadShows(tb, run, s, t, env, later);
      case Done(_) => StillShows(tb, run, s, later, t);
      case _ => OtherPcShows(tb, run, s, t, env, later);
    }
  }

  lemma InsertShows(tb: Tables, run: seq<Action>, s: System, t: nat, env: Env)
    requires Inv(s) && t < |s.threads| && s.threads[t].pc.Inserting?
    requires AdvanceThread(s, t, env) == Exec(Initial(tb), run)
    ensures ShowsStored(tb, run, AdvanceThread(s, t, env), t)
  {
    var later := AdvanceThread(s, t, env);
    var pc := later.threads[t].pc;
    assert ThreadOk(s.tables, s.threads[t]);
    if pc.Auditing? {
      var n := |s.commits|;
      assert later.commits[n].t == t && later.commits[n].key == pc.key;
      assert Live(later.tables.rows, pc.key) && later.tables.rows[pc.key] == pc.item;
      StoredNow(tb, run, pc.key);
    }
  }

  lemma WriteShows(s: System, t: nat, env: Env)
    requires Inv(s) && t < |s.threads| && s.threads[t].pc.Ready?
    ensures var later := AdvanceThread(s, t, env);
            && (later.threads[t].pc.Auditing? ==> later.threads[t].pc.key == KeyOf(s.threads[t].req))
            && (later.threads[t].pc.Auditing? || (later.threads[t].pc.Done? && later.threads[t].pc.outcome.Failed?))
  {
    assert ThreadOk(s.tables, s.threads[t]);
  }

  // The row a response returns was the stored live row at some moment of the run, of the record the
  // request names or has created.
  lemma {:induction false} ResponsesShowStored(tb: Tables, run: seq<Action>, t: nat)
    requires Sound(tb) && t < |Exec(Initial(tb), run).threads|
    ensures ShowsStored(tb, run, Exec(Initial(tb), run), t)
  {
    if run != [] {
      var s, a := Exec(Initial(tb), run[..|run| - 1]), run[|run| - 1];
      ExecKeeps(Initial(tb), run[..|run| - 1]);
      StepKeeps(s, a);
      CommitsKept(s, a);
      if t < |s.threads| {
        ResponsesShowStored(tb, run[..|run| - 1], t);
        if a.Advance? && a.t == t {
          ShowsStep(tb, run, s, t, a.env, Step(s, a));
        } else {
          UntouchedThread(s, a, t);
          StillShows(tb, run, s, Step(s, a), t);
        }
      } else {
        NewThread(s, a, t);
      }
    }
  }

  lemma UntouchedThread(s: System, a: Action, t: nat)
    requires t < |s.threads| && !(a.Advance? && a.t == t)
    ensures t < |Step(s, a).threads| && Step(s, a).threads[t] == s.threads[t]
  {
  }

  lemma NewThread(s: System, a: Action, t: nat)
    requires |s.threads| <= t < |Step(s, a).threads|
    ensures Step(s, a).threads[t].pc == Begin
  {
  }
}
