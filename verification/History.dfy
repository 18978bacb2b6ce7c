// What the history of committed writes says about each of them, for any expected versions.
module History {
  import opened Workflow
  import opened Records
  import opened Protocol
  import opened Invariants
  import opened Finality

  // The copy the request had read passed its checks, and the stored row was live.
  ghost predicate CheckedCopy(c: Commit) {
    Check(c.req, c.snap) == None && Evolves(c.snap, c.stored) && !c.stored.deleted
  }

  ghost predicate UpdatedRow(c: Commit, expected: nat)
    requires Versioned(c.req.op)
  {
    && CheckedCopy(c) && c.stored.version == expected
    && c.left == Merged(c.stored, Desired(c.req.op, c.snap, c.env.now))
    && c.entry == NewEntry(c.req, c.key, Some(c.snap.status), Some(c.left.status))
  }

  // The facts every commit records: c was made by thread th.
  ghost predicate CommitOk(c: Commit, th: Thread) {
    && c.req == th.req && RouteAllows(c.req) && Addressed(c.req, c.key)
    && (match c.req.op
        case Create(code, input) =>
          && c.key == Key(c.req.kind, c.env.freshId) && code != "" && FilledIn(c.req.kind, input)
          && c.left == NewRow(c.req, c.env.now) && c.snap == c.left && c.stored == c.left
          && c.entry == NewEntry(c.req, c.key, None, Some(c.left.status))
        case Delete(_) =>
          && CheckedCopy(c) && c.left == c.stored.(deleted := true)
          && c.entry == NewEntry(c.req, c.key, Some(c.snap.status), None)
        case Update(_, _, expected) => UpdatedRow(c, expected)
        case Transition(_, _, expected, _) => UpdatedRow(c, expected)
        case Fetch(_) => false)
    && (th.backed && Versioned(c.req.op) ==> c.snap == c.stored)
    && c.written == (if c.key.kind == Priority && !c.req.op.Delete? then Some(Written(c)) else None)
  }

  // The revision a commit on a decision appends.
  function Written(c: Commit): Revision
    requires c.req.op.Create? || Versioned(c.req.op)
  {
    NewRevision(c.key.id,
                if c.req.op.Create? then c.left.(createdAt := 0, updatedAt := 0) else Desired(c.req.op, c.snap, c.env.now),
                c.req)
  }

  // What a commit does to the tables.
  ghost predicate Applies(c: Commit, tb: Tables, later: Tables) {
    && (if c.req.op.Create? then c.key !in tb.rows && !CodeTaken(tb.rows, c.req.kind, c.left.code)
        else c.key in tb.rows && tb.rows[c.key] == c.stored)
    && later.rows == tb.rows[c.key := c.left]
    && later.revisions == (if c.written.Some? then InsertRevision(tb.revisions, c.written.value) else tb.revisions)
    && later.audits == tb.audits
  }

  lemma InsertFacts(tb: Tables, t: nat, th: Thread, env: Env)
    requires Sound(tb) && th.pc.Inserting? && ThreadOk(tb, th) && InsertStep(tb, th.req, env).1.Auditing?
    ensures var (later, pc) := InsertStep(tb, th.req, env);
            var c := NewCommit(t, th, tb, later, pc, env);
            CommitOk(c, th) && Applies(c, tb, later)
  {
  }

  lemma DeleteFacts(tb: Tables, t: nat, th: Thread, env: Env)
    requires Sound(tb) && th.pc.Ready? && ThreadOk(tb, th) && th.req.op.Delete? && WriteStep(tb, th.req, th.pc.snap, env).1.Auditing?
    ensures var (later, pc) := WriteStep(tb, th.req, th.pc.snap, env);
            var c := NewCommit(t, th, tb, later, pc, env);
            CommitOk(c, th) && Applies(c, tb, later)
  {
  }

  lemma UpdateFacts(tb: Tables, t: nat, th: Thread, env: Env)
    requires Sound(tb) && ThreadOk(tb, th) && Matches(tb, th)
    ensures var (later, pc) := WriteStep(tb, th.req, th.pc.snap, env);
            pc.Auditing?
            && var c := NewCommit(t, th, tb, later, pc, env);
               CommitOk(c, th) && Applies(c, tb, later)
  {
    CommitKeeps(tb, th, env);
    NoStaleOverwrite(tb, th);
  }

  lemma WriteFacts(tb: Tables, t: nat, th: Thread, env: Env)
    requires Sound(tb) && th.pc.Ready? && ThreadOk(tb, th) && WriteStep(tb, th.req, th.pc.snap, env).1.Auditing?
    ensures var (later, pc) := WriteStep(tb, th.req, th.pc.snap, env);
            var c := NewCommit(t, th, tb, later, pc, env);
            CommitOk(c, th) && Applies(c, tb, later)
  {
    if th.req.op.Delete? { DeleteFacts(tb, t, th, env); } else { UpdateFacts(tb, t, th, env); }
  }

  lemma NoCommitNoChange(tb: Tables, th: Thread, env: Env)
    requires var (later, pc) := StepThread(tb, th.req, th.pc, env); !Commits(th.pc, pc)
    ensures var (later, pc) := StepThread(tb, th.req, th.pc, env);
            later.rows == tb.rows && later.revisions == tb.revisions
  {
  }

  ghost predicate HistoryOk(s: System) {
    forall i :: 0 <= i < |s.commits| ==> CommitAtOk(s, i)
  }

  ghost predicate Extends(s: System, later: System) {
    |later.commits| == |s.commits| + 1 && later.commits[..|s.commits|] == s.commits
  }

  ghost predicate CommitAtOk(s: System, i: nat)
    requires i < |s.commits|
  {
    s.commits[i].t < |s.threads| && CommitOk(s.commits[i], s.threads[s.commits[i].t])
  }

  // Threads keep the request and the backing their commits refer to.
  lemma CommitStable(c: Commit, th: Thread, later: Thread)
    requires CommitOk(c, th) && later.req == th.req && later.backed == th.backed
    ensures CommitOk(c, later)
  {
  }

  lemma HistoryGrows(s: System, later: System)
    requires HistoryOk(s) && ThreadsPersist(s, later)
    requires later.commits == s.commits
          || (Extends(s, later) && var c := later.commits[|s.commits|];
                c.t < |s.threads| && CommitOk(c, s.threads[c.t]))
    ensures HistoryOk(later)
  {
    forall i | 0 <= i < |later.commits| ensures CommitAtOk(later, i) {
      var c := later.commits[i];
      if i < |s.commits| { assert later.commits[..|s.commits|][i] == c; assert CommitAtOk(s, i); }
      CommitStable(c, s.threads[c.t], later.threads[c.t]);
    }
  }

  lemma ThreadCases(s: System, t: nat, env: Env) returns (committed: bool)
    requires Inv(s) && t < |s.threads|
    ensures var later := AdvanceThread(s, t, env);
            if committed then
              Extends(s, later)
              && var c := later.commits[|s.commits|];
                 && c.t == t && CommitOk(c, s.threads[t]) && Applies(c, s.tables, later.tables)
                 && (c.req.op.Create? || (s.threads[t].pc.Ready? && c.snap == s.threads[t].pc.snap))
            else
              later.commits == s.commits && later.tables.rows == s.tables.rows && later.tables.revisions == s.tables.revisions
  {
    var th := s.threads[t];
    assert ThreadOk(s.tables, th);
    var (later, pc) := StepThread(s.tables, th.req, th.pc, env);
    committed := Commits(th.pc, pc);
    if !committed {
      NoCommitNoChange(s.tables, th, env);
    } else if th.pc.Ready? {
      WriteFacts(s.tables, t, th, env);
    } else {
      InsertFacts(s.tables, t, th, env);
    }
  }

  // A step either commits once, as CommitOk and Applies say, or changes no row and no revision.
  lemma StepCases(s: System, a: Action) returns (committed: bool)
    requires Inv(s) && HistoryOk(s)
    ensures HistoryOk(Step(s, a))
    ensures var later := Step(s, a);
            if committed then
              Extends(s, later) && Applies(later.commits[|s.commits|], s.tables, later.tables)
            else
              later.commits == s.commits && later.tables.rows == s.tables.rows && later.tables.revisions == s.tables.revisions
  {
    StepKeeps(s, a);
    committed := false;
    if a.Advance? && a.t < |s.threads| {
      committed := ThreadCases(s, a.t, a.env);
    }
    HistoryGrows(s, Step(s, a));
  }

  lemma {:induction false} HistoryKeeps(s: System, run: seq<Action>)
    requires Inv(s) && HistoryOk(s)
    ensures HistoryOk(Exec(s, run))
  {
    if run != [] {
      HistoryKeeps(s, run[..|run| - 1]);
      ExecKeeps(s, run[..|run| - 1]);
      var _ := StepCases(Exec(s, run[..|run| - 1]), run[|run| - 1]);
    }
  }

  // ---- one commit after the other ----------------------------------------------------

  // What an earlier commit left of a record evolved into what a later one found, and into what is stored.
  ghost predicate InSequence(s: System) {
    && (forall i, j :: 0 <= i < j < |s.commits| && s.commits[i].key == s.commits[j].key ==>
          Evolves(s.commits[i].left, s.commits[j].stored))
    && (forall i :: 0 <= i < |s.commits| ==>
          s.commits[i].key in s.tables.rows && Evolves(s.commits[i].left, s.tables.rows[s.commits[i].key]))
  }

  // This commit wrote the row, except for a deleted flag set later.
  ghost predicate Wrote(c: Commit, key: Key, row: Row) {
    c.key == key && !c.req.op.Delete? && row == c.left.(deleted := row.deleted)
  }

  ghost predicate HasWriter(cs: seq<Commit>, n: nat, key: Key, row: Row)
    requires n <= |cs|
  {
    exists j :: 0 <= j < n && Wrote(cs[j], key, row)
  }

  // A stored row that is newer than the copy a waiting request has read was written by a commit.
  ghost predicate WaitingExplained(s: System, th: Thread) {
    (&& th.pc.Ready? && Targets(th.req.op) && KeyOf(th.req) in s.tables.rows
     && s.tables.rows[KeyOf(th.req)].version > th.pc.snap.version)
    ==> HasWriter(s.commits, |s.commits|, KeyOf(th.req), s.tables.rows[KeyOf(th.req)])
  }

  // The same for the row a commit found.
  ghost predicate CommitExplained(cs: seq<Commit>, i: nat)
    requires i < |cs|
  {
    cs[i].stored.version > cs[i].snap.version ==> HasWriter(cs, i, cs[i].key, cs[i].stored)
  }

  ghost predicate Explained(s: System) {
    && (forall t :: 0 <= t < |s.threads| ==> WaitingExplained(s, s.threads[t]))
    && (forall i :: 0 <= i < |s.commits| ==> CommitExplained(s.commits, i))
  }

  ghost predicate Journal(s: System) {
    Inv(s) && HistoryOk(s) && InSequence(s) && Explained(s)
  }

  lemma EvolvesTransitive(a: Row, b: Row, c: Row)
    requires Evolves(a, b) && Evolves(b, c)
    ensures Evolves(a, c)
  {
  }

  lemma LeftEvolves(s: System, later: System, i: nat)
    requires InSequence(s) && TablesEvolve(s.tables, later.tables) && i < |s.commits|
    ensures var key := s.commits[i].key; key in later.tables.rows && Evolves(s.commits[i].left, later.tables.rows[key])
  {
    var key := s.commits[i].key;
    EvolvesTransitive(s.commits[i].left, s.tables.rows[key], later.tables.rows[key]);
  }

  lemma SequenceGrows(s: System, later: System, c: Commit)
    requires InSequence(s) && TablesEvolve(s.tables, later.tables)
    requires later.commits == s.commits + [c] && Applies(c, s.tables, later.tables)
    ensures InSequence(later)
  {
    forall i | 0 <= i < |s.commits|
      ensures s.commits[i].key in later.tables.rows && Evolves(s.commits[i].left, later.tables.rows[s.commits[i].key])
    {
      LeftEvolves(s, later, i);
    }
  }

  lemma SequenceStep(s: System, a: Action)
    requires Inv(s) && HistoryOk(s) && InSequence(s)
    ensures InSequence(Step(s, a))
  {
    var later := Step(s, a);
    var committed := StepCases(s, a);
    StepKeeps(s, a);
    if committed {
      var c := later.commits[|s.commits|];
      assert later.commits == s.commits + [c];
      SequenceGrows(s, later, c);
    }
  }

  lemma WriterStays(cs: seq<Commit>, later: seq<Commit>, n: nat, m: nat, key: Key, row: Row, after: Row)
    requires n <= |cs| && n <= m <= |later| && forall j :: 0 <= j < n ==> cs[j] == later[j]
    requires HasWriter(cs, n, key, row) && after == row.(deleted := after.deleted)
    ensures HasWriter(later, m, key, after)
  {
    var j :| 0 <= j < n && Wrote(cs[j], key, row);
    assert Wrote(later[j], key, after);
  }

  lemma WaitsOn(s: System, later: System, c: Commit, th: Thread)
    requires ThreadOk(s.tables, th) && WaitingExplained(s, th)
    requires later.commits == s.commits + [c] && Applies(c, s.tables, later.tables)
    requires c.req.op.Delete? ==> c.left == c.stored.(deleted := true)
    ensures WaitingExplained(later, th)
  {
    if th.pc.Ready? && later.tables.rows[KeyOf(th.req)].version > th.pc.snap.version {
      var key := KeyOf(th.req);
      if c.key == key && !c.req.op.Delete? {
        assert Wrote(later.commits[|s.commits|], key, later.tables.rows[key]);
      } else {
        WriterStays(s.commits, later.commits, |s.commits|, |later.commits|, key, s.tables.rows[key], later.tables.rows[key]);
      }
    }
  }

  lemma CommitsExplained(s: System, later: seq<Commit>, c: Commit)
    requires Explained(s) && later == s.commits + [c]
    requires c.stored.version > c.snap.version ==> HasWriter(s.commits, |s.commits|, c.key, c.stored)
    ensures forall i :: 0 <= i < |later| ==> CommitExplained(later, i)
  {
    forall i | 0 <= i < |later| && later[i].stored.version > later[i].snap.version
      ensures HasWriter(later, i, later[i].key, later[i].stored)
    {
      if i < |s.commits| { assert CommitExplained(s.commits, i); }
      WriterStays(s.commits, later, i, i, later[i].key, later[i].stored, later[i].stored);
    }
  }

  lemma FreshlyRead(tb: Tables, th: Thread, env: Env)
    requires ThreadOk(tb, th)
    ensures var (later, pc) := StepThread(tb, th.req, th.pc, env);
            pc.Ready? ==> later == tb && KeyOf(th.req) in tb.rows && pc.snap == tb.rows[KeyOf(th.req)]
  {
  }

  lemma ExplainedThreadStep(s: System, t: nat, env: Env)
    requires Inv(s) && Explained(s) && t < |s.threads|
    ensures Explained(AdvanceThread(s, t, env))
  {
    var later := AdvanceThread(s, t, env);
    var committed := ThreadCases(s, t, env);
    FreshlyRead(s.tables, s.threads[t], env);
    assert ThreadOk(s.tables, s.threads[t]) && WaitingExplained(s, s.threads[t]);
    if committed {
      var c := later.commits[|s.commits|];
      assert later.commits == s.commits + [c];
      CommitsExplained(s, later.commits, c);
      forall i | 0 <= i < |later.threads| && i != t ensures WaitingExplained(later, later.threads[i]) {
        assert ThreadOk(s.tables, s.threads[i]) && WaitingExplained(s, s.threads[i]);
        WaitsOn(s, later, c, s.threads[i]);
      }
    } else {
      forall i | 0 <= i < |later.threads| && i != t ensures WaitingExplained(later, later.threads[i]) {
        assert WaitingExplained(s, s.threads[i]);
      }
    }
  }

  lemma ExplainedStep(s: System, a: Action)
    requires Inv(s) && Explained(s)
    ensures Explained(Step(s, a))
  {
    if a.Advance? && a.t < |s.threads| {
      ExplainedThreadStep(s, a.t, a.env);
    } else {
      var later := Step(s, a);
      forall i | 0 <= i < |later.threads| ensures WaitingExplained(later, later.threads[i]) {
        if i < |s.threads| { assert WaitingExplained(s, s.threads[i]); }
      }
    }
  }

  lemma {:induction false} JournalKeeps(s: System, run: seq<Action>)
    requires Journal(s)
    ensures Journal(Exec(s, run))
  {
    if run != [] {
      var before := Exec(s, run[..|run| - 1]);
      JournalKeeps(s, run[..|run| - 1]);
      StepKeeps(before, run[|run| - 1]);
      var _ := StepCases(before, run[|run| - 1]);
      SequenceStep(before, run[|run| - 1]);
      ExplainedStep(before, run[|run| - 1]);
    }
  }

  // No version of a record is ever spent twice: of two committed updates or transitions of one record,
  // whatever versions they expected and whatever else ran, the later one expected a higher version.
  lemma VersionsSpentOnce(tb: Tables, run: seq<Action>, i: nat, j: nat)
    requires Sound(tb) && i < j < |Exec(Initial(tb), run).commits|
    requires var cs := Exec(Initial(tb), run).commits;
             cs[i].key == cs[j].key && Versioned(cs[i].req.op) && Versioned(cs[j].req.op)
    ensures var cs := Exec(Initial(tb), run).commits; cs[i].req.op.expected < cs[j].req.op.expected
  {
    var s := Exec(Initial(tb), run);
    JournalKeeps(Initial(tb), run);
    assert CommitAtOk(s, i) && CommitAtOk(s, j);
  }

  // A write of the same record committed between the read and the write of commit i.
  ghost predicate Overtakes(cs: seq<Commit>, j: nat, i: nat)
    requires j < |cs| && i < |cs|
  {
    j < i && cs[j].key == cs[i].key && !cs[j].req.op.Delete? && cs[j].left.version > cs[i].snap.version
  }

  // The copy a request checked was out of date at its write exactly if some such write overtook it.
  lemma StaleMeansOvertaken(tb: Tables, run: seq<Action>, i: nat)
    requires Sound(tb) && i < |Exec(Initial(tb), run).commits|
    requires !Exec(Initial(tb), run).commits[i].req.op.Create?
    ensures var cs := Exec(Initial(tb), run).commits;
            cs[i].snap != cs[i].stored <==> exists j :: 0 <= j < |cs| && Overtakes(cs, j, i)
  {
    var s := Exec(Initial(tb), run);
    JournalKeeps(Initial(tb), run);
    assert CommitAtOk(s, i) && CommitExplained(s.commits, i);
    if s.commits[i].snap != s.commits[i].stored {
      var j :| 0 <= j < i && Wrote(s.commits[j], s.commits[i].key, s.commits[i].stored);
      assert Overtakes(s.commits, j, i);
    }
  }
}
