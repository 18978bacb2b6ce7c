// The statuses a record goes through, when expected versions come from reads.
module Journey {
  import opened Workflow
  import opened Records
  import opened Protocol
  import opened Invariants
  import opened Finality
  import opened History
  import opened Audit

  predicate Moves(c: Commit, key: Key) {
    c.key == key && c.req.op.Transition?
  }

  // Transitions of the record to a later, and to an earlier, status of the listed order, and its updates.
  predicate GoesForward(c: Commit, key: Key) { Moves(c, key) && Ahead(key.kind, c.snap.status, c.left.status) }

  predicate GoesBack(c: Commit, key: Key) { Moves(c, key) && !Ahead(key.kind, c.snap.status, c.left.status) }

  predicate Edits(c: Commit, key: Key) { c.key == key && c.req.op.Update? }

  function Forward(cs: seq<Commit>, key: Key): nat {
    if cs == [] then 0 else Forward(cs[..|cs| - 1], key) + (if GoesForward(cs[|cs| - 1], key) then 1 else 0)
  }

  function Backward(cs: seq<Commit>, key: Key): nat {
    if cs == [] then 0 else Backward(cs[..|cs| - 1], key) + (if GoesBack(cs[|cs| - 1], key) then 1 else 0)
  }

  function Updates(cs: seq<Commit>, key: Key): nat {
    if cs == [] then 0 else Updates(cs[..|cs| - 1], key) + (if Edits(cs[|cs| - 1], key) then 1 else 0)
  }

  predicate Ahead(kind: Kind, source: Status, target: Status) {
    IsListed(kind, source) && IsListed(kind, target) && Rank(kind, source) < Rank(kind, target)
  }

  // The statuses the record had after each write, starting with the one it had at the start.
  function Statuses(rows: map<Key, Row>, cs: seq<Commit>, key: Key): seq<Status> {
    if cs == [] then (if key in rows then [rows[key].status] else [])
    else
      var c := cs[|cs| - 1];
      Statuses(rows, cs[..|cs| - 1], key) + (if c.key == key && !c.req.op.Delete? then [c.left.status] else [])
  }

  // Each status is the one before or one edge of the graph away from it.
  ghost predicate Walk(kind: Kind, ss: seq<Status>) {
    forall i :: 0 < i < |ss| ==> ss[i] == ss[i - 1] || CanTransition(kind, ss[i - 1], ss[i])
  }

  ghost predicate Travelled(tb: Tables, s: System, key: Key) {
    var ss := Statuses(tb.rows, s.commits, key);
    if key in s.tables.rows then
      && ss != [] && Walk(key.kind, ss) && ss[|ss| - 1] == s.tables.rows[key].status
      && (key !in tb.rows ==> ss[0] == InitialStatus(key.kind))
    else
      ss == []
  }

  function StartRank(tb: Tables, key: Key): int
    requires key in tb.rows ==> IsListed(key.kind, tb.rows[key].status)
  {
    if key in tb.rows then Rank(key.kind, tb.rows[key].status) else 0
  }

  function StartVersion(tb: Tables, key: Key): nat {
    if key in tb.rows then tb.rows[key].version else 1
  }

  ghost predicate RankLaw(tb: Tables, s: System, key: Key)
    requires Sound(tb) && Sound(s.tables)
  {
    var f, b, u := Forward(s.commits, key), Backward(s.commits, key), Updates(s.commits, key);
    if key in s.tables.rows then
      var row := s.tables.rows[key];
      && row.version == StartVersion(tb, key) + f + b + u
      && f - b <= Rank(key.kind, row.status) - StartRank(tb, key) <= 2 * f - b
    else
      f == b == u == 0 && key !in tb.rows
  }

  // The commit found stored the row it had read.
  ghost predicate FreshOn(c: Commit, key: Key) {
    c.key == key && Versioned(c.req.op) ==> c.snap == c.stored
  }

  lemma WalkGrows(kind: Kind, ss: seq<Status>, next: Status)
    requires Walk(kind, ss) && ss != [] && (next == ss[|ss| - 1] || CanTransition(kind, ss[|ss| - 1], next))
    ensures Walk(kind, ss + [next])
  {
  }

  lemma CommitTravels(tb: Tables, s: System, later: System, key: Key)
    requires HistoryOk(later) && Extends(s, later) && Travelled(tb, s, key)
    requires Applies(later.commits[|s.commits|], s.tables, later.tables) && FreshOn(later.commits[|s.commits|], key)
    requires key in tb.rows ==> key in s.tables.rows
    ensures Travelled(tb, later, key)
  {
    var n := |s.commits|;
    var c := later.commits[n];
    assert CommitAtOk(later, n);
    var ss := Statuses(tb.rows, s.commits, key);
    if c.key == key && Versioned(c.req.op) { WalkGrows(key.kind, ss, c.left.status); }
  }

  // What one commit does to the version and the rank of a record.
  lemma OneMove(c: Commit, th: Thread, tb: Tables, later: Tables, key: Key)
    requires CommitOk(c, th) && Applies(c, tb, later) && Sound(tb) && Sound(later)
    requires FreshOn(c, key) && !key.kind.Priority?
    ensures var f, b, u := One(GoesForward(c, key)), One(GoesBack(c, key)), One(Edits(c, key));
            if key in tb.rows then
              && key in later.rows && later.rows[key].version == tb.rows[key].version + f + b + u
              && f - b <= Rank(key.kind, later.rows[key].status) - Rank(key.kind, tb.rows[key].status) <= 2 * f - b
            else
              && f == b == u == 0
              && (key in later.rows ==> later.rows[key].version == 1 && Rank(key.kind, later.rows[key].status) == 0)
  {
    if Moves(c, key) { CyclicEdges(key.kind, c.snap.status, c.left.status); }
  }

  lemma CommitRanks(tb: Tables, s: System, later: System, key: Key)
    requires Sound(tb) && Sound(s.tables) && Sound(later.tables) && !key.kind.Priority?
    requires HistoryOk(later) && Extends(s, later) && RankLaw(tb, s, key)
    requires Applies(later.commits[|s.commits|], s.tables, later.tables) && FreshOn(later.commits[|s.commits|], key)
    requires key in tb.rows ==> key in s.tables.rows
    ensures RankLaw(tb, later, key)
  {
    var n := |s.commits|;
    var c := later.commits[n];
    assert CommitAtOk(later, n);
    OneMove(c, later.threads[c.t], s.tables, later.tables, key);
    assert Forward(later.commits, key) == Forward(s.commits, key) + One(GoesForward(c, key));
    assert Backward(later.commits, key) == Backward(s.commits, key) + One(GoesBack(c, key));
    assert Updates(later.commits, key) == Updates(s.commits, key) + One(Edits(c, key));
  }

  // The state before the last step of a run, and what carries over to it.
  lemma BeforeLast(tb: Tables, run: seq<Action>, key: Key)
    requires Sound(tb) && run != [] && AllBacked(Exec(Initial(tb), run), key)
    ensures var s := Exec(Initial(tb), run[..|run| - 1]);
            && Inv(s) && HistoryOk(s) && AllBacked(s, key) && TablesEvolve(tb, s.tables)
            && Exec(Initial(tb), run) == Step(s, run[|run| - 1])
  {
    var s := Exec(Initial(tb), run[..|run| - 1]);
    ExecKeeps(Initial(tb), run[..|run| - 1]);
    HistoryKeeps(Initial(tb), run[..|run| - 1]);
    StepKeeps(s, run[|run| - 1]);
    BackedBefore(s, Exec(Initial(tb), run), key);
  }

  lemma BackedIsFresh(s: System, i: nat, key: Key)
    requires HistoryOk(s) && i < |s.commits| && AllBacked(s, key)
    ensures FreshOn(s.commits[i], key)
  {
    assert CommitAtOk(s, i);
  }

  // The path law: with expected versions from reads, the committed statuses of any record form a
  // walk in its graph, from its initial status if it was created, to the stored status.
  lemma {:induction false} StatusesFormWalk(tb: Tables, run: seq<Action>, key: Key)
    requires Sound(tb) && AllBacked(Exec(Initial(tb), run), key)
    ensures Travelled(tb, Exec(Initial(tb), run), key)
  {
    if run != [] {
      var s, a := Exec(Initial(tb), run[..|run| - 1]), run[|run| - 1];
      BeforeLast(tb, run, key);
      StatusesFormWalk(tb, run[..|run| - 1], key);
      var committed := StepCases(s, a);
      if committed {
        BackedIsFresh(Step(s, a), |s.commits|, key);
        CommitTravels(tb, s, Step(s, a), key);
      }
    }
  }

  // The rank law: after f forward and b backward transitions and u updates of a bridge, an
  // inspection or a defect, its version has grown by f + b + u, and its place in the listed order
  // by at least f - b and at most 2f - b.
  lemma {:induction false} RankFollowsMoves(tb: Tables, run: seq<Action>, key: Key)
    requires Sound(tb) && !key.kind.Priority? && AllBacked(Exec(Initial(tb), run), key)
    ensures Sound(Exec(Initial(tb), run).tables) && RankLaw(tb, Exec(Initial(tb), run), key)
  {
    ExecKeeps(Initial(tb), run);
    if run != [] {
      var s, a := Exec(Initial(tb), run[..|run| - 1]), run[|run| - 1];
      BeforeLast(tb, run, key);
      RankFollowsMoves(tb, run[..|run| - 1], key);
      var committed := StepCases(s, a);
      if committed {
        BackedIsFresh(Step(s, a), |s.commits|, key);
        CommitRanks(tb, s, Step(s, a), key);
      }
    }
  }
}
