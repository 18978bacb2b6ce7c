// The audit log, which is written in a separate step after each commit, against the stored records.
module Audit {
  import opened Workflow
  import opened Records
  import opened Protocol
  import opened Invariants
  import opened History

  // What is counted over audit entries: arrivals at a status minus departures from it, version-raising
  // writes of a record, those of them signed with a given actor and request id, or copies of one entry.
  datatype Measure =
    | NetFlow(kind: Kind, status: Status)
    | WritesTo(key: Key)
    | SignedBy(key: Key, actor: string, requestId: string)
    | Exactly(entry: Entry)

  function One(b: bool): int { if b then 1 else 0 }

  function Weigh(m: Measure, e: Entry): int {
    match m
    case NetFlow(kind, status) =>
      if e.key.kind == kind then One(e.after == Some(status)) - One(e.before == Some(status)) else 0
    case WritesTo(key) => One(e.key == key && !e.action.DeleteVerb?)
    case SignedBy(key, actor, requestId) =>
      One(e.key == key && !e.action.DeleteVerb? && e.actor == actor && e.requestId == requestId)
    case Exactly(entry) => One(e == entry)
  }

  function Tally(es: seq<Entry>, m: Measure): int {
    if es == [] then 0 else Tally(es[..|es| - 1], m) + Weigh(m, es[|es| - 1])
  }

  function Pending(th: Thread, m: Measure): int {
    if th.pc.Auditing? then Weigh(m, th.pc.entry) else 0
  }

  // Entries of committed requests that have not reached their audit step.
  function Awaiting(ths: seq<Thread>, m: Measure): int {
    if ths == [] then 0 else Awaiting(ths[..|ths| - 1], m) + Pending(ths[|ths| - 1], m)
  }

  function Committed(cs: seq<Commit>, m: Measure): int {
    if cs == [] then 0 else Committed(cs[..|cs| - 1], m) + Weigh(m, cs[|cs| - 1].entry)
  }

  lemma TallyAppend(es: seq<Entry>, e: Entry, m: Measure)
    ensures Tally(es + [e], m) == Tally(es, m) + Weigh(m, e)
  {
    assert (es + [e])[..|es|] == es;
  }

  lemma CommittedAppend(cs: seq<Commit>, c: Commit, m: Measure)
    ensures Committed(cs + [c], m) == Committed(cs, m) + Weigh(m, c.entry)
  {
    assert (cs + [c])[..|cs|] == cs;
  }

  lemma {:induction false} AwaitingUpdate(ths: seq<Thread>, t: nat, th: Thread, m: Measure)
    requires t < |ths|
    ensures Awaiting(ths[t := th], m) == Awaiting(ths, m) - Pending(ths[t], m) + Pending(th, m)
  {
    var n := |ths| - 1;
    if t == n {
      assert ths[t := th][..n] == ths[..n];
    } else {
      assert ths[t := th][..n] == ths[..n][t := th];
      AwaitingUpdate(ths[..n], t, th, m);
    }
  }

  lemma AwaitingAppend(ths: seq<Thread>, th: Thread, m: Measure)
    ensures Awaiting(ths + [th], m) == Awaiting(ths, m) + Pending(th, m)
  {
    assert (ths + [th])[..|ths|] == ths;
  }

  // ---- every commit is logged, lost, or still awaiting its entry -------------------------

  ghost predicate Balanced(base: seq<Entry>, s: System, m: Measure) {
    Tally(s.tables.audits, m) + Tally(s.lost, m) + Awaiting(s.threads, m) == Tally(base, m) + Committed(s.commits, m)
  }

  // Only the audit step logs, and only a commit leaves a request before its audit step.
  lemma AuditMoves(tb: Tables, th: Thread, env: Env)
    ensures var (later, pc) := StepThread(tb, th.req, th.pc, env);
            && later.audits == (if th.pc.Auditing? && env.auditOk then tb.audits + [th.pc.entry] else tb.audits)
            && (pc.Auditing? <==> Commits(th.pc, pc))
  {
  }

  lemma CommitBalances(base: seq<Entry>, s: System, later: System, t: nat, th: Thread, c: Commit, m: Measure)
    requires Balanced(base, s, m) && t < |s.threads| && !s.threads[t].pc.Auditing?
    requires later.tables.audits == s.tables.audits && later.lost == s.lost
    requires later.threads == s.threads[t := th] && later.commits == s.commits + [c]
    requires th.pc.Auditing? && th.pc.entry == c.entry
    ensures Balanced(base, later, m)
  {
    AwaitingUpdate(s.threads, t, th, m);
    CommittedAppend(s.commits, c, m);
  }

  lemma LoggingBalances(base: seq<Entry>, s: System, later: System, t: nat, th: Thread, ok: bool, m: Measure)
    requires Balanced(base, s, m) && t < |s.threads| && s.threads[t].pc.Auditing? && !th.pc.Auditing?
    requires later.tables.audits == if ok then s.tables.audits + [s.threads[t].pc.entry] else s.tables.audits
    requires later.lost == if ok then s.lost else s.lost + [s.threads[t].pc.entry]
    requires later.threads == s.threads[t := th] && later.commits == s.commits
    ensures Balanced(base, later, m)
  {
    AwaitingUpdate(s.threads, t, th, m);
    if ok { TallyAppend(s.tables.audits, s.threads[t].pc.entry, m); }
    else { TallyAppend(s.lost, s.threads[t].pc.entry, m); }
  }

  lemma AdvanceBalances(base: seq<Entry>, s: System, t: nat, env: Env, m: Measure)
    requires Balanced(base, s, m) && t < |s.threads|
    ensures Balanced(base, AdvanceThread(s, t, env), m)
  {
    var th, later := s.threads[t], AdvanceThread(s, t, env);
    var (tables, pc) := StepThread(s.tables, th.req, th.pc, env);
    AuditMoves(s.tables, th, env);
    if Commits(th.pc, pc) {
      CommitBalances(base, s, later, t, th.(pc := pc), NewCommit(t, th, s.tables, tables, pc, env), m);
    } else if th.pc.Auditing? {
      LoggingBalances(base, s, later, t, th.(pc := pc), env.auditOk, m);
    } else {
      AwaitingUpdate(s.threads, t, th.(pc := pc), m);
    }
  }

  lemma BalanceStep(base: seq<Entry>, s: System, a: Action, m: Measure)
    requires Balanced(base, s, m)
    ensures Balanced(base, Step(s, a), m)
  {
    match a {
      case Submit(req) => AwaitingAppend(s.threads, Thread(req, Backed(s.seen, req), Begin), m);
      case Show(_) =>
      case Advance(t, env) => if t < |s.threads| { AdvanceBalances(base, s, t, env, m); }
    }
  }

  lemma {:induction false} AuditBalance(tb: Tables, run: seq<Action>, m: Measure)
    ensures Balanced(tb.audits, Exec(Initial(tb), run), m)
  {
    if run != [] {
      AuditBalance(tb, run[..|run| - 1], m);
      BalanceStep(tb.audits, Exec(Initial(tb), run[..|run| - 1]), run[|run| - 1], m);
    }
  }

  ghost predicate Quiescent(s: System) {
    forall i :: 0 <= i < |s.threads| ==> !s.threads[i].pc.Auditing?
  }

  lemma {:induction false} NothingAwaits(ths: seq<Thread>, m: Measure)
    requires forall i :: 0 <= i < |ths| ==> !ths[i].pc.Auditing?
    ensures Awaiting(ths, m) == 0
  {
    if ths != [] { NothingAwaits(ths[..|ths| - 1], m); }
  }

  // ---- flow conservation -----------------------------------------------------------------

  // The live records of a kind in a status, and their number as CountByStatus reports it.
  ghost function Standing(rows: map<Key, Row>, kind: Kind, status: Status): set<Key> {
    set k | k in rows && k.kind == kind && !rows[k].deleted && rows[k].status == status
  }

  ghost function CountByStatus(rows: map<Key, Row>, kind: Kind, status: Status): nat {
    |Standing(rows, kind, status)|
  }

  ghost predicate Stands(rows: map<Key, Row>, key: Key, kind: Kind, status: Status) {
    Live(rows, key) && key.kind == kind && rows[key].status == status
  }

  lemma SizeWithout<T>(s: set<T>, x: T)
    ensures |s| == |s - {x}| + One(x in s)
  {
    if x in s { assert s == (s - {x}) + {x}; } else { assert s == s - {x}; }
  }

  lemma SameButOne<T(!new)>(s: set<T>, s': set<T>, x: T)
    requires forall y :: y != x ==> (y in s <==> y in s')
    ensures s - {x} == s' - {x}
  {
  }

  lemma CountAfterStore(rows: map<Key, Row>, key: Key, row: Row, kind: Kind, status: Status)
    ensures CountByStatus(rows[key := row], kind, status)
         == CountByStatus(rows, kind, status) - One(Stands(rows, key, kind, status)) + One(Stands(rows[key := row], key, kind, status))
  {
    var was, now := Standing(rows, kind, status), Standing(rows[key := row], kind, status);
    SameButOne(was, now, key);
    SizeWithout(was, key);
    SizeWithout(now, key);
  }

  // How far the status a request had read differed from the one its write replaced.
  function Skew(c: Commit, kind: Kind, status: Status): int {
    if c.key.kind == kind then One(c.snap.status == status) - One(c.stored.status == status) else 0
  }

  function Skews(cs: seq<Commit>, kind: Kind, status: Status): int {
    if cs == [] then 0 else Skews(cs[..|cs| - 1], kind, status) + Skew(cs[|cs| - 1], kind, status)
  }

  lemma CommitFlow(c: Commit, th: Thread, tb: Tables, later: Tables, kind: Kind, status: Status)
    requires CommitOk(c, th) && Applies(c, tb, later)
    ensures CountByStatus(later.rows, kind, status)
         == CountByStatus(tb.rows, kind, status) + Weigh(NetFlow(kind, status), c.entry) + Skew(c, kind, status)
  {
    CountAfterStore(tb.rows, c.key, c.left, kind, status);
  }

  lemma {:induction false} CommittedFlow(tb: Tables, run: seq<Action>, kind: Kind, status: Status)
    requires Sound(tb)
    ensures var s := Exec(Initial(tb), run);
            CountByStatus(s.tables.rows, kind, status)
              == CountByStatus(tb.rows, kind, status) + Committed(s.commits, NetFlow(kind, status)) + Skews(s.commits, kind, status)
  {
    if run != [] {
      var s, a := Exec(Initial(tb), run[..|run| - 1]), run[|run| - 1];
      CommittedFlow(tb, run[..|run| - 1], kind, status);
      ExecKeeps(Initial(tb), run[..|run| - 1]);
      HistoryKeeps(Initial(tb), run[..|run| - 1]);
      var committed := StepCases(s, a);
      if committed {
        var n := |s.commits|;
        var c := Step(s, a).commits[n];
        assert CommitAtOk(Step(s, a), n);
        CommitFlow(c, Step(s, a).threads[c.t], s.tables, Step(s, a).tables, kind, status);
      }
    }
  }

  // The exact law at every reachable state, for any expected versions and any failures: the count
  // has changed by the logged flow, the flow that was lost or is still to be logged, and the skew.
  lemma ExactConservation(tb: Tables, run: seq<Action>, kind: Kind, status: Status)
    requires Sound(tb)
    ensures var s := Exec(Initial(tb), run);
            var m := NetFlow(kind, status);
            CountByStatus(s.tables.rows, kind, status) - CountByStatus(tb.rows, kind, status)
              == (Tally(s.tables.audits, m) - Tally(tb.audits, m)) + Tally(s.lost, m) + Awaiting(s.threads, m)
                 + Skews(s.commits, kind, status)
  {
    AuditBalance(tb, run, NetFlow(kind, status));
    CommittedFlow(tb, run, kind, status);
  }

  ghost predicate StatusesFresh(cs: seq<Commit>, kind: Kind) {
    forall i :: 0 <= i < |cs| && cs[i].key.kind == kind ==> cs[i].snap.status == cs[i].stored.status
  }

  lemma {:induction false} NoSkew(cs: seq<Commit>, kind: Kind, status: Status)
    requires StatusesFresh(cs, kind)
    ensures Skews(cs, kind, status) == 0
  {
    if cs != [] { NoSkew(cs[..|cs| - 1], kind, status); }
  }

  // All updates and transitions of records of this kind were sent with versions from reads, and no
  // delete of one overlapped another write of its record.
  ghost predicate NoOverlap(s: System, kind: Kind) {
    && (forall i :: 0 <= i < |s.threads| && s.threads[i].req.kind == kind && Versioned(s.threads[i].req.op) ==> s.threads[i].backed)
    && (forall i, j :: 0 <= i < |s.commits| && 0 <= j < |s.commits| && s.commits[i].key.kind == kind && s.commits[i].req.op.Delete?
          ==> !Overtakes(s.commits, j, i))
  }

  lemma StatusFound(tb: Tables, run: seq<Action>, i: nat, kind: Kind)
    requires Sound(tb) && NoOverlap(Exec(Initial(tb), run), kind)
    requires i < |Exec(Initial(tb), run).commits| && Exec(Initial(tb), run).commits[i].key.kind == kind
    ensures var c := Exec(Initial(tb), run).commits[i]; c.snap.status == c.stored.status
  {
    var s := Exec(Initial(tb), run);
    HistoryKeeps(Initial(tb), run);
    assert CommitAtOk(s, i);
    if s.commits[i].req.op.Delete? { StaleMeansOvertaken(tb, run, i); }
  }

  // Audit flow conservation: once every commit has been audited and no append failed, the number of
  // live records in a status is the starting number plus logged arrivals minus logged departures,
  // in whatever order the entries landed.
  lemma AuditFlowConservation(tb: Tables, run: seq<Action>, kind: Kind, status: Status)
    requires Sound(tb)
    requires var s := Exec(Initial(tb), run); Quiescent(s) && s.lost == [] && NoOverlap(s, kind)
    ensures var s := Exec(Initial(tb), run);
            var m := NetFlow(kind, status);
            CountByStatus(s.tables.rows, kind, status)
              == CountByStatus(tb.rows, kind, status) + Tally(s.tables.audits, m) - Tally(tb.audits, m)
  {
    var s := Exec(Initial(tb), run);
    ExactConservation(tb, run, kind, status);
    NothingAwaits(s.threads, NetFlow(kind, status));
    forall i | 0 <= i < |s.commits| && s.commits[i].key.kind == kind
      ensures s.commits[i].snap.status == s.commits[i].stored.status
    {
      StatusFound(tb, run, i, kind);
    }
    NoSkew(s.commits, kind, status);
  }

  // ---- completeness -----------------------------------------------------------------------

  // The version of a record, zero before its creation.
  function VersionOf(rows: map<Key, Row>, key: Key): nat {
    if key in rows then rows[key].version else 0
  }

  // The actors, or request ids, that the log writes down as this text: itself, and for the default
  // text the empty one too. The empty text itself is never written down.
  function SourcesOf(logged: string, fallback: string): set<string> {
    if logged == "" then {} else if logged == fallback then {"", logged} else {logged}
  }

  // The revisions of a decision by one of these actors for one of these request ids.
  function Signed(rs: seq<Revision>, actors: set<string>, requestIds: set<string>): nat {
    if rs == [] then 0
    else Signed(rs[..|rs| - 1], actors, requestIds)
         + (if rs[|rs| - 1].actor in actors && rs[|rs| - 1].requestId in requestIds then 1 else 0)
  }

  lemma SignedAppend(rs: seq<Revision>, r: Revision, actors: set<string>, requestIds: set<string>)
    ensures Signed(rs + [r], actors, requestIds)
         == Signed(rs, actors, requestIds) + One(r.actor in actors && r.requestId in requestIds)
  {
    assert (rs + [r])[..|rs|] == rs;
  }

  lemma SignatureSources(req: Request, actor: string, requestId: string)
    ensures AuditActor(req.actor) == actor <==> req.actor in SourcesOf(actor, "system")
    ensures AuditRequestId(req.requestId) == requestId <==> req.requestId in SourcesOf(requestId, "untracked")
  {
  }

  lemma CommitVersions(c: Commit, th: Thread, tb: Tables, later: Tables, key: Key)
    requires CommitOk(c, th) && Applies(c, tb, later)
    ensures VersionOf(later.rows, key) == VersionOf(tb.rows, key) + Weigh(WritesTo(key), c.entry)
  {
  }

  lemma SignatureCounts(c: Commit, th: Thread, key: Key, actor: string, requestId: string)
    requires CommitOk(c, th) && key.kind == Priority
    ensures Weigh(SignedBy(key, actor, requestId), c.entry)
         == One(c.written.Some? && c.key == key && c.written.value.actor in SourcesOf(actor, "system")
                && c.written.value.requestId in SourcesOf(requestId, "untracked"))
  {
    SignatureSources(c.req, actor, requestId);
  }

  lemma CommitSigns(c: Commit, th: Thread, tb: Tables, later: Tables, key: Key, actor: string, requestId: string)
    requires CommitOk(c, th) && Applies(c, tb, later) && key.kind == Priority
    ensures Signed(RevisionsOf(later.revisions, key.id), SourcesOf(actor, "system"), SourcesOf(requestId, "untracked"))
         == Signed(RevisionsOf(tb.revisions, key.id), SourcesOf(actor, "system"), SourcesOf(requestId, "untracked"))
            + Weigh(SignedBy(key, actor, requestId), c.entry)
  {
    SignatureCounts(c, th, key, actor, requestId);
    if c.written.Some? {
      SignedAppend(RevisionsOf(tb.revisions, c.key.id), c.written.value, SourcesOf(actor, "system"), SourcesOf(requestId, "untracked"));
    }
  }

  lemma {:induction false} CommittedCounts(tb: Tables, run: seq<Action>, key: Key, actor: string, requestId: string)
    requires Sound(tb)
    ensures var s := Exec(Initial(tb), run);
            && VersionOf(s.tables.rows, key) == VersionOf(tb.rows, key) + Committed(s.commits, WritesTo(key))
            && (key.kind == Priority ==>
                  Signed(RevisionsOf(s.tables.revisions, key.id), SourcesOf(actor, "system"), SourcesOf(requestId, "untracked"))
                    == Signed(RevisionsOf(tb.revisions, key.id), SourcesOf(actor, "system"), SourcesOf(requestId, "untracked")) + Committed(s.commits, SignedBy(key, actor, requestId)))
  {
    if run != [] {
      var s, a := Exec(Initial(tb), run[..|run| - 1]), run[|run| - 1];
      CommittedCounts(tb, run[..|run| - 1], key, actor, requestId);
      ExecKeeps(Initial(tb), run[..|run| - 1]);
      HistoryKeeps(Initial(tb), run[..|run| - 1]);
      var committed := StepCases(s, a);
      if committed {
        var n := |s.commits|;
        var c := Step(s, a).commits[n];
        assert CommitAtOk(Step(s, a), n);
        CommitVersions(c, Step(s, a).threads[c.t], s.tables, Step(s, a).tables, key);
        if key.kind == Priority { CommitSigns(c, Step(s, a).threads[c.t], s.tables, Step(s, a).tables, key, actor, requestId); }
      }
    }
  }

  // Audit completeness: at every reachable state, whatever expected versions were sent, the versions
  // a record has gained are its logged writes plus those awaiting their entry plus those whose entry was lost.
  lemma AuditCompleteness(tb: Tables, run: seq<Action>, key: Key)
    requires Sound(tb)
    ensures var s := Exec(Initial(tb), run);
            var m := WritesTo(key);
            VersionOf(s.tables.rows, key) - VersionOf(tb.rows, key)
              == (Tally(s.tables.audits, m) - Tally(tb.audits, m)) + Awaiting(s.threads, m) + Tally(s.lost, m)
  {
    AuditBalance(tb, run, WritesTo(key));
    CommittedCounts(tb, run, key, "", "");
  }

  // With every entry written, new log entries and new revisions of a decision match one to one: an
  // actor and request id in the log sign as many entries as revisions bear them, or bear none where
  // the log has "system" and "untracked".
  lemma LogMatchesRevisions(tb: Tables, run: seq<Action>, id: nat, actor: string, requestId: string)
    requires Sound(tb)
    requires var s := Exec(Initial(tb), run); Quiescent(s) && s.lost == []
    ensures var s := Exec(Initial(tb), run);
            var m := SignedBy(Key(Priority, id), actor, requestId);
            var actors := if actor == "" then {} else if actor == "system" then {"", "system"} else {actor};
            var requestIds := if requestId == "" then {} else if requestId == "untracked" then {"", "untracked"} else {requestId};
            Tally(s.tables.audits, m) - Tally(tb.audits, m)
              == Signed(RevisionsOf(s.tables.revisions, id), actors, requestIds) - Signed(RevisionsOf(tb.revisions, id), actors, requestIds)
  {
    var m := SignedBy(Key(Priority, id), actor, requestId);
    AuditBalance(tb, run, m);
    CommittedCounts(tb, run, Key(Priority, id), actor, requestId);
    NothingAwaits(Exec(Initial(tb), run).threads, m);
  }

  // ---- the log entry by entry -------------------------------------------------------------

  lemma {:induction false} TallyIsCopies(es: seq<Entry>, e: Entry)
    ensures Tally(es, Exactly(e)) == multiset(es)[e]
  {
    if es != [] {
      TallyIsCopies(es[..|es| - 1], e);
      assert es == es[..|es| - 1] + [es[|es| - 1]];
    }
  }

  // The entries of the commits of a history.
  function EntriesOf(cs: seq<Commit>): seq<Entry> {
    if cs == [] then [] else EntriesOf(cs[..|cs| - 1]) + [cs[|cs| - 1].entry]
  }

  lemma {:induction false} CommittedIsTally(cs: seq<Commit>, m: Measure)
    ensures Committed(cs, m) == Tally(EntriesOf(cs), m)
  {
    if cs != [] {
      CommittedIsTally(cs[..|cs| - 1], m);
      TallyAppend(EntriesOf(cs[..|cs| - 1]), cs[|cs| - 1].entry, m);
    }
  }

  // Once every commit has been audited the log holds, besides what it held at the start, exactly the
  // entries of the commits, but for those whose append failed; nothing is logged twice or made up.
  lemma LogIsCommits(tb: Tables, run: seq<Action>)
    requires Quiescent(Exec(Initial(tb), run))
    ensures var s := Exec(Initial(tb), run);
            multiset(s.tables.audits) + multiset(s.lost) == multiset(tb.audits) + multiset(EntriesOf(s.commits))
  {
    var s := Exec(Initial(tb), run);
    forall e ensures multiset(s.tables.audits)[e] + multiset(s.lost)[e] == multiset(tb.audits)[e] + multiset(EntriesOf(s.commits))[e] {
      AuditBalance(tb, run, Exactly(e));
      NothingAwaits(s.threads, Exactly(e));
      CommittedIsTally(s.commits, Exactly(e));
      TallyIsCopies(s.tables.audits, e);
      TallyIsCopies(s.lost, e);
      TallyIsCopies(tb.audits, e);
      TallyIsCopies(EntriesOf(s.commits), e);
    }
  }
}
