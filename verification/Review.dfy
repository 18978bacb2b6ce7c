// Who may write which revision of a priority decision, for any expected versions.
module Review {
  import opened Workflow
  import opened Records
  import opened Protocol
  import opened Invariants
  import opened Finality
  import opened History

  // The revisions the commits of a history appended to a decision, in commit order.
  function WrittenOn(cs: seq<Commit>, id: nat): seq<Revision> {
    if cs == [] then []
    else
      var c := cs[|cs| - 1];
      WrittenOn(cs[..|cs| - 1], id)
      + (if c.written.Some? && c.written.value.decisionId == id then [c.written.value] else [])
  }

  // Every committed write kept the preparer the stored row has now.
  ghost predicate PreparersKept(s: System) {
    forall i :: 0 <= i < |s.commits| ==>
      s.commits[i].key in s.tables.rows && s.commits[i].left.preparedBy == s.tables.rows[s.commits[i].key].preparedBy
  }

  lemma PreparersStay(s: System, later: System)
    requires PreparersKept(s) && TablesEvolve(s.tables, later.tables)
    requires later.commits == s.commits
          || (Extends(s, later) && Applies(later.commits[|s.commits|], s.tables, later.tables))
    ensures PreparersKept(later)
  {
    forall i | 0 <= i < |later.commits|
      ensures later.commits[i].key in later.tables.rows
      ensures later.commits[i].left.preparedBy == later.tables.rows[later.commits[i].key].preparedBy
    {
      if i < |s.commits| { assert later.commits[i] == later.commits[..|s.commits|][i] == s.commits[i]; }
    }
  }

  lemma CommitAppends(c: Commit, th: Thread, tb: Tables, later: Tables, id: nat)
    requires CommitOk(c, th) && Applies(c, tb, later)
    ensures RevisionsOf(later.revisions, id)
         == RevisionsOf(tb.revisions, id) + (if c.written.Some? && c.written.value.decisionId == id then [c.written.value] else [])
  {
  }

  ghost predicate AllWritten(tb: Tables, s: System, id: nat) {
    RevisionsOf(s.tables.revisions, id) == RevisionsOf(tb.revisions, id) + WrittenOn(s.commits, id)
  }

  lemma CommitWrites(tb: Tables, s: System, later: System, id: nat)
    requires HistoryOk(later) && AllWritten(tb, s, id)
    requires Extends(s, later) && Applies(later.commits[|s.commits|], s.tables, later.tables)
    ensures AllWritten(tb, later, id)
  {
    var c := later.commits[|s.commits|];
    assert CommitAtOk(later, |s.commits|);
    CommitAppends(c, later.threads[c.t], s.tables, later.tables, id);
  }

  lemma StepWrites(tb: Tables, s: System, a: Action, id: nat)
    requires Inv(s) && HistoryOk(s) && PreparersKept(s) && AllWritten(tb, s, id)
    ensures HistoryOk(Step(s, a)) && PreparersKept(Step(s, a)) && AllWritten(tb, Step(s, a), id)
  {
    StepKeeps(s, a);
    var committed := StepCases(s, a);
    PreparersStay(s, Step(s, a));
    if committed { CommitWrites(tb, s, Step(s, a), id); }
  }

  lemma {:induction false} RevisionsAreWritten(tb: Tables, run: seq<Action>, id: nat)
    requires Sound(tb)
    ensures var s := Exec(Initial(tb), run);
            Inv(s) && HistoryOk(s) && PreparersKept(s) && AllWritten(tb, s, id)
  {
    ExecKeeps(Initial(tb), run);
    if run != [] {
      RevisionsAreWritten(tb, run[..|run| - 1], id);
      StepWrites(tb, Exec(Initial(tb), run[..|run| - 1]), run[|run| - 1], id);
    }
  }

  lemma {:induction false} AuthorOf(cs: seq<Commit>, id: nat, i: nat) returns (n: nat)
    requires i < |WrittenOn(cs, id)|
    ensures n < |cs| && cs[n].written == Some(WrittenOn(cs, id)[i]) && WrittenOn(cs, id)[i].decisionId == id
  {
    var front := cs[..|cs| - 1];
    if i < |WrittenOn(front, id)| {
      n := AuthorOf(front, id, i);
    } else {
      n := |cs| - 1;
    }
  }

  // What one commit says about the revision it wrote.
  lemma AuthorRules(c: Commit, th: Thread)
    requires CommitOk(c, th) && c.written.Some?
    ensures c.key == Key(Priority, c.written.value.decisionId) && c.req.kind == Priority
    ensures c.written.value.actor == c.req.actor && c.written.value.requestId == c.req.requestId
    ensures if c.written.value.status != Draft then
              c.req.op.Transition? && c.req.role in {Reviewer, Admin} && c.req.actor != c.left.preparedBy
            else
              (c.req.op.Create? && c.written.value.version == 1) || (c.req.op.Update? && (c.req.actor == c.left.preparedBy || c.req.role == Admin))
  {
  }

  // Independent review: every revision added by a run comes from one committed request. A final one
  // is a transition by a reviewer or administrator whose name differs from that of the author of
  // revision 1, who is the recorded preparer; a draft one after the first is an update by that
  // preparer or an administrator.
  lemma IndependentReview(tb: Tables, run: seq<Action>, id: nat, i: nat) returns (n: nat)
    requires Sound(tb)
    requires |RevisionsOf(tb.revisions, id)| <= i < |RevisionsOf(Exec(Initial(tb), run).tables.revisions, id)|
    ensures var s := Exec(Initial(tb), run);
            var rs := RevisionsOf(s.tables.revisions, id);
            && n < |s.commits| && s.commits[n].written == Some(rs[i])
            && var req := s.commits[n].req;
               && req.actor == rs[i].actor && req.requestId == rs[i].requestId
               && Key(Priority, id) in s.tables.rows && rs[0].actor == s.tables.rows[Key(Priority, id)].preparedBy
               && (if rs[i].status != Draft then
                     req.op.Transition? && req.role in {Reviewer, Admin} && rs[i].actor != rs[0].actor
                   else
                     i > 0 ==> req.op.Update? && (rs[i].actor == rs[0].actor || req.role == Admin))
  {
    var s := Exec(Initial(tb), run);
    var base := RevisionsOf(tb.revisions, id);
    RevisionsAreWritten(tb, run, id);
    n := AuthorOf(s.commits, id, i - |base|);
    assert CommitAtOk(s, n);
    AuthorRules(s.commits[n], s.threads[s.commits[n].t]);
    assert Chain(RevisionsOf(s.tables.revisions, id), s.tables.rows[Key(Priority, id)]);
  }
}
