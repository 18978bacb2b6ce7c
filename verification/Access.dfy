// Which transitions the page offers, against which the server accepts.
module Access {
  import opened Workflow
  import opened Text
  import opened Records
  import opened Protocol
  import opened Invariants
  import opened History
  import opened Refinement

  datatype Session = Session(username: string, role: Role)

  // The frontend's copy of the transition table.
  function AllowedTargets(kind: Kind, current: Status): seq<Status> {
    match (kind, current)
    case (Bridge, Active) => [Restricted, Closed]
    case (Bridge, Restricted) => [Closed, Retired, Active]
    case (Bridge, Closed) => [Retired, Restricted]
    case (Bridge, Retired) => [Closed]
    case (Inspection, Planned) => [Running, InReview]
    case (Inspection, Running) => [InReview, Completed, Planned]
    case (Inspection, InReview) => [Completed, Running]
    case (Inspection, Completed) => [InReview]
    case (Defect, New) => [Verified, Monitoring]
    case (Defect, Verified) => [Monitoring, Mitigated, New]
    case (Defect, Monitoring) => [Mitigated, Closed, Verified]
    case (Defect, Mitigated) => [Closed, Monitoring]
    case (Defect, Closed) => [Mitigated]
    case (Priority, Draft) => [Observe, Restrict, Urgent]
    case (_, _) => []
  }

  predicate CanAtLeast(session: Session, minimum: Role) {
    RoleRank(session.role) >= RoleRank(minimum)
  }

  // From a role upwards: operators, reviewers and administrators, or the last two only.
  lemma RolesAtLeast(session: Session)
    ensures CanAtLeast(session, Operator) <==> session.role in {Operator, Reviewer, Admin}
    ensures CanAtLeast(session, Reviewer) <==> session.role in {Reviewer, Admin}
    ensures CanAtLeast(session, Admin) <==> session.role == Admin
    ensures CanAtLeast(session, Viewer)
  {
  }

  // The transitions offered as buttons for a record.
  function TargetsFor(session: Session, kind: Kind, item: Row): seq<Status> {
    if kind == Priority && (!CanAtLeast(session, Reviewer) || item.preparedBy == session.username) then []
    else if kind != Priority && !CanAtLeast(session, Operator) then []
    else AllowedTargets(kind, item.status)
  }

  // The request behind a button: the record's current version, and as actor the trimmed user name.
  function ButtonRequest(session: Session, key: Key, item: Row, target: Status, reason: string, requestId: string): Request {
    Request(key.kind, Transition(key.id, target, item.version, reason), Trim(session.username), session.role, requestId)
  }

  predicate Accepts(tb: Tables, req: Request, env: Env) {
    Atomic(tb, req, env).Some?
  }

  // A decision this user prepared, or did not, depending on white space around the user name.
  predicate NameMismatch(session: Session, kind: Kind, item: Row, target: Status) {
    && kind == Priority && CanAtLeast(session, Reviewer) && item.status == Draft && target in {Observe, Restrict, Urgent}
    && (item.preparedBy == session.username) != (item.preparedBy == Trim(session.username))
  }

  lemma TablesAgree(kind: Kind, current: Status, target: Status)
    ensures target in AllowedTargets(kind, current) <==> CanTransition(kind, current, target)
  {
  }

  // The page offers a transition exactly when the server would accept it for the record as it is,
  // except for one case: the page compares the preparer with the raw user name, the server with the
  // trimmed one.
  lemma ButtonsMatchServer(tb: Tables, session: Session, key: Key, target: Status, reason: string, requestId: string, env: Env)
    requires Live(tb.rows, key)
    ensures var item := tb.rows[key];
            var offered := target in TargetsFor(session, key.kind, item);
            var accepted := Accepts(tb, ButtonRequest(session, key, item, target, reason, requestId), env);
            offered == accepted <==> !NameMismatch(session, key.kind, item, target)
  {
    TablesAgree(key.kind, tb.rows[key].status, target);
    if key.kind == Priority { DecisionEdges(tb.rows[key].status, target); }
  }

  // For user names without outer white space the two always agree.
  lemma TrimmedNamesAgree(tb: Tables, session: Session, key: Key, target: Status, reason: string, requestId: string, env: Env)
    requires Live(tb.rows, key) && Trimmed(session.username)
    ensures target in TargetsFor(session, key.kind, tb.rows[key])
       <==> Accepts(tb, ButtonRequest(session, key, tb.rows[key], target, reason, requestId), env)
  {
    TrimReaches(session.username);
    ButtonsMatchServer(tb, session, key, target, reason, requestId, env);
  }

  ghost predicate PreparersTrimmed(rows: map<Key, Row>) {
    forall k :: k in rows ==> Trimmed(rows[k].preparedBy)
  }

  // The handler trims the user name, so every stored preparer is a trimmed name.
  lemma {:induction false} PreparersStayTrimmed(tb: Tables, run: seq<Action>)
    requires Sound(tb) && PreparersTrimmed(tb.rows)
    requires forall i :: 0 <= i < |Exec(Initial(tb), run).threads| ==> Trimmed(Exec(Initial(tb), run).threads[i].req.actor)
    ensures PreparersTrimmed(Exec(Initial(tb), run).tables.rows)
  {
    if run != [] {
      var s, a := Exec(Initial(tb), run[..|run| - 1]), run[|run| - 1];
      ExecKeeps(Initial(tb), run[..|run| - 1]);
      HistoryKeeps(Initial(tb), run[..|run| - 1]);
      StepKeeps(s, a);
      forall i | 0 <= i < |s.threads| ensures Trimmed(s.threads[i].req.actor) {
        assert Exec(Initial(tb), run).threads[i].req == s.threads[i].req;
      }
      PreparersStayTrimmed(tb, run[..|run| - 1]);
      var committed := StepCases(s, a);
      if committed { assert CommitAtOk(Step(s, a), |s.commits|); }
    }
  }

  // Hence the one disagreement left: a button the server refuses, for a user name with outer white
  // space whose trimmed form prepared the draft. The server accepts nothing that is not offered.
  lemma OnlyOffersTooMuch(tb: Tables, session: Session, key: Key, target: Status, reason: string, requestId: string, env: Env)
    requires Live(tb.rows, key) && Trimmed(tb.rows[key].preparedBy)
    ensures var item := tb.rows[key];
            var offered := target in TargetsFor(session, key.kind, item);
            var accepted := Accepts(tb, ButtonRequest(session, key, item, target, reason, requestId), env);
            && (accepted ==> offered)
            && (offered && !accepted <==>
                  && key.kind == Priority && CanAtLeast(session, Reviewer) && item.status == Draft && target in {Observe, Restrict, Urgent}
                  && session.username != Trim(session.username) == item.preparedBy)
  {
    TablesAgree(key.kind, tb.rows[key].status, target);
    if key.kind == Priority { DecisionEdges(tb.rows[key].status, target); }
    TrimReaches(session.username);
  }

  // Such a session: a reviewer whose name starts with a blank, on a draft of her own.
  lemma OfferedButRefused(tb: Tables, key: Key, name: string, env: Env)
    requires key.kind == Priority && Live(tb.rows, key) && tb.rows[key].status == Draft
    requires Trimmed(name) && tb.rows[key].preparedBy == name
    ensures var session := Session(" " + name, Reviewer);
            && Observe in TargetsFor(session, Priority, tb.rows[key])
            && !Accepts(tb, ButtonRequest(session, key, tb.rows[key], Observe, "", ""), env)
  {
    var padded := " " + name;
    assert padded[1..] == name && |padded| != |name|;
    TrimReaches(name);
    assert TrimLeft(padded) == TrimLeft(name);
    OnlyOffersTooMuch(tb, Session(padded, Reviewer), key, Observe, "", "", env);
  }

  // The guard that admits a fixed set of roles collects them in a map first.
  method RequireRoles(roles: seq<Role>, role: Role) returns (admitted: bool)
    ensures admitted <==> role in roles
  {
    var allowed: map<Role, bool> := map[];
    for i := 0 to |roles|
      invariant forall r :: (r in allowed && allowed[r]) <==> r in roles[..i]
    {
      allowed := allowed[roles[i] := true];
    }
    admitted := role in allowed && allowed[role];
  }
}
