// The stored records and the queries and conditional writes the repositories run on them.
module Records {
  import opened Workflow

  datatype Option<+T> = None | Some(value: T)

  datatype Role = Viewer | Operator | Reviewer | Admin

  // One database holds the four entity tables; ids are unique within a kind.
  datatype Key = Key(kind: Kind, id: nat)

  // The business fields a create or an update carries.
  datatype Fields = Fields(
    name: string, description: string, facility: string, owner: string, category: string,
    riskLevel: string, metricValue: real, metricUnit: string, effectiveAt: int,
    evidence: string, relatedCode: string)

  // preparedBy is used by priority decisions only and empty for the other kinds.
  datatype Row = Row(
    code: string, status: Status, version: nat, fields: Fields, preparedBy: string,
    createdAt: int, updatedAt: int, deleted: bool)

  // The serialised copy kept in a revision: the whole record, or the three members seeding writes.
  datatype Snapshot = Full(row: Row) | Seeded(code: string, status: Status, evidence: string)

  datatype Revision = Revision(
    decisionId: nat, version: nat, status: Status, evidence: string,
    reason: string, actor: string, requestId: string, snapshot: Snapshot)

  datatype Verb = CreateVerb | UpdateVerb | TransitionVerb | DeleteVerb

  // before is None for a creation, after is None for a deletion.
  datatype Entry = Entry(
    actor: string, requestId: string, action: Verb, key: Key,
    before: Option<Status>, after: Option<Status>)

  // The revision table, kept as its index on the decision id: the revisions of each decision in the
  // order they were inserted.
  type RevisionTable = map<nat, seq<Revision>>

  datatype Tables = Tables(rows: map<Key, Row>, revisions: RevisionTable, audits: seq<Entry>)

  predicate Live(rows: map<Key, Row>, key: Key) {
    key in rows && !rows[key].deleted
  }

  // ---- the revision table --------------------------------------------------

  function RevisionsOf(table: RevisionTable, id: nat): seq<Revision> {
    if id in table then table[id] else []
  }

  function InsertRevision(table: RevisionTable, r: Revision): RevisionTable {
    table[r.decisionId := RevisionsOf(table, r.decisionId) + [r]]
  }

  // What the unique index on (decision, version) rejects.
  predicate HasRevision(table: RevisionTable, id: nat, version: nat) {
    exists i :: 0 <= i < |RevisionsOf(table, id)| && RevisionsOf(table, id)[i].version == version
  }

  // Insert into a list ordered by version, after entries of the same version.
  function OrderedInsert(sorted: seq<Revision>, r: Revision): seq<Revision> {
    if sorted == [] || sorted[|sorted| - 1].version <= r.version then sorted + [r]
    else OrderedInsert(sorted[..|sorted| - 1], r) + [sorted[|sorted| - 1]]
  }

  function OrderByVersion(rs: seq<Revision>): seq<Revision> {
    if rs == [] then [] else OrderedInsert(OrderByVersion(rs[..|rs| - 1]), rs[|rs| - 1])
  }

  // The query for the revisions of one decision, in ascending version order.
  function SelectRevisions(table: RevisionTable, id: nat): seq<Revision> {
    OrderByVersion(RevisionsOf(table, id))
  }

  ghost predicate Ascending(rs: seq<Revision>) {
    forall i, j :: 0 <= i < j < |rs| ==> rs[i].version <= rs[j].version
  }

  lemma {:induction false} OrderedInsertKeepsAll(sorted: seq<Revision>, r: Revision)
    ensures multiset(OrderedInsert(sorted, r)) == multiset(sorted) + multiset{r}
  {
    if sorted == [] || sorted[|sorted| - 1].version <= r.version {
    } else {
      OrderedInsertKeepsAll(sorted[..|sorted| - 1], r);
      assert sorted == sorted[..|sorted| - 1] + [sorted[|sorted| - 1]];
    }
  }

  ghost predicate UpTo(rs: seq<Revision>, version: nat) {
    forall i :: 0 <= i < |rs| ==> rs[i].version <= version
  }

  lemma {:induction false} OrderedInsertAscending(sorted: seq<Revision>, r: Revision, top: nat)
    requires Ascending(sorted) && UpTo(sorted, top) && r.version <= top
    ensures Ascending(OrderedInsert(sorted, r)) && UpTo(OrderedInsert(sorted, r), top)
  {
    if sorted == [] || sorted[|sorted| - 1].version <= r.version {
    } else {
      OrderedInsertAscending(sorted[..|sorted| - 1], r, sorted[|sorted| - 1].version);
    }
  }

  lemma {:induction false} OrderByVersionKeepsAll(rs: seq<Revision>)
    ensures multiset(OrderByVersion(rs)) == multiset(rs)
  {
    if rs != [] {
      OrderByVersionKeepsAll(rs[..|rs| - 1]);
      OrderedInsertKeepsAll(OrderByVersion(rs[..|rs| - 1]), rs[|rs| - 1]);
      assert rs == rs[..|rs| - 1] + [rs[|rs| - 1]];
    }
  }

  // The query returns all revisions of the decision, each once, in ascending version order.
  lemma {:induction false} OrderByVersionSorts(rs: seq<Revision>)
    ensures Ascending(OrderByVersion(rs)) && multiset(OrderByVersion(rs)) == multiset(rs)
  {
    OrderByVersionKeepsAll(rs);
    if rs != [] {
      var sorted, r := OrderByVersion(rs[..|rs| - 1]), rs[|rs| - 1];
      OrderByVersionSorts(rs[..|rs| - 1]);
      var last := if sorted == [] then 0 else sorted[|sorted| - 1].version;
      OrderedInsertAscending(sorted, r, if last <= r.version then r.version else last);
    }
  }

  // Revisions inserted in version order are returned in insertion order.
  lemma {:induction false} OrderByVersionKeeps(rs: seq<Revision>)
    requires Ascending(rs)
    ensures OrderByVersion(rs) == rs
  {
    if rs != [] {
      var front, last := rs[..|rs| - 1], rs[|rs| - 1];
      OrderByVersionKeeps(front);
      assert OrderedInsert(front, last) == front + [last] == rs;
    }
  }

  // ---- conditional writes --------------------------------------------------

  // The optimistic-lock update: matched on id, expected version and liveness; every column is
  // overwritten except id, code, created_at, deleted_at and prepared_by.
  function CompareAndSet(rows: map<Key, Row>, key: Key, expected: nat, next: Row): Option<map<Key, Row>> {
    if Live(rows, key) && rows[key].version == expected then
      var stored := rows[key];
      Some(rows[key := next.(code := stored.code, createdAt := stored.createdAt,
                             deleted := stored.deleted, preparedBy := stored.preparedBy)])
    else None
  }

  // The unique index on code spans soft-deleted rows too.
  predicate CodeTaken(rows: map<Key, Row>, kind: Kind, code: string) {
    exists k :: k in rows && k.kind == kind && rows[k].code == code
  }

  // ---- what the stored tables always satisfy --------------------------------

  // The snapshot shows the row as stored, but for the update time, which the database layer may set
  // itself; a creation's is taken before the time stamps are set.
  ghost predicate Depicts(snapshot: Snapshot, row: Row) {
    match snapshot
    case Full(r) =>
      var shown := row.(deleted := false, updatedAt := r.updatedAt);
      r == shown || (row.version == 1 && r == shown.(createdAt := 0))
    case Seeded(code, status, evidence) =>
      code == row.code && status == row.status && evidence == row.fields.evidence
  }

  // The revisions of a decision: versions 1..n, the last one describing the stored row, the first
  // one written by the preparer, and every final one written by somebody else.
  ghost predicate Chain(rs: seq<Revision>, row: Row) {
    && 1 <= |rs| == row.version
    && (forall i :: 0 <= i < |rs| ==> rs[i].version == i + 1)
    && rs[|rs| - 1].status == row.status && rs[|rs| - 1].evidence == row.fields.evidence
    && Depicts(rs[|rs| - 1].snapshot, row)
    && rs[0].actor == row.preparedBy && rs[0].status == Draft
    && (forall i :: 0 <= i < |rs| && rs[i].status != Draft ==> rs[i].actor != rs[0].actor)
  }

  ghost predicate Sound(tb: Tables) {
    && (forall k :: k in tb.rows ==> 1 <= tb.rows[k].version && IsListed(k.kind, tb.rows[k].status))
    && (forall k :: k in tb.rows && k.kind == Priority ==>
          Chain(RevisionsOf(tb.revisions, k.id), tb.rows[k]))
    && (forall id :: id in tb.revisions ==> Key(Priority, id) in tb.rows)
  }

  // A stored row may only move on to a higher version or become deleted, and keeps its identity.
  ghost predicate Evolves(r: Row, later: Row) {
    && r.code == later.code && r.preparedBy == later.preparedBy && r.createdAt == later.createdAt
    && r.version <= later.version
    && (r.version == later.version ==> later == r.(deleted := later.deleted))
    && (r.deleted ==> later == r)
  }

  ghost predicate TablesEvolve(tb: Tables, later: Tables) {
    && (forall k :: k in tb.rows ==> k in later.rows && Evolves(tb.rows[k], later.rows[k]))
    && (forall id: nat :: RevisionsOf(tb.revisions, id) <= RevisionsOf(later.revisions, id))
    && tb.audits <= later.audits
  }

  lemma EvolveTransitive(a: Tables, b: Tables, c: Tables)
    requires TablesEvolve(a, b) && TablesEvolve(b, c)
    ensures TablesEvolve(a, c)
  {
    forall id: nat ensures RevisionsOf(a.revisions, id) <= RevisionsOf(c.revisions, id) {
      assert RevisionsOf(a.revisions, id) <= RevisionsOf(b.revisions, id) <= RevisionsOf(c.revisions, id);
    }
  }

  // In sound tables the query shows the chain itself.
  lemma SelectShowsChain(tb: Tables, id: nat)
    requires Sound(tb) && Key(Priority, id) in tb.rows
    ensures SelectRevisions(tb.revisions, id) == RevisionsOf(tb.revisions, id)
    ensures Chain(RevisionsOf(tb.revisions, id), tb.rows[Key(Priority, id)])
  {
    assert Chain(RevisionsOf(tb.revisions, id), tb.rows[Key(Priority, id)]);
    OrderByVersionKeeps(RevisionsOf(tb.revisions, id));
  }

  // The insert that follows a successful compare never meets the unique index.
  lemma NextRevisionIsNew(tb: Tables, id: nat)
    requires Sound(tb) && Key(Priority, id) in tb.rows
    ensures !HasRevision(tb.revisions, id, tb.rows[Key(Priority, id)].version + 1)
  {
    assert Chain(RevisionsOf(tb.revisions, id), tb.rows[Key(Priority, id)]);
  }
}
