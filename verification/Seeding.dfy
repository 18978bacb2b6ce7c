// The seeding of the priority decisions at start-up, and the status counts of the overview.
module Seeding {
  import opened Workflow
  import opened Records
  import opened Protocol
  import opened Invariants
  import opened Finality
  import opened Services
  import opened Audit

  const PREPARER := "operator"
  const REVIEWER := "reviewer"

  function SeedItem(code: string, status: Status, version: nat, fields: Fields, now: int): Row {
    Row(code, status, version, fields, PREPARER, now, now, false)
  }

  // The three demonstration decisions; their business texts are a parameter.
  function SeedItems(fields: seq<Fields>, now: int): seq<Row>
    requires |fields| == 3
  {
    [SeedItem("PD-001", Draft, 1, fields[0], now),
     SeedItem("PD-002", Observe, 2, fields[1], now),
     SeedItem("PD-003", Restrict, 2, fields[2], now)]
  }

  function SeedRevision(id: nat, item: Row, version: nat, status: Status, reason: string, actor: string, requestId: string): Revision {
    Revision(id, version, status, item.fields.evidence, reason, actor, requestId, Seeded(item.code, status, item.fields.evidence))
  }

  function DraftRevision(id: nat, item: Row): Revision {
    SeedRevision(id, item, 1, Draft, "seeded decision draft", PREPARER, "seed-" + item.code + "-create")
  }

  function FinalRevision(id: nat, item: Row): Revision {
    SeedRevision(id, item, item.version, item.status, "seeded independent review", REVIEWER, "seed-" + item.code + "-review")
  }

  // A draft as created, or a decision finalised in its second version.
  ghost predicate SeedShape(item: Row) {
    && item.preparedBy == PREPARER && !item.deleted && IsListed(Priority, item.status)
    && item.version == if item.status == Draft then 1 else 2
  }

  function SeedRevisions(id: nat, item: Row): seq<Revision> {
    if item.status == Draft then [DraftRevision(id, item)] else [DraftRevision(id, item), FinalRevision(id, item)]
  }

  // The tables with one more seeded decision.
  function Planted(tb: Tables, id: nat, item: Row): Tables {
    tb.(rows := tb.rows[Key(Priority, id) := item], revisions := tb.revisions[id := SeedRevisions(id, item)])
  }

  lemma SeedChain(id: nat, item: Row)
    requires SeedShape(item)
    ensures Chain(SeedRevisions(id, item), item)
  {
    assert PREPARER[0] != REVIEWER[0];
  }

  lemma PlantedChains(tb: Tables, id: nat, item: Row, k: Key)
    requires Sound(tb) && SeedShape(item) && Key(Priority, id) !in tb.rows
    requires k in Planted(tb, id, item).rows && k.kind == Priority
    ensures Chain(RevisionsOf(Planted(tb, id, item).revisions, k.id), Planted(tb, id, item).rows[k])
  {
    if k.id == id { SeedChain(id, item); } else { assert Chain(RevisionsOf(tb.revisions, k.id), tb.rows[k]); }
  }

  // Planting a seed keeps every chain whole.
  lemma PlantedIsSound(tb: Tables, id: nat, item: Row)
    requires Sound(tb) && SeedShape(item) && Key(Priority, id) !in tb.rows
    ensures Sound(Planted(tb, id, item))
  {
    var later := Planted(tb, id, item);
    forall k | k in later.rows && k.kind == Priority
      ensures Chain(RevisionsOf(later.revisions, k.id), later.rows[k])
    {
      PlantedChains(tb, id, item, k);
    }
  }

  ghost predicate FreshIds(tb: Tables, ids: seq<nat>) {
    && (forall i :: 0 <= i < |ids| ==> Key(Priority, ids[i]) !in tb.rows)
    && (forall i, j :: 0 <= i < j < |ids| ==> ids[i] != ids[j])
  }

  ghost predicate Populated(rows: map<Key, Row>) {
    exists k :: k in rows && k.kind == Priority && !rows[k].deleted
  }

  // Item i is stored with its revisions.
  ghost predicate HasSeed(now: Tables, id: nat, item: Row) {
    && Key(Priority, id) in now.rows && now.rows[Key(Priority, id)] == item
    && RevisionsOf(now.revisions, id) == SeedRevisions(id, item)
  }

  // The rows after n items: those of before and the new ones.
  ghost predicate RowsSoFar(tb: Tables, now: Tables, ids: seq<nat>, n: nat)
    requires n <= |ids|
  {
    && (forall k :: k in tb.rows ==> k in now.rows && now.rows[k] == tb.rows[k])
    && (forall k :: k in now.rows ==> k in tb.rows || exists i :: 0 <= i < n && k == Key(Priority, ids[i]))
  }

  // What the transaction of the seeding has done after n items.
  ghost predicate SeededSoFar(tb: Tables, now: Tables, ids: seq<nat>, items: seq<Row>, n: nat)
    requires n <= |ids| == |items|
  {
    && Sound(now) && now.audits == tb.audits && RowsSoFar(tb, now, ids, n)
    && (forall i :: 0 <= i < n ==> HasSeed(now, ids[i], items[i]))
  }

  lemma StillFresh(tb: Tables, now: Tables, ids: seq<nat>, items: seq<Row>, n: nat)
    requires |ids| == |items| && n < |ids| && FreshIds(tb, ids) && SeededSoFar(tb, now, ids, items, n)
    ensures Key(Priority, ids[n]) !in now.rows && RevisionsOf(now.revisions, ids[n]) == []
  {
  }

  lemma RowsGrow(tb: Tables, now: Tables, later: Tables, ids: seq<nat>, n: nat, item: Row)
    requires n < |ids| && FreshIds(tb, ids) && RowsSoFar(tb, now, ids, n)
    requires later.rows == now.rows[Key(Priority, ids[n]) := item]
    ensures RowsSoFar(tb, later, ids, n + 1)
  {
    forall k | k in later.rows && k !in tb.rows ensures exists i :: 0 <= i < n + 1 && k == Key(Priority, ids[i]) {
      assert k in now.rows || k == Key(Priority, ids[n]);
    }
  }

  lemma SeedsStay(now: Tables, id: nat, item: Row, ids: seq<nat>, items: seq<Row>, n: nat)
    requires n <= |ids| == |items| && (forall i :: 0 <= i < n ==> HasSeed(now, ids[i], items[i]) && ids[i] != id)
    ensures forall i :: 0 <= i < n ==> HasSeed(Planted(now, id, item), ids[i], items[i])
    ensures HasSeed(Planted(now, id, item), id, item)
  {
    forall i | 0 <= i < n ensures HasSeed(Planted(now, id, item), ids[i], items[i]) {
      assert HasSeed(now, ids[i], items[i]);
    }
  }

  lemma PlantNext(tb: Tables, now: Tables, ids: seq<nat>, items: seq<Row>, n: nat)
    requires |ids| == |items| && n < |ids| && FreshIds(tb, ids) && SeedShape(items[n])
    requires SeededSoFar(tb, now, ids, items, n)
    ensures SeededSoFar(tb, Planted(now, ids[n], items[n]), ids, items, n + 1)
  {
    StillFresh(tb, now, ids, items, n);
    PlantedIsSound(now, ids[n], items[n]);
    RowsGrow(tb, now, Planted(now, ids[n], items[n]), ids, n, items[n]);
    SeedsStay(now, ids[n], items[n], ids, items, n);
  }

  // The batch insert of the revisions of one new decision.
  method AppendRevisions(db: Database, id: nat, batch: seq<Revision>)
    requires RevisionsOf(db.revisions, id) == [] && batch != []
    requires forall i :: 0 <= i < |batch| ==> batch[i].decisionId == id
    requires forall i, j :: 0 <= i < j < |batch| ==> batch[i].version != batch[j].version
    modifies db`revisions
    ensures db.revisions == old(db.revisions)[id := batch]
  {
    for j := 0 to |batch|
      invariant db.revisions == if j == 0 then old(db.revisions) else old(db.revisions)[id := batch[..j]]
    {
      assert RevisionsOf(db.revisions, id) == batch[..j];
      assert batch[..j + 1] == batch[..j] + [batch[j]];
      var _ := db.AppendRevision(batch[j]);
    }
    assert batch[..|batch|] == batch;
  }

  // One iteration of the seeding: the decision, then its revisions.
  method PlantSeed(db: Database, id: nat, item: Row) returns (ok: bool)
    requires Key(Priority, id) !in db.rows && RevisionsOf(db.revisions, id) == [] && SeedShape(item)
    modifies db
    ensures ok == !CodeTaken(old(db.rows), Priority, item.code)
    ensures db.State() == if ok then Planted(old(db.State()), id, item) else old(db.State())
  {
    ok := db.Create(Key(Priority, id), item);
    if ok {
      var seeds := [DraftRevision(id, item)];
      if item.status != Draft {
        seeds := seeds + [FinalRevision(id, item)];
      }
      assert seeds == SeedRevisions(id, item);
      AppendRevisions(db, id, seeds);
    }
  }

  ghost predicate GoodSeeds(items: seq<Row>) {
    && (forall i :: 0 <= i < |items| ==> SeedShape(items[i]))
    && (forall i, j :: 0 <= i < j < |items| ==> items[i].code != items[j].code)
  }

  lemma TheSeedsAreGood(fields: seq<Fields>, now: int)
    requires |fields| == 3
    ensures GoodSeeds(SeedItems(fields, now))
  {
    assert "PD-001"[5] != "PD-002"[5] && "PD-001"[5] != "PD-003"[5] && "PD-002"[5] != "PD-003"[5];
  }

  predicate SomeCodeTaken(rows: map<Key, Row>, items: seq<Row>) {
    exists i :: 0 <= i < |items| && CodeTaken(rows, Priority, items[i].code)
  }

  lemma CodeStillFree(tb: Tables, now: Tables, ids: seq<nat>, items: seq<Row>, n: nat)
    requires |ids| == |items| && n < |ids| && SeededSoFar(tb, now, ids, items, n)
    requires forall i :: 0 <= i < n ==> items[i].code != items[n].code
    ensures CodeTaken(now.rows, Priority, items[n].code) == CodeTaken(tb.rows, Priority, items[n].code)
  {
    forall i | 0 <= i < n ensures now.rows[Key(Priority, ids[i])].code != items[n].code {
      assert HasSeed(now, ids[i], items[i]);
    }
  }

  // The loop of the transaction; after a failure the tables are left for the rollback.
  method PlantAll(db: Database, ids: seq<nat>, items: seq<Row>, ghost tb: Tables) returns (ok: bool)
    requires db.State() == tb && Sound(tb) && |ids| == |items| && FreshIds(tb, ids) && GoodSeeds(items)
    modifies db
    ensures ok <==> !SomeCodeTaken(tb.rows, items)
    ensures ok ==> SeededSoFar(tb, db.State(), ids, items, |ids|)
    ensures db.audits == tb.audits
  {
    for index := 0 to |items|
      invariant SeededSoFar(tb, db.State(), ids, items, index)
      invariant forall i :: 0 <= i < index ==> !CodeTaken(tb.rows, Priority, items[i].code)
    {
      ghost var now := db.State();
      StillFresh(tb, now, ids, items, index);
      PlantNext(tb, now, ids, items, index);
      CodeStillFree(tb, now, ids, items, index);
      ok := PlantSeed(db, ids[index], items[index]);
      if !ok {
        return;
      }
    }
    ok := true;
  }

  // Seeding fills a table without live decisions in one transaction and leaves any other alone. It
  // fails, and rolls back, exactly when there is no live decision but a deleted one holds a seed code.
  method SeedPriorityDecisions(db: Database, fields: seq<Fields>, ids: seq<nat>, now: int) returns (ok: bool)
    requires |fields| == |ids| == 3 && Sound(db.State()) && FreshIds(db.State(), ids)
    modifies db
    ensures Populated(old(db.rows)) ==> ok && db.State() == old(db.State())
    ensures !Populated(old(db.rows)) ==> (ok <==> !SomeCodeTaken(old(db.rows), SeedItems(fields, now)))
    ensures !ok ==> db.State() == old(db.State())
    ensures ok && !Populated(old(db.rows)) ==> SeededSoFar(old(db.State()), db.State(), ids, SeedItems(fields, now), 3)
  {
    if exists k :: k in db.rows && k.kind == Priority && !db.rows[k].deleted {
      return true;
    }
    var rows, revisions := db.rows, db.revisions;
    TheSeedsAreGood(fields, now);
    ok := PlantAll(db, ids, SeedItems(fields, now), db.State());
    if !ok {
      db.rows, db.revisions := rows, revisions;
    }
  }

  // A seeded decision starts with at most one final revision, the last.
  lemma SeededChainsAreFinalLast(now: Tables, id: nat, item: Row)
    requires HasSeed(now, id, item)
    ensures OneFinalAt(now, Key(Priority, id))
  {
  }

  // What is planted: a draft by the operator, and two decisions the reviewer has finalised, observe and
  // restrict, each after a draft revision by the operator that shows the same evidence.
  lemma SeedsAsShipped(now: Tables, ids: seq<nat>, fields: seq<Fields>, at: int)
    requires |fields| == |ids| == 3
    requires forall i :: 0 <= i < 3 ==> HasSeed(now, ids[i], SeedItems(fields, at)[i])
    ensures forall i :: 0 <= i < 3 ==>
              Key(Priority, ids[i]) in now.rows &&
              var row, rs := now.rows[Key(Priority, ids[i])], RevisionsOf(now.revisions, ids[i]);
              && row.code == ["PD-001", "PD-002", "PD-003"][i] && row.status == [Draft, Observe, Restrict][i]
              && row.version == |rs| == [1, 2, 2][i] && row.preparedBy == "operator" && !row.deleted && row.fields == fields[i]
              && rs[0].status == Draft && rs[0].actor == "operator" && rs[0].version == 1 && rs[0].evidence == row.fields.evidence
              && rs[0].requestId == "seed-" + row.code + "-create"
              && (|rs| == 2 ==>
                    && rs[1].status == row.status && rs[1].actor == "reviewer" && rs[1].version == 2
                    && rs[1].evidence == row.fields.evidence && rs[1].requestId == "seed-" + row.code + "-review")
  {
    forall i | 0 <= i < 3 ensures HasSeed(now, ids[i], SeedItems(fields, at)[i]) {
    }
  }

  // ---- seeding at later starts ----------------------------------------------------------

  // The tables after a number of processes, each of which ran from those the one before it left.
  function Lifetimes(tb: Tables, runs: seq<seq<Action>>): Tables {
    if runs == [] then tb else Exec(Initial(Lifetimes(tb, runs[..|runs| - 1])), runs[|runs| - 1]).tables
  }

  // Tables without any decision are seeded, since no code is taken.
  lemma FirstSeedingSucceeds(tb: Tables, items: seq<Row>)
    requires forall k :: k in tb.rows ==> k.kind != Priority
    ensures !Populated(tb.rows) && !SomeCodeTaken(tb.rows, items)
  {
  }

  // A seeded decision that is final stays as it was planted, whatever requests any later process
  // serves and whatever versions they expect.
  lemma {:induction false} SeedStays(tb: Tables, runs: seq<seq<Action>>, id: nat, item: Row)
    requires Sound(tb) && HasSeed(tb, id, item) && item.status != Draft
    ensures Sound(Lifetimes(tb, runs)) && HasSeed(Lifetimes(tb, runs), id, item)
  {
    if runs != [] {
      var before := Lifetimes(tb, runs[..|runs| - 1]);
      SeedStays(tb, runs[..|runs| - 1], id, item);
      RevisionChain(before, runs[|runs| - 1]);
      FinalFromTheStart(before, runs[|runs| - 1], Key(Priority, id));
    }
  }

  // So a table this program has seeded always keeps a live decision, and seeding it again, at any
  // later start, changes nothing and does not fail.
  lemma SeededStaysPopulated(base: Tables, tb: Tables, ids: seq<nat>, fields: seq<Fields>, now: int, runs: seq<seq<Action>>)
    requires |fields| == |ids| == 3 && SeededSoFar(base, tb, ids, SeedItems(fields, now), 3)
    ensures Populated(Lifetimes(tb, runs).rows)
  {
    var item := SeedItems(fields, now)[1];
    assert HasSeed(tb, ids[1], item);
    SeedStays(tb, runs, ids[1], item);
    assert Lifetimes(tb, runs).rows[Key(Priority, ids[1])] == item;
  }

  // ---- the overview's counts -----------------------------------------------------------

  // The result of SELECT status, COUNT(*) ... GROUP BY status over the live rows of a kind.
  ghost predicate Grouping(rows: map<Key, Row>, kind: Kind, groups: seq<(Status, nat)>) {
    && (forall i, j :: 0 <= i < j < |groups| ==> groups[i].0 != groups[j].0)
    && (forall i :: 0 <= i < |groups| ==> groups[i].1 == CountByStatus(rows, kind, groups[i].0))
    && (forall status :: CountByStatus(rows, kind, status) > 0 ==> exists i :: 0 <= i < |groups| && groups[i].0 == status)
  }

  // A missing status counts as zero.
  method StatusCounts(ghost rows: map<Key, Row>, ghost kind: Kind, groups: seq<(Status, nat)>) returns (counts: map<Status, nat>)
    requires Grouping(rows, kind, groups)
    ensures forall status :: CountByStatus(rows, kind, status) == if status in counts then counts[status] else 0
  {
    counts := map[];
    for i := 0 to |groups|
      invariant forall status :: status in counts <==> exists j :: 0 <= j < i && groups[j].0 == status
      invariant forall j :: 0 <= j < i ==> groups[j].0 in counts && counts[groups[j].0] == groups[j].1
    {
      counts := counts[groups[i].0 := groups[i].1];
    }
  }
}
