// The entity store of the frontend, which is where expected versions come from.
module Client {
  import opened Workflow
  import opened Records
  import opened Protocol
  import opened Invariants

  datatype DomainRecord = DomainRecord(key: Key, row: Row)

  // A failed request throws.
  datatype Reply = Loaded(data: seq<DomainRecord>) | Thrown(message: string)

  class EntityStore {
    var items: seq<DomainRecord>
    var loading: bool
    var error: string
    ghost var received: set<(Key, nat)>   // every version any response has carried

    ghost predicate Valid()
      reads this
    {
      forall i :: 0 <= i < |items| ==> (items[i].key, items[i].row.version) in received
    }

    constructor ()
      ensures Valid() && items == [] && received == {}
    {
      items, loading, error, received := [], false, "", {};
    }

    method Load(reply: Reply)
      requires Valid()
      modifies this
      ensures Valid() && !loading && old(received) <= received
      ensures reply.Loaded? ==> items == reply.data && error == ""
      ensures reply.Thrown? ==> items == old(items) && error == reply.message
      ensures forall p :: p in received ==>
                p in old(received) || (reply.Loaded? && exists d :: d in reply.data && p == (d.key, d.row.version))
    {
      loading, error := true, "";
      match reply {
        case Loaded(data) =>
          items := data;
          received := received + set d | d in data :: (d.key, d.row.version);
        case Thrown(message) =>
          error := message;
      }
      loading := false;
    }

    // Sends the transition of a record shown before, then reloads. answer is what the server makes of it.
    method Transition(item: DomainRecord, status: Status, reason: string, actor: string, role: Role, requestId: string,
                      answer: Reply, reload: Reply) returns (sent: Request, changed: bool)
      requires Valid() && (item.key, item.row.version) in received
      modifies this
      ensures Valid() && !loading && old(received) <= received
      ensures sent == Request(item.key.kind, Op.Transition(item.key.id, status, item.row.version, reason), actor, role, requestId)
      ensures Backed(old(received), sent)
      ensures changed <==> answer.Loaded?
      ensures !changed ==> items == old(items) && error == answer.message
      ensures changed ==> items == (if reload.Loaded? then reload.data else old(items))
                          && error == (if reload.Thrown? then reload.message else "")
    {
      loading, error := true, "";
      sent := Request(item.key.kind, Op.Transition(item.key.id, status, item.row.version, reason), actor, role, requestId);
      match answer {
        case Loaded(_) =>
          Load(reload);
          changed := true;
        case Thrown(message) =>
          error := message;
          changed := false;
      }
      loading := false;
    }
  }

  // Whatever a client holds that the system has shown at some time makes its requests backed,
  // however old it is: the expected version does not exceed the stored one.
  lemma ClientsAreBacked(tb: Tables, run: seq<Action>, received: set<(Key, nat)>, req: Request)
    requires Sound(tb) && received <= Exec(Initial(tb), run).seen && Backed(received, req) && Versioned(req.op)
    ensures var s := Step(Exec(Initial(tb), run), Submit(req));
            && s.threads[|s.threads| - 1] == Thread(req, true, Begin)
            && KeyOf(req) in s.tables.rows && req.op.expected <= s.tables.rows[KeyOf(req)].version
  {
    HeldVersions(tb, run);
  }
}
