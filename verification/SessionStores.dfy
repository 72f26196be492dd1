/** session_store.py: a dict of live, aliased records, and Redis with its copies, behind one interface. */
module SessionStores {
  import opened Wrappers
  import opened StudyTypes
  import Protocol

  /** Everything a record holds, as a value: what Redis serialises. */
  datatype Snapshot = Snapshot(id: SessionId, rec: Record, error: Option<string>)

  type Model = map<SessionId, Snapshot>

  // ----------------------------------------------------- the interface on values

  datatype Op =
    | Save(snapshot: Snapshot)
    | Get(id: SessionId)
    | Update(id: SessionId, status: Status, progress: nat, error: Option<string>, payload: Option<Payload>)
    | Delete(id: SessionId)

  datatype Obs = Saved | Got(found: Option<Snapshot>) | Updated | Deleted(existed: bool)

  function Touch(s: Snapshot, status: Status, progress: nat, error: Option<string>,
                 payload: Option<Payload>): Snapshot {
    s.(rec := s.rec.(status := status, progress := progress,
                     payload := if payload.Some? then payload.value else s.rec.payload),
       error := if error.Some? then error else s.error)
  }

  function After(m: Model, op: Op): Model {
    match op
    case Save(s) => m[s.id := s]
    case Get(_) => m
    case Update(id, status, progress, error, payload) =>
      if id in m then m[id := Touch(m[id], status, progress, error, payload)] else m
    case Delete(id) => m - {id}
  }

  function Observed(m: Model, op: Op): Obs {
    match op
    case Save(_) => Saved
    case Get(id) => Got(if id in m then Some(m[id]) else None)
    case Update(_, _, _, _, _) => Updated
    case Delete(id) => Deleted(id in m)
  }

  function AfterAll(m: Model, ops: seq<Op>): Model {
    if ops == [] then m else After(AfterAll(m, ops[..|ops| - 1]), ops[|ops| - 1])
  }

  function ObservedAll(m: Model, ops: seq<Op>): seq<Obs> {
    if ops == [] then []
    else ObservedAll(m, ops[..|ops| - 1]) + [Observed(AfterAll(m, ops[..|ops| - 1]), ops[|ops| - 1])]
  }

  predicate Updates(ops: seq<Op>, id: SessionId) {
    exists i :: 0 <= i < |ops| && ops[i].Update? && ops[i].id == id
  }

  lemma {:induction false} UpdatesExtend(ops: seq<Op>, i: nat, id: SessionId)
    requires i < |ops|
    ensures Updates(ops[..i + 1], id) <==> Updates(ops[..i], id) || (ops[i].Update? && ops[i].id == id)
  {
    var longer, shorter := ops[..i + 1], ops[..i];
    assert longer[i] == ops[i];
    assert forall j | 0 <= j < i :: longer[j] == shorter[j];
  }

  predicate Mentions(ops: seq<Op>, id: SessionId) {
    exists i :: 0 <= i < |ops| && (if ops[i].Save? then ops[i].snapshot.id == id else !ops[i].Get? && ops[i].id == id)
  }

  /** Operations on some sessions leave all the others untouched. */
  lemma {:induction false} OthersUntouched(m: Model, ops: seq<Op>, id: SessionId)
    requires !Mentions(ops, id)
    ensures id in AfterAll(m, ops) <==> id in m
    ensures id in m ==> AfterAll(m, ops)[id] == m[id]
  {
    if ops != [] {
      var init, op := ops[..|ops| - 1], ops[|ops| - 1];
      assert forall i | 0 <= i < |init| :: init[i] == ops[i];
      OthersUntouched(m, init, id);
      assert ops[|ops| - 1] == op;
    }
  }

  function Records(m: Model): map<SessionId, Record> {
    map id | id in m :: m[id].rec
  }

  /** The protocol's update_status step is this store's operation. */
  lemma {:induction false} UpdateIsProtocolStep(m: Model, id: SessionId, status: Status, progress: nat,
                                                error: Option<string>, payload: Option<Payload>)
    ensures Records(After(m, Update(id, status, progress, error, payload)))
            == Protocol.UpdateStatus(Records(m), id, status, progress, payload)
  {
  }

  /** An update writes status and progress; message and result stay unless new ones are given. */
  lemma {:induction false} UpdateKeepsTheRest(m: Model, id: SessionId, status: Status, progress: nat,
                                              error: Option<string>, payload: Option<Payload>)
    requires id in m
    ensures var before, after := m[id], After(m, Update(id, status, progress, error, payload))[id];
            && after.rec.status == status && after.rec.progress == progress
            && after.id == before.id && after.rec.user == before.rec.user && after.rec.hash == before.rec.hash
            && (error.None? ==> after.error == before.error) && (error.Some? ==> after.error == error)
            && (payload.None? ==> after.rec.payload == before.rec.payload)
            && (payload.Some? ==> after.rec.payload == payload.value)
  {
  }

  // ------------------------------------------------------------ live records

  class SessionRecord {
    var id: SessionId
    var user: Option<UserId>
    var hash: Hash
    var status: Status
    var progress: nat
    var payload: Payload
    var error: Option<string>

    constructor (s: Snapshot)
      ensures Value() == s
    {
      id, user, hash, status, progress, payload, error :=
        s.id, s.rec.user, s.rec.hash, s.rec.status, s.rec.progress, s.rec.payload, s.error;
    }

    ghost function Value(): Snapshot
      reads this
    {
      Snapshot(id, Record(user, hash, status, progress, payload), error)
    }

    /** What a generation task goes on reading from its record after the first await. */
    ghost function Fixed(): (SessionId, Option<UserId>, Hash)
      reads this
    {
      (id, user, hash)
    }

    method Copy() returns (s: Snapshot)
      ensures s == Value()
    {
      s := Snapshot(id, Record(user, hash, status, progress, payload), error);
    }

    /** The field assignments of update_status. */
    method Assign(newStatus: Status, newProgress: nat, newError: Option<string>, newPayload: Option<Payload>)
      modifies this`status, this`progress, this`error, this`payload
      ensures Value() == Touch(old(Value()), newStatus, newProgress, newError, newPayload)
    {
      status := newStatus;
      progress := newProgress;
      if newError.Some? {
        error := newError;
      }
      if newPayload.Some? {
        payload := newPayload.value;
      }
    }
  }

  // --------------------------------------------------- the in-process backend

  /** The dict backend: records are kept, handed out and mutated by reference. */
  class LocalStore {
    var store: map<SessionId, SessionRecord>

    ghost predicate Valid()
      reads this, store.Values
    {
      forall k | k in store :: store[k].id == k
    }

    ghost function Current(): Model
      reads this, store.Values
    {
      map k | k in store :: store[k].Value()
    }

    constructor ()
      ensures Valid() && Current() == map[] && store == map[]
    {
      store := map[];
    }

    method Save(record: SessionRecord)
      requires Valid()
      modifies this
      ensures Valid() && store == old(store)[record.id := record]
      ensures Current() == old(Current())[record.id := record.Value()]
    {
      store := store[record.id := record];
    }

    method Get(id: SessionId) returns (r: SessionRecord?)
      requires Valid()
      ensures r == if id in store then store[id] else null
      ensures r == null <==> id !in Current()
      ensures r != null ==> r.Value() == Current()[id]
    {
      r := if id in store then store[id] else null;
    }

    /** update_status mutates the record in place, wherever else it is referenced. */
    method UpdateStatus(id: SessionId, status: Status, progress: nat, error: Option<string>, payload: Option<Payload>)
      requires Valid()
      modifies this, if id in store then {store[id]} else {}
      ensures Valid() && store == old(store)
      ensures Current() == After(old(Current()), Update(id, status, progress, error, payload))
      ensures id in store ==> store[id].Fixed() == old(store[id].Fixed())
    {
      var record := Get(id);
      if record == null {
        return;
      }
      ghost var before := Current();
      record.Assign(status, progress, error, payload);
      assert Current() == before[id := record.Value()] by {
        assert forall k | k in store && k != id :: store[k].Value() == before[k];
      }
      Save(record);
    }

    method Delete(id: SessionId) returns (existed: bool)
      requires Valid()
      modifies this
      ensures Valid() && store == old(store) - {id}
      ensures existed == (id in old(store)) && Current() == old(Current()) - {id}
    {
      existed := id in store;
      store := store - {id};
    }

    method Perform(op: Op) returns (obs: Obs)
      requires Valid()
      modifies this, if op.Update? && op.id in store then {store[op.id]} else {}
      ensures Valid()
      ensures Current() == After(old(Current()), op) && obs == Observed(old(Current()), op)
      ensures forall k | k in store :: (k in old(store) && store[k] == old(store)[k]) || fresh(store[k])
      ensures op.Update? && op.id in old(store) ==> old(store)[op.id].Fixed() == old(store[op.id].Fixed())
    {
      match op {
        case Save(s) =>
          var record := new SessionRecord(s);
          Save(record);
          obs := Saved;
        case Get(id) =>
          var record := Get(id);
          if record == null {
            obs := Got(None);
          } else {
            var s := record.Copy();
            obs := Got(Some(s));
          }
        case Update(id, status, progress, error, payload) =>
          UpdateStatus(id, status, progress, error, payload);
          obs := Updated;
        case Delete(id) =>
          var existed := Delete(id);
          obs := Deleted(existed);
      }
    }

    /**
     * Any sequence of operations gives the observations of the value model, although callers hold
     * references into the dict. Whoever keeps a record sees its owner and document unchanged, and the
     * whole record unchanged as long as nobody updates that session: what a Redis copy would show.
     */
    method Replay(ops: seq<Op>) returns (obs: seq<Obs>)
      requires Valid()
      modifies this, store.Values
      ensures Valid()
      ensures Current() == AfterAll(old(Current()), ops) && obs == ObservedAll(old(Current()), ops)
      ensures forall r | r in old(store.Values) :: r.Fixed() == old(r.Fixed())
      ensures forall r | r in old(store.Values) :: !Updates(ops, old(r.id)) ==> r.Value() == old(r.Value())
    {
      obs := [];
      for i := 0 to |ops|
        invariant Valid()
        invariant forall k | k in store :: store[k] in old(store.Values) || fresh(store[k])
        invariant Current() == AfterAll(old(Current()), ops[..i]) && obs == ObservedAll(old(Current()), ops[..i])
        invariant forall r | r in old(store.Values) :: r.Fixed() == old(r.Fixed())
        invariant forall r | r in old(store.Values) :: !Updates(ops[..i], old(r.id)) ==> r.Value() == old(r.Value())
      {
        assert ops[..i + 1][..i] == ops[..i];
        assert ops[..i + 1][i] == ops[i];
        label before:
        ghost var seen := store;
        var o := Perform(ops[i]);
        obs := obs + [o];
        forall r | r in old(store.Values) && !Updates(ops[..i + 1], old(r.id)) ensures r.Value() == old(r.Value()) {
          UpdatesExtend(ops, i, old(r.id));
          assert old@before(r.id) == old(r.id);
        }
      }
      assert ops[..|ops|] == ops;
    }
  }

  // --------------------------------------------------------- the Redis backend

  /** Redis before expiry: every read makes a new record, every write stores a copy. */
  class RedisStore {
    var data: Model

    ghost predicate Valid()
      reads this
    {
      forall k | k in data :: data[k].id == k
    }

    constructor ()
      ensures Valid() && data == map[]
    {
      data := map[];
    }

    method Save(record: SessionRecord)
      requires Valid()
      modifies this
      ensures Valid() && data == old(data)[record.id := record.Value()]
    {
      var s := record.Copy();
      data := data[record.id := s];
    }

    method Get(id: SessionId) returns (r: SessionRecord?)
      ensures r == null <==> id !in data
      ensures r != null ==> fresh(r) && r.Value() == data[id]
    {
      if id in data {
        r := new SessionRecord(data[id]);
      } else {
        r := null;
      }
    }

    method UpdateStatus(id: SessionId, status: Status, progress: nat, error: Option<string>, payload: Option<Payload>)
      requires Valid()
      modifies this
      ensures Valid() && data == After(old(data), Update(id, status, progress, error, payload))
    {
      var record := Get(id);
      if record == null {
        return;
      }
      record.Assign(status, progress, error, payload);
      Save(record);
    }

    method Delete(id: SessionId) returns (existed: bool)
      requires Valid()
      modifies this
      ensures Valid() && data == old(data) - {id} && existed == (id in old(data))
    {
      existed := id in data;
      data := data - {id};
    }

    /** The same observations as the dict backend's, for every sequence of operations. */
    method Replay(ops: seq<Op>) returns (obs: seq<Obs>)
      requires Valid()
      modifies this
      ensures Valid()
      ensures data == AfterAll(old(data), ops) && obs == ObservedAll(old(data), ops)
    {
      obs := [];
      for i := 0 to |ops|
        invariant Valid()
        invariant data == AfterAll(old(data), ops[..i]) && obs == ObservedAll(old(data), ops[..i])
      {
        assert ops[..i + 1][..i] == ops[..i];
        assert ops[..i + 1][i] == ops[i];
        match ops[i] {
          case Save(s) =>
            var record := new SessionRecord(s);
            Save(record);
            obs := obs + [Saved];
          case Get(id) =>
            var record := Get(id);
            if record == null {
              obs := obs + [Got(None)];
            } else {
              var s := record.Copy();
              obs := obs + [Got(Some(s))];
            }
          case Update(id, status, progress, error, payload) =>
            UpdateStatus(id, status, progress, error, payload);
            obs := obs + [Updated];
          case Delete(id) =>
            var existed := Delete(id);
            obs := obs + [Deleted(existed)];
        }
      }
      assert ops[..|ops|] == ops;
    }
  }
}
