/**
 * The todo record store behind `TodoRepository`: rows keyed by a generated
 * id, with find-by-id, find-all, save, delete and count. Ids come from a
 * counter that starts at 1 and only grows (identity generation), and a full
 * scan yields the rows in the order they were first saved.
 */
module Store {
  import opened Wrappers
  import opened Entity

  predicate StrictlyIncreasing(s: seq<int>) {
    forall i, j :: 0 <= i < j < |s| ==> s[i] < s[j]
  }

  /** `rows` by id; `ids` the scan order; `nextId` the next id to hand out. */
  datatype Db = Db(rows: map<int, TodoRecord>, ids: seq<int>, nextId: int) {
    /**
     * The scan order lists every stored id exactly once, in increasing order,
     * every id is below the counter, and every row carries its own key as id.
     */
    predicate Valid() {
      && StrictlyIncreasing(ids)
      && (forall i :: 0 <= i < |ids| ==> ids[i] in rows && ids[i] < nextId)
      && (forall k :: k in rows ==> k in ids && rows[k].todoId == Some(k))
    }
  }

  /** The empty store; the first id handed out is 1. */
  const Empty := Db(map[], [], 1)

  lemma EmptyIsValid()
    ensures Empty.Valid() && |Empty.rows| == 0
  {
  }

  /** `findById`: the row stored under the id, if any; in a valid store it carries that id. */
  function FindById(db: Db, id: int): (r: Option<TodoRecord>)
    ensures r.Some? <==> id in db.rows
    ensures r.Some? ==> r.value == db.rows[id]
    ensures db.Valid() && r.Some? ==> r.value.todoId == Some(id)
  {
    if id in db.rows then Some(db.rows[id]) else None
  }

  /** `save` of an entity without an id: the row is added under a fresh id, last in scan order. */
  function Insert(db: Db, t: TodoRecord): (res: (Db, TodoRecord))
    ensures res.1 == t.(todoId := Some(db.nextId))
    ensures res.0.rows == db.rows[db.nextId := res.1]
    ensures res.0.ids == db.ids + [db.nextId] && res.0.nextId > db.nextId
    ensures db.Valid() ==> res.0.Valid() && db.nextId !in db.rows && |res.0.rows| == |db.rows| + 1
  {
    var saved := t.(todoId := Some(db.nextId));
    var db' := Db(db.rows[db.nextId := saved], db.ids + [db.nextId], db.nextId + 1);
    assert db.Valid() ==> db'.Valid() by {
      if db.Valid() {
        assert forall k :: k in db'.rows ==> k in db'.ids;
      }
    }
    (db', saved)
  }

  /** `save` of an entity that already has the id `id`: that row is overwritten, nothing else moves. */
  function Update(db: Db, id: int, t: TodoRecord): (db': Db)
    ensures db'.rows == db.rows[id := t]
    ensures db'.ids == db.ids && db'.nextId == db.nextId
    ensures db.Valid() && id in db.rows && t.todoId == Some(id) ==> db'.Valid() && |db'.rows| == |db.rows|
  {
    db.(rows := db.rows[id := t])
  }

  /** `ids` with every occurrence of `x` dropped, order kept. */
  function Without(s: seq<int>, x: int): (r: seq<int>)
    ensures forall y :: y in r <==> y in s && y != x
    ensures StrictlyIncreasing(s) ==> StrictlyIncreasing(r)
  {
    if s == [] then []
    else if s[0] == x then Without(s[1..], x)
    else
      var rest := Without(s[1..], x);
      assert StrictlyIncreasing(s) ==> forall j :: 0 <= j < |rest| ==> s[0] < rest[j] by {
        if StrictlyIncreasing(s) {
          forall j | 0 <= j < |rest| ensures s[0] < rest[j] {
            assert rest[j] in s[1..];
          }
        }
      }
      [s[0]] + rest
  }

  /** `delete`: the row under `id` goes, every other row stays as it was. */
  function Remove(db: Db, id: int): (db': Db)
    ensures db'.rows.Keys == db.rows.Keys - {id}
    ensures forall k :: k in db'.rows ==> db'.rows[k] == db.rows[k]
    ensures db'.nextId == db.nextId
    ensures db.Valid() ==> db'.Valid()
    ensures id in db.rows ==> |db'.rows| == |db.rows| - 1
  {
    var db' := Db(db.rows - {id}, Without(db.ids, id), db.nextId);
    assert db.Valid() ==> db'.Valid() by {
      if db.Valid() {
        forall i | 0 <= i < |db'.ids| ensures db'.ids[i] in db'.rows && db'.ids[i] < db'.nextId {
          assert db'.ids[i] in Without(db.ids, id);
        }
      }
    }
    if id in db.rows then
      assert db'.rows.Keys == db.rows.Keys - {id};
      assert |db'.rows.Keys| == |db.rows.Keys| - 1;
      db'
    else db'
  }

  /** `findAll`: the rows in scan order. */
  function All(db: Db): (rs: seq<TodoRecord>)
    requires db.Valid()
    ensures |rs| == |db.ids|
    ensures forall i :: 0 <= i < |rs| ==> rs[i] == db.rows[db.ids[i]]
  {
    seq(|db.ids|, i requires 0 <= i < |db.ids| => db.rows[db.ids[i]])
  }

  /** `count`: the number of rows, which in a valid store is the length of the scan order. */
  function Count(db: Db): (n: nat)
    ensures n == |db.rows|
    ensures db.Valid() ==> n == |db.ids|
  {
    KeysAreScan(db);
    |db.rows|
  }

  lemma {:induction false} DistinctElements(s: seq<int>)
    requires StrictlyIncreasing(s)
    ensures |set x | x in s| == |s|
  {
    if s != [] {
      DistinctElements(s[1..]);
      assert (set x | x in s) == {s[0]} + (set x | x in s[1..]);
      assert s[0] !in s[1..];
    }
  }

  /** A full scan yields exactly as many rows as `count` reports. */
  lemma ScanLengthIsCount(db: Db)
    requires db.Valid()
    ensures |All(db)| == Count(db)
  {
    KeysAreScan(db);
  }

  /** In a valid store the scan order lists as many ids as there are rows. */
  lemma KeysAreScan(db: Db)
    ensures db.Valid() ==> |db.rows| == |db.ids|
  {
    if db.Valid() {
      DistinctElements(db.ids);
      var scanned := set x | x in db.ids;
      forall x | x in scanned ensures x in db.rows {
        var i :| 0 <= i < |db.ids| && db.ids[i] == x;
      }
      forall k | k in db.rows ensures k in scanned {
        assert k in db.ids;
      }
      assert scanned == db.rows.Keys;
    }
  }

  /** The repository object the service holds. */
  class TodoRepository {
    var db: Db

    ghost predicate Valid()
      reads this
    {
      db.Valid()
    }

    constructor ()
      ensures Valid() && db == Empty
    {
      db := Empty;
    }

    /** Loads a fresh entity holding the row, or yields null when there is none. */
    method FindById(id: int) returns (t: Todo?)
      ensures t == null <==> id !in db.rows
      ensures t != null ==> fresh(t) && t.Record() == db.rows[id]
    {
      if id in db.rows {
        t := new Todo(db.rows[id]);
      } else {
        t := null;
      }
    }

    method FindAll() returns (rs: seq<TodoRecord>)
      requires Valid()
      ensures rs == All(db)
    {
      rs := All(db);
    }

    /**
     * Persists the entity: one without an id is inserted and receives the
     * generated id; one with an id overwrites its row.
     */
    method Save(t: Todo) returns (saved: TodoRecord)
      requires Valid()
      requires t.todoId.Some? ==> t.todoId.value in db.rows
      modifies this, t
      ensures Valid()
      ensures old(t.todoId).None? ==> (db, saved) == Insert(old(db), old(t.Record()))
      ensures old(t.todoId).Some? ==> saved == old(t.Record()) && db == Update(old(db), old(t.todoId).value, saved)
      ensures t.Record() == saved
    {
      if t.todoId.None? {
        var r := Insert(db, t.Record());
        db := r.0;
        t.SetTodoId(r.1.todoId);
        saved := r.1;
      } else {
        saved := t.Record();
        db := Update(db, t.todoId.value, saved);
      }
    }

    method Delete(t: Todo)
      requires Valid()
      requires t.todoId.Some?
      modifies this
      ensures Valid()
      ensures db == Remove(old(db), t.todoId.value)
    {
      db := Remove(db, t.todoId.value);
    }

    method Count() returns (n: nat)
      ensures n == |db.rows|
    {
      n := |db.rows|;
    }
  }
}
