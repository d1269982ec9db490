/** The durable copy of the room table: one object, "rooms.json" in the bucket
    "rooms", overwritten by every save and read back at startup with every
    roster cleared. Serialisation is taken to be the identity on tables. */
module Store {
  import opened Rooms

  /** The table with every room's roster emptied and everything else kept. */
  function Cleared(t: Table): Table
  {
    map id | id in t :: t[id].(players := [])
  }

  /** What a restore promises: the same room ids, no players, the same
      creation times. */
  lemma ClearedRooms(t: Table)
    ensures Cleared(t).Keys == t.Keys
    ensures forall id :: id in Cleared(t) ==>
      Cleared(t)[id].players == [] && Cleared(t)[id].createdAt == t[id].createdAt
    ensures WithinCapacity(Cleared(t))
  {
  }

  /** Clearing twice is clearing once. */
  lemma ClearedIdempotent(t: Table)
    ensures Cleared(Cleared(t)) == Cleared(t)
  {
  }

  /** The loop that runs over the freshly parsed table and overwrites each
      room's `players` with an empty array. */
  method ResetPlayers(parsed: Table) returns (rooms: Table)
    ensures rooms == Cleared(parsed)
  {
    rooms := parsed;
    var todo := parsed.Keys;
    while todo != {}
      invariant todo <= parsed.Keys && rooms.Keys == parsed.Keys
      invariant forall id :: id in todo ==> rooms[id] == parsed[id]
      invariant forall id :: id in parsed && id !in todo ==> rooms[id] == parsed[id].(players := [])
      decreases todo
    {
      var id :| id in todo;
      rooms := rooms[id := rooms[id].(players := [])];
      todo := todo - {id};
    }
  }

  datatype LoadResult = Loaded(table: Table) | LoadFailed

  /** The single stored object; each save replaces it whole (upsert). */
  class BlobStore {
    /** The last table uploaded, or None while the object does not exist. */
    var blob: Option<Table>

    constructor (initial: Option<Table>)
      ensures blob == initial
    {
      blob := initial;
    }

    /** Upload the whole table under the fixed key; a failed upload leaves
        the stored object as it was. */
    method Save(rooms: Table, uploadOk: bool)
      modifies this
      ensures blob == (if uploadOk then Some(rooms) else old(blob))
    {
      if uploadOk {
        blob := Some(rooms);
      }
    }

    /** Download the fixed key; a transport error or a missing object fails,
        otherwise the stored table comes back with every roster cleared. */
    method Load(downloadOk: bool) returns (r: LoadResult)
      ensures !downloadOk || blob.None? ==> r == LoadFailed
      ensures downloadOk && blob.Some? ==> r == Loaded(Cleared(blob.value))
    {
      if !downloadOk || blob.None? {
        return LoadFailed;
      }
      var rooms := ResetPlayers(blob.value);
      r := Loaded(rooms);
    }
  }

  /** Whatever the store held before, a load after a successful save returns
      the saved table with its rosters emptied. */
  method LoadAfterSave(previous: Option<Table>, t: Table) returns (r: LoadResult)
    ensures r == Loaded(Cleared(t))
  {
    var store := new BlobStore(previous);
    store.Save(t, true);
    r := store.Load(true);
  }
}
