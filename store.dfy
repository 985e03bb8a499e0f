/** The `vehicles` table of the data store, as the two writers in the
    core use it: an insert (the vehicle form) and an update of
    `km_current` filtered by `id` (the chat relay's command). */
module Store {
  import opened Wrappers
  import opened Fleet

  /** `update({ km_current: km }).eq("id", id)` on a snapshot of the rows. */
  function SetKmWhere(rows: seq<Vehicle>, id: string, km: int): (r: seq<Vehicle>)
    ensures |r| == |rows|
    ensures forall i :: 0 <= i < |rows| ==>
      r[i] == if rows[i].id == id then rows[i].(kmCurrent := Some(km)) else rows[i]
  {
    seq(|rows|, i requires 0 <= i < |rows| =>
      if rows[i].id == id then rows[i].(kmCurrent := Some(km)) else rows[i])
  }

  /** With unique identifiers, an update by id touches exactly the row
      carrying that id. */
  lemma SetKmWhereOne(rows: seq<Vehicle>, k: nat, km: int)
    requires UniqueIds(rows) && k < |rows|
    ensures SetKmWhere(rows, rows[k].id, km) == rows[k := rows[k].(kmCurrent := Some(km))]
  {
  }

  lemma SetKmKeepsIds(rows: seq<Vehicle>, id: string, km: int)
    requires UniqueIds(rows)
    ensures UniqueIds(SetKmWhere(rows, id, km))
  {
  }

  class VehicleTable {
    var rows: seq<Vehicle>

    ghost predicate Valid()
      reads this
    {
      UniqueIds(rows)
    }

    constructor ()
      ensures Valid() && rows == []
    {
      rows := [];
    }

    /** `insert([row])`; the store generates a fresh identifier. */
    method Insert(v: Vehicle)
      requires Valid() && !HasId(rows, v.id)
      modifies this
      ensures Valid()
      ensures rows == old(rows) + [v]
    {
      rows := rows + [v];
    }

    /** `update({ km_current: km }).eq("id", id)`. */
    method SetKm(id: string, km: int)
      requires Valid()
      modifies this
      ensures Valid()
      ensures rows == SetKmWhere(old(rows), id, km)
    {
      SetKmKeepsIds(rows, id, km);
      rows := SetKmWhere(rows, id, km);
    }
  }
}
