// The persisted lifecycle rows, one per bunker id.
module Store {
  import opened Basics

  /** The persisted part of a bunker's configuration: its id and the settings kept verbatim. */
  datatype Config = Config(id: string, settings: string)

  /** The text of a row's state column: the name of a state, or something else. */
  datatype StateColumn = Named(state: BunkerState) | Unrecognised(text: string)

  /** The text of a stamp column: missing or empty, a time in seconds, or a text that is no time. */
  datatype Stamp = NoStamp | At(time: real) | Garbled(text: string)

  function StampOf(time: Option<real>): Stamp {
    if time.None? then NoStamp else At(time.value)
  }

  function TimeOf(stamp: Stamp): Option<real> {
    if stamp.At? then Some(stamp.time) else None
  }

  /** A row after decryption; its configuration may hold keys the program does not know. */
  datatype Row = Row(
    config: Config, unknownKeys: set<string>, state: StateColumn, vmName: Option<string>, switchName: Option<string>,
    signingKey: string, createdAt: Stamp, activatedAt: Stamp, terminatedAt: Stamp, updatedAt: Stamp)

  type Rows = map<string, Row>

  /** One line of a listing. */
  datatype Entry = Entry(id: string, state: StateColumn, updatedAt: Stamp)

  function EntryOf(id: string, row: Row): Entry { Entry(id, row.state, row.updatedAt) }

  function Ids(entries: seq<Entry>): set<string> { set e | e in entries :: e.id }

  /** Rows, each at most once, as they are in the store. */
  ghost predicate Listed(entries: seq<Entry>, rows: Rows) {
    && (forall e :: e in entries ==> e.id in rows && e == EntryOf(e.id, rows[e.id]))
    && (forall i, j :: 0 <= i < j < |entries| ==> entries[i].id != entries[j].id)
  }

  /** Newest first, by the place `order` gives each stamp's text. */
  ghost predicate NewestFirst(entries: seq<Entry>, order: Stamp -> real) {
    forall i, j :: 0 <= i < j < |entries| ==> order(entries[i].updatedAt) >= order(entries[j].updatedAt)
  }

  lemma {:induction false} NewestExists(ids: set<string>, rows: Rows, order: Stamp -> real) returns (newest: string)
    requires ids != {} && ids <= rows.Keys
    ensures newest in ids && forall id :: id in ids ==> order(rows[id].updatedAt) <= order(rows[newest].updatedAt)
    decreases ids
  {
    var first :| first in ids;
    var rest := ids - {first};
    assert forall id :: id in ids ==> id in rest || id == first;
    newest := first;
    if rest != {} {
      var other := NewestExists(rest, rows, order);
      if order(rows[first].updatedAt) < order(rows[other].updatedAt) { newest := other; }
    }
  }

  /** Every row once, in some order. */
  ghost predicate IsListing(entries: seq<Entry>, rows: Rows) {
    Ids(entries) == rows.Keys && Listed(entries, rows)
  }

  class StateStore {
    var rows: Rows

    constructor (rows: Rows)
      ensures this.rows == rows
    {
      this.rows := rows;
    }

    /** Upserts; a save that raises leaves the table as it was. */
    method Save(id: string, row: Row)
      modifies this
      ensures rows == old(rows)[id := row]
    {
      rows := rows[id := row];
    }

    method Load(id: string) returns (r: Option<Row>)
      ensures r == if id in rows then Some(rows[id]) else None
    {
      if id in rows { r := Some(rows[id]); } else { r := None; }
    }

    /** Every row once, newest first; `order` is how the database sorts the stamps' texts. */
    method ListAll(order: Stamp -> real) returns (entries: seq<Entry>)
      ensures IsListing(entries, rows) && NewestFirst(entries, order)
    {
      entries := [];
      var left := rows.Keys;
      while left != {}
        invariant left <= rows.Keys && Ids(entries) == rows.Keys - left
        invariant forall e :: e in entries ==> e.id in rows && e == EntryOf(e.id, rows[e.id])
        invariant forall i, j :: 0 <= i < j < |entries| ==> entries[i].id != entries[j].id
        invariant NewestFirst(entries, order)
        invariant forall e, id :: e in entries && id in left ==> order(e.updatedAt) >= order(rows[id].updatedAt)
        decreases left
      {
        ghost var newest := NewestExists(left, rows, order);
        var id :| id in left && forall other :: other in left ==> order(rows[other].updatedAt) <= order(rows[id].updatedAt);
        var next := EntryOf(id, rows[id]);
        assert Ids(entries + [next]) == Ids(entries) + {id} by { assert next in entries + [next]; }
        forall i | 0 <= i < |entries| ensures entries[i].id != id { assert entries[i].id in Ids(entries); }
        left, entries := left - {id}, entries + [next];
      }
    }

    /** Reports whether a row was there; a delete that raises leaves the table as it was. */
    method Delete(id: string, raises: bool) returns (r: Reply)
      modifies this
      ensures raises ==> r == Raises && rows == old(rows)
      ensures !raises ==> rows == old(rows) - {id}
      ensures !raises ==> r == if id in old(rows) then Yes else No
    {
      if raises { return Raises; }
      r := if id in rows then Yes else No;
      rows := rows - {id};
    }
  }
}
