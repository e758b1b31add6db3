/**
 * The persistence operations over the `map_events` table and the record mapper.
 * Each operation is one single-row SQL statement; the table is a map from id to
 * row plus the next value of the id sequence. `fault` stands for the store
 * raising on that statement (lost connection, constraint violation, ...): the
 * statement then has no effect and the caller sees `Fault`.
 */
module Services {
  import opened Wrappers
  import opened Json
  import opened Validation

  /** A row as returned by `SELECT id, title, description, lat, lng` or `RETURNING *`. */
  datatype Row = Row(id: int, title: string, description: string, lat: real, lng: real)

  datatype Table = Table(rows: map<int, Row>, nextId: int)

  datatype Outcome<T> = Done(value: T, table: Table) | Fault

  /**
   * Ids come from a sequence starting at 1; each row is stored under its own id.
   * The model draws the next id only on a successful insert, so its ids have no
   * gaps; fresh ids are all that the rest of the model relies on.
   */
  predicate WellFormed(t: Table) {
    && t.nextId >= 1
    && forall k | k in t.rows :: 1 <= k < t.nextId && t.rows[k].id == k
  }

  /** The four data columns of `row` are those of model `m`. */
  predicate Holds(row: Row, m: MapEvent) {
    && row.title == m.title
    && row.description == m.description
    && row.lat == m.position.lat
    && row.lng == m.position.lng
  }

  /** `retrieve_map_event`: SELECT ... WHERE id = $1. */
  function Retrieve(t: Table, id: int, fault: bool): (r: Outcome<Option<Row>>)
    ensures r.Fault? <==> fault
    ensures r.Done? ==> r.table == t
    ensures r.Done? ==> (r.value.Some? <==> id in t.rows)
    ensures r.Done? && r.value.Some? ==> r.value.value == t.rows[id]
    ensures r.Done? && r.value.Some? && WellFormed(t) ==> r.value.value.id == id
  {
    if fault then Fault
    else if id in t.rows then Done(Some(t.rows[id]), t)
    else Done(None, t)
  }

  /** `create_map_event`: INSERT of the four data columns; the sequence supplies the id. */
  function Create(t: Table, m: MapEvent, fault: bool): (r: Outcome<Row>)
    ensures r.Fault? <==> fault
    ensures r.Done? ==> Holds(r.value, m)
    ensures r.Done? ==> r.table.rows == t.rows[r.value.id := r.value]
    ensures r.Done? && WellFormed(t) ==>
      && r.value.id >= 1 && r.value.id !in t.rows
      && WellFormed(r.table)
  {
    if fault then Fault
    else
      var row := Row(t.nextId, m.title, m.description, m.position.lat, m.position.lng);
      Done(row, Table(t.rows[t.nextId := row], t.nextId + 1))
  }

  /** `update_map_event`: UPDATE of the four data columns WHERE id = $5. */
  function Update(t: Table, m: MapEvent, id: int, fault: bool): (r: Outcome<Option<Row>>)
    ensures r.Fault? <==> fault
    ensures r.Done? ==> (r.value.Some? <==> id in t.rows)
    ensures r.Done? && r.value.None? ==> r.table == t
    ensures r.Done? && r.value.Some? ==>
      && Holds(r.value.value, m)
      && r.table.rows == t.rows[id := r.value.value]
      && r.table.nextId == t.nextId
    ensures r.Done? && r.value.Some? && WellFormed(t) ==> r.value.value.id == id && WellFormed(r.table)
  {
    if fault then Fault
    else if id in t.rows then
      var row := t.rows[id].(title := m.title, description := m.description,
                             lat := m.position.lat, lng := m.position.lng);
      Done(Some(row), Table(t.rows[id := row], t.nextId))
    else Done(None, t)
  }

  /** `delete_map_event`: DELETE ... WHERE id = $1 RETURNING *. */
  function Delete(t: Table, id: int, fault: bool): (r: Outcome<Option<Row>>)
    ensures r.Fault? <==> fault
    ensures r.Done? ==> (r.value.Some? <==> id in t.rows)
    ensures r.Done? && r.value.Some? ==> r.value.value == t.rows[id]
    ensures r.Done? ==> r.table.rows == t.rows - {id} && r.table.nextId == t.nextId
    ensures r.Done? && WellFormed(t) ==> WellFormed(r.table)
  {
    if fault then Fault
    else if id in t.rows then Done(Some(t.rows[id]), Table(t.rows - {id}, t.nextId))
    else Done(None, t)
  }

  /** `prepare_map_event_record`: the flat row with `lat` and `lng` moved under `position`. */
  function Prepare(row: Row): (j: Json)
    ensures j.Obj? && j.fields.Keys == {"id", "title", "description", "position"}
    ensures "lat" !in j.fields && "lng" !in j.fields
  {
    Obj(map[
      "id" := Int(row.id),
      "title" := Str(row.title),
      "description" := Str(row.description),
      "position" := PositionJson(Real(row.lat), Real(row.lng))
    ])
  }

  /** The storage shape read back from a prepared record; the inverse of Prepare. */
  function Flatten(j: Json): Option<Row> {
    if && j.Obj? && "id" in j.fields && "title" in j.fields && "description" in j.fields
       && "position" in j.fields
    then
      var id := j.fields["id"];
      var title := j.fields["title"];
      var description := j.fields["description"];
      var position := j.fields["position"];
      if && id.Int? && title.Str? && description.Str?
         && position.Obj? && "lat" in position.fields && "lng" in position.fields
         && position.fields["lat"].Num? && position.fields["lat"].number.Finite?
         && position.fields["lng"].Num? && position.fields["lng"].number.Finite?
      then
        Some(Row(id.integer, title.text, description.text,
                 position.fields["lat"].number.value, position.fields["lng"].number.value))
      else None
    else None
  }

  /** Prepare loses nothing: id, title, description and both coordinates are recovered. */
  lemma FlattenPrepare(row: Row)
    ensures Flatten(Prepare(row)) == Some(row)
  {
  }

  /** Prepare is a pure reshaping, so distinct rows give distinct records. */
  lemma PrepareInjective(a: Row, b: Row)
    requires Prepare(a) == Prepare(b)
    ensures a == b
  {
    FlattenPrepare(a);
    FlattenPrepare(b);
  }

  /** The table invariant holds of the empty table and is kept by every operation. */
  lemma EmptyTableWellFormed()
    ensures WellFormed(Table(map[], 1))
  {
  }

  /** A row created in a well-formed table is found again by its id. */
  lemma RetrieveAfterCreate(t: Table, m: MapEvent)
    requires WellFormed(t)
    ensures var c := Create(t, m, false);
      Retrieve(c.table, c.value.id, false).value == Some(c.value)
  {
  }

  /** Create ignores the id of the model. */
  lemma CreateIgnoresId(t: Table, m: MapEvent, id: Option<int>, fault: bool)
    ensures Create(t, m.(id := id), fault) == Create(t, m, fault)
  {
  }

  /** Update ignores the id of the model: the path id alone selects the row. */
  lemma UpdateIgnoresId(t: Table, m: MapEvent, modelId: Option<int>, id: int, fault: bool)
    ensures Update(t, m.(id := modelId), id, fault) == Update(t, m, id, fault)
  {
  }

  /** Update leaves every other row untouched. */
  lemma UpdateFrame(t: Table, m: MapEvent, id: int, k: int)
    requires k in t.rows && k != id
    ensures var u := Update(t, m, id, false);
      k in u.table.rows && u.table.rows[k] == t.rows[k]
  {
  }

  /** After a delete the id is gone: a second delete and a retrieve both find nothing. */
  lemma DeleteThenNothing(t: Table, id: int)
    ensures var d := Delete(t, id, false);
      && Delete(d.table, id, false).value == None
      && Retrieve(d.table, id, false).value == None
  {
  }

  /** Delete removes exactly one row and leaves all others. */
  lemma DeleteFrame(t: Table, id: int, k: int)
    requires k in t.rows && k != id
    ensures var d := Delete(t, id, false);
      k in d.table.rows && d.table.rows[k] == t.rows[k]
  {
  }

  /**
   * Creating a valid model and preparing the row gives a record whose id is positive
   * and which, with the id removed, validates back to the model without its id.
   */
  lemma CreatePrepareRoundTrip(t: Table, m: MapEvent)
    requires WellFormed(t) && ValidModel(m)
    ensures var row := Create(t, m, false).value;
      && row.id > 0
      && ValidateEvent(Prepare(row).fields - {"id"}) == Some(m.(id := None))
  {
    var row := Create(t, m, false).value;
    var f := Prepare(row).fields - {"id"};
    assert f == Dump(m.(id := None)).fields - {"id"};
    DumpRoundTrip(m.(id := None));
    IdFieldNullOrAbsent(Dump(m.(id := None)).fields);
  }

  /** CreatePrepareRoundTrip for POST, whose caller may hand it any table and model. */
  lemma CreatedRecordValidates(t: Table, m: MapEvent)
    ensures WellFormed(t) && ValidModel(m) ==>
      var row := Create(t, m, false).value;
      && row.id > 0
      && ValidateEvent(Prepare(row).fields - {"id"}) == Some(m.(id := None))
  {
    if WellFormed(t) && ValidModel(m) {
      CreatePrepareRoundTrip(t, m);
    }
  }

  /** A stored row that holds valid data prepares into a record that validates with its id. */
  lemma PrepareValidates(row: Row, m: MapEvent)
    requires Holds(row, m) && ValidModel(m) && row.id >= 1
    ensures ValidateEvent(Prepare(row).fields) == Some(m.(id := Some(row.id)))
  {
    var m' := m.(id := Some(row.id));
    assert Prepare(row) == Dump(m');
    DumpRoundTrip(m');
  }
}
