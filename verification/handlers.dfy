/**
 * The four request handlers. Each parses the path id with `int()`, reads and
 * validates the JSON body, runs one store operation and maps the outcome to a
 * status code; error responses have no body. A handler's only effect is the
 * store operation it runs, so it returns the response and the resulting table.
 */
module Handlers {
  import opened Wrappers
  import opened Json
  import opened IntParse
  import opened Validation
  import opened Services

  const StatusOk: int := 200
  const StatusBadRequest: int := 400
  const StatusNotFound: int := 404
  const StatusInternalServerError: int := 500

  /**
   * What a handler produces: a response, or `Unhandled` when an exception the
   * handler does not catch escapes it (the web framework then answers on its own).
   */
  datatype Response = Reply(status: int, body: Option<Json>) | Unhandled

  datatype Exchange = Exchange(response: Response, table: Table)

  /**
   * The result of `await request.json()`: a decoded value, a JSONDecodeError, or
   * bytes that are not text in the request's charset (a UnicodeDecodeError).
   */
  datatype Body = Undecodable | NotText | Decoded(value: Json)

  /**
   * The result of `MapEventModel(**(await request.json()))`: a model, a caught
   * JSONDecodeError or ValidationError, or an exception the handlers do not catch:
   * the UnicodeDecodeError of undecodable bytes, or the TypeError that `**` raises
   * when the decoded value is not an object.
   */
  datatype ModelRead = Parsed(model: MapEvent) | Rejected | Raised

  function Empty(status: int): Response {
    Reply(status, None)
  }

  /** A reply with one of the four codes, carrying a body exactly when it is a 200. */
  predicate WellShaped(r: Response) {
    && r.Reply?
    && r.status in {StatusOk, StatusBadRequest, StatusNotFound, StatusInternalServerError}
    && (r.body.Some? <==> r.status == StatusOk)
  }

  predicate IsOk(r: Response) {
    r.Reply? && r.status == StatusOk
  }

  function ReadModel(body: Body): (r: ModelRead)
    ensures r.Parsed? ==> ValidModel(r.model)
    ensures r.Raised? <==> body.NotText? || (body.Decoded? && !body.value.Obj?)
    ensures r.Parsed? <==> body.Decoded? && body.value.Obj? && ValidateEvent(body.value.fields).Some?
    ensures r.Parsed? ==> r.model == ValidateEvent(body.value.fields).value
  {
    match body
    case Undecodable => Rejected
    case NotText => Raised
    case Decoded(Obj(fields)) =>
      if ValidateEvent(fields).Some? then Parsed(ValidateEvent(fields).value) else Rejected
    case Decoded(_) => Raised
  }

  /** `handle_get_map_event`. */
  function HandleGet(t: Table, idText: string, fault: bool): (x: Exchange)
    ensures x.table == t
    ensures WellShaped(x.response)
    ensures ParseInt(idText).None? ==> x.response == Empty(StatusBadRequest)
    ensures ParseInt(idText).Some? && fault ==> x.response == Empty(StatusInternalServerError)
    ensures x.response.status == StatusNotFound <==>
      ParseInt(idText).Some? && !fault && ParseInt(idText).value !in t.rows
    ensures x.response.status == StatusOk ==>
      && ParseInt(idText).Some? && ParseInt(idText).value in t.rows
      && x.response.body == Some(Prepare(t.rows[ParseInt(idText).value]))
    ensures ParseInt(idText).Some? && !fault && ParseInt(idText).value in t.rows ==>
      x.response == Reply(StatusOk, Some(Prepare(t.rows[ParseInt(idText).value])))
  {
    match ParseInt(idText)
    case None => Exchange(Empty(StatusBadRequest), t)
    case Some(id) =>
      match Retrieve(t, id, fault)
      case Fault => Exchange(Empty(StatusInternalServerError), t)
      case Done(None, t') => Exchange(Empty(StatusNotFound), t')
      case Done(Some(row), t') => Exchange(Reply(StatusOk, Some(Prepare(row))), t')
  }

  /** `handle_post_map_event`. */
  function HandlePost(t: Table, body: Body, fault: bool): (x: Exchange)
    ensures ReadModel(body).Raised? ==> x.response == Unhandled
    ensures ReadModel(body).Rejected? ==> x.response == Empty(StatusBadRequest)
    ensures x.response.Reply? ==> WellShaped(x.response)
    ensures !IsOk(x.response) ==> x.table == t
    ensures ReadModel(body).Parsed? && fault ==> x.response == Empty(StatusInternalServerError)
    ensures ReadModel(body).Parsed? && !fault && WellFormed(t) ==>
      && WellFormed(x.table)
      && x.response.Reply? && x.response.status == StatusOk
      && var created := x.response.body.value;
      && created.Obj? && "id" in created.fields
      && created.fields["id"] == Int(t.nextId) && t.nextId !in t.rows
      && ValidateEvent(created.fields - {"id"}) == Some(ReadModel(body).model.(id := None))
    ensures IsOk(x.response) ==>
      && x.table.rows.Keys == t.rows.Keys + {t.nextId}
      && x.table.nextId == t.nextId + 1
      && (WellFormed(t) ==> forall k | k in t.rows :: x.table.rows[k] == t.rows[k])
      && x.table.rows[t.nextId].id == t.nextId
      && Holds(x.table.rows[t.nextId], ReadModel(body).model)
  {
    match ReadModel(body)
    case Raised => Exchange(Unhandled, t)
    case Rejected => Exchange(Empty(StatusBadRequest), t)
    case Parsed(m) =>
      match Create(t, m, fault)
      case Fault => Exchange(Empty(StatusInternalServerError), t)
      case Done(row, t') =>
        CreatedRecordValidates(t, m);
        Exchange(Reply(StatusOk, Some(Prepare(row))), t')
  }

  /** `handle_put_map_event`: the body is validated before the path id is parsed. */
  function HandlePut(t: Table, idText: string, body: Body, fault: bool): (x: Exchange)
    ensures ReadModel(body).Raised? ==> x.response == Unhandled
    ensures ReadModel(body).Rejected? ==> x.response == Empty(StatusBadRequest)
    ensures x.response.Reply? ==> WellShaped(x.response) && x.response.status != StatusNotFound
    ensures !IsOk(x.response) ==> x.table == t
    ensures WellFormed(t) ==> WellFormed(x.table)
    ensures IsOk(x.response) ==> ReadModel(body).Parsed?
    ensures ReadModel(body).Parsed? ==> x == PutModel(t, ParseInt(idText), ReadModel(body).model, fault)
  {
    match ReadModel(body)
    case Raised => Exchange(Unhandled, t)
    case Rejected => Exchange(Empty(StatusBadRequest), t)
    case Parsed(m) => PutModel(t, ParseInt(idText), m, fault)
  }

  /**
   * The part of `handle_put_map_event` after the body has validated to `m`; `id` is
   * the result of `int()` on the path segment.
   */
  function PutModel(t: Table, id: Option<int>, m: MapEvent, fault: bool): (x: Exchange)
    ensures id.None? ==> x.response == Empty(StatusBadRequest)
    ensures id.Some? && fault ==> x.response == Empty(StatusInternalServerError)
    ensures WellShaped(x.response) && x.response.status != StatusNotFound
    ensures !IsOk(x.response) ==> x.table == t
    ensures WellFormed(t) ==> WellFormed(x.table)
    ensures IsOk(x.response) ==>
      && id.Some? && id.value in t.rows && id.value in x.table.rows
      && x.table.rows == t.rows[id.value := x.table.rows[id.value]]
      && x.table.rows[id.value].id == t.rows[id.value].id
      && Holds(x.table.rows[id.value], m)
      && x.response.body == Some(Prepare(x.table.rows[id.value]))
    ensures id.Some? && !fault ==>
      if id.value in t.rows then
        x.response == Reply(StatusOk, Some(Prepare(t.rows[id.value].(
          title := m.title, description := m.description,
          lat := m.position.lat, lng := m.position.lng))))
      else
        x == Exchange(Empty(StatusBadRequest), t)
  {
    match id
    case None => Exchange(Empty(StatusBadRequest), t)
    case Some(k) =>
      match Update(t, m, k, fault)
      case Fault => Exchange(Empty(StatusInternalServerError), t)
      case Done(None, t') => Exchange(Empty(StatusBadRequest), t')
      case Done(Some(row), t') => Exchange(Reply(StatusOk, Some(Prepare(row))), t')
  }

  /** `handle_delete_map_event`. */
  function HandleDelete(t: Table, idText: string, fault: bool): (x: Exchange)
    ensures WellShaped(x.response) && x.response.status != StatusNotFound
    ensures ParseInt(idText).None? ==> x.response == Empty(StatusBadRequest)
    ensures ParseInt(idText).Some? && fault ==> x.response == Empty(StatusInternalServerError)
    ensures x.response.status != StatusOk ==> x.table == t
    ensures WellFormed(t) ==> WellFormed(x.table)
    ensures x.response.status == StatusOk ==>
      && ParseInt(idText).Some?
      && var id := ParseInt(idText).value;
      && id in t.rows
      && x.table.rows == t.rows - {id}
      && x.response.body == Some(Prepare(t.rows[id]))
    ensures ParseInt(idText).Some? && !fault ==>
      var id := ParseInt(idText).value;
      if id in t.rows then
        && x.response == Reply(StatusOk, Some(Prepare(t.rows[id])))
        && x.table.rows == t.rows - {id}
      else
        x == Exchange(Empty(StatusBadRequest), t)
  {
    match ParseInt(idText)
    case None => Exchange(Empty(StatusBadRequest), t)
    case Some(id) =>
      match Delete(t, id, fault)
      case Fault => Exchange(Empty(StatusInternalServerError), t)
      case Done(None, t') => Exchange(Empty(StatusBadRequest), t')
      case Done(Some(row), t') => Exchange(Reply(StatusOk, Some(Prepare(row))), t')
  }

  /**
   * The not-found asymmetry: for an id with no row, GET answers 404 but PUT with a
   * valid body and DELETE answer 400.
   */
  lemma MissingRowAsymmetry(t: Table, id: int, m: MapEvent)
    requires id !in t.rows && ValidModel(m)
    ensures HandleGet(t, IntToDecimal(id), false).response == Empty(StatusNotFound)
    ensures HandlePut(t, IntToDecimal(id), Decoded(Dump(m)), false) == Exchange(Empty(StatusBadRequest), t)
    ensures HandleDelete(t, IntToDecimal(id), false) == Exchange(Empty(StatusBadRequest), t)
  {
    ParseIntOfDecimal(id);
    DumpRoundTrip(m);
  }

  /** GET of any stored row, addressed by `str(id)`, answers 200 with the prepared row. */
  lemma GetStoredRow(t: Table, id: int)
    requires id in t.rows
    ensures HandleGet(t, IntToDecimal(id), false) == Exchange(Reply(StatusOk, Some(Prepare(t.rows[id]))), t)
  {
    ParseIntOfDecimal(id);
  }

  /** `-1` is an integer but never an id, so GET gives 404 and DELETE gives 400. */
  lemma MinusOneNotFound(t: Table)
    requires WellFormed(t)
    ensures HandleGet(t, "-1", false).response == Empty(StatusNotFound)
    ensures HandleDelete(t, "-1", false).response == Empty(StatusBadRequest)
  {
    MinusOneParses();
  }

  /** A non-integer id is answered with 400 and the store is not consulted. */
  lemma BadIdIgnoresStore(t: Table, t2: Table, idText: string, body: Body, fault: bool, fault2: bool)
    requires ParseInt(idText).None?
    ensures HandleGet(t, idText, fault) == Exchange(Empty(StatusBadRequest), t)
    ensures HandleDelete(t, idText, fault) == Exchange(Empty(StatusBadRequest), t)
    ensures HandlePut(t, idText, body, fault).table == t
    ensures HandlePut(t, idText, body, fault).response == HandlePut(t2, idText, body, fault2).response
  {
  }

  /** Each of the non-integer ids of the API's test-suite gets a 400 from GET. */
  lemma NonIntegerIdsBadRequest(t: Table, k: nat)
    requires k < |NonIntegerIds|
    ensures HandleGet(t, NonIntegerIds[k], false).response == Empty(StatusBadRequest)
  {
    NonIntegerIdsRejected(k);
  }

  /**
   * PUT reads the body first: a body that is not a valid model decides the response
   * whatever the id and the store, and leaves the table as it was.
   */
  lemma PutChecksBodyFirst(t: Table, t2: Table, idText: string, idText2: string, body: Body,
                           fault: bool, fault2: bool)
    requires !ReadModel(body).Parsed?
    ensures HandlePut(t, idText, body, fault).table == t
    ensures HandlePut(t, idText, body, fault).response == HandlePut(t2, idText2, body, fault2).response
    ensures HandlePut(t, idText, body, fault).response == HandlePost(t, body, fault).response
  {
  }

  /** POST and PUT reject an invalid or undecodable body with 400 before any store call. */
  lemma InvalidBodyBadRequest(t: Table, fields: map<string, Json>, idText: string, fault: bool)
    requires ValidateEvent(fields).None?
    ensures HandlePost(t, Decoded(Obj(fields)), fault) == Exchange(Empty(StatusBadRequest), t)
    ensures HandlePut(t, idText, Decoded(Obj(fields)), fault) == Exchange(Empty(StatusBadRequest), t)
    ensures HandlePost(t, Undecodable, fault) == Exchange(Empty(StatusBadRequest), t)
    ensures HandlePut(t, idText, Undecodable, fault) == Exchange(Empty(StatusBadRequest), t)
  {
  }

  /**
   * A body that decodes to a string, number, array or null (the payloads `""` and
   * `"_"` among them) makes `**` raise a TypeError that no handler catches.
   */
  lemma NonObjectBodyUnhandled(t: Table, v: Json, idText: string, fault: bool)
    requires !v.Obj?
    ensures HandlePost(t, Decoded(v), fault) == Exchange(Unhandled, t)
    ensures HandlePut(t, idText, Decoded(v), fault) == Exchange(Unhandled, t)
  {
  }

  /** Bytes that are not text in the request's charset raise from POST and PUT unhandled. */
  lemma NotTextBodyUnhandled(t: Table, idText: string, fault: bool)
    ensures HandlePost(t, NotText, fault) == Exchange(Unhandled, t)
    ensures HandlePut(t, idText, NotText, fault) == Exchange(Unhandled, t)
  {
  }

  /** Deleting an existing row twice: 200 with the row as it was, then 400. */
  lemma DeleteTwice(t: Table, id: int)
    requires id in t.rows
    ensures var first := HandleDelete(t, IntToDecimal(id), false);
      && first.response == Reply(StatusOk, Some(Prepare(t.rows[id])))
      && HandleDelete(first.table, IntToDecimal(id), false).response == Empty(StatusBadRequest)
      && HandleGet(first.table, IntToDecimal(id), false).response == Empty(StatusNotFound)
  {
    ParseIntOfDecimal(id);
  }

  /** A successful PUT is visible to a following GET, which returns the same body. */
  lemma PutThenGet(t: Table, id: int, body: Body)
    requires WellFormed(t) && id in t.rows && ReadModel(body).Parsed?
    ensures var put := HandlePut(t, IntToDecimal(id), body, false);
      && put.response.Reply? && put.response.status == StatusOk
      && HandleGet(put.table, IntToDecimal(id), false).response == put.response
  {
    ParseIntOfDecimal(id);
  }

  /** A record created by POST is returned by GET under the id POST reported. */
  lemma PostThenGet(t: Table, body: Body)
    requires WellFormed(t) && ReadModel(body).Parsed?
    ensures var post := HandlePost(t, body, false);
      HandleGet(post.table, IntToDecimal(t.nextId), false).response == post.response
  {
    ParseIntOfDecimal(t.nextId);
  }
}
