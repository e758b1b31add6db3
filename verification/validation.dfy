/**
 * The two pydantic models of the service. `PositionModel` bounds and requires
 * finite coordinates; `MapEventModel` has an optional id of at least 1, two
 * whitespace-stripped strings with a maximum length (and no minimum), and a
 * required position. Validation is pass/fail here: the handlers collapse every
 * pydantic error into one 400 response, so which constraints failed is not modelled.
 * Fields other than the four are ignored, as pydantic does by default.
 */
module Validation {
  import opened Wrappers
  import opened Json
  import opened Text

  const MaxTitleLength: nat := 64
  const MaxDescriptionLength: nat := 512
  const MaxLat: real := 90.0
  const MaxLng: real := 180.0

  datatype Position = Position(lat: real, lng: real)

  datatype MapEvent = MapEvent(id: Option<int>, title: string, description: string, position: Position)

  /** The invariant every validated model satisfies. */
  predicate ValidPosition(p: Position) {
    -MaxLat <= p.lat <= MaxLat && -MaxLng <= p.lng <= MaxLng
  }

  predicate ValidText(s: string, maxLength: nat) {
    IsStripped(s) && |s| <= maxLength
  }

  predicate ValidModel(m: MapEvent) {
    && (m.id.Some? ==> m.id.value >= 1)
    && ValidText(m.title, MaxTitleLength)
    && ValidText(m.description, MaxDescriptionLength)
    && ValidPosition(m.position)
  }

  /** pydantic's lax float input: a JSON number, or a boolean read as 1.0 / 0.0. */
  function AsFloat(j: Json): Option<Float> {
    match j
    case Int(i) => Some(Finite(i as real))
    case Num(f) => Some(f)
    case Bool(b) => Some(Finite(if b then 1.0 else 0.0))
    case _ => None
  }

  /** Floats converted to an int must lie strictly between -2^63 and 2^63. */
  const FloatIntBound: int := 0x8000_0000_0000_0000

  /**
   * pydantic's lax int input: an integer of any size, a boolean, or a float with no
   * fractional part strictly inside the 64-bit signed range.
   */
  function AsInt(j: Json): Option<int> {
    match j
    case Int(i) => Some(i)
    case Bool(b) => Some(if b then 1 else 0)
    case Num(Finite(x)) =>
      if x.Floor as real == x && -FloatIntBound < x.Floor < FloatIntBound then Some(x.Floor) else None
    case _ => None
  }

  /** `confloat(ge=-bound, le=bound, allow_inf_nan=False)`. */
  function BoundedFloat(j: Json, bound: real): Option<real> {
    match AsFloat(j)
    case Some(Finite(x)) => if -bound <= x <= bound then Some(x) else None
    case _ => None
  }

  /** `constr(strip_whitespace=True, max_length=maxLength)`: strip first, then bound the length. */
  function BoundedText(j: Json, maxLength: nat): Option<string> {
    match j
    case Str(s) => var t := Strip(s); if |t| <= maxLength then Some(t) else None
    case _ => None
  }

  /** `PositionModel` applied to a field value; only a JSON object can be one. */
  function ValidatePosition(j: Json): (r: Option<Position>)
    ensures r.Some? ==> ValidPosition(r.value)
    ensures r.Some? ==> j.Obj? && "lat" in j.fields && "lng" in j.fields
  {
    match j
    case Obj(f) =>
      if "lat" in f && "lng" in f then
        var lat := BoundedFloat(f["lat"], MaxLat);
        var lng := BoundedFloat(f["lng"], MaxLng);
        if lat.Some? && lng.Some? then Some(Position(lat.value, lng.value)) else None
      else None
    case _ => None
  }

  /**
   * `Optional[conint(ge=1)] = None`: absent or null gives no id; anything else must be
   * an integer of at least 1. The outer None is a validation failure.
   */
  function ValidateId(f: map<string, Json>): Option<Option<int>> {
    if "id" !in f || f["id"] == Null then Some(None)
    else
      match AsInt(f["id"])
      case Some(k) => if k >= 1 then Some(Some(k)) else None
      case None => None
  }

  /** `MapEventModel(**fields)`: the validated model, or None for a ValidationError. */
  function ValidateEvent(f: map<string, Json>): (r: Option<MapEvent>)
    ensures r.Some? ==> ValidModel(r.value)
    ensures r.Some? ==> "title" in f && "description" in f && "position" in f
    ensures r.Some? ==> f["title"].Str? && r.value.title == Strip(f["title"].text)
    ensures r.Some? ==> f["description"].Str? && r.value.description == Strip(f["description"].text)
  {
    if "title" in f && "description" in f && "position" in f then
      var id := ValidateId(f);
      var title := BoundedText(f["title"], MaxTitleLength);
      var description := BoundedText(f["description"], MaxDescriptionLength);
      var position := ValidatePosition(f["position"]);
      if id.Some? && title.Some? && description.Some? && position.Some? then
        Some(MapEvent(id.value, title.value, description.value, position.value))
      else None
    else None
  }

  /** `model_dump(mode="json")`: the model as a JSON object, a missing id written as null. */
  function Dump(m: MapEvent): Json {
    Obj(map[
      "id" := (if m.id.Some? then Int(m.id.value) else Null),
      "title" := Str(m.title),
      "description" := Str(m.description),
      "position" := PositionJson(Real(m.position.lat), Real(m.position.lng))
    ])
  }

  function PositionJson(lat: Json, lng: Json): Json {
    Obj(map["lat" := lat, "lng" := lng])
  }

  /** The request body of a create or update: title, description and a position, no id. */
  function EventJson(title: string, description: string, lat: Float, lng: Float): map<string, Json> {
    map["title" := Str(title), "description" := Str(description),
        "position" := PositionJson(Num(lat), Num(lng))]
  }

  /** A coordinate is accepted exactly when it is finite and inside its closed range. */
  lemma PositionAcceptedIff(lat: Float, lng: Float)
    ensures ValidatePosition(PositionJson(Num(lat), Num(lng))).Some?
        <==> (&& lat.Finite? && -90.0 <= lat.value <= 90.0
              && lng.Finite? && -180.0 <= lng.value <= 180.0)
  {
  }

  /** Both ends of both ranges are accepted. */
  lemma BoundsInclusive()
    ensures ValidatePosition(PositionJson(Real(-90.0), Real(-180.0))) == Some(Position(-90.0, -180.0))
    ensures ValidatePosition(PositionJson(Real(90.0), Real(180.0))) == Some(Position(90.0, 180.0))
  {
  }

  /**
   * The complete acceptance rule for a body without an id: titles and descriptions
   * are stripped before their length is bounded, coordinates are bounded and finite.
   */
  lemma EventAcceptedIff(title: string, description: string, lat: Float, lng: Float)
    ensures var r := ValidateEvent(EventJson(title, description, lat, lng));
      && (r.Some? <==>
           (&& |Strip(title)| <= 64 && |Strip(description)| <= 512
            && lat.Finite? && -90.0 <= lat.value <= 90.0
            && lng.Finite? && -180.0 <= lng.value <= 180.0))
      && (r.Some? ==> r.value == MapEvent(None, Strip(title), Strip(description), Position(lat.value, lng.value)))
  {
    var f := EventJson(title, description, lat, lng);
    assert "id" !in f;
    assert f["title"] == Str(title) && f["description"] == Str(description);
    assert f["position"] == PositionJson(Num(lat), Num(lng));
    assert ValidateId(f) == Some(None);
    assert BoundedText(f["title"], MaxTitleLength).Some? <==> |Strip(title)| <= 64;
    assert BoundedText(f["description"], MaxDescriptionLength).Some? <==> |Strip(description)| <= 512;
    PositionAcceptedIff(lat, lng);
  }

  /** There is no minimum length: an empty or all-blank title and description are accepted. */
  lemma BlankTextAccepted()
    ensures ValidateEvent(EventJson("", " \t ", Finite(0.0), Finite(0.0)))
         == Some(MapEvent(None, "", "", Position(0.0, 0.0)))
  {
    EventAcceptedIff("", " \t ", Finite(0.0), Finite(0.0));
    assert Strip("") == [];
    assert AllSpace(" \t ");
  }

  /** The id rule: absent or null means none, a present integer must be at least 1. */
  lemma IdRule(f: map<string, Json>, k: int)
    requires ValidateEvent(f).Some? && "id" !in f
    ensures ValidateEvent(f).value.id == None
    ensures ValidateEvent(f["id" := Null]) == ValidateEvent(f)
    ensures ValidateEvent(f["id" := Int(k)]).Some? <==> k >= 1
    ensures k >= 1 ==> ValidateEvent(f["id" := Int(k)]) == Some(ValidateEvent(f).value.(id := Some(k)))
  {
    var g := f["id" := Int(k)];
    assert g["title"] == f["title"] && g["description"] == f["description"] && g["position"] == f["position"];
    var h := f["id" := Null];
    assert h["title"] == f["title"] && h["description"] == f["description"] && h["position"] == f["position"];
  }

  /**
   * A float id is accepted exactly when it is integral, at least 1 and below 2^63,
   * and is then kept as that integer.
   */
  lemma FloatIdRule(f: map<string, Json>, x: real)
    requires ValidateEvent(f).Some? && "id" !in f
    ensures ValidateEvent(f["id" := Real(x)]).Some? <==> x.Floor as real == x && 1 <= x.Floor < FloatIntBound
    ensures ValidateEvent(f["id" := Real(x)]).Some? ==>
      ValidateEvent(f["id" := Real(x)]) == Some(ValidateEvent(f).value.(id := Some(x.Floor)))
  {
    var v := f["id" := Real(x)];
    assert v["title"] == f["title"] && v["description"] == f["description"] && v["position"] == f["position"];
  }

  /** `2.0` gives id 2; `2.5` and `2^63` as floats are refused; the integer `2^63` is accepted. */
  lemma FloatIdExamples(f: map<string, Json>)
    requires ValidateEvent(f).Some? && "id" !in f
    ensures ValidateEvent(f["id" := Real(2.0)]) == Some(ValidateEvent(f).value.(id := Some(2)))
    ensures ValidateEvent(f["id" := Real(2.5)]) == None
    ensures ValidateEvent(f["id" := Real(FloatIntBound as real)]) == None
    ensures ValidateEvent(f["id" := Int(FloatIntBound)]).Some?
  {
    IdRule(f, FloatIntBound);
    FloatIdRule(f, 2.0);
    assert (2.0).Floor == 2;
    FloatIdRule(f, 2.5);
    assert (2.5).Floor == 2;
    FloatIdRule(f, FloatIntBound as real);
    assert (FloatIntBound as real).Floor == FloatIntBound;
  }

  /** An id that is null validates like an absent one. */
  lemma IdFieldNullOrAbsent(f: map<string, Json>)
    requires "id" in f && f["id"] == Null
    ensures ValidateEvent(f - {"id"}) == ValidateEvent(f)
  {
    var g := f - {"id"};
    if "title" in f && "description" in f && "position" in f {
      assert g["title"] == f["title"] && g["description"] == f["description"] && g["position"] == f["position"];
    }
  }

  /** Title, description and position are required: without any one of them nothing validates. */
  lemma RequiredFields(f: map<string, Json>)
    requires "title" !in f || "description" !in f || "position" !in f
    ensures ValidateEvent(f) == None
  {
  }

  /** Hence the empty object `{}` is rejected. */
  lemma EmptyObjectRejected()
    ensures ValidateEvent(map[]) == None
  {
    RequiredFields(map[]);
  }

  /** Keys other than the four fields do not influence validation. */
  lemma ExtraFieldsIgnored(f: map<string, Json>, key: string, v: Json)
    requires key !in {"id", "title", "description", "position"}
    ensures ValidateEvent(f[key := v]) == ValidateEvent(f)
  {
    var g := f[key := v];
    assert ValidateId(g) == ValidateId(f);
  }

  /** Re-validating the dump of a valid model gives the same model: normalisation is idempotent. */
  lemma DumpRoundTrip(m: MapEvent)
    requires ValidModel(m)
    ensures ValidateEvent(Dump(m).fields) == Some(m)
  {
    StripOfStripped(m.title);
    StripOfStripped(m.description);
    var f := Dump(m).fields;
    assert f["title"] == Str(m.title) && f["description"] == Str(m.description);
    assert BoundedText(f["title"], MaxTitleLength) == Some(m.title);
    assert BoundedText(f["description"], MaxDescriptionLength) == Some(m.description);
    assert ValidatePosition(f["position"]) == Some(m.position);
    if m.id.Some? {
      assert ValidateId(f) == Some(m.id);
    }
  }

  /** Validation of its own output is the identity, for every accepted input. */
  lemma ValidateIdempotent(f: map<string, Json>)
    requires ValidateEvent(f).Some?
    ensures ValidateEvent(Dump(ValidateEvent(f).value).fields) == ValidateEvent(f)
  {
    DumpRoundTrip(ValidateEvent(f).value);
  }
}
