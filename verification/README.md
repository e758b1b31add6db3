# mapply map-event pipeline, modelled in Dafny

This project models the backend of mapply: a small HTTP service that stores
"map events". A map event is a title, a description and a position given by
latitude and longitude. The model covers the request pipeline for that one
entity:

- **Validation** (`validation.dfy`, `text.dfy`): the pydantic models
  `PositionModel` and `MapEventModel`. Coordinates must be finite and inside
  closed ranges. Title and description are stripped of surrounding Unicode
  whitespace and then bounded to 64 and 512 characters; there is no minimum
  length. The id is optional and, when given, must be at least 1. Keys other
  than the four fields are ignored.
- **Record mapper** (`services.dfy`): `prepare_map_event_record` turns the flat
  row `{id, title, description, lat, lng}` into
  `{id, title, description, position: {lat, lng}}`.
- **Persistence** (`services.dfy`): retrieve, create, update and delete, each
  one single-row SQL statement. The table is a `map<int, Row>` plus the next
  value of the id sequence. A store fault is a `fault` flag that turns the
  operation into an `Outcome.Fault` with no effect.
- **Handlers** (`handlers.dfy`): GET, POST, PUT and DELETE on one map event.
  Each parses the path id with Python's `int()` (`int_parse.dfy`), reads and
  validates the body, runs one store operation and maps the result to 200,
  400, 404 or 500. Error responses carry no body.

Inputs the handlers receive from outside are parameters: the path segment
text, the decoded body (`Body`), the table, and whether the store faults.
JSON values come already decoded (`json.dfy`). An integer literal is an
unbounded integer. Any other number is a float: a finite real, or one of the
three special values Python's decoder accepts (`NaN`, `Infinity`, `-Infinity`).

Observed behaviour that the model keeps as written:

- GET on a missing id answers 404. PUT and DELETE on a missing id answer 400
  (`Handlers.MissingRowAsymmetry`).
- PUT validates the body before it parses the path id
  (`Handlers.PutChecksBodyFirst`).
- The handlers catch only `JSONDecodeError`, `ValidationError`, `ValueError`
  and the store's error. A body that decodes to something other than an
  object, such as the JSON strings `""` and `"_"`, makes `MapEventModel(**body)`
  raise a `TypeError` that escapes the handler. Body bytes that are not text
  in the request's charset raise a `UnicodeDecodeError` that escapes in the
  same way. The model gives these cases the
  separate result `Response.Unhandled`; it does not claim a 400 for it, even
  though the API tests at backend/tests/api/test_map_events.py:156-166 expect
  a 400 (`Handlers.NonObjectBodyUnhandled`).
- Titles and descriptions have no minimum length. An empty or all-blank title
  is accepted, as the code declares only `max_length`
  (`Validation.BlankTextAccepted`).

## Model

| member | source | states |
|---|---|---|
| `Text.Strip` | backend/logic/validation.py:20-21 | the stripped text has no whitespace at either end and is no longer than the input |
| `Text.StripSlice` | backend/logic/validation.py:20-21 | stripping only removes whitespace from the two ends: the result is a slice of the input with only whitespace outside it |
| `Text.StripDecomposition` | backend/logic/validation.py:20-21 | stripping `a + m + b`, where `a` and `b` are whitespace and `m` is already stripped, returns exactly `m` |
| `Text.StripIdempotent` | backend/logic/validation.py:20-21 | stripping twice is the same as stripping once |
| `IntParse.ParseInt` | backend/logic/handlers.py:23 | `int()` on the path id accepts only strings made of digits, underscores, signs and whitespace, and only when the string holds at least one digit |
| `IntParse.ParseIntOfDecimal` | backend/logic/handlers.py:23 | parsing the decimal rendering `str(n)` of any integer `n` gives `n` back |
| `IntParse.MinusOneParses` | backend/tests/api/test_map_events.py:101-106 | `"-1"` parses as the integer -1 |
| `IntParse.NonIntegerIdsRejected` | backend/tests/api/test_map_events.py:72-84 | `-inf`, `inf`, `NaN`, `1e+2`, `1e-2`, `0.1`, `_` and full-width letters are all refused |
| `Validation.ValidatePosition` | backend/logic/validation.py:13-15 | an accepted position has its latitude in [-90, 90] and its longitude in [-180, 180], and it came from an object with both keys |
| `Validation.PositionAcceptedIff` | backend/logic/validation.py:14-15 | a position is accepted exactly when both coordinates are finite and inside their closed ranges |
| `Validation.BoundsInclusive` | backend/logic/validation.py:14-15 | the range ends -90, 90, -180 and 180 are all accepted unchanged |
| `Validation.ValidateEvent` | backend/logic/validation.py:18-22 | an accepted model satisfies every field constraint; its title and description are the stripped input strings; the three required keys were present |
| `Validation.EventAcceptedIff` | backend/logic/validation.py:20-22 | a body without an id is accepted exactly when the stripped title has at most 64 characters, the stripped description has at most 512, and both coordinates are finite and in range; the model is then the stripped strings with the given position |
| `Validation.BlankTextAccepted` | backend/logic/validation.py:20-21 | an empty title and an all-blank description are accepted and stored as empty strings |
| `Validation.IdRule` | backend/logic/validation.py:19 | an absent or null id gives no id; an integer id is accepted exactly when it is at least 1 and is then kept |
| `Validation.FloatIdRule` | backend/logic/validation.py:19 | a float id `x` is accepted exactly when it is integral and 1 <= x < 2^63, and is then kept as that integer |
| `Validation.FloatIdExamples` | backend/logic/validation.py:19 | `2.0` gives id 2, `2.5` and the float 2^63 are refused, while the integer 2^63 is accepted |
| `Validation.IdFieldNullOrAbsent` | backend/logic/validation.py:19 | a null id validates the same as a missing one |
| `Validation.RequiredFields` | backend/logic/validation.py:20-22 | without a title, a description or a position nothing validates |
| `Validation.EmptyObjectRejected` | backend/tests/api/test_map_events.py:156-166 | the empty object `{}` fails validation |
| `Validation.ExtraFieldsIgnored` | backend/logic/validation.py:18-22 | adding a key other than the four fields does not change the validation result |
| `Validation.DumpRoundTrip` | backend/tests/api/test_map_events.py:96-98 | re-validating the JSON dump of a valid model gives the same model |
| `Validation.ValidateIdempotent` | backend/tests/api/test_map_events.py:151-153 | validating the dump of any validated model gives the same result as the first validation |
| `Services.Retrieve` | backend/logic/services.py:9-16 | a row is returned exactly when one is stored under the id, and it is that stored row, carrying that id; the table is unchanged; a fault is the only failure |
| `Services.Create` | backend/logic/services.py:19-31 | the new row holds the model's title, description, latitude and longitude; in a well-formed table its id is at least 1 and was unused; the table gains exactly that row and stays well-formed |
| `Services.CreateIgnoresId` | backend/logic/services.py:23-31 | the model's own id has no effect on what is created |
| `Services.RetrieveAfterCreate` | backend/logic/services.py:9-31 | a created row is found again by its id |
| `Services.Update` | backend/logic/services.py:34-49 | a row is returned exactly when the id exists; it holds the model's four data fields and keeps its id; only that row changes; a missing id leaves the table unchanged |
| `Services.UpdateIgnoresId` | backend/logic/services.py:39-49 | the model's own id has no effect on an update; only the path id selects the row |
| `Services.UpdateFrame` | backend/logic/services.py:39-49 | an update leaves every other row as it was |
| `Services.Delete` | backend/logic/services.py:52-56 | a row is returned exactly when the id exists, as it was before deletion; the table loses exactly that id |
| `Services.DeleteThenNothing` | backend/logic/services.py:52-56 | after a delete, deleting or retrieving the same id finds nothing |
| `Services.DeleteFrame` | backend/logic/services.py:52-56 | a delete leaves every other row as it was |
| `Services.Prepare` | backend/logic/services.py:59-69 | the record has exactly the keys id, title, description and position, and no top-level lat or lng |
| `Services.FlattenPrepare` | backend/logic/services.py:59-69 | reading the record back into the flat shape recovers the row: no field is lost or changed |
| `Services.PrepareInjective` | backend/logic/services.py:59-69 | distinct rows give distinct records |
| `Services.CreatePrepareRoundTrip` | backend/tests/api/test_map_events.py:149-153 | the prepared created row has a positive id and, with the id removed, validates back to the model without its id |
| `Services.PrepareValidates` | backend/tests/api/test_map_events.py:87-98 | a stored row holding a valid model prepares into a record that validates to that model with the row's id |
| `Handlers.ReadModel` | backend/logic/handlers.py:42-46 | the body yields a model exactly when it decodes to an object that validates, and the model is the validated one; it raises exactly when its bytes are not text or it decodes to a non-object |
| `Handlers.HandleGet` | backend/logic/handlers.py:19-38 | a bad id gives 400; a fault gives 500; 404 exactly when the parsed id has no row; a stored row gives 200 with that row prepared, and 200 means nothing else; the table is never changed |
| `Handlers.HandlePost` | backend/logic/handlers.py:41-57 | an invalid or undecodable body gives 400 and a non-text or non-object body is unhandled, both without a store call; a fault gives 500; success gives 200 with a record under the fresh id that validates back to the posted model, and the table gains exactly that id, holding the posted data, with every other row kept |
| `Handlers.HandlePut` | backend/logic/handlers.py:60-86 | the body decides first: unhandled for non-text or a non-object, 400 for an invalid one; a valid body continues as `PutModel` with the parsed path id; never a 404; the table changes only on a 200 |
| `Handlers.PutModel` | backend/logic/handlers.py:66-86 | with a valid body, a bad id gives 400 and a fault 500; without a fault, an existing row gives 200 with the prepared updated row and a missing row gives 400 with the table unchanged; a 200 means the row existed, now holds the new data under the same id, and no other row changed |
| `Handlers.HandleDelete` | backend/logic/handlers.py:89-108 | a bad id gives 400; a fault gives 500; never a 404; without a fault, a stored row gives 200 with the row as it was and removes exactly that id, and a missing row gives 400 with the table unchanged |
| `Handlers.MissingRowAsymmetry` | backend/logic/handlers.py:35-36 | for an id with no row, GET answers 404 while PUT with a valid body and DELETE answer 400, leaving the table unchanged |
| `Handlers.GetStoredRow` | backend/logic/handlers.py:35-38 | a GET of any stored row, addressed by `str(id)`, answers 200 with the prepared row |
| `Handlers.MinusOneNotFound` | backend/tests/api/test_map_events.py:101-106 | id `-1` gives 404 from GET and 400 from DELETE |
| `Handlers.BadIdIgnoresStore` | backend/logic/handlers.py:20-30 | a non-integer id gives 400 from GET and DELETE with the table unchanged, and PUT's answer then does not depend on the store |
| `Handlers.NonIntegerIdsBadRequest` | backend/tests/api/test_map_events.py:72-84 | each non-integer id of the test-suite gets 400 from GET |
| `Handlers.PutChecksBodyFirst` | backend/logic/handlers.py:60-65 | a body that is not a valid model decides PUT's answer whatever the id and the store, the same answer POST gives, with the table unchanged |
| `Handlers.InvalidBodyBadRequest` | backend/logic/handlers.py:42-46 | an undecodable body or an object that fails validation gives 400 from POST and PUT with no store effect |
| `Handlers.NonObjectBodyUnhandled` | backend/logic/handlers.py:42-44 | a body decoding to a non-object escapes POST and PUT as an unhandled TypeError |
| `Handlers.NotTextBodyUnhandled` | backend/logic/handlers.py:42-44 | a body whose bytes are not text in the request charset escapes POST and PUT as an unhandled UnicodeDecodeError |
| `Handlers.DeleteTwice` | backend/logic/handlers.py:89-108 | deleting an existing id gives 200 with the row as it was; deleting it again gives 400 and getting it gives 404 |
| `Handlers.PutThenGet` | backend/logic/handlers.py:60-86 | after a successful PUT, a GET of the same id returns the same response |
| `Handlers.PostThenGet` | backend/logic/handlers.py:41-57 | a GET of the id POST assigned returns the same response POST gave |

## Left out

- Route registration, the connection pool and the environment lookup (app.py, routes.py) are bootstrap glue. Logging calls are side effects with no effect on responses.
- The asyncpg driver, the SQL engine and the `.exceptions` module are not part of this model. The store is the table plus a `fault` flag per statement; every store error is the one opaque fault, and a faulting statement has no effect.
- The table schema is not part of this model. The id sequence is assumed to start at 1 and increase by one per insert. A PostgreSQL sequence value taken by a failed INSERT is not given back, so real ids can have gaps; the model numbers ids without those gaps and promises only that each new id is fresh and positive. Ids are unbounded integers, so a path id outside the id column's integer range is not modelled.
- Concurrency between requests is not modelled: each handler call is one atomic step on the table.
- The list-all route has no handler or route in the code, so it is not modelled. Cross-origin headers are not set by the code and are not modelled.
- What the web framework answers for `Response.Unhandled` is not modelled.
- JSON text decoding is not modelled. Handlers receive one of three things: the decoded value, `Undecodable` for a JSONDecodeError, or `NotText` for bytes that do not decode in the request charset. Floats are exact reals, so binary64 rounding of coordinates, both when decoding and when stored, is not modelled.
- `IntParse.ParseInt` covers ASCII signs, digits and underscores with Unicode whitespace around them. Python's `int()` also accepts non-ASCII decimal digits, such as full-width `１２`; the model refuses them.
- `Validation.ValidateEvent` models pydantic's lax coercions from booleans and from integral floats, with the 64-bit range check on the latter. It does not model pydantic's parsing of numeric strings such as `"12"` or `"1.5"` into ints and floats; the model rejects those, where pydantic accepts them.
- Whitespace is the Unicode White_Space property. pydantic trims that set, and Python's `int()` skips the same set around the digits; Python's `str.strip()` would also remove U+001C to U+001F, which neither of them does.
- Strings are sequences of Unicode scalar values, so a JSON string holding a lone surrogate escape is not modelled.
- `Validation.ValidateEvent` is pass/fail. pydantic's list of every violated constraint is not modelled, because the handlers reduce any validation error to an empty 400.
- The web framework's 405 for other methods and its 404 for unmatched paths are outside the handlers and not modelled.
