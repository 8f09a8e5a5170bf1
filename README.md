# Astronomical bodies: validated planet record and star record

This project models the core of `models.py`, a small demonstration program with two records.

- **The planet record** (`AstronomicalBody`) is a pydantic model with three fields, checked when the record is built:
  - `name` must be one of the `PlanetEnum` values Mercury, Venus, Earth or Mars. Any other name raises `InvalidPlanetNameException`, which keeps the rejected name.
  - `radius` must be strictly positive. This is declared twice, as the `gt=0` field constraint and again in `validate_radius`.
  - `atmosphere_composition` is a required list of strings.
- **The round trip.** `to_json` serialises the record to JSON. `from_json` parses JSON and validates it again.
- **The star record** (`Star`) is an unvalidated dataclass with a fixed-format `__str__`.

Modules:

- `Wrappers` (`wrappers.dfy`) holds `Option`.
- `JsonValue` (`json.dfy`) is a structural JSON value. It holds the conversions of a string list to and from a JSON array.
- `Planets` (`planets.dfy`) covers:
  - the name enum and the name exception;
  - each field's checks;
  - `Construct`, which builds the record;
  - `Encode` and `Decode`, which model `to_json` and `from_json`;
  - the laws that connect them.
- `Stars` (`stars.dfy`) holds the star record and its rendering.

How construction is modelled:

- Each field reaches `Construct` as an `Input`. An `Input` is a value of the declared type, `Absent` (the field was not given), or `Mistyped` (a value of another type, `None` included).
- Fields are validated in declaration order.
- The name validator raises an exception that is not a `ValueError`. Pydantic does not collect such an exception, so the name error escapes at once and wins over every other error.
- The remaining failures are collected into one `ValidationError`. It is modelled as the list of (field, reason) pairs, in field order. Bad elements of `atmosphere_composition` make one entry for that field (see "## Left out").
- `gt=0` runs before `validate_radius`, so a non-positive radius is always reported by the constraint. `RadiusValidatorNeverReports` proves that the validator's own `ValueError` is never what construction reports.

How decoding is modelled:

- `Decode` reads the three keys and ignores any other key, as pydantic's default does.
- A missing key is `Absent`. A value of the wrong JSON type is `Mistyped`.
- A payload that is not a JSON object fails at the root (pydantic's `dict()` conversion of such payloads is left out).

On the command line, `--atmosphere` is optional, but the field is a `List[str]` that is not optional (`models.py:32`). A run without `--atmosphere` passes `None`, which that type does not allow. With a planet name, the run gets a `ValidationError`: a type error at `atmosphere_composition`, not a missing-field error. With any other name, it gets the name exception, which is checked first. `NoneAtmosphere` states both cases.

## Model

| member | source | states |
|---|---|---|
| `Planets.ValueToMember` | models.py:21-25 | the lookup finds a member exactly when the string is that member's value |
| `Planets.NameAcceptedIff` | models.py:36 | a name is accepted iff it is exactly "Mercury", "Venus", "Earth" or "Mars" |
| `Planets.ValueLookupInverse` | models.py:21-25 | looking up a member's value gives back that member; no two members share a value |
| `Planets.NameIsCaseSensitive` | models.py:36 | other spellings ("earth", "EARTH", "Earth ") and other bodies ("Pluto") are rejected |
| `Planets.InvalidPlanetNameException.Message` | models.py:14-17 | the message is "Invalid planet name: " followed by exactly the rejected name |
| `Planets.ValidateName` | models.py:34-38 | returns the name unchanged iff it is a planet name, else raises the exception carrying that name |
| `Planets.ValidateRadius` | models.py:40-44 | returns the radius unchanged iff it is > 0, else reports a radius error |
| `Planets.RadiusChecksAgree` | models.py:31 | the `gt=0` constraint and `validate_radius` accept exactly the same radii |
| `Planets.Construct` | models.py:29-44 | success iff name valid, radius > 0 and atmosphere given; the record holds the inputs unchanged and is valid; the name error is raised iff the name is given but invalid, and carries that name |
| `Planets.NameErrorTakesPrecedence` | models.py:30-37 | an invalid name gives the name exception, with its message, whatever radius and atmosphere hold |
| `Planets.ValidationErrorLocs` | models.py:30-32 | when the name does not raise, a validation error lists exactly the failing fields in declaration order, with all bad atmosphere elements as one entry |
| `Planets.ValidationErrorFields` | models.py:30-32 | each field is reported iff it fails, never the root, in declaration order; each field once, bad atmosphere elements collapsed into one entry |
| `Planets.ValidationErrorReasons` | models.py:30-32 | each reported field carries its reason: missing is `Required`, wrong type is `WrongType`, a radius ≤ 0 is the `gt=0` error |
| `Planets.NonPositiveRadiusRejected` | models.py:31 | a radius ≤ 0 (0 included) yields a validation error that contains the `gt=0` radius error |
| `Planets.RadiusValidatorNeverReports` | models.py:40-44 | `validate_radius`'s own error is never among the reported errors |
| `Planets.ConstructAcceptsValid` | models.py:29-44 | every valid record can be built from its own fields and is returned unchanged |
| `Planets.NoneAtmosphere` | models.py:30-37 | an atmosphere of `None` is a type error at `atmosphere_composition` when the name is a planet name, and gives the name exception otherwise |
| `Planets.AtmosphereIsRequired` | models.py:32 | no record is built without an atmosphere list |
| `Planets.Encode` | models.py:46-48 | the serialised object has exactly the keys `name`, `radius`, `atmosphere_composition` |
| `Planets.Decode` | models.py:50-53 | a decoded record is always valid; a non-object payload fails at the root |
| `Planets.DecodeValidatesLikeConstruct` | models.py:50-53 | an object with well-typed values under the three keys decodes exactly as direct construction from those values |
| `Planets.DecodeEncodeIsConstruct` | models.py:46-53 | decoding an encoded record, valid or not, gives what constructing it gives |
| `Planets.RoundTrip` | models.py:82-85 | `from_json(to_json(b))` gives back `b` for every valid `b` |
| `Planets.DecodeOkIff` | models.py:29-32 | a payload decodes to a record iff `name` is a planet-name string, `radius` a number > 0 and `atmosphere_composition` an array of strings; any missing or mistyped key fails |
| `Planets.DecodeIgnoresExtraKeys` | models.py:50-53 | keys other than the three fields do not change the result of decoding |
| `Planets.DecodeRequiresAtmosphere` | models.py:32 | a payload without `atmosphere_composition` never decodes to a record |
| `Planets.DecodeRejectsNonStringGas` | models.py:32 | an atmosphere array with a non-string element is a type error and decodes to no record |
| `Planets.EarthExample` | models.py:76-85 | Earth, 6371, ["N2", "O2"] builds, encodes to the three-key object and decodes back |
| `Planets.RejectionExamples` | models.py:35-44 | Pluto fails with the name error "Invalid planet name: Pluto"; Mars with radius -100 or 0 fails with only the radius error |
| `JsonValue.FromStrings` | models.py:32 | the atmosphere list becomes a JSON array of the same length, element by element in order |
| `JsonValue.AsStrings` | models.py:32 | a JSON array is read as a string list iff every element is a string, element by element in order |
| `JsonValue.StringsRoundTrip` | models.py:46-53 | an encoded list of strings reads back unchanged |
| `Stars.Star.ToString` | models.py:62-63 | the rendering is the name, then " (Temperature: ", then the temperature text, then "K)" |
| `Stars.RenderDeterminesTemperature` | models.py:57-63 | for one name, two stars render alike iff their temperatures agree |
| `Stars.SunExample` | models.py:93-94 | the demonstration sun renders as "Sun (Temperature: 5778K)" |

## Left out

- `main`'s argument parsing (`models.py:67-73`), every `print`, and the DearPyGui window (`models.py:97-109`): command-line input, output and GUI, not part of the record logic.
- The use of `body` at `models.py:100` after a failed construction: it is GUI glue outside the record contract.
- JSON text: the model works on JSON values. Printing them and parsing them are done by pydantic and `json`, which are not part of this model. So is the order of keys in the text, and the `ValidationError` that `parse_raw` raises for text that is not valid JSON.
- Pydantic's type coercion is not modelled: numbers and booleans turned into `str` (so a JSON `true` as `name` would be rejected as the name `"True"`, and be accepted as `"True"` inside `atmosphere_composition`), numeric strings and booleans turned into `float`. Each such value counts as `Mistyped`.
- `Planets.Decode`: pydantic calls `dict()` on a top-level payload that is not an object. A value `dict()` accepts (`[]`, `""`, a list of pairs) then becomes an object and is validated field by field. The model instead reports every non-object payload as one root error.
- `Planets.Construct`: it takes exactly the three fields, so any extra keyword arguments, which pydantic ignores, are not modelled.
- `Planets.Construct`: a `ValidationError` records each failing field and its reason. It does not record pydantic's message text.
- `Planets.ValidationErrorFields`: pydantic reports one error per bad element of `atmosphere_composition`, at that element's index. The model collapses them into a single `WrongType` entry for the field, so "each field once" holds of the model's list, not of pydantic's.
- `Planets.ValidationErrorLocs`: the same collapse applies; `[null, null]` gives two pydantic errors and one model entry.
- Floating point: the radius is a real number, so NaN and infinities are not modelled. Only the `> 0` comparison is used.
- `Stars.Star.ToString`: the temperature is the text Python would print for it. Turning a float into text (`5778` vs `5778.0`) is not modelled.
