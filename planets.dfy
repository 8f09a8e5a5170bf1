/**
 * The validated planet record of models.py: the `PlanetEnum` name set, the
 * `InvalidPlanetNameException` error, construction of `AstronomicalBody`
 * with its field constraints and validators, and its JSON round trip.
 */
module Planets {
  import opened Wrappers
  import opened JsonValue

  /** The closed set of accepted planet names (`PlanetEnum`). */
  datatype PlanetEnum = Mercury | Venus | Earth | Mars {
    /** The string value of the enum member. */
    function Value(): string {
      match this
      case Mercury => "Mercury"
      case Venus => "Venus"
      case Earth => "Earth"
      case Mars => "Mars"
    }
  }

  /** The member whose value is `s`, if any (`PlanetEnum._value2member_map_`). */
  function ValueToMember(s: string): (r: Option<PlanetEnum>)
    ensures r.Some? ==> r.value.Value() == s
    ensures forall p: PlanetEnum :: p.Value() == s ==> r == Some(p)
  {
    if s == "Mercury" then Some(Mercury)
    else if s == "Venus" then Some(Venus)
    else if s == "Earth" then Some(Earth)
    else if s == "Mars" then Some(Mars)
    else None
  }

  /** `v in PlanetEnum._value2member_map_`: exact, case-sensitive membership. */
  predicate IsPlanetName(s: string) {
    ValueToMember(s).Some?
  }

  /** The error raised by the name validator; it keeps the rejected name. */
  datatype InvalidPlanetNameException = InvalidPlanetNameException(planetName: string) {
    /** The exception's message text. */
    function Message(): (m: string)
      ensures |m| == |"Invalid planet name: "| + |planetName|
      ensures m[..|"Invalid planet name: "|] == "Invalid planet name: "
      ensures m[|"Invalid planet name: "|..] == planetName
    {
      "Invalid planet name: " + planetName
    }
  }

  /** A validated planet record. It is never changed after construction. */
  datatype Planet = Planet(name: string, radius: real, atmosphere: seq<string>)

  /** The invariant every constructed record satisfies. */
  predicate ValidPlanet(p: Planet) {
    IsPlanetName(p.name) && p.radius > 0.0
  }

  /**
   * What a caller supplies for one field: a value of the declared type, no
   * value at all, or a value of another type (including `None`).
   */
  datatype Input<+T> = Present(value: T) | Absent | Mistyped

  /** The field an error is reported at; `Root` is the payload as a whole. */
  datatype Loc = Root | NameField | RadiusField | AtmosphereField

  /**
   * Why a field failed: required and missing, of the wrong type, rejected by
   * the `gt=0` constraint, or rejected by `validate_radius`'s `ValueError`.
   */
  datatype ErrorKind = Required | WrongType | NotGreaterThanZero | NotPositiveRadius

  datatype FieldError = FieldError(loc: Loc, kind: ErrorKind)

  /** The outcome of building a record: the record, or one of the two errors. */
  datatype Outcome =
    | Ok(body: Planet)
    | InvalidName(exc: InvalidPlanetNameException)
    | ValidationError(errors: seq<FieldError>)

  /** Outcome of one field's validators: its value, a raised name error, or field errors. */
  datatype Step<T> = Passed(value: T) | Raised(exc: InvalidPlanetNameException) | Failed(errors: seq<FieldError>)

  /** `validate_name`: the input unchanged, or the name exception. */
  function ValidateName(v: string): (r: Step<string>)
    ensures r.Passed? <==> IsPlanetName(v)
    ensures r.Passed? ==> r.value == v
    ensures !r.Passed? ==> r == Raised(InvalidPlanetNameException(v))
  {
    if !IsPlanetName(v) then Raised(InvalidPlanetNameException(v)) else Passed(v)
  }

  /** The `gt=0` constraint declared on the radius field. */
  predicate RadiusConstraint(v: real) {
    v > 0.0
  }

  /** `validate_radius`: the input unchanged, or a `ValueError`. */
  function ValidateRadius(v: real): (r: Step<real>)
    ensures r.Passed? <==> v > 0.0
    ensures r.Passed? ==> r.value == v
    ensures !r.Passed? ==> r == Failed([FieldError(RadiusField, NotPositiveRadius)])
  {
    if v <= 0.0 then Failed([FieldError(RadiusField, NotPositiveRadius)]) else Passed(v)
  }

  /** The errors a field without a usable value reports. */
  function MissingOrMistyped<T>(loc: Loc, i: Input<T>): seq<FieldError>
    requires !i.Present?
  {
    if i.Absent? then [FieldError(loc, Required)] else [FieldError(loc, WrongType)]
  }

  /** The `name` field: type check, then `validate_name`. */
  function CheckName(i: Input<string>): Step<string> {
    if i.Present? then ValidateName(i.value) else Failed(MissingOrMistyped(NameField, i))
  }

  /** The `radius` field: type check, then `gt=0`, then `validate_radius`. */
  function CheckRadius(i: Input<real>): Step<real> {
    if !i.Present? then Failed(MissingOrMistyped(RadiusField, i))
    else if !RadiusConstraint(i.value) then Failed([FieldError(RadiusField, NotGreaterThanZero)])
    else ValidateRadius(i.value)
  }

  /** The `atmosphere_composition` field: required, any list of strings. */
  function CheckAtmosphere(i: Input<seq<string>>): Step<seq<string>> {
    if i.Present? then Passed(i.value) else Failed(MissingOrMistyped(AtmosphereField, i))
  }

  function ErrorsOf<T>(s: Step<T>): seq<FieldError> {
    if s.Failed? then s.errors else []
  }

  /**
   * `AstronomicalBody(name=..., radius=..., atmosphere_composition=...)`.
   * Fields are validated in declaration order; the name exception is not a
   * `ValueError`, so it escapes at once, while the other fields' errors are
   * collected into one `ValidationError`.
   */
  function Construct(name: Input<string>, radius: Input<real>, atmosphere: Input<seq<string>>): (r: Outcome)
    ensures r.Ok? <==>
      name.Present? && IsPlanetName(name.value) && radius.Present? && radius.value > 0.0 && atmosphere.Present?
    ensures r.Ok? ==>
      r.body.name == name.value && r.body.radius == radius.value && r.body.atmosphere == atmosphere.value
    ensures r.Ok? ==> ValidPlanet(r.body)
    ensures r.InvalidName? <==> name.Present? && !IsPlanetName(name.value)
    ensures r.InvalidName? ==> r.exc.planetName == name.value
    ensures r.ValidationError? ==> r.errors != []
  {
    var n := CheckName(name);
    if n.Raised? then InvalidName(n.exc)
    else
      var rad := CheckRadius(radius);
      var atm := CheckAtmosphere(atmosphere);
      var errors := ErrorsOf(n) + ErrorsOf(rad) + ErrorsOf(atm);
      if errors == [] then Ok(Planet(n.value, rad.value, atm.value))
      else ValidationError(errors)
  }

  /** The fields among `errors`, in order. */
  function Locs(errors: seq<FieldError>): (r: seq<Loc>)
    ensures |r| == |errors|
    ensures forall i :: 0 <= i < |errors| ==> r[i] == errors[i].loc
  {
    if errors == [] then [] else [errors[0].loc] + Locs(errors[1..])
  }

  /** `to_json`: an object with exactly the three declared fields. */
  function Encode(p: Planet): (j: Json)
    ensures j.JObject?
    ensures j.fields.Keys == {"name", "radius", "atmosphere_composition"}
  {
    JObject(map[
      "name" := JString(p.name),
      "radius" := JNumber(p.radius),
      "atmosphere_composition" := JArray(FromStrings(p.atmosphere))])
  }

  /** The `name` key of a payload, as a field input. */
  function NameInput(m: map<string, Json>): Input<string> {
    if "name" !in m then Absent
    else if m["name"].JString? then Present(m["name"].s)
    else Mistyped
  }

  /** The `radius` key of a payload, as a field input. */
  function RadiusInput(m: map<string, Json>): Input<real> {
    if "radius" !in m then Absent
    else if m["radius"].JNumber? then Present(m["radius"].n)
    else Mistyped
  }

  /** The `atmosphere_composition` key of a payload, as a field input. */
  function AtmosphereInput(m: map<string, Json>): Input<seq<string>> {
    if "atmosphere_composition" !in m then Absent
    else if !m["atmosphere_composition"].JArray? then Mistyped
    else
      match AsStrings(m["atmosphere_composition"].items)
      case Some(ss) => Present(ss)
      case None => Mistyped
  }

  /**
   * `from_json`: look up the three keys, ignore any others, and validate
   * exactly as construction does. A payload that is not an object fails at
   * the root.
   */
  function Decode(j: Json): (r: Outcome)
    ensures r.Ok? ==> ValidPlanet(r.body)
    ensures !j.JObject? ==> r == ValidationError([FieldError(Root, WrongType)])
  {
    match j
    case JObject(m) => Construct(NameInput(m), RadiusInput(m), AtmosphereInput(m))
    case _ => ValidationError([FieldError(Root, WrongType)])
  }

  // ---------------------------------------------------------------------
  // Laws of the name set

  /** A name is accepted exactly when it is one of the four planet names. */
  lemma NameAcceptedIff(s: string)
    ensures IsPlanetName(s) <==> s == "Mercury" || s == "Venus" || s == "Earth" || s == "Mars"
  {
  }

  /** The value-to-member lookup inverts `Value`, so no two members share a value. */
  lemma ValueLookupInverse(p: PlanetEnum, q: PlanetEnum)
    ensures ValueToMember(p.Value()) == Some(p)
    ensures p.Value() == q.Value() ==> p == q
  {
  }

  /** The match is exact: other spellings and other bodies are rejected. */
  lemma NameIsCaseSensitive()
    ensures !IsPlanetName("earth") && !IsPlanetName("EARTH") && !IsPlanetName("Earth ")
    ensures !IsPlanetName("Pluto") && !IsPlanetName("")
  {
  }

  // ---------------------------------------------------------------------
  // Laws of construction

  /** The declaration order of the fields, which is the order errors are reported in. */
  function Rank(loc: Loc): nat {
    match loc
    case Root => 0
    case NameField => 1
    case RadiusField => 2
    case AtmosphereField => 3
  }

  /**
   * An invalid name is reported as the name exception, carrying the name,
   * whatever the other fields hold: it takes precedence over radius and
   * atmosphere errors.
   */
  lemma NameErrorTakesPrecedence(n: string, radius: Input<real>, atmosphere: Input<seq<string>>)
    requires !IsPlanetName(n)
    ensures Construct(Present(n), radius, atmosphere) == InvalidName(InvalidPlanetNameException(n))
    ensures Construct(Present(n), radius, atmosphere).exc.Message() == "Invalid planet name: " + n
  {
  }

  /** Fields in strictly increasing declaration order, so none repeats. */
  predicate InDeclarationOrder(ls: seq<Loc>) {
    forall i, j :: 0 <= i < j < |ls| ==> Rank(ls[i]) < Rank(ls[j])
  }

  /**
   * When the name does not raise, the fields a `ValidationError` reports are
   * exactly the failing ones, each once, in declaration order.
   */
  lemma ValidationErrorLocs(name: Input<string>, radius: Input<real>, atmosphere: Input<seq<string>>)
    requires !(name.Present? && !IsPlanetName(name.value))
    ensures var r := Construct(name, radius, atmosphere);
      r.ValidationError? ==>
        Locs(r.errors) ==
          (if name.Present? then [] else [NameField]) +
          (if radius.Present? && radius.value > 0.0 then [] else [RadiusField]) +
          (if atmosphere.Present? then [] else [AtmosphereField])
  {
    var r := Construct(name, radius, atmosphere);
    if r.ValidationError? {
      var en, er, ea := ErrorsOf(CheckName(name)), ErrorsOf(CheckRadius(radius)), ErrorsOf(CheckAtmosphere(atmosphere));
      assert r.errors == en + er + ea;
      LocsAppend(en, er);
      LocsAppend(en + er, ea);
    }
  }

  /**
   * When the name does not raise, a `ValidationError` names each failing
   * field, and only those, in declaration order; a radius present but not
   * positive is reported by the `gt=0` constraint.
   */
  lemma ValidationErrorFields(name: Input<string>, radius: Input<real>, atmosphere: Input<seq<string>>)
    requires !(name.Present? && !IsPlanetName(name.value))
    ensures var r := Construct(name, radius, atmosphere);
      r.ValidationError? ==>
        && (NameField in Locs(r.errors) <==> !name.Present?)
        && (RadiusField in Locs(r.errors) <==> !(radius.Present? && radius.value > 0.0))
        && (AtmosphereField in Locs(r.errors) <==> !atmosphere.Present?)
        && Root !in Locs(r.errors)
        && InDeclarationOrder(Locs(r.errors))
  {
    ValidationErrorLocs(name, radius, atmosphere);
    var ln := if name.Present? then [] else [NameField];
    var lr := if radius.Present? && radius.value > 0.0 then [] else [RadiusField];
    var la := if atmosphere.Present? then [] else [AtmosphereField];
    OrderedConcat(ln, lr, la);
  }

  /**
   * When the name does not raise, each reported field carries its reason: a
   * missing field is `Required`, a value of the wrong type is `WrongType`,
   * and a radius present but not positive is `NotGreaterThanZero`.
   */
  lemma ValidationErrorReasons(name: Input<string>, radius: Input<real>, atmosphere: Input<seq<string>>)
    requires !(name.Present? && !IsPlanetName(name.value))
    ensures var r := Construct(name, radius, atmosphere);
      r.ValidationError? ==>
        && (forall e :: e in r.errors && e.loc == NameField ==>
              e.kind == (if name.Absent? then Required else WrongType))
        && (forall e :: e in r.errors && e.loc == RadiusField ==>
              e.kind == (if radius.Absent? then Required else if radius.Mistyped? then WrongType else NotGreaterThanZero))
        && (forall e :: e in r.errors && e.loc == AtmosphereField ==>
              e.kind == (if atmosphere.Absent? then Required else WrongType))
  {
    var r := Construct(name, radius, atmosphere);
    if r.ValidationError? {
      var en, er, ea := ErrorsOf(CheckName(name)), ErrorsOf(CheckRadius(radius)), ErrorsOf(CheckAtmosphere(atmosphere));
      assert r.errors == en + er + ea;
      assert forall e :: e in r.errors ==> e in en || e in er || e in ea;
    }
  }

  /** A radius present but not positive is reported by the `gt=0` constraint. */
  lemma NonPositiveRadiusRejected(name: Input<string>, x: real, atmosphere: Input<seq<string>>)
    requires !(name.Present? && !IsPlanetName(name.value))
    requires x <= 0.0
    ensures Construct(name, Present(x), atmosphere).ValidationError?
    ensures FieldError(RadiusField, NotGreaterThanZero) in Construct(name, Present(x), atmosphere).errors
  {
    var en, er, ea := ErrorsOf(CheckName(name)), ErrorsOf(CheckRadius(Present(x))), ErrorsOf(CheckAtmosphere(atmosphere));
    assert er == [FieldError(RadiusField, NotGreaterThanZero)];
    assert Construct(name, Present(x), atmosphere).errors == en + er + ea;
  }

  /** `Locs` distributes over concatenation. */
  lemma LocsAppend(a: seq<FieldError>, b: seq<FieldError>)
    ensures Locs(a + b) == Locs(a) + Locs(b)
  {
  }

  /** Three lists, each empty or one field, concatenated in rank order stay in rank order. */
  lemma OrderedConcat(ln: seq<Loc>, lr: seq<Loc>, la: seq<Loc>)
    requires ln == [] || ln == [NameField]
    requires lr == [] || lr == [RadiusField]
    requires la == [] || la == [AtmosphereField]
    ensures InDeclarationOrder(ln + lr + la)
  {
  }

  /** `validate_radius` accepts exactly what the `gt=0` constraint accepts. */
  lemma RadiusChecksAgree(v: real)
    ensures RadiusConstraint(v) <==> ValidateRadius(v).Passed?
  {
  }

  /**
   * Because `gt=0` runs first, `validate_radius`'s own `ValueError` is never
   * what construction reports.
   */
  lemma RadiusValidatorNeverReports(name: Input<string>, radius: Input<real>, atmosphere: Input<seq<string>>)
    ensures var r := Construct(name, radius, atmosphere);
      r.ValidationError? ==> forall e :: e in r.errors ==> e.kind != NotPositiveRadius
  {
    var rad := CheckRadius(radius);
    assert forall e :: e in ErrorsOf(rad) ==> e.kind != NotPositiveRadius;
  }

  /** Every valid record can be built from its own fields, and is returned unchanged. */
  lemma ConstructAcceptsValid(p: Planet)
    requires ValidPlanet(p)
    ensures Construct(Present(p.name), Present(p.radius), Present(p.atmosphere)) == Ok(p)
  {
  }

  /** Construction never yields a record without an atmosphere list. */
  lemma AtmosphereIsRequired(name: Input<string>, radius: Input<real>, atmosphere: Input<seq<string>>)
    requires !atmosphere.Present?
    ensures !Construct(name, radius, atmosphere).Ok?
  {
  }

  /**
   * An atmosphere of `None`, which `List[str]` does not allow: with a planet
   * name it is a type error at `atmosphere_composition`; with any other name
   * the name exception escapes first.
   */
  lemma NoneAtmosphere(n: string, radius: Input<real>)
    ensures IsPlanetName(n) ==>
      Construct(Present(n), radius, Mistyped).ValidationError? &&
      FieldError(AtmosphereField, WrongType) in Construct(Present(n), radius, Mistyped).errors
    ensures !IsPlanetName(n) ==>
      Construct(Present(n), radius, Mistyped) == InvalidName(InvalidPlanetNameException(n))
  {
    if IsPlanetName(n) {
      var en, er, ea := ErrorsOf(CheckName(Present(n))), ErrorsOf(CheckRadius(radius)), ErrorsOf(CheckAtmosphere(Mistyped));
      assert ea == [FieldError(AtmosphereField, WrongType)];
      assert Construct(Present(n), radius, Mistyped).errors == en + er + ea;
    }
  }

  // ---------------------------------------------------------------------
  // Laws of the JSON round trip

  /**
   * An object holding well-typed values under the three keys decodes
   * exactly as direct construction from those values, whatever other keys
   * it holds.
   */
  lemma DecodeValidatesLikeConstruct(m: map<string, Json>, n: string, x: real, a: seq<string>)
    requires "name" in m && m["name"] == JString(n)
    requires "radius" in m && m["radius"] == JNumber(x)
    requires "atmosphere_composition" in m && m["atmosphere_composition"] == JArray(FromStrings(a))
    ensures Decode(JObject(m)) == Construct(Present(n), Present(x), Present(a))
  {
    StringsRoundTrip(a);
  }

  /** Decoding an encoded record validates it exactly as construction does. */
  lemma DecodeEncodeIsConstruct(p: Planet)
    ensures Decode(Encode(p)) == Construct(Present(p.name), Present(p.radius), Present(p.atmosphere))
  {
    DecodeValidatesLikeConstruct(Encode(p).fields, p.name, p.radius, p.atmosphere);
  }

  /** `from_json(to_json(b))` gives back `b` for every valid record `b`. */
  lemma RoundTrip(p: Planet)
    requires ValidPlanet(p)
    ensures Decode(Encode(p)) == Ok(p)
  {
    DecodeEncodeIsConstruct(p);
    ConstructAcceptsValid(p);
  }

  /** Keys other than the three fields do not affect decoding. */
  lemma DecodeIgnoresExtraKeys(m1: map<string, Json>, m2: map<string, Json>)
    requires forall k :: k in {"name", "radius", "atmosphere_composition"} ==>
      (k in m1 <==> k in m2) && (k in m1 ==> m1[k] == m2[k])
    ensures Decode(JObject(m1)) == Decode(JObject(m2))
  {
    assert NameInput(m1) == NameInput(m2);
    assert RadiusInput(m1) == RadiusInput(m2);
    assert AtmosphereInput(m1) == AtmosphereInput(m2);
  }

  /**
   * A payload decodes to a record exactly when its `name` is a planet name
   * string, its `radius` a number above zero, and its
   * `atmosphere_composition` an array of strings; a missing or mistyped key
   * always fails.
   */
  lemma DecodeOkIff(m: map<string, Json>)
    ensures Decode(JObject(m)).Ok? <==>
      && "name" in m && m["name"].JString? && IsPlanetName(m["name"].s)
      && "radius" in m && m["radius"].JNumber? && m["radius"].n > 0.0
      && "atmosphere_composition" in m && m["atmosphere_composition"].JArray?
      && (forall i :: 0 <= i < |m["atmosphere_composition"].items| ==> m["atmosphere_composition"].items[i].JString?)
  {
  }

  /** A payload without `atmosphere_composition` never decodes to a record. */
  lemma DecodeRequiresAtmosphere(m: map<string, Json>)
    requires "atmosphere_composition" !in m
    ensures !Decode(JObject(m)).Ok?
  {
  }

  /** A non-string element in `atmosphere_composition` is a type error. */
  lemma DecodeRejectsNonStringGas(m: map<string, Json>, i: nat)
    requires "atmosphere_composition" in m && m["atmosphere_composition"].JArray?
    requires i < |m["atmosphere_composition"].items| && !m["atmosphere_composition"].items[i].JString?
    ensures !Decode(JObject(m)).Ok?
    ensures AtmosphereInput(m) == Mistyped
  {
  }

  // ---------------------------------------------------------------------
  // Worked examples

  /** Earth with nitrogen and oxygen builds, encodes and decodes back. */
  lemma EarthExample()
    ensures Construct(Present("Earth"), Present(6371.0), Present(["N2", "O2"]))
      == Ok(Planet("Earth", 6371.0, ["N2", "O2"]))
    ensures Encode(Planet("Earth", 6371.0, ["N2", "O2"])) == JObject(map[
      "name" := JString("Earth"),
      "radius" := JNumber(6371.0),
      "atmosphere_composition" := JArray([JString("N2"), JString("O2")])])
    ensures Decode(Encode(Planet("Earth", 6371.0, ["N2", "O2"]))) == Ok(Planet("Earth", 6371.0, ["N2", "O2"]))
  {
    assert FromStrings(["N2", "O2"]) == [JString("N2"), JString("O2")];
    RoundTrip(Planet("Earth", 6371.0, ["N2", "O2"]));
  }

  /** Pluto is rejected by name, and Mars with a negative radius by the constraint. */
  lemma RejectionExamples()
    ensures Construct(Present("Pluto"), Present(1188.0), Present(["N2"]))
      == InvalidName(InvalidPlanetNameException("Pluto"))
    ensures InvalidPlanetNameException("Pluto").Message() == "Invalid planet name: Pluto"
    ensures Construct(Present("Mars"), Present(-100.0), Present([]))
      == ValidationError([FieldError(RadiusField, NotGreaterThanZero)])
    ensures Construct(Present("Mars"), Present(0.0), Present([]))
      == ValidationError([FieldError(RadiusField, NotGreaterThanZero)])
  {
  }
}
