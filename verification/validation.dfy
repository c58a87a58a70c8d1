/**
 * `RSVPValidation` of src/lib/firestore.ts: seven independent rules mapping a partial
 * response to a record from property to a Spanish error message. The record is keyed by
 * `Field`; its JavaScript key is `FieldName(f)`, which is injective (`FieldNamesDistinct`).
 */
module Validation {
  import opened JsValues
  import opened RsvpTypes

  const AttendanceMessage := "Por favor, indica si vas a venir a la boda"
  const AccommodationMessage := "Por favor, indica si quieres que gestionemos tu alojamiento"
  const NightsMessage := "Por favor, selecciona al menos una noche"
  const OtherNightsMessage := "Por favor, especifica tu combinación de noches"
  const RoomSharingMessage := "Por favor, indica con quién compartes habitación"
  const TransportationMessage := "Por favor, selecciona al menos una opción de transporte"
  const MainCourseMessage := "Por favor, selecciona tu preferencia para el plato principal"

  /** The message each rule reports. */
  function Message(f: Field): string {
    match f
    case Attendance => AttendanceMessage
    case AccommodationManagement => AccommodationMessage
    case NightsStaying => NightsMessage
    case OtherNightsCombination => OtherNightsMessage
    case RoomSharing => RoomSharingMessage
    case TransportationNeeds => TransportationMessage
    case DietaryRestrictions => ""
    case MainCoursePreference => MainCourseMessage
  }

  /** The seven rules of `validateResponse`, one per reported field; dietary restrictions have none. */
  predicate Fails(r: Response, f: Field) {
    match f
    case Attendance => !Truthy(Get(r, Attendance))
    case AccommodationManagement => !Truthy(Get(r, AccommodationManagement))
    case NightsStaying => MissingOrEmpty(Get(r, NightsStaying))
    case OtherNightsCombination =>
      Includes(Get(r, NightsStaying), "other") && !TrimmedTruthy(Get(r, OtherNightsCombination))
    case RoomSharing => !TrimmedTruthy(Get(r, RoomSharing))
    case TransportationNeeds => MissingOrEmpty(Get(r, TransportationNeeds))
    case DietaryRestrictions => false
    case MainCoursePreference => !Truthy(Get(r, MainCoursePreference))
  }

  /** `RSVPValidation.validateResponse`: every rule is evaluated, none short-circuits. */
  function ValidateResponse(r: Response): (errors: map<Field, string>)
    ensures DietaryRestrictions !in errors
    ensures forall f :: f in errors ==> errors[f] != ""
  {
    map f | f in AllFields && Fails(r, f) :: Message(f)
  }

  /** `RSVPValidation.isFormValid`: the error record has no keys. */
  predicate IsFormValid(r: Response) {
    |ValidateResponse(r)| == 0
  }

  /** `RSVPValidation.getFieldError`: the field's message, or `''`. */
  function GetFieldError(f: Field, r: Response): (msg: string)
    ensures msg != "" <==> f in ValidateResponse(r)
    ensures f in ValidateResponse(r) ==> msg == ValidateResponse(r)[f]
  {
    var errors := ValidateResponse(r);
    if f in errors then errors[f] else ""
  }

  // ---------------------------------------------------------------- the configuration's view

  /** A question counts as answered the way its input type is filled in. */
  predicate Answered(q: Question, r: Response) {
    match q.qtype
    case Radio => Truthy(Get(r, q.id))
    case Checkbox => !MissingOrEmpty(Get(r, q.id))
    case TextInput => TrimmedTruthy(Get(r, q.id))
    case TextArea => TrimmedTruthy(Get(r, q.id))
  }

  /** A conditional question is shown when its controlling list includes one of its trigger values. */
  predicate Shown(q: Question, r: Response) {
    match q.conditional
    case None => true
    case Some(c) => exists i :: 0 <= i < |c.showWhen| && Includes(Get(r, c.dependsOn), c.showWhen[i])
  }

  /** The guest must answer a question that is required, or conditional and shown. */
  predicate Demanded(q: Question, r: Response) {
    q.required || (q.conditional.Some? && Shown(q, r))
  }

  lemma ValidateAtIndex(r: Response, i: nat)
    requires i < |FormConfig|
    ensures FormConfig[i].id in ValidateResponse(r)
        <==> Demanded(FormConfig[i], r) && !Answered(FormConfig[i], r)
  {
    var q := FormConfig[i];
    var errors := ValidateResponse(r);
    if i == 3 {
      assert q == OtherNightsQuestion;
      assert q.conditional.value.showWhen == ["other"];
      if Includes(Get(r, NightsStaying), "other") {
        assert Includes(Get(r, q.conditional.value.dependsOn), q.conditional.value.showWhen[0]);
      }
    }
  }

  /**
   * The validator reports a question exactly when the form configuration demands it and it is
   * unanswered, and reports nothing else: the `required` flags and the conditional rule of the
   * configuration agree with the seven hand-written rules.
   */
  lemma ValidateAgreesWithConfig(r: Response)
    ensures forall i :: 0 <= i < |FormConfig| ==>
      (FormConfig[i].id in ValidateResponse(r) <==> Demanded(FormConfig[i], r) && !Answered(FormConfig[i], r))
    ensures forall k :: k in ValidateResponse(r) ==> exists i :: 0 <= i < |FormConfig| && FormConfig[i].id == k
  {
    forall i | 0 <= i < |FormConfig|
      ensures FormConfig[i].id in ValidateResponse(r) <==> Demanded(FormConfig[i], r) && !Answered(FormConfig[i], r)
    {
      ValidateAtIndex(r, i);
    }
    FormConfigCoversFields();
    forall k | k in ValidateResponse(r)
      ensures exists i :: 0 <= i < |FormConfig| && FormConfig[i].id == k
    {
      assert k in AskedFields(FormConfig);
    }
  }

  /** `isFormValid` holds exactly when every question the configuration demands is answered. */
  lemma IsFormValidIffConfigSatisfied(r: Response)
    ensures IsFormValid(r) <==> forall i :: 0 <= i < |FormConfig| && Demanded(FormConfig[i], r) ==> Answered(FormConfig[i], r)
  {
    ValidateAgreesWithConfig(r);
    if !IsFormValid(r) {
      var k :| k in ValidateResponse(r);
      var i :| 0 <= i < |FormConfig| && FormConfig[i].id == k;
      assert Demanded(FormConfig[i], r) && !Answered(FormConfig[i], r);
    }
  }

  // ---------------------------------------------------------------- named consequences

  /** The six fields an empty response is reported for are exactly the `required` questions. */
  lemma ValidateEmptyResponse()
    ensures ValidateResponse(map[]).Keys == RequiredFields(FormConfig)
    ensures ValidateResponse(map[]).Keys
         == {Attendance, AccommodationManagement, NightsStaying, RoomSharing, TransportationNeeds, MainCoursePreference}
  {
    FormConfigRequiredFields();
  }

  /** The default response fails with the six required errors and no conditional one. */
  lemma ValidateDefaultResponse()
    ensures ValidateResponse(DefaultResponse).Keys == RequiredFields(FormConfig)
    ensures OtherNightsCombination !in ValidateResponse(DefaultResponse)
  {
    FormConfigRequiredFields();
    var d := DefaultResponse;
    var required := {Attendance, AccommodationManagement, NightsStaying, RoomSharing, TransportationNeeds, MainCoursePreference};
    assert Get(d, Attendance) == Undef && Get(d, AccommodationManagement) == Undef && Get(d, MainCoursePreference) == Undef;
    assert Get(d, NightsStaying) == List([]) && Get(d, TransportationNeeds) == List([]);
    assert Get(d, OtherNightsCombination) == Text("") && Get(d, RoomSharing) == Text("") && IsBlank("");
    forall f ensures Fails(d, f) <==> f in required {
    }
    assert ValidateResponse(d).Keys == required;
  }

  /** The conditional rule: "other" ticked and no non-blank description. */
  lemma OtherNightsRule(r: Response)
    ensures OtherNightsCombination in ValidateResponse(r)
        <==> (Get(r, NightsStaying).List? && "other" in Get(r, NightsStaying).items
              && !TrimmedTruthy(Get(r, OtherNightsCombination)))
  {
  }

  /** A response with the six required answers and without "other" is valid. */
  lemma CompleteResponseIsValid(r: Response)
    requires Truthy(Get(r, Attendance)) && Truthy(Get(r, AccommodationManagement))
    requires Get(r, NightsStaying).List? && |Get(r, NightsStaying).items| > 0
    requires "other" !in Get(r, NightsStaying).items
    requires TrimmedTruthy(Get(r, RoomSharing))
    requires Get(r, TransportationNeeds).List? && |Get(r, TransportationNeeds).items| > 0
    requires Truthy(Get(r, MainCoursePreference))
    ensures IsFormValid(r)
  {
    assert ValidateResponse(r) == map[];
  }

  /** The dietary restrictions answer never changes the verdict. */
  lemma DietaryNeverInspected(r: Response, v: Value)
    requires Fits(DietaryRestrictions, v)
    ensures ValidateResponse(Put(r, DietaryRestrictions, v)) == ValidateResponse(r)
  {
    var r' := Put(r, DietaryRestrictions, v);
    forall f ensures Fails(r', f) == Fails(r, f) {
      assert Get(r', f) == Get(r, f) || f == DietaryRestrictions;
    }
  }

  // ---------------------------------------------------------------- the unit tests, as lemmas

  /** A response with the six required answers, the shape the tests use. */
  function TestResponse(nights: seq<string>): Response
    requires forall i :: 0 <= i < |nights| ==> nights[i] in NightOptions
  {
    map[Attendance := Text("yes"), AccommodationManagement := Text("yes"),
        NightsStaying := List(nights), RoomSharing := Text("Juan Pérez"),
        TransportationNeeds := List(["find_ride"]), MainCoursePreference := Text("fish")]
  }

  lemma EmptyFormTest()
    ensures Attendance in ValidateResponse(map[]) && AccommodationManagement in ValidateResponse(map[])
    ensures NightsStaying in ValidateResponse(map[]) && RoomSharing in ValidateResponse(map[])
    ensures TransportationNeeds in ValidateResponse(map[]) && MainCoursePreference in ValidateResponse(map[])
  {
    ValidateEmptyResponse();
  }

  lemma CompleteFormTest()
    ensures ValidateResponse(TestResponse(["friday", "saturday"])) == map[]
    ensures IsFormValid(TestResponse(["friday", "saturday"]))
  {
    var r := TestResponse(["friday", "saturday"]);
    assert !IsBlank("Juan Pérez") by { assert !IsJsWhitespace("Juan Pérez"[0]); }
    CompleteResponseIsValid(r);
  }

  lemma OtherNeedsCombinationTest()
    ensures OtherNightsCombination in ValidateResponse(TestResponse(["other"]))
  {
  }

  lemma NoOtherNoCombinationTest()
    ensures OtherNightsCombination !in ValidateResponse(TestResponse(["friday", "saturday"]))
  {
  }

  lemma AttendanceOnlyIsInvalidTest()
    ensures !IsFormValid(map[Attendance := Text("yes")])
  {
    assert NightsStaying in ValidateResponse(map[Attendance := Text("yes")]);
  }
}
