/**
 * The RSVP data model: the seven questions' answer fields, the enum unions behind them,
 * the question configuration of the Spanish form, the default (empty) response and the
 * auto-save configuration.
 */
module RsvpTypes {
  import opened Wrappers
  import opened JsValues

  /** The properties of an RSVP response. */
  datatype Field =
    | Attendance
    | AccommodationManagement
    | NightsStaying
    | OtherNightsCombination
    | RoomSharing
    | TransportationNeeds
    | DietaryRestrictions
    | MainCoursePreference

  /** The property name a field has in a response object (and as a key of an error record). */
  function FieldName(f: Field): string {
    match f
    case Attendance => "attendance"
    case AccommodationManagement => "accommodationManagement"
    case NightsStaying => "nightsStaying"
    case OtherNightsCombination => "otherNightsCombination"
    case RoomSharing => "roomSharing"
    case TransportationNeeds => "transportationNeeds"
    case DietaryRestrictions => "dietaryRestrictions"
    case MainCoursePreference => "mainCoursePreference"
  }

  lemma FieldNamesDistinct(f: Field, g: Field)
    ensures FieldName(f) == FieldName(g) <==> f == g
  {
  }

  // The string unions of the response's enum-typed properties.
  const AttendanceStatuses: set<string> := {"yes", "no", "maybe"}
  const AccommodationChoices: set<string> := {"yes", "no"}
  const NightOptions: set<string> := {"friday", "saturday", "sunday", "other"}
  const TransportationOptions: set<string> := {"find_ride", "offer_ride", "no_help", "not_sure"}
  const MainCoursePreferences: set<string> := {"fish", "meat", "vegetarian", "no_preference"}

  /** The declared type of a response property. */
  datatype FieldKind =
    | EnumField(allowed: set<string>)      // one member of a string union
    | EnumListField(allowed: set<string>)  // an array of members of a string union
    | TextField                            // free text

  function KindOf(f: Field): FieldKind {
    match f
    case Attendance => EnumField(AttendanceStatuses)
    case AccommodationManagement => EnumField(AccommodationChoices)
    case NightsStaying => EnumListField(NightOptions)
    case OtherNightsCombination => TextField
    case RoomSharing => TextField
    case TransportationNeeds => EnumListField(TransportationOptions)
    case DietaryRestrictions => TextField
    case MainCoursePreference => EnumField(MainCoursePreferences)
  }

  /** `v` is a value the property `f` may hold in a `Partial<RSVPResponse>`. */
  predicate Fits(f: Field, v: Value) {
    match v
    case Undef => true
    case Null => true
    case Text(s) => KindOf(f).TextField? || (KindOf(f).EnumField? && s in KindOf(f).allowed)
    case List(xs) => KindOf(f).EnumListField? && forall i :: 0 <= i < |xs| ==> xs[i] in KindOf(f).allowed
  }

  ghost predicate WellTyped(r: map<Field, Value>) {
    forall f :: f in r ==> Fits(f, r[f])
  }

  /**
   * A `Partial<RSVPResponse>`: a property is either missing (not a key) or holds a value
   * of its declared type, `undefined` or `null`.
   */
  type Response = r: map<Field, Value> | WellTyped(r) witness map[]

  /** Reading a property: a missing property reads as `undefined`. */
  function Get(r: Response, f: Field): (v: Value)
    ensures Fits(f, v)
  {
    if f in r then r[f] else Undef
  }

  /** `{ ...r, [f]: v }`. */
  function Put(r: Response, f: Field, v: Value): (r': Response)
    requires Fits(f, v)
    ensures r'.Keys == r.Keys + {f} && r'[f] == v
    ensures forall g :: g in r && g != f ==> r'[g] == r[g]
  {
    r[f := v]
  }

  /** Reading after a spread: the spread property reads as the new value, every other as before. */
  lemma GetPut(r: Response, f: Field, v: Value, g: Field)
    requires Fits(f, v)
    ensures Get(Put(r, f, v), g) == if g == f then v else Get(r, g)
  {
  }

  // ---------------------------------------------------------------- question configuration

  datatype QuestionType = Radio | Checkbox | TextInput | TextArea

  datatype OptionItem = OptionItem(value: string, caption: string)

  /** The question is shown when the `dependsOn` list includes one of the `showWhen` values. */
  datatype Conditional = Conditional(dependsOn: Field, showWhen: seq<string>)

  datatype Question = Question(
    id: Field,
    prompt: string,
    required: bool,
    qtype: QuestionType,
    options: Option<seq<OptionItem>>,
    placeholder: Option<string>,
    maxLength: Option<nat>,
    conditional: Option<Conditional>)

  const AttendanceOptions: seq<OptionItem> := [
    OptionItem("yes", "Sí, claro"),
    OptionItem("no", "No puedo asistir"),
    OptionItem("maybe", "Aún no lo sé, os diré antes del [fecha límite]")]

  const AccommodationOptions: seq<OptionItem> := [
    OptionItem("yes", "Sí, quiero que me lo gestionéis"),
    OptionItem("no", "No, me lo gestiono por mi cuenta")]

  const NightsOptions: seq<OptionItem> := [
    OptionItem("friday", "Viernes"),
    OptionItem("saturday", "Sábado"),
    OptionItem("sunday", "Domingo (me quedo y me vuelvo el lunes)"),
    OptionItem("other", "Otra combinación (especificar más abajo)")]

  const TransportationChoices: seq<OptionItem> := [
    OptionItem("find_ride", "Sí, me vendría bien que me ayudéis a encontrar plaza con alguien"),
    OptionItem("offer_ride", "Yo tengo coche y podría compartir con otros"),
    OptionItem("no_help", "No necesito ayuda con el transporte"),
    OptionItem("not_sure", "No lo sé todavía")]

  const MainCourseOptions: seq<OptionItem> := [
    OptionItem("fish", "Pescado"),
    OptionItem("meat", "Carne"),
    OptionItem("vegetarian", "Opción vegetariana"),
    OptionItem("no_preference", "No tengo preferencia")]

  const AttendanceQuestion := Question(Attendance,
    "¿Vas a venir a la boda?",
    true, Radio, Some(AttendanceOptions), None, None, None)

  const AccommodationQuestion := Question(AccommodationManagement,
    "¿Quieres que te gestionemos el alojamiento?",
    true, Radio, Some(AccommodationOptions), None, None, None)

  const NightsQuestion := Question(NightsStaying,
    "¿Qué noches te quedarás en Cádiz? (Marca todas las que correspondan)",
    true, Checkbox, Some(NightsOptions), None, None, None)

  const OtherNightsQuestion := Question(OtherNightsCombination,
    "Especifica tu combinación de noches",
    false, TextInput, None, Some("Describe tu combinación de noches..."), Some(200),
    Some(Conditional(NightsStaying, ["other"])))

  const RoomSharingQuestion := Question(RoomSharing,
    "¿Con quién compartes habitación? (Escribe su nombre o indica si no lo sabes aún o si deseas habitación individual)",
    true, TextInput, None, Some("Nombre de la persona o indicar si no lo sabes aún..."), Some(100), None)

  const TransportationQuestion := Question(TransportationNeeds,
    "¿Necesitas ayuda con el transporte? (Marca lo que se aplique)",
    true, Checkbox, Some(TransportationChoices), None, None, None)

  const DietaryQuestion := Question(DietaryRestrictions,
    "¿Tienes alguna alergia, intolerancia o necesidad alimentaria?",
    false, TextArea, None, Some("Describe cualquier alergia, intolerancia o necesidad alimentaria..."), Some(500), None)

  const MainCourseQuestion := Question(MainCoursePreference,
    "¿Qué prefieres para el plato principal?",
    true, Radio, Some(MainCourseOptions), None, None, None)

  /** The Spanish form's questions, in display order. */
  const FormConfig: seq<Question> := [
    AttendanceQuestion, AccommodationQuestion, NightsQuestion, OtherNightsQuestion,
    RoomSharingQuestion, TransportationQuestion, DietaryQuestion, MainCourseQuestion]

  /** The fields whose question carries `required: true`. */
  function RequiredFields(config: seq<Question>): set<Field> {
    set i | 0 <= i < |config| && config[i].required :: config[i].id
  }

  /** The set of option values a radio or checkbox question offers. */
  function OptionValues(options: seq<OptionItem>): set<string> {
    if options == [] then {} else {options[0].value} + OptionValues(options[1..])
  }

  /** The fields some question of `config` asks for. */
  function AskedFields(config: seq<Question>): set<Field> {
    set i | 0 <= i < |config| :: config[i].id
  }

  const AllFields: set<Field> := {
    Attendance, AccommodationManagement, NightsStaying, OtherNightsCombination,
    RoomSharing, TransportationNeeds, DietaryRestrictions, MainCoursePreference}

  /** The question type agrees with the declared type of the property it asks for. */
  predicate TypeMatchesKind(q: Question) {
    match KindOf(q.id)
    case EnumField(allowed) => q.qtype == Radio && q.options.Some? && OptionValues(q.options.value) == allowed
    case EnumListField(allowed) => q.qtype == Checkbox && q.options.Some? && OptionValues(q.options.value) == allowed
    case TextField => (q.qtype == TextInput || q.qtype == TextArea) && q.options.None?
  }

  lemma FormConfigRequiredFields()
    ensures RequiredFields(FormConfig)
         == {Attendance, AccommodationManagement, NightsStaying, RoomSharing, TransportationNeeds, MainCoursePreference}
  {
    var req := {Attendance, AccommodationManagement, NightsStaying, RoomSharing, TransportationNeeds, MainCoursePreference};
    forall f | f in req ensures f in RequiredFields(FormConfig) {
      var i := if f == Attendance then 0 else if f == AccommodationManagement then 1
        else if f == NightsStaying then 2 else if f == RoomSharing then 4
        else if f == TransportationNeeds then 5 else 7;
      assert FormConfig[i].id == f && FormConfig[i].required;
    }
  }

  /** Every property of a response is asked exactly once. */
  lemma FormConfigCoversFields()
    ensures forall i, j :: 0 <= i < j < |FormConfig| ==> FormConfig[i].id != FormConfig[j].id
    ensures AskedFields(FormConfig) == AllFields
  {
    assert FormConfig[0].id == Attendance;
    assert FormConfig[1].id == AccommodationManagement;
    assert FormConfig[2].id == NightsStaying;
    assert FormConfig[3].id == OtherNightsCombination;
    assert FormConfig[4].id == RoomSharing;
    assert FormConfig[5].id == TransportationNeeds;
    assert FormConfig[6].id == DietaryRestrictions;
    assert FormConfig[7].id == MainCoursePreference;
  }

  lemma AttendanceQuestionTyped() ensures TypeMatchesKind(AttendanceQuestion) {
    assert AttendanceOptions[1..][1..][1..] == [];
    assert OptionValues(AttendanceOptions) == AttendanceStatuses;
  }

  lemma AccommodationQuestionTyped() ensures TypeMatchesKind(AccommodationQuestion) {
    assert AccommodationOptions[1..][1..] == [];
    assert OptionValues(AccommodationOptions) == AccommodationChoices;
  }

  lemma NightsQuestionTyped() ensures TypeMatchesKind(NightsQuestion) {
    assert NightsOptions[1..][1..][1..][1..] == [];
    assert OptionValues(NightsOptions) == NightOptions;
  }

  lemma TransportationQuestionTyped() ensures TypeMatchesKind(TransportationQuestion) {
    assert TransportationChoices[1..][1..][1..][1..] == [];
    assert OptionValues(TransportationChoices) == TransportationOptions;
  }

  lemma MainCourseQuestionTyped() ensures TypeMatchesKind(MainCourseQuestion) {
    assert MainCourseOptions[1..][1..][1..][1..] == [];
    assert OptionValues(MainCourseOptions) == MainCoursePreferences;
  }

  lemma TextQuestionsTyped()
    ensures TypeMatchesKind(OtherNightsQuestion)
    ensures TypeMatchesKind(RoomSharingQuestion)
    ensures TypeMatchesKind(DietaryQuestion)
  {
  }

  /** The option values of every radio and checkbox question are exactly the members of its union. */
  lemma FormConfigOptionsMatchTypes()
    ensures forall i :: 0 <= i < |FormConfig| ==> TypeMatchesKind(FormConfig[i])
  {
    forall i | 0 <= i < |FormConfig| ensures TypeMatchesKind(FormConfig[i]) {
      if i == 0 { AttendanceQuestionTyped(); }
      else if i == 1 { AccommodationQuestionTyped(); }
      else if i == 2 { NightsQuestionTyped(); }
      else if i == 5 { TransportationQuestionTyped(); }
      else if i == 7 { MainCourseQuestionTyped(); }
      else { TextQuestionsTyped(); }
    }
  }

  /** The only conditional question is the free-text night combination, shown when "other" is ticked. */
  lemma FormConfigConditional()
    ensures forall i :: 0 <= i < |FormConfig| && FormConfig[i].conditional.Some? ==>
      && FormConfig[i].id == OtherNightsCombination
      && !FormConfig[i].required
      && FormConfig[i].conditional.value == Conditional(NightsStaying, ["other"])
  {
  }

  // ---------------------------------------------------------------- defaults

  /** The response a fresh form starts from. */
  const DefaultResponse: Response := map[
    Attendance := Undef,
    AccommodationManagement := Undef,
    NightsStaying := List([]),
    OtherNightsCombination := Text(""),
    RoomSharing := Text(""),
    TransportationNeeds := List([]),
    DietaryRestrictions := Text(""),
    MainCoursePreference := Undef]

  datatype AutoSaveSettings = AutoSaveSettings(enabled: bool, intervalMs: nat, saveOnBlur: bool)

  const AutoSaveConfig := AutoSaveSettings(true, 30000, true)

  lemma AutoSaveConfigValues()
    ensures AutoSaveConfig.enabled && AutoSaveConfig.intervalMs == 30000
  {
  }
}
