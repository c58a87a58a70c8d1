/**
 * End-to-end walks through the form hook and the persistence service: a new guest filling in the
 * form and submitting it, and a guest who already submitted changing one answer.
 */
module SessionScenarios {
  import opened Wrappers
  import opened JsValues
  import opened RsvpTypes
  import opened Validation
  import opened Persistence
  import opened FormSession

  const Guest := User("guest-1", Some("ana@example.com"), None)

  /** Attendance, nights, transport and main course, one second apart. */
  const FourEdits: seq<Timed> := [
    Timed(1000, FieldEdited(Attendance, Text("yes"))),
    Timed(2000, FieldEdited(NightsStaying, List(["friday", "saturday"]))),
    Timed(3000, FieldEdited(TransportationNeeds, List(["no_help"]))),
    Timed(4000, FieldEdited(MainCoursePreference, Text("fish")))]

  /** Accommodation and room sharing, answered after the four edits. */
  const TwoMoreEdits: seq<Timed> := [
    Timed(5000, FieldEdited(AccommodationManagement, Text("yes"))),
    Timed(6000, FieldEdited(RoomSharing, Text("Juan Pérez")))]

  /** A freshly mounted hook's working copy: nothing chosen, text answers empty. */
  predicate StartsBlank(r: Response) {
    && Get(r, AccommodationManagement) == Undef
    && Get(r, OtherNightsCombination) == Text("") && Get(r, RoomSharing) == Text("")
    && Get(r, DietaryRestrictions) == Text("")
  }

  lemma DefaultStartsBlank()
    ensures StartsBlank(DefaultResponse) && StartsBlank(Initial.responses)
  {
  }

  /** The first edit of a run is applied first. */
  lemma EditFirst(r: Response, events: seq<Timed>)
    requires events != [] && AllTyped(events) && OnlyEdits(events)
    ensures EditedResponses(r, events)
         == EditedResponses(Put(r, events[0].event.field, events[0].event.value), events[1..])
  {
  }

  /** The first two of the four edits, spelt out as successive spreads. */
  lemma FirstTwoOfFourEdits(r: Response)
    requires AllTyped(FourEdits) && OnlyEdits(FourEdits)
    ensures AllTyped(FourEdits[2..]) && OnlyEdits(FourEdits[2..])
    ensures EditedResponses(r, FourEdits)
         == EditedResponses(Put(Put(r, Attendance, Text("yes")), NightsStaying, List(["friday", "saturday"])), FourEdits[2..])
  {
    var r1 := Put(r, Attendance, Text("yes"));
    EditFirst(r, FourEdits);
    assert FourEdits[1..][1..] == FourEdits[2..];
    EditFirst(r1, FourEdits[1..]);
  }

  /** The last two of the four edits, spelt out as successive spreads. */
  lemma LastTwoOfFourEdits(r: Response)
    requires AllTyped(FourEdits[2..]) && OnlyEdits(FourEdits[2..])
    ensures EditedResponses(r, FourEdits[2..])
         == Put(Put(r, TransportationNeeds, List(["no_help"])), MainCoursePreference, Text("fish"))
  {
    var e := FourEdits[2..];
    var r1 := Put(r, TransportationNeeds, List(["no_help"]));
    EditFirst(r, e);
    assert e[1..][1..] == [];
    EditFirst(r1, e[1..]);
  }

  /** The four edits set their fields and leave the others as they were. */
  lemma FourEditsSetFourFields(r: Response)
    requires AllTyped(FourEdits) && OnlyEdits(FourEdits)
    ensures var r4 := EditedResponses(r, FourEdits);
      && Get(r4, Attendance) == Text("yes")
      && Get(r4, NightsStaying) == List(["friday", "saturday"])
      && Get(r4, TransportationNeeds) == List(["no_help"])
      && Get(r4, MainCoursePreference) == Text("fish")
      && forall f :: f !in {Attendance, NightsStaying, TransportationNeeds, MainCoursePreference} ==> Get(r4, f) == Get(r, f)
  {
    var r1 := Put(r, Attendance, Text("yes"));
    var r2 := Put(r1, NightsStaying, List(["friday", "saturday"]));
    var r3 := Put(r2, TransportationNeeds, List(["no_help"]));
    var r4 := Put(r3, MainCoursePreference, Text("fish"));
    FirstTwoOfFourEdits(r);
    LastTwoOfFourEdits(r2);
    assert EditedResponses(r, FourEdits) == r4;
    forall g | g !in {Attendance, NightsStaying, TransportationNeeds, MainCoursePreference}
      ensures Get(r4, g) == Get(r, g)
    {
      GetPut(r, Attendance, Text("yes"), g);
      GetPut(r1, NightsStaying, List(["friday", "saturday"]), g);
      GetPut(r2, TransportationNeeds, List(["no_help"]), g);
      GetPut(r3, MainCoursePreference, Text("fish"), g);
    }
  }

  /** The two further edits set their fields and leave the others as they were. */
  lemma TwoMoreEditsSetTwoFields(r: Response)
    requires AllTyped(TwoMoreEdits) && OnlyEdits(TwoMoreEdits)
    ensures var r2 := EditedResponses(r, TwoMoreEdits);
      && Get(r2, AccommodationManagement) == Text("yes")
      && Get(r2, RoomSharing) == Text("Juan Pérez")
      && forall f :: f !in {AccommodationManagement, RoomSharing} ==> Get(r2, f) == Get(r, f)
  {
    var e := TwoMoreEdits;
    var r1 := Put(r, AccommodationManagement, Text("yes"));
    var r2 := Put(r1, RoomSharing, Text("Juan Pérez"));
    EditFirst(r, e);
    assert e[1..][1..] == [];
    EditFirst(r1, e[1..]);
    assert EditedResponses(r, e) == r2;
    forall g | g !in {AccommodationManagement, RoomSharing}
      ensures Get(r2, g) == Get(r, g)
    {
      GetPut(r, AccommodationManagement, Text("yes"), g);
      GetPut(r1, RoomSharing, Text("Juan Pérez"), g);
    }
  }

  /** The validator's verdict on the four answers: accommodation and room sharing are missing. */
  lemma FourAnswersErrors(r: Response)
    requires Get(r, Attendance) == Text("yes")
    requires Get(r, NightsStaying) == List(["friday", "saturday"])
    requires Get(r, TransportationNeeds) == List(["no_help"])
    requires Get(r, MainCoursePreference) == Text("fish")
    requires Get(r, AccommodationManagement) == Undef
    requires Get(r, OtherNightsCombination) == Text("") && Get(r, RoomSharing) == Text("")
    ensures ValidateResponse(r) == map[AccommodationManagement := AccommodationMessage, RoomSharing := RoomSharingMessage]
  {
    var expected := map[AccommodationManagement := AccommodationMessage, RoomSharing := RoomSharingMessage];
    assert IsBlank("");
    forall f | f in AllFields
      ensures Fails(r, f) <==> f in expected
    {
    }
  }

  /**
   * Four answers are not enough to submit: accommodation and room sharing are required as well,
   * so nothing is written and exactly those two messages are surfaced.
   */
  lemma FourAnswersCannotBeSubmitted(h0: Hook)
    requires StartsBlank(h0.session.responses) && h0.store == map[]
    requires AllTyped(FourEdits) && OnlyEdits(FourEdits)
    ensures var h := Run(h0, Guest, FourEdits);
            var (s, store, ok) := SubmitForm(h.session, h.store, Guest, 5000, false);
      && !ok && store == map[]
      && VisibleErrors(s) == FieldErrors(map[AccommodationManagement := AccommodationMessage, RoomSharing := RoomSharingMessage])
  {
    var h := Run(h0, Guest, FourEdits);
    FourEditsLeaveTwoErrors(h0);
    EditsOnlyChangeWorkingCopy(h0, Guest, FourEdits);
    SubmitWithTwoErrors(h.session, h.store);
  }

  lemma SubmitWithTwoErrors(s0: Session, store0: Store)
    requires ValidateResponse(s0.responses) == map[AccommodationManagement := AccommodationMessage, RoomSharing := RoomSharingMessage]
    ensures var (s, store, ok) := SubmitForm(s0, store0, Guest, 5000, false);
      && !ok && store == store0
      && VisibleErrors(s) == FieldErrors(map[AccommodationManagement := AccommodationMessage, RoomSharing := RoomSharingMessage])
  {
  }

  lemma FourEditsLeaveTwoErrors(h0: Hook)
    requires StartsBlank(h0.session.responses)
    requires AllTyped(FourEdits) && OnlyEdits(FourEdits)
    ensures ValidateResponse(Run(h0, Guest, FourEdits).session.responses)
         == map[AccommodationManagement := AccommodationMessage, RoomSharing := RoomSharingMessage]
  {
    var h := Run(h0, Guest, FourEdits);
    EditsOnlyChangeWorkingCopy(h0, Guest, FourEdits);
    FourEditsSetFourFields(h0.session.responses);
    FourAnswersErrors(h.session.responses);
  }

  /**
   * With six answers the first submit creates the guest's document at version 1 as a final
   * submission. The raw working copy is stored, including the default's blank entries.
   */
  lemma SixAnswersCreateFinalDocument(h0: Hook)
    requires StartsBlank(h0.session.responses) && h0.store == map[]
    requires AllTyped(FourEdits) && OnlyEdits(FourEdits) && AllTyped(TwoMoreEdits) && OnlyEdits(TwoMoreEdits)
    ensures var h := Run(Run(h0, Guest, FourEdits), Guest, TwoMoreEdits);
            var (s, store, ok) := SubmitForm(h.session, h.store, Guest, 7000, false);
      && ok && s.isSubmitted && !s.isDirty
      && Guest.uid in store
      && store[Guest.uid].version == 1 && store[Guest.uid].isSubmitted
      && store[Guest.uid].submittedAt == 7000 && store[Guest.uid].lastUpdatedAt == 7000
      && store[Guest.uid].userEmail == "ana@example.com" && store[Guest.uid].userDisplayName == ""
      && store[Guest.uid].responses == h.session.responses
      && Get(store[Guest.uid].responses, DietaryRestrictions) == Text("")
  {
    var h := Run(Run(h0, Guest, FourEdits), Guest, TwoMoreEdits);
    SixEditsCompleteTheForm(h0);
    FirstSubmitCreatesFinalDocument(h.session, h.store, Guest, 7000);
  }

  /** After the six edits the working copy validates, nothing has been saved and the dietary note is still empty. */
  lemma SixEditsCompleteTheForm(h0: Hook)
    requires StartsBlank(h0.session.responses) && h0.store == map[]
    requires AllTyped(FourEdits) && OnlyEdits(FourEdits) && AllTyped(TwoMoreEdits) && OnlyEdits(TwoMoreEdits)
    ensures var h := Run(Run(h0, Guest, FourEdits), Guest, TwoMoreEdits);
      && IsFormValid(h.session.responses) && h.store == map[]
      && Get(h.session.responses, DietaryRestrictions) == Text("")
  {
    var h4 := Run(h0, Guest, FourEdits);
    AfterFourEdits(h0);
    AfterTwoMoreEdits(h4);
    SixAnswersValid(Run(h4, Guest, TwoMoreEdits).session.responses);
  }

  lemma AfterFourEdits(h0: Hook)
    requires StartsBlank(h0.session.responses)
    requires AllTyped(FourEdits) && OnlyEdits(FourEdits)
    ensures var h := Run(h0, Guest, FourEdits);
      && Get(h.session.responses, Attendance) == Text("yes")
      && Get(h.session.responses, NightsStaying) == List(["friday", "saturday"])
      && Get(h.session.responses, TransportationNeeds) == List(["no_help"])
      && Get(h.session.responses, MainCoursePreference) == Text("fish")
      && Get(h.session.responses, DietaryRestrictions) == Text("")
      && h.store == h0.store
  {
    EditsOnlyChangeWorkingCopy(h0, Guest, FourEdits);
    FourEditsSetFourFields(h0.session.responses);
  }

  lemma AfterTwoMoreEdits(h4: Hook)
    requires AllTyped(TwoMoreEdits) && OnlyEdits(TwoMoreEdits)
    ensures var h := Run(h4, Guest, TwoMoreEdits);
      && Get(h.session.responses, AccommodationManagement) == Text("yes")
      && Get(h.session.responses, RoomSharing) == Text("Juan Pérez")
      && (forall f :: f !in {AccommodationManagement, RoomSharing} ==> Get(h.session.responses, f) == Get(h4.session.responses, f))
      && h.store == h4.store
  {
    EditsOnlyChangeWorkingCopy(h4, Guest, TwoMoreEdits);
    TwoMoreEditsSetTwoFields(h4.session.responses);
  }

  /** The validator accepts the six answers. */
  lemma SixAnswersValid(r: Response)
    requires Get(r, Attendance) == Text("yes") && Get(r, AccommodationManagement) == Text("yes")
    requires Get(r, NightsStaying) == List(["friday", "saturday"])
    requires Get(r, TransportationNeeds) == List(["no_help"])
    requires Get(r, MainCoursePreference) == Text("fish")
    requires Get(r, RoomSharing) == Text("Juan Pérez")
    ensures IsFormValid(r)
  {
    assert !IsBlank("Juan Pérez") by { assert !IsJsWhitespace("Juan Pérez"[0]); }
    CompleteResponseIsValid(r);
  }

  /**
   * A guest with a complete stored submission reloads it, changes only the dietary note and
   * submits again: every other stored answer survives, the note is replaced and the version grows by one.
   */
  lemma ChangeDietaryNoteAfterSubmitting(s: Session, store: Store, user: User, note: string, t0: nat, t1: nat, t2: nat)
    requires user.uid in store && IsFormValid(store[user.uid].responses)
    ensures var s1 := LoadExistingData(s, store, user, t0, false);
            var s2 := UpdateField(s1, DietaryRestrictions, Text(note), t1);
            var (s3, store3, ok) := SubmitForm(s2, store, user, t2, false);
      && ok && user.uid in store3
      && store3[user.uid].version == store[user.uid].version + 1
      && store3[user.uid].submittedAt == store[user.uid].submittedAt
      && store3[user.uid].responses[DietaryRestrictions] == Text(note)
      && (forall f :: f in store[user.uid].responses && f != DietaryRestrictions ==>
            f in store3[user.uid].responses && store3[user.uid].responses[f] == store[user.uid].responses[f])
  {
    var s1 := LoadExistingData(s, store, user, t0, false);
    DietaryNeverInspected(s1.responses, Text(note));
  }
}
