/**
 * The `useRSVPForm` hook of src/lib/hooks/useRSVPForm.ts as a transition system. Each operation
 * is one step that applies the callback's own state updates and then the React effects those
 * updates trigger: re-validation and the dirty check when `responses` is replaced, and the
 * auto-save effect (clear the timer, re-arm it for `now + intervalMs` when enabled, dirty and not
 * saving) whenever one of its dependencies changes. A persistence call completes within its step;
 * `fault` decides whether it throws.
 */
module FormSession {
  import opened Wrappers
  import opened JsValues
  import opened RsvpTypes
  import opened Validation
  import opened Persistence

  /** The signed-in user the hook saves for. */
  datatype User = User(uid: string, email: Option<string>, displayName: Option<string>)

  /** `x || ''` for an optional string. */
  function OrEmpty(o: Option<string>): string {
    o.GetOr("")
  }

  /** The hook's error record: the validator's record, or the single `submit` error. */
  datatype FormErrors = FieldErrors(byField: map<Field, string>) | SubmitError(message: string)

  const NoErrors := FieldErrors(map[])

  const SubmitFailedMessage := "No se pudo enviar la respuesta. Por favor, inténtalo de nuevo."

  datatype Session = Session(
    responses: Response,
    errors: FormErrors,
    lastSaved: Response,       // `lastSavedDataRef.current`
    isDirty: bool,
    isSaving: bool,
    lastSavedAt: Option<nat>,
    isSubmitted: bool,
    hasValidated: bool,
    autoSaveEnabled: bool,
    timerDueAt: Option<nat>,   // the pending auto-save timeout, if any
    atDefaultObject: bool)     // `responses` is the `DEFAULT_RSVP_RESPONSE` object itself

  /** What `JSON.stringify` keeps of a response: properties whose value is not `undefined`. */
  function Serialized(r: Response): map<Field, Value> {
    map f | f in r && r[f] != Undef :: r[f]
  }

  /** The dirty check: the serialized working copy differs from the serialized last-saved copy. */
  predicate Differs(a: Response, b: Response) {
    Serialized(a) != Serialized(b)
  }

  /** The auto-save effect's condition for arming its timer. */
  predicate ShouldArm(s: Session) {
    s.autoSaveEnabled && s.isDirty && !s.isSaving
  }

  /** The auto-save effect re-runs: its cleanup clears the timer and it re-arms it if it should. */
  function Rearm(s: Session, now: nat): (s': Session)
    ensures s'.timerDueAt.Some? <==> ShouldArm(s)
    ensures ShouldArm(s) ==> s'.timerDueAt == Some(now + AutoSaveConfig.intervalMs)
    ensures s' == s.(timerDueAt := s'.timerDueAt)
  {
    s.(timerDueAt := if ShouldArm(s) then Some(now + AutoSaveConfig.intervalMs) else None)
  }

  /** The effects of a new `responses` object: recompute errors and `isDirty`, then the auto-save effect. */
  function Revalidate(s: Session, now: nat): (s': Session)
    ensures s'.errors == FieldErrors(ValidateResponse(s.responses))
    ensures s'.isDirty <==> Differs(s.responses, s.lastSaved)
    ensures s'.timerDueAt.Some? <==> ShouldArm(s')
    ensures s' == s.(errors := s'.errors, isDirty := s'.isDirty, timerDueAt := s'.timerDueAt)
  {
    Rearm(s.(errors := FieldErrors(ValidateResponse(s.responses)), isDirty := Differs(s.responses, s.lastSaved)), now)
  }

  /** The state once the hook has mounted without initial data (its effects have run once). */
  const Initial := Session(DefaultResponse, FieldErrors(ValidateResponse(DefaultResponse)), DefaultResponse,
                           false, false, None, false, false, AutoSaveConfig.enabled, None, true)

  /** The `errors` the hook returns: hidden until validation has been triggered. */
  function VisibleErrors(s: Session): FormErrors {
    if s.hasValidated then s.errors else NoErrors
  }

  /** The `isValid` the hook returns, independent of `hasValidated`. */
  predicate IsValid(s: Session) {
    IsFormValid(s.responses)
  }

  /** The state facts every step keeps once the effects have settled. */
  ghost predicate Consistent(s: Session) {
    && !s.isSaving
    && (s.isDirty <==> Differs(s.responses, s.lastSaved))
    && (s.timerDueAt.Some? <==> ShouldArm(s))
    && (s.atDefaultObject ==> s.responses == DefaultResponse)
  }

  // ---------------------------------------------------------------- operations

  /** Take over a stored submission: its responses become both the working and the last-saved copy. */
  function AdoptSubmission(s: Session, sub: Submission, now: nat): (s': Session)
    ensures s'.responses == sub.responses && s'.lastSaved == sub.responses
    ensures s'.isSubmitted == sub.isSubmitted && s'.lastSavedAt == Some(sub.lastUpdatedAt)
    ensures !s'.isDirty && s'.timerDueAt.None?
    ensures s'.errors == FieldErrors(ValidateResponse(sub.responses))
    ensures s'.hasValidated == s.hasValidated && s'.autoSaveEnabled == s.autoSaveEnabled && s'.isSaving == s.isSaving
  {
    Revalidate(s.(responses := sub.responses, isSubmitted := sub.isSubmitted, lastSavedAt := Some(sub.lastUpdatedAt),
                  lastSaved := sub.responses, atDefaultObject := false), now)
  }

  /** The `initialData` effect. */
  function ApplyInitialData(s: Session, initialData: Option<Submission>, now: nat): (s': Session)
    ensures initialData.None? ==> s' == s
    ensures initialData.Some? ==> s'.responses == initialData.value.responses && s'.isSubmitted == initialData.value.isSubmitted
  {
    match initialData
    case None => s
    case Some(sub) => AdoptSubmission(s, sub, now)
  }

  /** `loadExistingData`: adopt the stored submission if there is one; a missing one or a failed load changes nothing. */
  function LoadExistingData(s: Session, store: Store, user: User, now: nat, fault: bool): (s': Session)
    ensures fault || user.uid !in store ==> s' == s
    ensures !fault && user.uid in store ==>
      && s'.responses == store[user.uid].responses && s'.lastSaved == store[user.uid].responses
      && s'.isSubmitted == store[user.uid].isSubmitted && !s'.isDirty
  {
    match GetRSVPResponse(store, user.uid, fault)
    case Success(Some(sub)) => AdoptSubmission(s, sub, now)
    case _ => s
  }

  /** `updateField`: replace one property of the working copy; nothing is saved. */
  function UpdateField(s: Session, f: Field, v: Value, now: nat): (s': Session)
    requires Fits(f, v)
    ensures s'.responses.Keys == s.responses.Keys + {f} && s'.responses[f] == v
    ensures forall g :: g in s.responses && g != f ==> s'.responses[g] == s.responses[g]
    ensures s'.isDirty <==> Differs(s'.responses, s.lastSaved)
    ensures s'.errors == FieldErrors(ValidateResponse(s'.responses))
    ensures s'.lastSaved == s.lastSaved && s'.isSubmitted == s.isSubmitted && s'.hasValidated == s.hasValidated
    ensures s'.lastSavedAt == s.lastSavedAt && s'.autoSaveEnabled == s.autoSaveEnabled && s'.isSaving == s.isSaving
    ensures ShouldArm(s') ==> s'.timerDueAt == Some(now + AutoSaveConfig.intervalMs)
    ensures !ShouldArm(s') ==> s'.timerDueAt.None?
  {
    Revalidate(s.(responses := Put(s.responses, f, v), atDefaultObject := false), now)
  }

  /** `validateForm`: surface the validator's errors from now on. */
  function ValidateForm(s: Session): (s': Session)
    ensures s'.hasValidated
    ensures s'.errors == FieldErrors(ValidateResponse(s.responses))
    ensures VisibleErrors(s') == FieldErrors(ValidateResponse(s.responses))
    ensures s' == s.(hasValidated := true, errors := s'.errors)
  {
    s.(hasValidated := true, errors := FieldErrors(ValidateResponse(s.responses)))
  }

  /**
   * `submitForm`: validate first; an invalid form is never saved. A valid one is saved once as a
   * final submission; success marks the session submitted and clean, failure surfaces the submit error.
   */
  function SubmitForm(s: Session, store: Store, user: User, now: nat, fault: bool): (res: (Session, Store, bool))
    ensures var (s', store', ok) := res;
      && s'.hasValidated && s'.responses == s.responses && (!s.isSaving ==> !s'.isSaving)
      && s'.autoSaveEnabled == s.autoSaveEnabled
    ensures var (s', store', ok) := res;
      !IsFormValid(s.responses) ==>
        && !ok && store' == store
        && s' == s.(hasValidated := true, errors := FieldErrors(ValidateResponse(s.responses)))
    ensures var (s', store', ok) := res;
      IsFormValid(s.responses) ==> (ok <==> !fault)
    ensures var (s', store', ok) := res;
      ok ==>
        && store' == SaveRSVPResponse(store, user.uid, OrEmpty(user.email), OrEmpty(user.displayName),
                                      s.responses, true, now, false).value
        && user.uid in store' && store'[user.uid].isSubmitted
        && s'.isSubmitted && !s'.isDirty && s'.lastSaved == s.responses && s'.lastSavedAt == Some(now)
        && s'.timerDueAt.None?
    ensures var (s', store', ok) := res;
      IsFormValid(s.responses) && !ok ==>
        && store' == store && s'.errors == SubmitError(SubmitFailedMessage)
        && s'.isSubmitted == s.isSubmitted && s'.isDirty == s.isDirty && s'.lastSaved == s.lastSaved
  {
    var errs := ValidateResponse(s.responses);
    if |errs| > 0 then
      (s.(hasValidated := true, errors := FieldErrors(errs)), store, false)
    else
      // Turning `hasValidated` on re-runs the validation effect, which stores the (empty) record.
      var errors := if s.hasValidated then s.errors else FieldErrors(errs);
      match SaveRSVPResponse(store, user.uid, OrEmpty(user.email), OrEmpty(user.displayName), s.responses, true, now, fault)
      case Success(st) =>
        var s' := s.(hasValidated := true, errors := errors, lastSavedAt := Some(now), lastSaved := s.responses,
                     isDirty := false, isSubmitted := true, isSaving := false);
        (Rearm(s', now), st, true)
      case Failure(_) =>
        (Rearm(s.(hasValidated := true, errors := SubmitError(SubmitFailedMessage), isSaving := false), now), store, false)
  }

  /**
   * The auto-save timer fires (`performAutoSave`): nothing while saving or clean; otherwise the raw
   * working copy is saved as a draft. Failures are swallowed; the hook's `isSubmitted` is untouched.
   */
  function AutoSaveTimerFires(s: Session, store: Store, user: User, now: nat, fault: bool): (res: (Session, Store))
    ensures s.timerDueAt.None? || now < s.timerDueAt.value ==> res == (s, store)
    ensures res.0.responses == s.responses && res.0.isSubmitted == s.isSubmitted && res.0.hasValidated == s.hasValidated
    ensures res.0.errors == s.errors && res.0.autoSaveEnabled == s.autoSaveEnabled
    ensures !s.isSaving ==> !res.0.isSaving
    ensures s.isSaving || !s.isDirty ==> res.1 == store
    ensures res.1 != store ==>
      && res.1 == SaveRSVPResponse(store, user.uid, OrEmpty(user.email), OrEmpty(user.displayName),
                                   s.responses, false, now, false).value
      && user.uid in res.1 && !res.1[user.uid].isSubmitted
      && res.0.lastSaved == s.responses && !res.0.isDirty
    ensures s.timerDueAt.Some? && now >= s.timerDueAt.value && !s.isSaving && s.isDirty && !fault ==>
      && res.1 == SaveRSVPResponse(store, user.uid, OrEmpty(user.email), OrEmpty(user.displayName),
                                   s.responses, false, now, false).value
      && !res.0.isDirty && res.0.lastSaved == s.responses && res.0.lastSavedAt == Some(now)
      && res.0.timerDueAt.None?
    ensures fault ==>
      res.1 == store && res.0.isDirty == s.isDirty && res.0.lastSaved == s.lastSaved && res.0.lastSavedAt == s.lastSavedAt
    ensures s.timerDueAt.Some? && now >= s.timerDueAt.value ==>
      && (res.0.timerDueAt.Some? <==> ShouldArm(res.0))
      && (ShouldArm(res.0) ==> res.0.timerDueAt == Some(now + AutoSaveConfig.intervalMs))
  {
    match s.timerDueAt
    case None => (s, store)
    case Some(due) =>
      if now < due then (s, store)
      else if s.isSaving || !s.isDirty then (s.(timerDueAt := None), store)
      else
        match SaveRSVPResponse(store, user.uid, OrEmpty(user.email), OrEmpty(user.displayName), s.responses, false, now, fault)
        case Success(st) =>
          (Rearm(s.(lastSavedAt := Some(now), lastSaved := s.responses, isDirty := false, isSaving := false), now), st)
        case Failure(_) =>
          // "Auto-save failed" is only logged; still dirty, so the effect re-arms the timer.
          (Rearm(s.(isSaving := false), now), store)
  }

  /**
   * `resetForm`: back to the default response with a clean, unsubmitted state. Unless `responses`
   * already was the default object, the new object re-runs the validation effect, which refills
   * `errors` with the default response's errors right after `setErrors({})`.
   */
  function ResetForm(s: Session, now: nat): (s': Session)
    ensures s'.responses == DefaultResponse && s'.lastSaved == DefaultResponse
    ensures !s'.isDirty && !s'.isSubmitted && s'.hasValidated == s.hasValidated
    ensures s'.errors == if s.atDefaultObject then NoErrors else FieldErrors(ValidateResponse(DefaultResponse))
    ensures s'.autoSaveEnabled == s.autoSaveEnabled && s'.isSaving == s.isSaving && s'.lastSavedAt == s.lastSavedAt
    ensures s'.atDefaultObject
    ensures !s.atDefaultObject || s.isDirty ==> s'.timerDueAt.None?
    ensures s.atDefaultObject && !s.isDirty ==> s'.timerDueAt == s.timerDueAt
  {
    var s1 := s.(responses := DefaultResponse, errors := NoErrors, isDirty := false, isSubmitted := false,
                 lastSaved := DefaultResponse, atDefaultObject := true);
    if !s.atDefaultObject then Revalidate(s1, now)
    else if s.isDirty then Rearm(s1, now)  // only `isDirty` changed among the auto-save effect's dependencies
    else s1
  }

  /** `enableAutoSave`. */
  function EnableAutoSave(s: Session, now: nat): (s': Session)
    ensures s'.autoSaveEnabled
    ensures s' == s.(autoSaveEnabled := true, timerDueAt := s'.timerDueAt)
    ensures !s.autoSaveEnabled ==> (s'.timerDueAt.Some? <==> s.isDirty && !s.isSaving)
    ensures s.autoSaveEnabled ==> s' == s
  {
    if s.autoSaveEnabled then s else Rearm(s.(autoSaveEnabled := true), now)
  }

  /** `disableAutoSave`: clears the pending timer. */
  function DisableAutoSave(s: Session): (s': Session)
    ensures !s'.autoSaveEnabled && s'.timerDueAt.None?
    ensures s' == s.(autoSaveEnabled := false, timerDueAt := None)
  {
    s.(autoSaveEnabled := false, timerDueAt := None)
  }

  // ---------------------------------------------------------------- the hook over time

  /** One thing that happens to a mounted hook. */
  datatype Event =
    | InitialDataArrives(data: Option<Submission>)
    | LoadRequested(loadFault: bool)
    | FieldEdited(field: Field, value: Value)
    | ValidateRequested
    | SubmitRequested(submitFault: bool)
    | TimerElapses(saveFault: bool)
    | ResetRequested
    | AutoSaveOn
    | AutoSaveOff

  /** An event and the clock reading when it happens. */
  datatype Timed = Timed(at: nat, event: Event)

  /** TypeScript only lets `updateField` store a value of the field's declared type. */
  predicate Typed(e: Event) {
    e.FieldEdited? ==> Fits(e.field, e.value)
  }

  predicate AllTyped(events: seq<Timed>) {
    forall i :: 0 <= i < |events| ==> Typed(events[i].event)
  }

  /** The hook's state together with the persisted collection it writes to. */
  datatype Hook = Hook(session: Session, store: Store)

  function Step(h: Hook, user: User, t: Timed): (h': Hook)
    requires Typed(t.event)
    ensures Consistent(h.session) ==> Consistent(h'.session)
    ensures h'.store != h.store ==> t.event.SubmitRequested? || t.event.TimerElapses?
    ensures h'.session.isDirty && !h.session.isDirty ==> t.event.FieldEdited?
    ensures h'.session.hasValidated && !h.session.hasValidated ==> t.event.ValidateRequested? || t.event.SubmitRequested?
    ensures forall u :: u != user.uid && u in h.store ==> u in h'.store && h'.store[u] == h.store[u]
    ensures forall u :: u != user.uid ==> (u in h'.store <==> u in h.store)
  {
    match t.event
    case InitialDataArrives(data) => h.(session := ApplyInitialData(h.session, data, t.at))
    case LoadRequested(fault) => h.(session := LoadExistingData(h.session, h.store, user, t.at, fault))
    case FieldEdited(f, v) => h.(session := UpdateField(h.session, f, v, t.at))
    case ValidateRequested => h.(session := ValidateForm(h.session))
    case SubmitRequested(fault) =>
      var (s, st, _) := SubmitForm(h.session, h.store, user, t.at, fault);
      Hook(s, st)
    case TimerElapses(fault) =>
      var (s, st) := AutoSaveTimerFires(h.session, h.store, user, t.at, fault);
      Hook(s, st)
    case ResetRequested => h.(session := ResetForm(h.session, t.at))
    case AutoSaveOn => h.(session := EnableAutoSave(h.session, t.at))
    case AutoSaveOff => h.(session := DisableAutoSave(h.session))
  }

  function Run(h: Hook, user: User, events: seq<Timed>): Hook
    requires AllTyped(events)
    decreases |events|
  {
    if events == [] then h else Run(Step(h, user, events[0]), user, events[1..])
  }

  /** The mounted hook starts out consistent. */
  lemma InitialConsistent()
    ensures Consistent(Initial)
    ensures !Initial.isDirty && Initial.timerDueAt.None? && VisibleErrors(Initial) == NoErrors
  {
  }

  /** Every reachable state keeps the effect-settled invariant. */
  lemma {:induction false} RunKeepsConsistent(h: Hook, user: User, events: seq<Timed>)
    requires AllTyped(events)
    requires Consistent(h.session)
    ensures Consistent(Run(h, user, events).session)
    decreases |events|
  {
    if events != [] {
      RunKeepsConsistent(Step(h, user, events[0]), user, events[1..]);
    }
  }

  /** Errors stay hidden until something asks for validation. */
  lemma {:induction false} ErrorsHiddenUntilValidated(h: Hook, user: User, events: seq<Timed>)
    requires AllTyped(events)
    requires !h.session.hasValidated
    requires forall i :: 0 <= i < |events| ==> !events[i].event.ValidateRequested? && !events[i].event.SubmitRequested?
    ensures VisibleErrors(Run(h, user, events).session) == NoErrors
    decreases |events|
  {
    if events != [] {
      ErrorsHiddenUntilValidated(Step(h, user, events[0]), user, events[1..]);
    }
  }

  /** Without a submit or an elapsed timer, nothing is written. */
  lemma {:induction false} OnlySubmitAndTimerWrite(h: Hook, user: User, events: seq<Timed>)
    requires AllTyped(events)
    requires forall i :: 0 <= i < |events| ==> !events[i].event.SubmitRequested? && !events[i].event.TimerElapses?
    ensures Run(h, user, events).store == h.store
    decreases |events|
  {
    if events != [] {
      OnlySubmitAndTimerWrite(Step(h, user, events[0]), user, events[1..]);
    }
  }

  /** A clean session only becomes dirty through an edit. */
  lemma {:induction false} CleanWithoutEdits(h: Hook, user: User, events: seq<Timed>)
    requires AllTyped(events)
    requires !h.session.isDirty
    requires forall i :: 0 <= i < |events| ==> !events[i].event.FieldEdited?
    ensures !Run(h, user, events).session.isDirty
    decreases |events|
  {
    if events != [] {
      CleanWithoutEdits(Step(h, user, events[0]), user, events[1..]);
    }
  }

  /** Other users' documents are never touched by this user's hook. */
  lemma {:induction false} OtherUsersUntouched(h: Hook, user: User, events: seq<Timed>, other: string)
    requires AllTyped(events)
    requires other != user.uid
    ensures other in Run(h, user, events).store <==> other in h.store
    ensures other in h.store ==> Run(h, user, events).store[other] == h.store[other]
    decreases |events|
  {
    if events != [] {
      OtherUsersUntouched(Step(h, user, events[0]), user, events[1..], other);
    }
  }

  predicate OnlyEdits(events: seq<Timed>) {
    forall i :: 0 <= i < |events| ==> events[i].event.FieldEdited?
  }

  /** The working copy after a run of `updateField` calls: each one spreads its value over the previous copy. */
  function EditedResponses(r: Response, events: seq<Timed>): Response
    requires AllTyped(events) && OnlyEdits(events)
    decreases |events|
  {
    if events == [] then r
    else EditedResponses(Put(r, events[0].event.field, events[0].event.value), events[1..])
  }

  /** A run of edits only changes the working copy (and the effects derived from it); nothing is saved. */
  lemma {:induction false} EditsOnlyChangeWorkingCopy(h: Hook, user: User, events: seq<Timed>)
    requires AllTyped(events) && OnlyEdits(events)
    ensures Run(h, user, events).session.responses == EditedResponses(h.session.responses, events)
    ensures Run(h, user, events).store == h.store
    ensures Run(h, user, events).session.lastSaved == h.session.lastSaved
    ensures Run(h, user, events).session.isSubmitted == h.session.isSubmitted
    ensures Run(h, user, events).session.hasValidated == h.session.hasValidated
    decreases |events|
  {
    if events != [] {
      var h1 := Step(h, user, events[0]);
      assert h1.session.responses == Put(h.session.responses, events[0].event.field, events[0].event.value);
      EditsOnlyChangeWorkingCopy(h1, user, events[1..]);
    }
  }

  // ---------------------------------------------------------------- auto-save timing

  /** An edit that leaves the form dirty (re)starts the 30-second countdown from the edit. */
  lemma EditRestartsCountdown(s: Session, f: Field, v: Value, now: nat)
    requires Fits(f, v)
    requires s.autoSaveEnabled && !s.isSaving
    requires Differs(Put(s.responses, f, v), s.lastSaved)
    ensures UpdateField(s, f, v, now).timerDueAt == Some(now + 30000)
  {
  }

  /** Before the countdown ends the timer does nothing. */
  lemma TimerBeforeDeadlineIsInert(s: Session, store: Store, user: User, now: nat, fault: bool)
    requires s.timerDueAt.Some? && now < s.timerDueAt.value
    ensures AutoSaveTimerFires(s, store, user, now, fault) == (s, store)
  {
  }

  /** In a quiet period of 30 seconds after the last edit, an enabled hook saves the edited copy as a draft. */
  lemma QuietPeriodSavesDraft(s: Session, store: Store, user: User, f: Field, v: Value, edited: nat, later: nat)
    requires Consistent(s) && Fits(f, v)
    requires s.autoSaveEnabled
    requires Differs(Put(s.responses, f, v), s.lastSaved)
    requires later >= edited + 30000
    ensures var s1 := UpdateField(s, f, v, edited);
            var (s2, store2) := AutoSaveTimerFires(s1, store, user, later, false);
      && user.uid in store2 && !store2[user.uid].isSubmitted
      && store2[user.uid].lastUpdatedAt == later
      && !s2.isDirty && s2.lastSaved == s1.responses && s2.lastSavedAt == Some(later)
  {
    var s1 := UpdateField(s, f, v, edited);
    assert s1.timerDueAt == Some(edited + 30000);
    assert s1.isDirty && !s1.isSaving;
  }

  /**
   * A submitted session keeps reporting `isSubmitted` after a later edit is auto-saved, while the
   * stored document is demoted to a draft.
   */
  lemma AutoSaveAfterSubmitDemotes(s: Session, store: Store, user: User, now: nat)
    requires Consistent(s) && s.isSubmitted
    requires s.timerDueAt.Some? && now >= s.timerDueAt.value
    ensures var (s', store') := AutoSaveTimerFires(s, store, user, now, false);
      && s'.isSubmitted
      && user.uid in store' && !store'[user.uid].isSubmitted
  {
  }

  // ---------------------------------------------------------------- submit

  /**
   * A submit that fails after a failed attempt still surfaces the submit error on the next
   * successful attempt: the validation effect does not re-run when neither `hasValidated` nor
   * `responses` changed.
   */
  lemma SubmitErrorSurvivesRetry(s: Session, store: Store, user: User, t1: nat, t2: nat)
    requires IsFormValid(s.responses)
    ensures var (s1, store1, ok1) := SubmitForm(s, store, user, t1, true);
            var (s2, store2, ok2) := SubmitForm(s1, store1, user, t2, false);
      && !ok1 && ok2
      && VisibleErrors(s2) == SubmitError(SubmitFailedMessage)
  {
  }

  /** A submit never saves an incomplete form, and a complete one is saved unless the backend fails. */
  lemma SubmitSavesExactlyValidForms(s: Session, store: Store, user: User, now: nat, fault: bool)
    ensures var (s', store', ok) := SubmitForm(s, store, user, now, fault);
      ok <==> IsFormValid(s.responses) && !fault
    ensures var (s', store', ok) := SubmitForm(s, store, user, now, fault);
      store' != store ==> ok
  {
  }

  /** A guest's first submit of a complete form creates their final document, version 1, holding the raw working copy. */
  lemma FirstSubmitCreatesFinalDocument(s: Session, store: Store, user: User, now: nat)
    requires IsFormValid(s.responses) && user.uid !in store
    ensures var (s', store', ok) := SubmitForm(s, store, user, now, false);
      && ok && s'.isSubmitted && !s'.isDirty
      && user.uid in store'
      && store'[user.uid].version == 1 && store'[user.uid].isSubmitted
      && store'[user.uid].submittedAt == now && store'[user.uid].lastUpdatedAt == now
      && store'[user.uid].userEmail == OrEmpty(user.email) && store'[user.uid].userDisplayName == OrEmpty(user.displayName)
      && store'[user.uid].responses == s.responses
  {
  }

  /** `resetForm` discards the submitted status but keeps the hook's notion of `hasValidated`. */
  lemma ResetThenValidate(s: Session, now: nat)
    requires Consistent(s)
    ensures var s' := ValidateForm(ResetForm(s, now));
      && VisibleErrors(s') == FieldErrors(ValidateResponse(DefaultResponse))
      && Consistent(s') && !s'.isSubmitted && s'.timerDueAt.None?
  {
  }
}
