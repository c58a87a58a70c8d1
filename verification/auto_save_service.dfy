/**
 * The static `AutoSaveService` of src/lib/firestore.ts: one shared debounce timer and one
 * shared in-flight flag. The timer is an explicit pending save with a due time; its callback
 * runs when a `TimerElapsed` step arrives at or after that time.
 */
module AutoSaveService {
  import opened Wrappers
  import opened JsValues
  import opened RsvpTypes
  import opened Cleaning
  import opened Persistence

  /** The `scheduleAutoSave` default delay, in milliseconds. */
  const DefaultDelayMs: nat := 30000

  /** What a scheduled timer callback captured, and when it fires. */
  datatype PendingSave = PendingSave(userId: string, userEmail: string, userDisplayName: string,
                                     responses: Response, dueAt: nat)

  /** The service's two static fields: `saveTimeout` and `isSaving`. */
  datatype Saver = Saver(pending: Option<PendingSave>, isSaving: bool)

  const InitialSaver := Saver(None, false)

  /** The private `isDirty`: some property holds a non-empty array or a value other than `undefined`, `null`, `''`. */
  predicate HasContent(r: Response) {
    exists f :: f in r && match r[f]
      case List(xs) => |xs| > 0
      case Text(s) => s != ""
      case _ => false
  }

  /** `scheduleAutoSave`: clear any pending timer and arm a new one for these responses. */
  function ScheduleAutoSave(s: Saver, userId: string, userEmail: string, userDisplayName: string,
                            responses: Response, delay: nat, now: nat): (s': Saver)
    ensures s'.pending == Some(PendingSave(userId, userEmail, userDisplayName, responses, now + delay))
    ensures s'.isSaving == s.isSaving
  {
    s.(pending := Some(PendingSave(userId, userEmail, userDisplayName, responses, now + delay)))
  }

  /** `cancelAutoSave`. */
  function CancelAutoSave(s: Saver): (s': Saver)
    ensures s'.pending.None? && s'.isSaving == s.isSaving
  {
    s.(pending := None)
  }

  /**
   * `performAutoSave`: a no-op while a save is in flight; otherwise write the cleaned responses as
   * a draft when they have content, swallow any error, and clear the in-flight flag.
   */
  function PerformAutoSave(s: Saver, store: Store, p: PendingSave, now: nat, fault: bool): (res: (Saver, Store))
    ensures s.isSaving ==> res == (s, store)
    ensures !s.isSaving ==> !res.0.isSaving && res.0.pending == s.pending
    ensures !s.isSaving && HasContent(p.responses) && |CleanResponse(p.responses)| > 0 && !fault ==>
      res.1 == SaveRSVPResponse(store, p.userId, p.userEmail, p.userDisplayName,
                                CleanResponse(p.responses), false, now, false).value
    ensures !HasContent(p.responses) || |CleanResponse(p.responses)| == 0 || fault ==> res.1 == store
  {
    if s.isSaving then (s, store)
    else
      var store' :=
        if HasContent(p.responses) && |CleanResponse(p.responses)| > 0 then
          match SaveRSVPResponse(store, p.userId, p.userEmail, p.userDisplayName,
                                 CleanResponse(p.responses), false, now, fault)
          case Success(st) => st
          case Failure(_) => store  // "Auto-save failed" is only logged
        else store;
      (s.(isSaving := false), store')
  }

  /** The timer's callback, once its delay has elapsed. */
  function TimerElapsed(s: Saver, store: Store, now: nat, fault: bool): (res: (Saver, Store))
    ensures s.pending.None? || now < s.pending.value.dueAt ==> res == (s, store)
  {
    match s.pending
    case None => (s, store)
    case Some(p) =>
      if now < p.dueAt then (s, store)
      else
        var fired := s.(pending := None);
        if !fired.isSaving && HasContent(p.responses) then PerformAutoSave(fired, store, p, now, fault)
        else (fired, store)
  }

  // ---------------------------------------------------------------- properties

  /** Every auto-save write is a draft: the stored document ends up with `isSubmitted = false`. */
  lemma AutoSaveWritesDraft(s: Saver, store: Store, now: nat, fault: bool)
    requires s.pending.Some?
    ensures var (s', store') := TimerElapsed(s, store, now, fault);
      var uid := s.pending.value.userId;
      store' != store ==> uid in store' && !store'[uid].isSubmitted
  {
    var p := s.pending.value;
    if !s.isSaving && now >= p.dueAt && HasContent(p.responses) && |CleanResponse(p.responses)| > 0 && !fault {
      DraftOnlyFailsOnFault(store, p.userId, p.userEmail, p.userDisplayName, CleanResponse(p.responses), now, fault);
    }
  }

  /** The in-flight flag is clear after the callback, whether the save succeeded, failed or was skipped. */
  lemma TimerLeavesNotSaving(s: Saver, store: Store, now: nat, fault: bool)
    requires !s.isSaving
    ensures !TimerElapsed(s, store, now, fault).0.isSaving
  {
  }

  /**
   * A schedule made after another replaces it, whatever the two clock readings and delays: only the
   * latest responses can ever be saved, and they fall due after the latest delay.
   */
  lemma RescheduleReplaces(s: Saver, a: PendingSave, b: PendingSave, delayA: nat, delayB: nat, nowA: nat, nowB: nat)
    ensures var s1 := ScheduleAutoSave(s, a.userId, a.userEmail, a.userDisplayName, a.responses, delayA, nowA);
      var s2 := ScheduleAutoSave(s1, b.userId, b.userEmail, b.userDisplayName, b.responses, delayB, nowB);
      s2 == ScheduleAutoSave(s, b.userId, b.userEmail, b.userDisplayName, b.responses, delayB, nowB) &&
      s2.pending.value.responses == b.responses && s2.pending.value.dueAt == nowB + delayB
  {
  }

  /** One `scheduleAutoSave` call of a burst. */
  datatype Edit = Edit(responses: Response, at: nat)

  /** Schedules every edit of a burst in order, with the default delay. */
  function ScheduleAll(s: Saver, userId: string, userEmail: string, userDisplayName: string, edits: seq<Edit>): Saver
    decreases |edits|
  {
    if edits == [] then s
    else ScheduleAll(ScheduleAutoSave(s, userId, userEmail, userDisplayName, edits[0].responses, DefaultDelayMs, edits[0].at),
                     userId, userEmail, userDisplayName, edits[1..])
  }

  /**
   * Debounce collapsing: after a burst of schedules only the last edit is pending, due one delay
   * after it; the timer does nothing before then and, when it fires, saves the last edit's
   * cleaned responses once.
   */
  lemma {:induction false} BurstCollapses(s: Saver, userId: string, userEmail: string, userDisplayName: string,
                                          edits: seq<Edit>)
    requires edits != []
    ensures var last := edits[|edits| - 1];
      && ScheduleAll(s, userId, userEmail, userDisplayName, edits).pending
         == Some(PendingSave(userId, userEmail, userDisplayName, last.responses, last.at + DefaultDelayMs))
      && ScheduleAll(s, userId, userEmail, userDisplayName, edits).isSaving == s.isSaving
    decreases |edits|
  {
    var s1 := ScheduleAutoSave(s, userId, userEmail, userDisplayName, edits[0].responses, DefaultDelayMs, edits[0].at);
    if |edits| > 1 {
      BurstCollapses(s1, userId, userEmail, userDisplayName, edits[1..]);
      assert edits[1..][|edits[1..]| - 1] == edits[|edits| - 1];
    }
  }

  /** The collapsed burst writes exactly the last edit's cleaned responses, as one draft save. */
  lemma BurstSavesLastEditOnce(userId: string, userEmail: string, userDisplayName: string,
                               edits: seq<Edit>, store: Store, now: nat)
    requires edits != []
    requires now >= edits[|edits| - 1].at + DefaultDelayMs
    requires HasContent(edits[|edits| - 1].responses) && |CleanResponse(edits[|edits| - 1].responses)| > 0
    ensures var s := ScheduleAll(InitialSaver, userId, userEmail, userDisplayName, edits);
      var (s', store') := TimerElapsed(s, store, now, false);
      && store' == SaveRSVPResponse(store, userId, userEmail, userDisplayName,
                                    CleanResponse(edits[|edits| - 1].responses), false, now, false).value
      && s' == InitialSaver
  {
    BurstCollapses(InitialSaver, userId, userEmail, userDisplayName, edits);
  }

  /** Whitespace-only text has content for the private dirty check but is cleaned away, so nothing is written. */
  lemma BlankTextIsNotWritten(s: Saver, store: Store, p: PendingSave, now: nat)
    requires !s.isSaving && p.responses == map[RoomSharing := Text(" ")]
    ensures HasContent(p.responses)
    ensures PerformAutoSave(s, store, p, now, false).1 == store
  {
    assert RoomSharing in p.responses && p.responses[RoomSharing] == Text(" ");
    assert CleanResponse(p.responses) == map[] by {
      assert !Kept(Text(" "));
    }
  }
}
