/**
 * `RSVPService` of src/lib/firestore.ts over an abstract document store: a map from user id
 * to that user's single submission document, with time as a natural number. A `fault`
 * argument stands for any failure of the remote store; every thrown error surfaces as the
 * operation's single generic error.
 */
module Persistence {
  import opened Wrappers
  import opened JsValues
  import opened RsvpTypes
  import opened Validation

  /** A persisted RSVP document. */
  datatype Submission = Submission(
    userId: string,
    userEmail: string,
    userDisplayName: string,
    responses: Response,
    submittedAt: nat,
    lastUpdatedAt: nat,
    isSubmitted: bool,
    version: nat)

  /** The `rsvp_responses` collection: documents keyed by user id. */
  type Store = map<string, Submission>

  /** Each document sits under the key of the user it belongs to. */
  ghost predicate KeyedByUser(store: Store) {
    forall k :: k in store ==> store[k].userId == k
  }

  /** The generic errors the service rethrows, whatever the underlying cause. */
  datatype ServiceError = SaveError | LoadError | DeleteError {
    function Message(): string {
      match this
      case SaveError => "No se pudo guardar la respuesta. Por favor, inténtalo de nuevo."
      case LoadError => "No se pudo cargar la respuesta. Por favor, inténtalo de nuevo."
      case DeleteError => "No se pudo eliminar la respuesta. Por favor, inténtalo de nuevo."
    }
  }

  /** `{ ...existing, ...incoming }`: incoming properties win, the others survive. */
  function MergeResponses(existing: Response, incoming: Response): (m: Response)
    ensures m.Keys == existing.Keys + incoming.Keys
    ensures forall f :: f in incoming ==> m[f] == incoming[f]
    ensures forall f :: f in existing && f !in incoming ==> m[f] == existing[f]
  {
    existing + incoming
  }

  /**
   * `saveRSVPResponse`: read the user's document; update it by merging the raw payload into its
   * responses, bumping the version and keeping `submittedAt`; or create it with version 1,
   * refusing a final submission that does not validate.
   */
  function SaveRSVPResponse(store: Store, userId: string, userEmail: string, userDisplayName: string,
                            responses: Response, isSubmitted: bool, now: nat, fault: bool)
    : (result: Result<Store, ServiceError>)
    ensures result.Failure? ==> result.error == SaveError
    ensures result.Failure? <==> fault || (userId !in store && isSubmitted && !IsFormValid(responses))
    ensures result.Success? ==>
      && result.value.Keys == store.Keys + {userId}
      && (forall k :: k in store && k != userId ==> result.value[k] == store[k])
    ensures result.Success? ==>
      var d := result.value[userId];
      && d.userId == userId && d.userEmail == userEmail && d.userDisplayName == userDisplayName
      && d.isSubmitted == isSubmitted && d.lastUpdatedAt == now
    ensures result.Success? && userId in store ==>
      var (before, d) := (store[userId], result.value[userId]);
      && d.version == before.version + 1
      && d.submittedAt == before.submittedAt
      && d.responses.Keys == before.responses.Keys + responses.Keys
      && (forall f :: f in responses ==> d.responses[f] == responses[f])
      && (forall f :: f in before.responses && f !in responses ==> d.responses[f] == before.responses[f])
    ensures result.Success? && userId !in store ==>
      var d := result.value[userId];
      d.version == 1 && d.submittedAt == now && d.responses == responses
  {
    if fault then
      Failure(SaveError)
    else if userId in store then
      var existing := store[userId];
      // `existing.version || 0` is the version itself: a missing or zero version counts as 0.
      var doc := Submission(userId, userEmail, userDisplayName, MergeResponses(existing.responses, responses),
                            existing.submittedAt, now, isSubmitted, existing.version + 1);
      Success(store[userId := doc])
    else if isSubmitted && !IsFormValid(responses) then
      // "Cannot submit incomplete form" is caught and rethrown as the generic save error.
      Failure(SaveError)
    else
      Success(store[userId := Submission(userId, userEmail, userDisplayName, responses, now, now, isSubmitted, 1)])
  }

  /** `getRSVPResponse`: the user's document, `null` when there is none. */
  function GetRSVPResponse(store: Store, userId: string, fault: bool): (result: Result<Option<Submission>, ServiceError>)
    ensures fault <==> result.Failure?
    ensures result.Failure? ==> result.error == LoadError
    ensures result.Success? ==> (result.value.Some? <==> userId in store)
    ensures result.Success? && userId in store ==> result.value.value == store[userId]
  {
    if fault then Failure(LoadError)
    else if userId in store then Success(Some(store[userId]))
    else Success(None)
  }

  /** `deleteRSVPResponse`: a hard delete of the user's document. */
  function DeleteRSVPResponse(store: Store, userId: string, fault: bool): (result: Result<Store, ServiceError>)
    ensures fault <==> result.Failure?
    ensures result.Failure? ==> result.error == DeleteError
    ensures result.Success? ==> result.value.Keys == store.Keys - {userId}
    ensures result.Success? ==> forall k :: k in result.value ==> result.value[k] == store[k]
  {
    if fault then Failure(DeleteError) else Success(store - {userId})
  }

  // ---------------------------------------------------------------- properties

  /** Saving keeps every document under its owner's key. */
  lemma SaveKeepsKeyedByUser(store: Store, userId: string, userEmail: string, userDisplayName: string,
                             responses: Response, isSubmitted: bool, now: nat, fault: bool)
    requires KeyedByUser(store)
    ensures var r := SaveRSVPResponse(store, userId, userEmail, userDisplayName, responses, isSubmitted, now, fault);
      r.Success? ==> KeyedByUser(r.value)
  {
  }

  /** A payload that validates can never meet the create-time rejection: only a store fault fails it. */
  lemma ValidSubmissionOnlyFailsOnFault(store: Store, userId: string, userEmail: string, userDisplayName: string,
                                        responses: Response, now: nat, fault: bool)
    requires IsFormValid(responses)
    ensures SaveRSVPResponse(store, userId, userEmail, userDisplayName, responses, true, now, fault).Success? <==> !fault
  {
  }

  /** Drafts are never refused: a save with `isSubmitted = false` fails only on a store fault. */
  lemma DraftOnlyFailsOnFault(store: Store, userId: string, userEmail: string, userDisplayName: string,
                              responses: Response, now: nat, fault: bool)
    ensures SaveRSVPResponse(store, userId, userEmail, userDisplayName, responses, false, now, fault).Success? <==> !fault
  {
  }

  /** What a successful save wrote is what a subsequent load returns. */
  lemma SaveThenGet(store: Store, userId: string, userEmail: string, userDisplayName: string,
                    responses: Response, isSubmitted: bool, now: nat)
    requires SaveRSVPResponse(store, userId, userEmail, userDisplayName, responses, isSubmitted, now, false).Success?
    ensures var s' := SaveRSVPResponse(store, userId, userEmail, userDisplayName, responses, isSubmitted, now, false).value;
      var got := GetRSVPResponse(s', userId, false);
      && got == Success(Some(s'[userId]))
      && got.value.value.isSubmitted == isSubmitted
      && forall f :: f in responses ==> got.value.value.responses[f] == responses[f]
  {
  }

  /** After a delete, a load finds no document. */
  lemma DeleteThenGet(store: Store, userId: string)
    ensures GetRSVPResponse(DeleteRSVPResponse(store, userId, false).value, userId, false) == Success(None)
  {
  }

  /** A draft save over a submitted document turns it back into a draft. */
  lemma DraftSaveDemotesSubmission(store: Store, userId: string, userEmail: string, userDisplayName: string,
                                   responses: Response, now: nat)
    requires userId in store && store[userId].isSubmitted
    ensures var r := SaveRSVPResponse(store, userId, userEmail, userDisplayName, responses, false, now, false);
      r.Success? && !r.value[userId].isSubmitted
  {
  }

  /** The raw payload's explicit `undefined`, `''` and `[]` values do overwrite stored answers. */
  lemma RawPayloadOverwrites(store: Store, userId: string, userEmail: string, userDisplayName: string,
                             f: Field, v: Value, isSubmitted: bool, now: nat)
    requires userId in store && Fits(f, v)
    ensures var r := SaveRSVPResponse(store, userId, userEmail, userDisplayName, map[f := v], isSubmitted, now, false);
      r.Success? && r.value[userId].responses[f] == v
  {
  }

  // ---------------------------------------------------------------- sequences of writes

  /** One call of `saveRSVPResponse` for a fixed user. */
  datatype Write = Write(userEmail: string, userDisplayName: string, responses: Response, isSubmitted: bool, now: nat)

  /** Applies writes in order, stopping at the first that throws; the store itself never faults. */
  function ApplyWrites(store: Store, userId: string, writes: seq<Write>): Result<Store, ServiceError>
    decreases |writes|
  {
    if writes == [] then Success(store)
    else
      var w := writes[0];
      match SaveRSVPResponse(store, userId, w.userEmail, w.userDisplayName, w.responses, w.isSubmitted, w.now, false)
      case Failure(e) => Failure(e)
      case Success(s') => ApplyWrites(s', userId, writes[1..])
  }

  /** Over an existing document, n successful writes add n to the version and keep `submittedAt`. */
  lemma {:induction false} WritesBumpVersion(store: Store, userId: string, writes: seq<Write>)
    requires userId in store
    requires ApplyWrites(store, userId, writes).Success?
    ensures var s' := ApplyWrites(store, userId, writes).value;
      && userId in s'
      && s'[userId].version == store[userId].version + |writes|
      && s'[userId].submittedAt == store[userId].submittedAt
      && (writes != [] ==> s'[userId].lastUpdatedAt == writes[|writes| - 1].now)
      && (forall k :: k != userId ==> (k in s' <==> k in store) && (k in store ==> s'[k] == store[k]))
    decreases |writes|
  {
    if writes != [] {
      var w := writes[0];
      var s1 := SaveRSVPResponse(store, userId, w.userEmail, w.userDisplayName, w.responses, w.isSubmitted, w.now, false).value;
      WritesBumpVersion(s1, userId, writes[1..]);
      if |writes| > 1 {
        assert writes[1..][|writes[1..]| - 1] == writes[|writes| - 1];
      }
    }
  }

  /**
   * Version monotonicity: starting with no document, after n successful writes the version is n,
   * `submittedAt` is the first write's time and `lastUpdatedAt` the last write's.
   */
  lemma SequentialWritesVersion(store: Store, userId: string, writes: seq<Write>)
    requires userId !in store && writes != []
    requires ApplyWrites(store, userId, writes).Success?
    ensures var s' := ApplyWrites(store, userId, writes).value;
      && userId in s'
      && s'[userId].version == |writes|
      && s'[userId].submittedAt == writes[0].now
      && s'[userId].lastUpdatedAt == writes[|writes| - 1].now
  {
    var w := writes[0];
    var s1 := SaveRSVPResponse(store, userId, w.userEmail, w.userDisplayName, w.responses, w.isSubmitted, w.now, false).value;
    WritesBumpVersion(s1, userId, writes[1..]);
    if |writes| > 1 {
      assert writes[1..][|writes[1..]| - 1] == writes[|writes| - 1];
    }
  }
}
