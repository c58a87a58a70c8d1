/**
 * `cleanRSVPResponse` of src/lib/firestore.ts: a key-wise filter over a partial response
 * that drops `undefined`, empty arrays and whitespace-only strings and keeps everything else
 * (including `null`) unchanged.
 */
module Cleaning {
  import opened JsValues
  import opened RsvpTypes
  import opened Validation

  /** The value survives cleaning. */
  predicate Kept(v: Value) {
    match v
    case Undef => false
    case Null => true
    case Text(s) => !IsBlank(s)
    case List(xs) => |xs| > 0
  }

  function CleanResponse(r: Response): (c: Response)
    ensures c.Keys <= r.Keys
    ensures forall f :: f in c ==> c[f] == r[f]
    ensures forall f :: f in r ==> (f in c <==> Kept(r[f]))
  {
    map f | f in r && Kept(r[f]) :: r[f]
  }

  /** Cleaning a cleaned response changes nothing. */
  lemma CleanIdempotent(r: Response)
    ensures CleanResponse(CleanResponse(r)) == CleanResponse(r)
  {
  }

  /** After cleaning, every remaining value is one worth keeping. */
  lemma CleanKeepsOnlyMeaningfulValues(r: Response)
    ensures forall f :: f in CleanResponse(r) ==> Kept(CleanResponse(r)[f])
  {
  }

  /** No enum member is blank, so cleaning never drops a chosen enum answer. */
  lemma EnumValuesNotBlank(f: Field, s: string)
    requires KindOf(f).EnumField? && s in KindOf(f).allowed
    ensures !IsBlank(s)
  {
    assert !IsJsWhitespace(s[0]);
  }

  /** A dropped value reads, through each of the validator's tests for its field, as a missing one. */
  lemma DroppedReadsAsMissing(r: Response, g: Field)
    requires g in r && !Kept(r[g])
    ensures KindOf(g).EnumField? ==> !Truthy(r[g])
    ensures KindOf(g).TextField? ==> !TrimmedTruthy(r[g])
    ensures KindOf(g).EnumListField? ==> MissingOrEmpty(r[g]) && !Includes(r[g], "other")
  {
    if r[g].Text? && KindOf(g).EnumField? {
      EnumValuesNotBlank(g, r[g].s);
    }
  }

  /**
   * Cleaning does not change the validation verdict: everything it drops is read by the
   * validator exactly as a missing property.
   */
  lemma CleanPreservesValidation(r: Response)
    ensures ValidateResponse(CleanResponse(r)) == ValidateResponse(r)
  {
    var c := CleanResponse(r);
    forall g | g in r && g !in c
      ensures KindOf(g).EnumField? ==> !Truthy(r[g])
      ensures KindOf(g).TextField? ==> !TrimmedTruthy(r[g])
      ensures KindOf(g).EnumListField? ==> MissingOrEmpty(r[g]) && !Includes(r[g], "other")
    {
      DroppedReadsAsMissing(r, g);
    }
    forall f ensures Fails(c, f) == Fails(r, f) {
    }
  }
}
