/**
 * The progress bar of src/components/rsvp/FormProgress.tsx: how many of four tracked questions
 * have an answer, and the bar's width as a percentage.
 */
module FormProgress {
  import opened JsValues
  import opened RsvpTypes
  import opened Validation

  const TotalQuestions: nat := 4

  /** `v && v.length > 0` for a list answer. */
  predicate NonEmptyList(v: Value) {
    v.List? && |v.items| > 0
  }

  /** The four questions the bar tracks. */
  const TrackedFields: set<Field> := {Attendance, NightsStaying, TransportationNeeds, MainCoursePreference}

  /** The per-question test the bar applies: a truthy answer, or a non-empty list for the two checkbox questions. */
  predicate IsAnswered(r: Response, f: Field) {
    match f
    case Attendance => Truthy(Get(r, Attendance))
    case NightsStaying => NonEmptyList(Get(r, NightsStaying))
    case TransportationNeeds => NonEmptyList(Get(r, TransportationNeeds))
    case MainCoursePreference => Truthy(Get(r, MainCoursePreference))
    case _ => false
  }

  /** The tracked questions that have an answer. */
  function AnsweredTracked(r: Response): set<Field> {
    set f | f in TrackedFields && IsAnswered(r, f)
  }

  /** `completedQuestions`. */
  function CompletedQuestions(r: Response): (n: nat)
    ensures n == |AnsweredTracked(r)|
    ensures n <= TotalQuestions
    ensures n == TotalQuestions <==>
      Truthy(Get(r, Attendance)) && NonEmptyList(Get(r, NightsStaying)) &&
      NonEmptyList(Get(r, TransportationNeeds)) && Truthy(Get(r, MainCoursePreference))
    ensures n == 0 <==>
      !Truthy(Get(r, Attendance)) && !NonEmptyList(Get(r, NightsStaying)) &&
      !NonEmptyList(Get(r, TransportationNeeds)) && !Truthy(Get(r, MainCoursePreference))
  {
    AnsweredTrackedSize(r);
    (if Truthy(Get(r, Attendance)) then 1 else 0)
    + (if NonEmptyList(Get(r, NightsStaying)) then 1 else 0)
    + (if NonEmptyList(Get(r, TransportationNeeds)) then 1 else 0)
    + (if Truthy(Get(r, MainCoursePreference)) then 1 else 0)
  }

  /** Taking the four tracked questions out of the answered set one by one leaves nothing. */
  lemma AnsweredTrackedSize(r: Response)
    ensures |AnsweredTracked(r)| ==
      (if IsAnswered(r, Attendance) then 1 else 0)
      + (if IsAnswered(r, NightsStaying) then 1 else 0)
      + (if IsAnswered(r, TransportationNeeds) then 1 else 0)
      + (if IsAnswered(r, MainCoursePreference) then 1 else 0)
  {
    var s0 := AnsweredTracked(r);
    var s1 := s0 - {Attendance};
    var s2 := s1 - {NightsStaying};
    var s3 := s2 - {TransportationNeeds};
    var s4 := s3 - {MainCoursePreference};
    assert |s0| == |s1| + (if IsAnswered(r, Attendance) then 1 else 0);
    assert |s1| == |s2| + (if IsAnswered(r, NightsStaying) then 1 else 0);
    assert |s2| == |s3| + (if IsAnswered(r, TransportationNeeds) then 1 else 0);
    assert |s3| == |s4| + (if IsAnswered(r, MainCoursePreference) then 1 else 0);
    assert s4 == {};
  }

  /** Answering one more tracked question, leaving the other three alone, moves the bar up by exactly one. */
  lemma AnsweringOneMoreAddsOne(r: Response, r': Response, f: Field)
    requires f in TrackedFields && !IsAnswered(r, f) && IsAnswered(r', f)
    requires forall g :: g in TrackedFields && g != f ==> Get(r, g) == Get(r', g)
    ensures CompletedQuestions(r') == CompletedQuestions(r) + 1
  {
    forall g
      ensures g in AnsweredTracked(r') <==> g in AnsweredTracked(r) + {f}
    {
      if g != f && g in TrackedFields {
        assert Get(r, g) == Get(r', g);
      }
    }
    assert AnsweredTracked(r') == AnsweredTracked(r) + {f};
    assert f !in AnsweredTracked(r);
  }

  /** `progressPercentage`: the count over four, times a hundred (exact in floating point for 0..4). */
  function ProgressPercentage(r: Response): (p: real)
    ensures p == (CompletedQuestions(r) * 25) as real
    ensures 0.0 <= p <= 100.0
  {
    (CompletedQuestions(r) as real / TotalQuestions as real) * 100.0
  }

  /** Only the four tracked fields matter: responses that agree on them show the same progress. */
  lemma ProgressIgnoresOtherFields(r: Response, r': Response)
    requires forall f :: f in {Attendance, NightsStaying, TransportationNeeds, MainCoursePreference} ==> Get(r, f) == Get(r', f)
    ensures CompletedQuestions(r) == CompletedQuestions(r')
  {
  }

  /** A response the validator accepts shows a full bar. */
  lemma ValidMeansComplete(r: Response)
    requires IsFormValid(r)
    ensures CompletedQuestions(r) == TotalQuestions
  {
    assert Attendance !in ValidateResponse(r);
    assert NightsStaying !in ValidateResponse(r);
    assert TransportationNeeds !in ValidateResponse(r);
    assert MainCoursePreference !in ValidateResponse(r);
  }

  /** A full bar does not mean the form can be submitted: accommodation and room sharing are not tracked. */
  lemma CompleteButInvalid()
    ensures var r: Response := map[Attendance := Text("yes"), NightsStaying := List(["friday"]),
                                   TransportationNeeds := List(["no_help"]), MainCoursePreference := Text("fish")];
      CompletedQuestions(r) == TotalQuestions && !IsFormValid(r)
  {
    var r: Response := map[Attendance := Text("yes"), NightsStaying := List(["friday"]),
                           TransportationNeeds := List(["no_help"]), MainCoursePreference := Text("fish")];
    assert AccommodationManagement in ValidateResponse(r);
  }

  /** An empty response and the default response both show no progress. */
  lemma NoProgressAtStart()
    ensures CompletedQuestions(map[]) == 0
    ensures CompletedQuestions(DefaultResponse) == 0
  {
  }
}
