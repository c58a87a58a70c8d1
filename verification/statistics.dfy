/** `getRSVPStatistics` of src/lib/firestore.ts: counts over the listing of all submissions. */
module Statistics {
  import opened JsValues
  import opened RsvpTypes
  import opened Persistence

  datatype Stats = Stats(totalResponses: nat, attending: nat, notAttending: nat, maybe: nat, submitted: nat, drafts: nat)

  /** `subs.filter(p).length`. */
  function CountWhere(subs: seq<Submission>, p: Submission -> bool): nat {
    if subs == [] then 0 else (if p(subs[0]) then 1 else 0) + CountWhere(subs[1..], p)
  }

  /** The positions in the listing whose submission satisfies `p`: the reference a count is measured against. */
  function IndicesWhere(subs: seq<Submission>, p: Submission -> bool): set<int> {
    set i | 0 <= i < |subs| && p(subs[i])
  }

  /** Counting a concatenation counts each part. */
  lemma {:induction false} CountWhereAppend(a: seq<Submission>, b: seq<Submission>, p: Submission -> bool)
    ensures CountWhere(a + b, p) == CountWhere(a, p) + CountWhere(b, p)
  {
    if a == [] {
      assert a + b == b;
    } else {
      assert (a + b)[1..] == a[1..] + b;
      CountWhereAppend(a[1..], b, p);
    }
  }

  /** A one-submission listing counts one exactly when the submission satisfies the predicate. */
  lemma CountWhereSingleton(x: Submission, p: Submission -> bool)
    ensures CountWhere([x], p) == if p(x) then 1 else 0
  {
    assert [x][1..] == [];
  }

  /** The count is the number of positions whose submission satisfies the predicate. */
  lemma {:induction false} CountWhereCountsIndices(subs: seq<Submission>, p: Submission -> bool)
    ensures CountWhere(subs, p) == |IndicesWhere(subs, p)|
  {
    if subs == [] {
      assert IndicesWhere(subs, p) == {};
    } else {
      var n := |subs| - 1;
      var init := subs[..n];
      assert subs == init + [subs[n]];
      CountWhereAppend(init, [subs[n]], p);
      CountWhereSingleton(subs[n], p);
      CountWhereCountsIndices(init, p);
      var last: set<int> := if p(subs[n]) then {n} else {};
      assert IndicesWhere(subs, p) == IndicesWhere(init, p) + last;
      assert IndicesWhere(init, p) !! last;
    }
  }

  /** `r.responses.attendance === a`. */
  predicate AttendanceIs(s: Submission, a: string) {
    Attendance in s.responses && s.responses[Attendance] == Text(a)
  }

  predicate IsAttending(s: Submission) { AttendanceIs(s, "yes") }
  predicate IsNotAttending(s: Submission) { AttendanceIs(s, "no") }
  predicate IsMaybe(s: Submission) { AttendanceIs(s, "maybe") }
  predicate IsFinal(s: Submission) { s.isSubmitted }
  predicate IsDraft(s: Submission) { !s.isSubmitted }

  function GetRSVPStatistics(all: seq<Submission>): (st: Stats)
    ensures st.totalResponses == |all|
    ensures st.submitted + st.drafts == st.totalResponses
    ensures st.attending == |IndicesWhere(all, IsAttending)|
    ensures st.notAttending == |IndicesWhere(all, IsNotAttending)|
    ensures st.maybe == |IndicesWhere(all, IsMaybe)|
    ensures st.submitted == |IndicesWhere(all, IsFinal)|
    ensures st.drafts == |IndicesWhere(all, IsDraft)|
    ensures st.attending + st.notAttending + st.maybe <= st.totalResponses
  {
    var st := Stats(
      |all|,
      CountWhere(all, IsAttending),
      CountWhere(all, IsNotAttending),
      CountWhere(all, IsMaybe),
      CountWhere(all, IsFinal),
      CountWhere(all, IsDraft));
    CountWhereCountsIndices(all, IsAttending);
    CountWhereCountsIndices(all, IsNotAttending);
    CountWhereCountsIndices(all, IsMaybe);
    CountWhereCountsIndices(all, IsFinal);
    CountWhereCountsIndices(all, IsDraft);
    SubmittedPlusDrafts(all);
    AttendanceCountsBounded(all);
    st
  }

  /** Statistics over two listings put together are the sums of the statistics over each. */
  lemma StatisticsAddUp(a: seq<Submission>, b: seq<Submission>)
    ensures var sa, sb, st := GetRSVPStatistics(a), GetRSVPStatistics(b), GetRSVPStatistics(a + b);
      st.totalResponses == sa.totalResponses + sb.totalResponses &&
      st.attending == sa.attending + sb.attending &&
      st.notAttending == sa.notAttending + sb.notAttending &&
      st.maybe == sa.maybe + sb.maybe &&
      st.submitted == sa.submitted + sb.submitted &&
      st.drafts == sa.drafts + sb.drafts
  {
    CountWhereAppend(a, b, IsAttending);
    CountWhereAppend(a, b, IsNotAttending);
    CountWhereAppend(a, b, IsMaybe);
    CountWhereAppend(a, b, IsFinal);
    CountWhereAppend(a, b, IsDraft);
  }

  /** A count never exceeds the length of the listing. */
  lemma {:induction false} CountWhereBounded(subs: seq<Submission>, p: Submission -> bool)
    ensures CountWhere(subs, p) <= |subs|
  {
    if subs != [] {
      CountWhereBounded(subs[1..], p);
    }
  }

  /** Counting a predicate and its negation splits the listing. */
  lemma {:induction false} SubmittedPlusDrafts(subs: seq<Submission>)
    ensures CountWhere(subs, IsFinal) + CountWhere(subs, IsDraft) == |subs|
  {
    if subs != [] {
      SubmittedPlusDrafts(subs[1..]);
    }
  }

  /** A submission has at most one attendance value, so the three attendance counts fit in the total. */
  lemma {:induction false} AttendanceCountsBounded(subs: seq<Submission>)
    ensures CountWhere(subs, IsAttending) + CountWhere(subs, IsNotAttending)
          + CountWhere(subs, IsMaybe) <= |subs|
  {
    if subs != [] {
      AttendanceCountsBounded(subs[1..]);
    }
  }

  /** When every submission has answered attendance, the three counts add up to the total. */
  lemma {:induction false} AttendanceCountsComplete(subs: seq<Submission>)
    requires forall i :: 0 <= i < |subs| ==> Attendance in subs[i].responses && subs[i].responses[Attendance].Text?
    ensures CountWhere(subs, IsAttending) + CountWhere(subs, IsNotAttending)
          + CountWhere(subs, IsMaybe) == |subs|
  {
    if subs != [] {
      var s0 := subs[0];
      assert Fits(Attendance, s0.responses[Attendance]);
      AttendanceCountsComplete(subs[1..]);
    }
  }
}
