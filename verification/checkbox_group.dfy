/**
 * The multi-select of src/components/rsvp/CheckboxGroup.tsx: ticking an option appends it to the
 * selected list, unticking filters every copy of it out.
 */
module CheckboxGroup {
  import opened Wrappers

  /** `value = []`: an absent selection is the empty list. */
  function Selected(value: Option<seq<string>>): seq<string> {
    value.GetOr([])
  }

  /** `value.filter(v => v !== option)`. */
  function Without(xs: seq<string>, option: string): (ys: seq<string>)
    ensures |ys| <= |xs|
    ensures forall y :: y in ys <==> y in xs && y != option
  {
    if xs == [] then []
    else (if xs[0] == option then [] else [xs[0]]) + Without(xs[1..], option)
  }

  /** `handleChange(option, checked)`: the list passed to `onChange`. */
  function HandleChange(value: Option<seq<string>>, option: string, checked: bool): (next: seq<string>)
    ensures checked ==> |next| == |Selected(value)| + 1 && next[..|Selected(value)|] == Selected(value)
                        && next[|Selected(value)|] == option
    ensures !checked ==> option !in next
    ensures !checked ==> multiset(next) == multiset(Selected(value))[option := 0]
    ensures !checked && option !in Selected(value) ==> next == Selected(value)
  {
    var current := Selected(value);
    if checked then current + [option]
    else
      WithoutCounts(current, option);
      WithoutAbsent(current, option);
      Without(current, option)
  }

  /** Whether the box for `option` is drawn ticked: `value.includes(option)`. */
  predicate IsChecked(value: Option<seq<string>>, option: string) {
    option in Selected(value)
  }

  /** Filtering removes exactly the copies of the option and keeps every other element's count. */
  lemma {:induction false} WithoutCounts(xs: seq<string>, option: string)
    ensures multiset(Without(xs, option)) == multiset(xs)[option := 0]
  {
    if xs != [] {
      WithoutCounts(xs[1..], option);
      assert xs == [xs[0]] + xs[1..];
    }
  }

  /** Filtering out an option that is not there changes nothing. */
  lemma {:induction false} WithoutAbsent(xs: seq<string>, option: string)
    ensures option !in xs ==> Without(xs, option) == xs
  {
    if xs != [] && option !in xs {
      WithoutAbsent(xs[1..], option);
      assert xs == [xs[0]] + xs[1..];
    }
  }

  /** Filtering keeps order: it distributes over concatenation. */
  lemma {:induction false} WithoutAppend(xs: seq<string>, ys: seq<string>, option: string)
    ensures Without(xs + ys, option) == Without(xs, option) + Without(ys, option)
  {
    if xs == [] {
      assert xs + ys == ys;
    } else {
      assert (xs + ys)[1..] == xs[1..] + ys;
      WithoutAppend(xs[1..], ys, option);
    }
  }

  /** Ticking then unticking an option that was not selected restores the selection. */
  lemma TickThenUntick(value: Option<seq<string>>, option: string)
    requires !IsChecked(value, option)
    ensures HandleChange(Some(HandleChange(value, option, true)), option, false) == Selected(value)
  {
    var current := Selected(value);
    WithoutAppend(current, [option], option);
    WithoutAbsent(current, option);
    assert Without([option], option) == [];
  }

  /** After the change, the box is drawn exactly as the user set it. */
  lemma CheckedReflectsChange(value: Option<seq<string>>, option: string, checked: bool)
    ensures IsChecked(Some(HandleChange(value, option, checked)), option) <==> checked
  {
    var next := HandleChange(value, option, checked);
    if checked {
      assert next[|Selected(value)|] == option;
    }
  }
}
