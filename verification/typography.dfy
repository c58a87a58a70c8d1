/**
 * The typography helpers of src/lib/typography.ts: the class-name and CSS-variable tables, joining
 * a class with extra classes, and the per-breakpoint custom properties for a variable.
 */
module Typography {
  import opened Wrappers
  import opened JsValues

  /** The entries of the `Typography` object. */
  datatype TypographyClass =
    | DisplayLarge
    | DisplayMedium
    | HeadingH1
    | HeadingH2
    | HeadingH3
    | HeadingH4
    | HeadingH5
    | HeadingH6
    | BodyLarge
    | BodyBase
    | BodySmall
    | UILead
    | UICaption
    | UIOverline
    | UIButton
    | UILink
    | UIQuote
    | UILabel

  function ClassName(c: TypographyClass): string {
    match c
    case DisplayLarge => "type-display-1"
    case DisplayMedium => "type-display-2"
    case HeadingH1 => "type-heading-1"
    case HeadingH2 => "type-heading-2"
    case HeadingH3 => "type-heading-3"
    case HeadingH4 => "type-heading-4"
    case HeadingH5 => "type-heading-5"
    case HeadingH6 => "type-heading-6"
    case BodyLarge => "type-body-large"
    case BodyBase => "type-body-base"
    case BodySmall => "type-body-small"
    case UILead => "type-lead"
    case UICaption => "type-caption"
    case UIOverline => "type-overline"
    case UIButton => "type-button"
    case UILink => "type-link"
    case UIQuote => "type-quote"
    case UILabel => "type-label"
  }

  const FontsVariables: seq<(string, string)> := [
    ("FontDisplay", "--font-display"),
    ("FontBody", "--font-body")]

  const DisplayVariables: seq<(string, string)> := [
    ("Display1Size", "--type-display-1-size"),
    ("Display1Line", "--type-display-1-line"),
    ("Display1Tracking", "--type-display-1-tracking"),
    ("Display1Weight", "--type-display-1-weight"),
    ("Display2Size", "--type-display-2-size"),
    ("Display2Line", "--type-display-2-line"),
    ("Display2Tracking", "--type-display-2-tracking"),
    ("Display2Weight", "--type-display-2-weight")]

  const HeadingVariables: seq<(string, string)> := [
    ("Heading1Size", "--type-heading-1-size"),
    ("Heading1Line", "--type-heading-1-line"),
    ("Heading1Tracking", "--type-heading-1-tracking"),
    ("Heading1Weight", "--type-heading-1-weight"),
    ("Heading2Size", "--type-heading-2-size"),
    ("Heading2Line", "--type-heading-2-line"),
    ("Heading2Tracking", "--type-heading-2-tracking"),
    ("Heading2Weight", "--type-heading-2-weight"),
    ("Heading3Size", "--type-heading-3-size"),
    ("Heading3Line", "--type-heading-3-line"),
    ("Heading3Tracking", "--type-heading-3-tracking"),
    ("Heading3Weight", "--type-heading-3-weight"),
    ("Heading4Size", "--type-heading-4-size"),
    ("Heading4Line", "--type-heading-4-line"),
    ("Heading4Tracking", "--type-heading-4-tracking"),
    ("Heading4Weight", "--type-heading-4-weight"),
    ("Heading5Size", "--type-heading-5-size"),
    ("Heading5Line", "--type-heading-5-line"),
    ("Heading5Tracking", "--type-heading-5-tracking"),
    ("Heading5Weight", "--type-heading-5-weight"),
    ("Heading6Size", "--type-heading-6-size"),
    ("Heading6Line", "--type-heading-6-line"),
    ("Heading6Tracking", "--type-heading-6-tracking"),
    ("Heading6Weight", "--type-heading-6-weight")]

  const BodyVariables: seq<(string, string)> := [
    ("BodyLargeSize", "--type-body-large-size"),
    ("BodyLargeLine", "--type-body-large-line"),
    ("BodyLargeTracking", "--type-body-large-tracking"),
    ("BodyLargeWeight", "--type-body-large-weight"),
    ("BodyBaseSize", "--type-body-base-size"),
    ("BodyBaseLine", "--type-body-base-line"),
    ("BodyBaseTracking", "--type-body-base-tracking"),
    ("BodyBaseWeight", "--type-body-base-weight"),
    ("BodySmallSize", "--type-body-small-size"),
    ("BodySmallLine", "--type-body-small-line"),
    ("BodySmallTracking", "--type-body-small-tracking"),
    ("BodySmallWeight", "--type-body-small-weight")]

  const UiVariables: seq<(string, string)> := [
    ("LeadSize", "--type-lead-size"),
    ("LeadLine", "--type-lead-line"),
    ("LeadTracking", "--type-lead-tracking"),
    ("LeadWeight", "--type-lead-weight"),
    ("CaptionSize", "--type-caption-size"),
    ("CaptionLine", "--type-caption-line"),
    ("CaptionTracking", "--type-caption-tracking"),
    ("CaptionWeight", "--type-caption-weight"),
    ("OverlineSize", "--type-overline-size"),
    ("OverlineLine", "--type-overline-line"),
    ("OverlineTracking", "--type-overline-tracking"),
    ("OverlineWeight", "--type-overline-weight"),
    ("ButtonSize", "--type-button-size"),
    ("ButtonLine", "--type-button-line"),
    ("ButtonTracking", "--type-button-tracking"),
    ("ButtonWeight", "--type-button-weight"),
    ("LinkDecoration", "--type-link-decoration"),
    ("LinkDecorationThickness", "--type-link-decoration-thickness"),
    ("LinkUnderlineOffset", "--type-link-underline-offset"),
    ("LinkWeight", "--type-link-weight"),
    ("QuoteSize", "--type-quote-size"),
    ("QuoteLine", "--type-quote-line"),
    ("QuoteTracking", "--type-quote-tracking"),
    ("QuoteWeight", "--type-quote-weight"),
    ("LabelSize", "--type-label-size"),
    ("LabelLine", "--type-label-line"),
    ("LabelTracking", "--type-label-tracking"),
    ("LabelWeight", "--type-label-weight")]

  const TransitionVariables: seq<(string, string)> := [
    ("Transition", "--type-transition")]

  const VariableGroups: seq<seq<(string, string)>> := [
    FontsVariables, DisplayVariables, HeadingVariables, BodyVariables, UiVariables, TransitionVariables]

  /** The `TypographyVariables` object. */
  const TypographyVariables := ObjectOf(Flatten(VariableGroups))

  predicate IsCustomProperty(name: string) {
    |name| >= 2 && name[..2] == "--"
  }

  predicate GroupOfCustomProperties(group: seq<(string, string)>) {
    forall i :: 0 <= i < |group| ==> IsCustomProperty(group[i].1)
  }

  lemma FontsVariablesPrefixed()
    ensures GroupOfCustomProperties(FontsVariables)
  {
  }

  lemma DisplayVariablesPrefixed()
    ensures GroupOfCustomProperties(DisplayVariables)
  {
  }

  lemma HeadingVariablesPrefixed()
    ensures GroupOfCustomProperties(HeadingVariables)
  {
  }

  lemma BodyVariablesPrefixed()
    ensures GroupOfCustomProperties(BodyVariables)
  {
  }

  lemma UiVariablesPrefixed()
    ensures GroupOfCustomProperties(UiVariables)
  {
  }

  lemma TransitionVariablesPrefixed()
    ensures GroupOfCustomProperties(TransitionVariables)
  {
  }

  /** Every class name starts with `type-`. */
  lemma ClassNamesPrefixed(c: TypographyClass)
    ensures |ClassName(c)| > 5 && ClassName(c)[..5] == "type-"
  {
  }

  /** Every value of `TypographyVariables` names a CSS custom property (starts with `--`). */
  lemma VariablesPrefixed()
    ensures forall k :: k in TypographyVariables ==> IsCustomProperty(TypographyVariables[k])
  {
    FontsVariablesPrefixed();
    DisplayVariablesPrefixed();
    HeadingVariablesPrefixed();
    BodyVariablesPrefixed();
    UiVariablesPrefixed();
    TransitionVariablesPrefixed();
    var entries := Flatten(VariableGroups);
    ObjectOfEntries(entries);
    forall k | k in TypographyVariables
      ensures IsCustomProperty(TypographyVariables[k])
    {
      var i :| 0 <= i < |entries| && entries[i] == (k, TypographyVariables[k]);
      FlattenMembers(VariableGroups, entries[i]);
      var j :| 0 <= j < |VariableGroups| && entries[i] in VariableGroups[j];
      var n :| 0 <= n < |VariableGroups[j]| && VariableGroups[j][n] == entries[i];
      assert GroupOfCustomProperties(VariableGroups[j]);
    }
  }

  // ---------------------------------------------------------------- combineTypographyClasses

  /** `if (value)` / `Boolean(value)` for an optional string argument. */
  predicate Given(value: Option<string>) {
    value.Some? && value.value != ""
  }

  /** `.filter(Boolean)` over optional strings: drops `undefined` and `''`. */
  function TruthyParts(parts: seq<Option<string>>): (kept: seq<string>)
    ensures |kept| <= |parts|
    ensures forall i :: 0 <= i < |kept| ==> kept[i] != ""
  {
    if parts == [] then []
    else (if parts[0].Some? && parts[0].value != "" then [parts[0].value] else []) + TruthyParts(parts[1..])
  }

  /** `Array.prototype.join`. */
  function Join(parts: seq<string>, sep: string): string {
    if parts == [] then ""
    else if |parts| == 1 then parts[0]
    else parts[0] + sep + Join(parts[1..], sep)
  }

  /** `combineTypographyClasses`: the class, then the extra classes after one space when there are any. */
  function CombineTypographyClasses(c: TypographyClass, additionalClasses: Option<string>): (classes: string)
    ensures !Given(additionalClasses) ==> classes == ClassName(c)
    ensures Given(additionalClasses) ==>
      classes == ClassName(c) + " " + additionalClasses.value
    ensures |classes| >= |ClassName(c)| && classes[..|ClassName(c)|] == ClassName(c)
  {
    ClassNamesPrefixed(c);
    var parts := [Some(ClassName(c)), additionalClasses];
    assert parts[1..] == [additionalClasses] && parts[1..][1..] == [];
    assert TruthyParts(parts) == [ClassName(c)] + TruthyParts([additionalClasses]);
    var joined := Join(TruthyParts(parts), " ");
    assert Given(additionalClasses) ==> joined == ClassName(c) + " " + additionalClasses.value by {
      if Given(additionalClasses) {
        var kept := [ClassName(c), additionalClasses.value];
        assert TruthyParts(parts) == kept && kept[1..] == [additionalClasses.value];
        assert Join(kept[1..], " ") == additionalClasses.value;
      }
    }
    joined
  }

  // ---------------------------------------------------------------- createResponsiveTypography

  /** The suffixed keys differ from each other and from the variable itself. */
  lemma SuffixedKeysDistinct(variable: string)
    ensures variable + "-tablet" != variable && variable + "-desktop" != variable && variable + "-large" != variable
    ensures variable + "-tablet" != variable + "-desktop"
    ensures variable + "-tablet" != variable + "-large"
    ensures variable + "-desktop" != variable + "-large"
  {
    var n := |variable|;
    assert (variable + "-tablet")[n + 1] == 't';
    assert (variable + "-desktop")[n + 1] == 'd';
    assert (variable + "-large")[n + 1] == 'l';
  }

  /**
   * `createResponsiveTypography`: the variable always carries the mobile value; each breakpoint
   * that has a value adds `<variable>-<breakpoint>`, and nothing else is set.
   */
  function CreateResponsiveTypography(variable: string, mobileValue: string, tabletValue: Option<string>,
                                      desktopValue: Option<string>, largeValue: Option<string>): (style: map<string, string>)
    ensures variable in style && style[variable] == mobileValue
    ensures (variable + "-tablet" in style) <==> Given(tabletValue)
    ensures Given(tabletValue) ==> style[variable + "-tablet"] == tabletValue.value
    ensures (variable + "-desktop" in style) <==> Given(desktopValue)
    ensures Given(desktopValue) ==> style[variable + "-desktop"] == desktopValue.value
    ensures (variable + "-large" in style) <==> Given(largeValue)
    ensures Given(largeValue) ==> style[variable + "-large"] == largeValue.value
    ensures forall k :: k in style ==>
      k == variable || k == variable + "-tablet" || k == variable + "-desktop" || k == variable + "-large"
  {
    SuffixedKeysDistinct(variable);
    var base := map[variable := mobileValue];
    var withTablet := if Given(tabletValue) then base[variable + "-tablet" := tabletValue.value] else base;
    var withDesktop := if Given(desktopValue) then withTablet[variable + "-desktop" := desktopValue.value] else withTablet;
    if Given(largeValue) then withDesktop[variable + "-large" := largeValue.value] else withDesktop
  }
}
