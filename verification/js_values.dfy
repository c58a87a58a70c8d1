/**
 * The handful of JavaScript value semantics the RSVP code relies on: truthiness,
 * `String.prototype.trim` compared against the empty string, `Array.prototype.includes`
 * and the `!v || v.length === 0` emptiness test.
 */
module JsValues {

  /**
   * A property value of a partial RSVP response. `Undef` is an explicitly stored `undefined`;
   * a property that is not there at all is a missing map key (see `RsvpTypes.Response`).
   */
  datatype Value = Undef | Null | Text(s: string) | List(items: seq<string>)

  /** The characters `trim()` strips: ECMAScript WhiteSpace and LineTerminator code points. */
  predicate IsJsWhitespace(c: char) {
    || c == '\t' || c == '\n' || c == '\U{000B}' || c == '\U{000C}' || c == '\r'
    || c == ' ' || c == '\U{00A0}' || c == '\U{1680}'
    || ('\U{2000}' <= c <= '\U{200A}')
    || c == '\U{2028}' || c == '\U{2029}' || c == '\U{202F}' || c == '\U{205F}'
    || c == '\U{3000}' || c == '\U{FEFF}'
  }

  /** `s.trim() === ''`: every character of `s` is whitespace. */
  predicate IsBlank(s: string) {
    forall i :: 0 <= i < |s| ==> IsJsWhitespace(s[i])
  }

  /** `!!v`: the empty string, `undefined` and `null` are falsy; arrays are always truthy. */
  predicate Truthy(v: Value) {
    match v
    case Undef => false
    case Null => false
    case Text(s) => s != ""
    case List(_) => true
  }

  /** `!!v?.trim()` for a text-valued property. */
  predicate TrimmedTruthy(v: Value) {
    match v
    case Undef => false
    case Null => false
    case Text(s) => !IsBlank(s)
    // A list never sits in a text field of a well-typed response (`RsvpTypes.Fits`).
    case List(_) => false
  }

  /** `!v || v.length === 0`. */
  predicate MissingOrEmpty(v: Value) {
    !Truthy(v) || v == List([])
  }

  /** `v?.includes(x)` for a list-valued property (`undefined` when `v` is missing). */
  predicate Includes(v: Value, x: string) {
    match v
    case List(xs) => x in xs
    // Text never sits in a list field of a well-typed response (`RsvpTypes.Fits`).
    case _ => false
  }

  // ---------------------------------------------------------------- object literals

  /** The object an object literal builds: a later entry with the same key overrides an earlier one. */
  function ObjectOf(entries: seq<(string, string)>): map<string, string>
    decreases |entries|
  {
    if entries == [] then map[]
    else ObjectOf(entries[..|entries| - 1])[entries[|entries| - 1].0 := entries[|entries| - 1].1]
  }

  /** The object has exactly the literal's keys, and every value it holds is one of the literal's entries. */
  lemma {:induction false} ObjectOfEntries(entries: seq<(string, string)>)
    ensures ObjectOf(entries).Keys == set i | 0 <= i < |entries| :: entries[i].0
    ensures forall k :: k in ObjectOf(entries) ==> exists i :: 0 <= i < |entries| && entries[i] == (k, ObjectOf(entries)[k])
    decreases |entries|
  {
    if entries != [] {
      var init := entries[..|entries| - 1];
      ObjectOfEntries(init);
      forall k | k in ObjectOf(entries)
        ensures exists i :: 0 <= i < |entries| && entries[i] == (k, ObjectOf(entries)[k])
      {
        if k == entries[|entries| - 1].0 {
          assert entries[|entries| - 1] == (k, ObjectOf(entries)[k]);
        } else {
          var i :| 0 <= i < |init| && init[i] == (k, ObjectOf(init)[k]);
          assert entries[i] == (k, ObjectOf(entries)[k]);
        }
      }
      assert forall i :: 0 <= i < |init| ==> init[i] == entries[i];
    }
  }

  /** An object literal written in several commented groups: the groups' entries, in order. */
  function Flatten(sections: seq<seq<(string, string)>>): seq<(string, string)> {
    if sections == [] then [] else sections[0] + Flatten(sections[1..])
  }

  /** An entry is in the flattened literal exactly when it is in one of the groups. */
  lemma {:induction false} FlattenMembers(sections: seq<seq<(string, string)>>, e: (string, string))
    ensures e in Flatten(sections) <==> exists j :: 0 <= j < |sections| && e in sections[j]
  {
    if sections != [] {
      FlattenMembers(sections[1..], e);
      if e in Flatten(sections[1..]) {
        var j :| 0 <= j < |sections[1..]| && e in sections[1..][j];
        assert e in sections[j + 1];
      }
      if exists j :: 0 <= j < |sections| && e in sections[j] {
        var j :| 0 <= j < |sections| && e in sections[j];
        if j > 0 {
          assert e in sections[1..][j - 1];
        }
      }
    }
  }
}
