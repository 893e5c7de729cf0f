/** The filter form of the mail list: a draft filter that the form edits
    field by field and pushes, whole, to its listener after every edit. */
module Filter {

  /** A filter field as JavaScript holds it. `Num(source)` stands for the
      number `+source` (the coercion itself is left symbolic). */
  datatype Value = Bool(b: bool) | Null | Undefined | Num(source: string) | Text(s: string)

  /** A filter draft: an open record from field names to values. */
  type Draft = map<string, Value>

  /** What a change event carries: `ev.target.name`, `.type` and `.value`. */
  datatype Target = Target(name: string, inputType: string, value: string)

  /** The fields shown as three-way selects: `['isRead', 'isStarred']`. */
  const TriStateFields: set<string> := {"isRead", "isStarred"}

  /** The option values of those selects. */
  const SelectTokens: set<string> := {"true", "false", "null"}

  /** A value a three-way select can hold: true, false or null ("any"). */
  predicate IsTriState(v: Value)
  {
    v.Bool? || v.Null?
  }

  /** `'' + v`, the text a select shows for value `v`. */
  function SelectValue(v: Value): (r: string)
    requires !v.Num?
    ensures IsTriState(v) ==> r in SelectTokens
    ensures v == Undefined ==> r !in SelectTokens
    ensures v.Text? ==> r == v.s
  {
    match v
    case Bool(b) => if b then "true" else "false"
    case Null => "null"
    case Undefined => "undefined"
    case Text(s) => s
  }

  /** The lookup `translateNullableBool[token]`: one of the three option
      values gives its value back; any other token finds no entry. */
  function TranslateNullableBool(token: string): (v: Value)
    ensures IsTriState(v) <==> token in SelectTokens
    ensures !IsTriState(v) ==> v == Undefined
    ensures IsTriState(v) ==> SelectValue(v) == token
  {
    if token == "true" then Bool(true)
    else if token == "false" then Bool(false)
    else if token == "null" then Null
    else Undefined
  }

  /** Rendering a select's value and reading it back gives the same value,
      for the three values and for a missing field alike. */
  lemma SelectRoundTrip(v: Value)
    requires IsTriState(v) || v == Undefined
    ensures TranslateNullableBool(SelectValue(v)) == v
  {
    match v
    case Bool(b) =>
      if b { assert SelectValue(v) == "true"; } else { assert SelectValue(v) == "false"; }
    case Null =>
      assert SelectValue(v) == "null";
    case Undefined =>
      assert SelectValue(v) == "undefined";
  }

  /** The value `handleChange` stores: a number input is coerced whatever
      its name, a three-way select's token is translated, anything else is
      kept as raw text. */
  function Convert(t: Target): (v: Value)
    ensures v.Num? <==> t.inputType == "number"
    ensures v.Num? ==> v.source == t.value
    ensures v.Text? <==> t.inputType != "number" && t.name !in TriStateFields
    ensures v.Text? ==> v.s == t.value
    ensures t.inputType != "number" && t.name in TriStateFields ==>
              (IsTriState(v) <==> t.value in SelectTokens) && (IsTriState(v) ==> SelectValue(v) == t.value)
  {
    if t.inputType == "number" then Num(t.value)
    else if t.name in TriStateFields then TranslateNullableBool(t.value)
    else Text(t.value)
  }

  /** `{ ...prevFilter, [field]: value }`: the new draft replaces exactly
      the changed field. */
  function ApplyChange(draft: Draft, t: Target): (r: Draft)
    ensures r.Keys == draft.Keys + {t.name}
    ensures r[t.name] == Convert(t)
    ensures forall k :: k in draft && k != t.name ==> r[k] == draft[k]
  {
    draft[t.name := Convert(t)]
  }

  /** After picking an option of a three-way select, the select shows the
      option picked. */
  lemma SelectShowsChoice(draft: Draft, t: Target)
    requires t.name in TriStateFields && t.inputType != "number" && t.value in SelectTokens
    ensures SelectValue(ApplyChange(draft, t)[t.name]) == t.value
  {
  }

  /** The drafts the form holds, from `init` through each change in turn. */
  function Drafts(init: Draft, changes: seq<Target>): (ds: seq<Draft>)
    ensures |ds| == |changes| + 1
    ensures ds[0] == init
    ensures forall i :: 0 <= i < |changes| ==> ds[i + 1] == ApplyChange(ds[i], changes[i])
    decreases |changes|
  {
    if changes == [] then [init]
    else
      var prev := Drafts(init, changes[..|changes| - 1]);
      prev + [ApplyChange(prev[|prev| - 1], changes[|changes| - 1])]
  }

  /** The `EmailFilter` component: the `filterDraft` state cell and the
      drafts the `onSetFilter` listener has received. */
  class EmailFilter {
    const initial: Draft
    var filterDraft: Draft
    var received: seq<Draft>
    ghost var changes: seq<Target>

    /** The listener has received the initial draft and then every draft
        since, in order, none skipped; the last is the current one. */
    ghost predicate Valid()
      reads this
    {
      received == Drafts(initial, changes) && filterDraft == received[|received| - 1]
    }

    /** Mount: `useState(filter)` and the first run of the push effect. */
    constructor (filter: Draft)
      ensures Valid()
      ensures initial == filter && filterDraft == filter && received == [filter] && changes == []
    {
      initial := filter;
      filterDraft := filter;
      changes := [];
      received := [filter];
    }

    /** `handleChange`, then the push effect, which re-runs because the
        draft is a new object. */
    method HandleChange(t: Target)
      requires Valid()
      modifies this
      ensures Valid()
      ensures filterDraft == ApplyChange(old(filterDraft), t)
      ensures received == old(received) + [filterDraft]
      ensures changes == old(changes) + [t]
    {
      filterDraft := ApplyChange(filterDraft, t);
      changes := changes + [t];
      received := received + [filterDraft];
      assert changes[..|changes| - 1] == old(changes);
    }
  }
}
