/** The entry form's multi-select tag picker. It keeps no state of its own:
    every click hands a new list to `onChange`, and the incoming `value`
    (a value here) is never modified. */
module TagSelector {
  import opened Js
  import opened TagList

  /** The `value = []` default of the component's props. */
  function Selected(value: Option<seq<string>>): seq<string> {
    if value.Some? then value.value else []
  }

  /** `toggleTag(tag)`: the list passed to `onChange`. */
  function ToggleTag(value: Option<seq<string>>, tag: string): (emitted: seq<string>)
    ensures tag in Selected(value) ==> tag !in emitted && IsSubsequence(emitted, Selected(value))
    ensures tag in Selected(value) ==> multiset(emitted) == multiset(Selected(value))[tag := 0]
    ensures tag !in Selected(value) ==> emitted == Selected(value) + [tag]
    ensures forall t :: t != tag ==> (t in emitted <==> t in Selected(value))
    ensures value.None? ==> emitted == [tag]
  {
    var list := Selected(value);
    if tag in list then
      ToggleSelectedRemoves(list, tag);
      Toggle(list, tag)
    else
      Toggle(list, tag)
  }

  /** The "Clear all tags" button: `onChange([])`, after which no tag is
      selected and the next toggle starts a one-tag list. */
  function ClearAll(value: Option<seq<string>>): (emitted: seq<string>)
    ensures forall t :: t !in emitted
    ensures forall t :: ToggleTag(Some(emitted), t) == [t]
  {
    []
  }

  /** On a duplicate-free list the picker keeps it duplicate-free, and a tag
      toggled on and off again leaves the list as it was. */
  lemma ToggleTagProperties(value: seq<string>, tag: string)
    requires NoDuplicates(value)
    ensures NoDuplicates(ToggleTag(Some(value), tag))
    ensures tag !in value ==> ToggleTag(Some(ToggleTag(Some(value), tag)), tag) == value
  {
    ToggleKeepsNoDuplicates(value, tag);
    if tag !in value {
      ToggleTwiceFromUnselected(value, tag);
    }
  }
}
