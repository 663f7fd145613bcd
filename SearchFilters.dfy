/** The search panel above the journal list. It holds the three criteria
    in its own state; every handler updates one of them and hands the full
    criteria to `onFilterChange`, here the handler's return value. */
module SearchFilters {
  import opened Js
  import opened TagList
  import opened FilterableEntries

  /** `selectedMood === mood ? null : mood`. */
  function NextMood(selected: Option<string>, mood: string): (r: Option<string>)
    ensures selected == Some(mood) ==> r.None?
    ensures selected != Some(mood) ==> r == Some(mood)
  {
    if selected == Some(mood) then None else Some(mood)
  }

  /** Choosing the same mood twice restores the selection as it was. */
  lemma NextMoodTwice(selected: Option<string>, mood: string)
    requires selected.None? || selected == Some(mood)
    ensures NextMood(NextMood(selected, mood), mood) == selected
  {
  }

  /** Some criterion is set exactly when the criteria reject some entry: an
      untitled, empty, untagged entry without a mood fails any set one. */
  lemma ActiveDropsSomeEntry(c: Criteria)
    ensures (c.searchText != "" || Truthy(c.mood) || |c.tags| > 0) <==> exists e :: !Keep(e, c)
  {
    var blank := Entry(None, "", None, None);
    if c.searchText != "" {
      assert Lower(c.searchText) != "";
      assert !Includes(Lower(blank.content), Lower(c.searchText));
      assert !Keep(blank, c);
    } else if Truthy(c.mood) {
      assert !Keep(blank, c);
    } else if |c.tags| > 0 {
      assert c.tags[0] in c.tags;
      assert !Keep(blank, c);
    }
  }

  class SearchFilters {
    var searchText: string
    var selectedMood: Option<string>
    var selectedTags: seq<string>

    /** The tag toggle never lets a tag appear twice. */
    ghost predicate Valid()
      reads this
    {
      NoDuplicates(selectedTags)
    }

    /** The criteria the panel currently shows. */
    function Current(): Criteria
      reads this
    {
      Criteria(searchText, selectedMood, selectedTags)
    }

    /** The three `useState` initial values. */
    constructor ()
      ensures Valid()
      ensures searchText == "" && selectedMood.None? && selectedTags == []
      ensures Current() == NoCriteria
    {
      searchText := "";
      selectedMood := None;
      selectedTags := [];
    }

    method HandleSearchChange(value: string) returns (emitted: Criteria)
      requires Valid()
      modifies this
      ensures Valid()
      ensures searchText == value && selectedMood == old(selectedMood) && selectedTags == old(selectedTags)
      ensures emitted == Current()
    {
      searchText := value;
      emitted := Criteria(value, selectedMood, selectedTags);
    }

    method HandleMoodChange(mood: string) returns (emitted: Criteria)
      requires Valid()
      modifies this
      ensures Valid()
      ensures old(selectedMood) == Some(mood) ==> selectedMood.None?
      ensures old(selectedMood) != Some(mood) ==> selectedMood == Some(mood)
      ensures searchText == old(searchText) && selectedTags == old(selectedTags)
      ensures emitted == Current()
    {
      var newMood := NextMood(selectedMood, mood);
      selectedMood := newMood;
      emitted := Criteria(searchText, newMood, selectedTags);
    }

    method HandleTagToggle(tag: string) returns (emitted: Criteria)
      requires Valid()
      modifies this
      ensures Valid()
      ensures tag in old(selectedTags) ==> selectedTags == RemoveAll(old(selectedTags), tag)
      ensures tag in old(selectedTags) ==> |selectedTags| == |old(selectedTags)| - 1
      ensures tag !in old(selectedTags) ==> selectedTags == old(selectedTags) + [tag]
      ensures searchText == old(searchText) && selectedMood == old(selectedMood)
      ensures emitted == Current()
    {
      var newTags := Toggle(selectedTags, tag);
      ToggleKeepsNoDuplicates(selectedTags, tag);
      if tag in selectedTags {
        var i :| 0 <= i < |selectedTags| && selectedTags[i] == tag;
        MultisetCountOne(selectedTags, i);
        assert |multiset(newTags)| == |multiset(selectedTags)| - 1;
      }
      selectedTags := newTags;
      emitted := Criteria(searchText, selectedMood, newTags);
    }

    method ClearFilters() returns (emitted: Criteria)
      requires Valid()
      modifies this
      ensures Valid()
      ensures searchText == "" && selectedMood.None? && selectedTags == []
      ensures emitted == NoCriteria
    {
      searchText := "";
      selectedMood := None;
      selectedTags := [];
      emitted := Criteria("", None, []);
    }

    /** `searchText || selectedMood || selectedTags.length > 0`: some
        criterion is set, which is exactly when the current criteria would
        drop some entry. */
    function HasActiveFilters(): (b: bool)
      reads this
      ensures b <==> searchText != "" || Truthy(selectedMood) || |selectedTags| > 0
      ensures b <==> exists e :: !Keep(e, Current())
      ensures !b ==> forall entries :: Filter(entries, Current()) == entries
    {
      ActiveDropsSomeEntry(Current());
      if searchText != "" || Truthy(selectedMood) || |selectedTags| > 0 then
        true
      else
        assert forall entries :: Filter(entries, Current()) == entries by {
          forall entries ensures Filter(entries, Current()) == entries {
            FilterSameKeep(entries, Current(), NoCriteria);
            FilterNoCriteriaIsIdentity(entries);
          }
        }
        false
    }
  }
}
