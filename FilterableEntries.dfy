/** The client-side filter of the journal list page: an entry is kept iff
    it matches the search text, the selected mood and every selected tag. */
module FilterableEntries {
  import opened Js

  /** A journal entry as the list page receives it from the table: `title`,
      `mood` and `tags` may be null, `content` is always a string. */
  datatype Entry = Entry(title: Option<string>, content: string, mood: Option<string>, tags: Option<seq<string>>)

  /** The criteria the search panel emits. */
  datatype Criteria = Criteria(searchText: string, mood: Option<string>, tags: seq<string>)

  /** The criteria the page starts with. */
  const NoCriteria := Criteria("", None, [])

  /** `entry.tags || []`: a missing tag list counts as empty. */
  function EntryTags(e: Entry): seq<string> {
    if e.tags.Some? then e.tags.value else []
  }

  /** The lower-cased query occurs in the lower-cased title, when there is
      one, or in the lower-cased content. */
  predicate MatchesSearch(e: Entry, query: string) {
    var q := Lower(query);
    (e.title.Some? && Includes(Lower(e.title.value), q)) || Includes(Lower(e.content), q)
  }

  /** `filters.tags.every((tag) => entryTags.includes(tag))`. */
  predicate HasAllTags(e: Entry, tags: seq<string>) {
    forall t :: t in tags ==> t in EntryTags(e)
  }

  /** The callback given to `entries.filter`: each of the three tests runs
      only when its criterion is active (non-empty text, a truthy mood, a
      non-empty tag list). */
  predicate Keep(e: Entry, c: Criteria) {
    && (c.searchText != "" ==> MatchesSearch(e, c.searchText))
    && (Truthy(c.mood) ==> e.mood == c.mood)
    && (|c.tags| > 0 ==> HasAllTags(e, c.tags))
  }

  /** `entries.filter(...)`: a new list; the input is a value and is left as it was. */
  function Filter(entries: seq<Entry>, c: Criteria): (r: seq<Entry>)
    ensures |r| <= |entries|
    ensures forall e :: e in r <==> e in entries && Keep(e, c)
    ensures IsSubsequence(r, entries)
    ensures forall e :: multiset(r)[e] == if Keep(e, c) then multiset(entries)[e] else 0
  {
    if entries == [] then []
    else
      var rest := Filter(entries[1..], c);
      assert entries == [entries[0]] + entries[1..];
      if Keep(entries[0], c) then
        var r := [entries[0]] + rest;
        assert r[1..] == rest;
        r
      else
        rest
  }

  // ------------------------------------------------------------ properties

  /** With no criteria every entry is kept, so the list comes back as it was. */
  lemma {:induction false} FilterNoCriteriaIsIdentity(entries: seq<Entry>)
    ensures Filter(entries, NoCriteria) == entries
  {
    if entries != [] {
      FilterNoCriteriaIsIdentity(entries[1..]);
      assert entries == [entries[0]] + entries[1..];
    }
  }

  /** A set mood keeps exactly the entries with that mood; entries without a
      mood are dropped. */
  lemma FilterByMood(entries: seq<Entry>, c: Criteria, e: Entry)
    requires Truthy(c.mood)
    ensures e in Filter(entries, c) ==> e.mood == c.mood
    ensures e.mood.None? ==> e !in Filter(entries, c)
    ensures c.searchText == "" && c.tags == [] ==> (e in Filter(entries, c) <==> e in entries && e.mood == c.mood)
  {
  }

  /** Tag selection has AND semantics: a kept entry carries every selected
      tag, and an entry missing one of them is dropped. */
  lemma FilterByTags(entries: seq<Entry>, c: Criteria, e: Entry)
    ensures e in Filter(entries, c) ==> forall t :: t in c.tags ==> t in EntryTags(e)
    ensures (exists t :: t in c.tags && t !in EntryTags(e)) ==> e !in Filter(entries, c)
  {
  }

  /** An entry whose `tags` is null has no tags, so any tag selection drops it. */
  lemma FilterMissingTags(entries: seq<Entry>, c: Criteria, e: Entry)
    requires e.tags.None? && |c.tags| > 0
    ensures e !in Filter(entries, c)
  {
    assert c.tags[0] in c.tags;
  }

  /** The text test: an entry without a title can match only through its
      content. */
  lemma FilterSearchUntitled(entries: seq<Entry>, c: Criteria, e: Entry)
    requires c.searchText != "" && e.title.None?
    ensures e in Filter(entries, c) ==> exists i :: OccursAt(Lower(e.content), Lower(c.searchText), i)
  {
  }

  /** Two criteria that keep the same entries give the same result. */
  lemma {:induction false} FilterSameKeep(entries: seq<Entry>, c1: Criteria, c2: Criteria)
    requires forall e :: Keep(e, c1) == Keep(e, c2)
    ensures Filter(entries, c1) == Filter(entries, c2)
  {
    if entries != [] {
      FilterSameKeep(entries[1..], c1, c2);
    }
  }

  /** The search is case-insensitive: queries that lower-case alike give the
      same result. */
  lemma SearchIsCaseInsensitive(entries: seq<Entry>, c: Criteria, query: string)
    requires Lower(query) == Lower(c.searchText)
    ensures Filter(entries, c.(searchText := query)) == Filter(entries, c)
  {
    assert |query| == |c.searchText|;
    FilterSameKeep(entries, c.(searchText := query), c);
  }

  /** Typing the query in lower case changes nothing. */
  lemma SearchLoweredQuery(entries: seq<Entry>, c: Criteria)
    ensures Filter(entries, c.(searchText := Lower(c.searchText))) == Filter(entries, c)
  {
    LowerIdempotent(c.searchText);
    SearchIsCaseInsensitive(entries, c, Lower(c.searchText));
  }

  /** When `c2` is at least as strict as `c1`, its result is a subsequence of
      `c1`'s result and equals filtering that result again. */
  lemma {:induction false} FilterNarrows(entries: seq<Entry>, c1: Criteria, c2: Criteria)
    requires forall e :: Keep(e, c2) ==> Keep(e, c1)
    ensures Filter(entries, c2) == Filter(Filter(entries, c1), c2)
    ensures IsSubsequence(Filter(entries, c2), Filter(entries, c1))
  {
    if entries != [] {
      FilterNarrows(entries[1..], c1, c2);
      var rest1 := Filter(entries[1..], c1);
      if Keep(entries[0], c1) {
        assert ([entries[0]] + rest1)[1..] == rest1;
      }
    }
  }

  /** Selecting one more tag never enlarges the result. */
  lemma AddingTagNarrows(entries: seq<Entry>, c: Criteria, tag: string)
    ensures IsSubsequence(Filter(entries, c.(tags := c.tags + [tag])), Filter(entries, c))
  {
    var c2 := c.(tags := c.tags + [tag]);
    forall e | Keep(e, c2) ensures Keep(e, c) {
      assert forall t :: t in c.tags ==> t in c2.tags;
    }
    FilterNarrows(entries, c, c2);
  }

  /** Setting a mood never enlarges the result. */
  lemma SettingMoodNarrows(entries: seq<Entry>, c: Criteria, mood: string)
    ensures IsSubsequence(Filter(entries, c.(mood := Some(mood))), Filter(entries, c.(mood := None)))
  {
    FilterNarrows(entries, c.(mood := None), c.(mood := Some(mood)));
  }

  /** The worked example: searching "ship" keeps the entry whose content is
      "We shipped v1" and drops the untitled one about a feedback call. */
  lemma SearchExample()
    ensures Filter([LaunchDay, FeedbackCall], NoCriteria.(searchText := "ship")) == [LaunchDay]
  {
    LaunchDayMatchesShip();
    FeedbackCallMissesShip();
    var c := NoCriteria.(searchText := "ship");
    assert [LaunchDay, FeedbackCall][1..] == [FeedbackCall];
    assert Filter([FeedbackCall], c) == [];
  }

  const LaunchDay := Entry(Some("Launch day"), "We shipped v1", Some("motivated"), Some(["win", "milestone"]))
  const FeedbackCall := Entry(None, "Tough feedback call", Some("frustrated"), Some(["challenge"]))

  lemma LowerShip()
    ensures Lower("ship") == "ship"
  {
    var l := Lower("ship");
    assert l[0] == 's' && l[1] == 'h' && l[2] == 'i' && l[3] == 'p';
  }

  lemma LaunchDayMatchesShip()
    ensures MatchesSearch(LaunchDay, "ship")
  {
    LowerShip();
    var l := Lower(LaunchDay.content);
    assert l[3] == 's' && l[4] == 'h' && l[5] == 'i' && l[6] == 'p';
    assert l[3..7] == "ship";
    assert OccursAt(l, "ship", 3);
  }

  lemma FeedbackCallMissesShip()
    ensures !MatchesSearch(FeedbackCall, "ship")
  {
    LowerShip();
    var t := FeedbackCall.content;
    var l := Lower(t);
    forall i | 0 <= i < |l| ensures l[i] != 's' {
      assert t[i] != 's' && t[i] != 'S';
    }
    forall i | 0 <= i && i + 4 <= |l| ensures !OccursAt(l, "ship", i) {
      assert l[i..i + 4][0] == l[i];
    }
  }
}
