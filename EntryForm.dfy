/** The form for writing a new entry or editing one. For a new entry it
    mirrors its four fields into local storage under a fixed key; on submit
    it validates the content, hands a normalised payload to `onSubmit` and
    then deletes the stored draft. React's effects are modelled as explicit
    steps run in their declaration order. */
module EntryForm {
  import opened Js
  import opened Draft
  import FilterableEntries

  type Entry = FilterableEntries.Entry

  const DraftKey := "journal-draft"

  /** The fields of an empty form. */
  const EmptyFields := Draft("", "", None, [])

  /** What `onSubmit` receives. */
  datatype Payload = Payload(title: Option<string>, content: string, mood: Option<string>, tags: seq<string>)

  // ------------------------------------------------------------ pure steps

  /** The `useState` initial values: `entry?.title || ''`, `entry?.content || ''`,
      `entry?.mood || null`, `entry?.tags || []`. */
  function InitialFields(entry: Option<Entry>): (f: Draft)
    ensures entry.None? ==> f == EmptyFields
    ensures entry.Some? ==>
              && (Truthy(entry.value.title) ==> f.title == entry.value.title.value)
              && (!Truthy(entry.value.title) ==> f.title == "")
              && f.content == entry.value.content
              && (Truthy(entry.value.mood) ==> f.mood == entry.value.mood)
              && (!Truthy(entry.value.mood) ==> f.mood.None?)
              && f.tags == FilterableEntries.EntryTags(entry.value)
    ensures !(f.mood == Some(""))
  {
    match entry
    case None => EmptyFields
    case Some(e) =>
      Draft(if Truthy(e.title) then e.title.value else "",
            e.content,
            if Truthy(e.mood) then e.mood else None,
            if e.tags.Some? then e.tags.value else [])
  }

  /** `draft.title || ''`, `draft.content || ''`, `draft.mood || null`,
      `draft.tags || []` (an array, even an empty one, is truthy). */
  function FromParsed(p: Parsed): (f: Draft)
    ensures f.title == (if p.title.Some? then p.title.value else "")
    ensures f.content == (if p.content.Some? then p.content.value else "")
    ensures Truthy(p.mood) ==> f.mood == p.mood
    ensures !Truthy(p.mood) ==> f.mood.None?
    ensures f.tags == (if p.tags.Some? then p.tags.value else [])
  {
    Draft(if Truthy(p.title) then p.title.value else "",
          if Truthy(p.content) then p.content.value else "",
          if Truthy(p.mood) then p.mood else None,
          if p.tags.Some? then p.tags.value else [])
  }

  /** The save effect (declared first): for a new entry, overwrite the draft
      key with the current fields; for an edit, leave the store alone. */
  function SaveStep(entry: Option<Entry>, f: Draft, store: map<string, string>): (r: map<string, string>)
    ensures entry.None? ==> DraftKey in r && Decode(r[DraftKey]) == Some(Parsed(Some(f.title), Some(f.content), f.mood, Some(f.tags)))
    ensures entry.None? ==> r[DraftKey] != ""
    ensures forall k :: k != DraftKey ==> (k in r <==> k in store) && (k in r ==> r[k] == store[k])
    ensures entry.Some? ==> r == store
  {
    if entry.None? then
      DecodeEncode(f);
      store[DraftKey := Encode(f)]
    else
      store
  }

  /** The load effect (declared second): for a new entry, read the draft
      key; when it holds a non-empty string that parses, take every field
      from it; when it is missing, empty or unparsable, keep the fields. */
  function LoadStep(entry: Option<Entry>, f: Draft, store: map<string, string>): (r: Draft)
    ensures entry.Some? ==> r == f
    ensures DraftKey !in store || store[DraftKey] == "" ==> r == f
    ensures DraftKey in store && Decode(store[DraftKey]).None? ==> r == f
    ensures entry.None? && DraftKey in store && store[DraftKey] != "" && Decode(store[DraftKey]).Some?
            ==> r == FromParsed(Decode(store[DraftKey]).value)
  {
    if entry.None? && DraftKey in store && store[DraftKey] != "" then
      match Decode(store[DraftKey])
      case None => f
      case Some(p) => FromParsed(p)
    else
      f
  }

  /** Mounting as the component is written: the save step runs before the
      load step, so the load reads back the fields it just wrote. The load
      sets equal values (the tag array is a new one, so the save runs once
      more on the next render and writes the same text); that second save
      changes nothing and is not a separate step here. */
  function MountAsWritten(entry: Option<Entry>, store: map<string, string>): (r: (Draft, map<string, string>))
    ensures r.0 == InitialFields(entry)
    ensures entry.None? ==> r.0 == EmptyFields && r.1 == store[DraftKey := Encode(EmptyFields)]
    ensures entry.Some? ==> r.1 == store
  {
    var f0 := InitialFields(entry);
    var s1 := SaveStep(entry, f0, store);
    if entry.None? then
      SaveThenLoad(f0, f0, store);
      (LoadStep(entry, f0, s1), s1)
    else
      (LoadStep(entry, f0, s1), s1)
  }

  /** Mounting as the draft feature intends: read the stored draft first,
      then save the resulting fields. */
  function MountIntended(entry: Option<Entry>, store: map<string, string>): (r: (Draft, map<string, string>))
    ensures entry.Some? ==> r == (InitialFields(entry), store)
    ensures DraftKey !in store ==> r.0 == InitialFields(entry)
    ensures entry.None? ==> DraftKey in r.1 && r.1[DraftKey] == Encode(r.0)
    ensures forall k :: k != DraftKey ==> (k in r.1 <==> k in store) && (k in r.1 ==> r.1[k] == store[k])
  {
    var f0 := InitialFields(entry);
    var f1 := LoadStep(entry, f0, store);
    (f1, SaveStep(entry, f1, store))
  }

  /** `!content.trim()`: the submission is refused. */
  predicate Blank(content: string): (b: bool)
    ensures b <==> AllWhitespace(content)
  {
    Trim(content) == ""
  }

  /** The payload built at lines 69-74 of the form. */
  function Normalise(f: Draft): (p: Payload)
    ensures p.title.None? <==> AllWhitespace(f.title)
    ensures p.title.Some? ==> p.title.value == Trim(f.title) && p.title.value != ""
    ensures p.content == Trim(f.content)
    ensures p.mood.None? <==> !Truthy(f.mood)
    ensures p.mood.Some? ==> p.mood == f.mood
    ensures p.tags == f.tags
  {
    var t := Trim(f.title);
    Payload(if t == "" then None else Some(t), Trim(f.content), if Truthy(f.mood) then f.mood else None, f.tags)
  }

  /** What `handleSubmit` hands to `onSubmit`, or `None` when it returns
      early. A payload's content is never empty nor padded with whitespace,
      and its title, when present, is neither. */
  function Submission(f: Draft): (r: Option<Payload>)
    ensures r.None? <==> AllWhitespace(f.content)
    ensures r.Some? ==> r.value == Normalise(f)
    ensures r.Some? ==> var c := r.value.content; c != "" && !IsWhitespace(c[0]) && !IsWhitespace(c[|c| - 1])
    ensures r.Some? ==> Trim(r.value.content) == r.value.content
    ensures r.Some? && r.value.title.Some? ==> Trim(r.value.title.value) == r.value.title.value
  {
    if Blank(f.content) then None
    else
      TrimIdempotent(f.content);
      TrimIdempotent(f.title);
      Some(Normalise(f))
  }

  // ------------------------------------------------------------ properties

  /** Saving a draft and loading it back gives the same fields, whatever the
      fields were before the load (a mood of `''` reads back as `null`). */
  lemma SaveThenLoad(f: Draft, g: Draft, store: map<string, string>)
    requires !(f.mood == Some(""))
    ensures LoadStep(None, g, SaveStep(None, f, store)) == f
  {
  }

  /** After the draft is removed, a new form starts from the empty fields. */
  lemma LoadAfterRemove(store: map<string, string>)
    ensures LoadStep(None, InitialFields(None), store - {DraftKey}) == EmptyFields
  {
  }

  /** The input that shows it: a stored draft `{A, B, motivated, [win]}` is
      lost on mount. */
  lemma MountLosesExampleDraft()
    ensures var d := Draft("A", "B", Some("motivated"), ["win"]);
            MountAsWritten(None, map[DraftKey := Encode(d)]).0 != d
  {
  }

  /** Load-then-save restores the stored draft and leaves it in place. */
  lemma MountIntendedRestoresDraft(d: Draft, store: map<string, string>)
    requires DraftKey in store && store[DraftKey] == Encode(d) && !(d.mood == Some(""))
    ensures MountIntended(None, store).0 == d
    ensures MountIntended(None, store).1 == store
  {
    DecodeEncode(d);
  }

  // ------------------------------------------------------------ the objects

  /** The browser's `localStorage`. */
  class Storage {
    var items: map<string, string>

    constructor (initial: map<string, string>)
      ensures items == initial
    {
      items := initial;
    }

    /** `getItem`: `null` for a missing key. */
    function GetItem(key: string): (r: Option<string>)
      reads this
      ensures r.Some? <==> key in items
      ensures r.Some? ==> r.value == items[key]
    {
      if key in items then Some(items[key]) else None
    }

    method SetItem(key: string, value: string)
      modifies this
      ensures items == old(items)[key := value]
    {
      items := items[key := value];
    }

    method RemoveItem(key: string)
      modifies this
      ensures items == old(items) - {key}
    {
      items := items - {key};
    }
  }

  class EntryForm {
    /** The entry being edited, `None` for a new one. */
    const entry: Option<Entry>
    const store: Storage
    var title: string
    var content: string
    var mood: Option<string>
    var tags: seq<string>

    function Fields(): Draft
      reads this
    {
      Draft(title, content, mood, tags)
    }

    /** Once mounted, a new-entry form's stored draft is either absent or
        exactly its current fields. */
    ghost predicate Valid()
      reads this, store
    {
      entry.None? ==> DraftKey in store.items ==> store.items[DraftKey] == Encode(Fields())
    }

    constructor (entry: Option<Entry>, store: Storage)
      ensures this.entry == entry && this.store == store
      ensures Fields() == InitialFields(entry)
    {
      this.entry := entry;
      this.store := store;
      var f := InitialFields(entry);
      title, content, mood, tags := f.title, f.content, f.mood, f.tags;
    }

    /** The save effect. */
    method SaveDraft()
      modifies store
      ensures store.items == SaveStep(entry, Fields(), old(store.items))
    {
      if entry.None? {
        store.SetItem(DraftKey, Encode(Draft(title, content, mood, tags)));
      }
    }

    /** The load effect. */
    method LoadDraft()
      modifies this
      ensures Fields() == LoadStep(entry, old(Fields()), store.items)
    {
      if entry.None? {
        var saved := store.GetItem(DraftKey);
        if saved.Some? && saved.value != "" {
          var parsed := Decode(saved.value);
          if parsed.Some? {
            var f := FromParsed(parsed.value);
            title, content, mood, tags := f.title, f.content, f.mood, f.tags;
          }
        }
      }
    }

    /** The first commit: both effects in declaration order, the save
        effect first. For a new entry this writes the empty fields over any
        stored draft before the load effect reads it back. */
    method Mount()
      requires Fields() == InitialFields(entry)
      modifies this, store
      ensures (Fields(), store.items) == MountAsWritten(entry, old(store.items))
      ensures Fields() == old(Fields())
      ensures Valid()
    {
      SaveDraft();
      LoadDraft();
    }

    /** After a render whose fields differ from `before`, the save effect runs. */
    method AfterRender(before: Draft)
      modifies store
      ensures Fields() != before ==> store.items == SaveStep(entry, Fields(), old(store.items))
      ensures Fields() == before ==> store.items == old(store.items)
    {
      if Fields() != before {
        SaveDraft();
      }
    }

    method SetTitle(value: string)
      requires Valid()
      modifies this, store
      ensures Valid()
      ensures Fields() == old(Fields()).(title := value)
      ensures store.items == if value != old(title) then SaveStep(entry, Fields(), old(store.items)) else old(store.items)
    {
      var before := Fields();
      title := value;
      AfterRender(before);
    }

    method SetContent(value: string)
      requires Valid()
      modifies this, store
      ensures Valid()
      ensures Fields() == old(Fields()).(content := value)
      ensures store.items == if value != old(content) then SaveStep(entry, Fields(), old(store.items)) else old(store.items)
    {
      var before := Fields();
      content := value;
      AfterRender(before);
    }

    /** The mood picker's `onChange`. */
    method SetMood(value: Option<string>)
      requires Valid()
      modifies this, store
      ensures Valid()
      ensures Fields() == old(Fields()).(mood := value)
      ensures store.items == if value != old(mood) then SaveStep(entry, Fields(), old(store.items)) else old(store.items)
    {
      var before := Fields();
      mood := value;
      AfterRender(before);
    }

    /** The tag picker's `onChange`. It always hands over a new array, and
        effect dependencies are compared by reference, so the save effect
        runs even when the contents are unchanged. */
    method SetTags(value: seq<string>)
      requires Valid()
      modifies this, store
      ensures Valid()
      ensures Fields() == old(Fields()).(tags := value)
      ensures store.items == SaveStep(entry, Fields(), old(store.items))
    {
      tags := value;
      SaveDraft();
    }

    /** Whether the submit button is enabled. */
    function SubmitEnabled(isSubmitting: bool): (b: bool)
      reads this
      ensures b <==> !isSubmitting && !AllWhitespace(content)
      ensures b ==> Submission(Fields()).Some?
    {
      !isSubmitting && !Blank(content)
    }

    /** `handleSubmit`: returns the payload given to `onSubmit`, or `None`
        when it returned early. `onSubmit` is awaited and its caller
        swallows every error, so the draft is removed whatever became of
        the insert. */
    method HandleSubmit() returns (payload: Option<Payload>)
      requires Valid()
      modifies store
      ensures Valid()
      ensures payload == Submission(Fields())
      ensures payload.None? ==> store.items == old(store.items)
      ensures payload.Some? && entry.None? ==> store.items == old(store.items) - {DraftKey}
      ensures entry.Some? ==> store.items == old(store.items)
    {
      if Blank(content) {
        return None;
      }
      payload := Some(Normalise(Fields()));
      if entry.None? {
        store.RemoveItem(DraftKey);
      }
    }
  }

  lemma TrimExamples()
    ensures Trim(" A ") == "A" && Trim("B\n") == "B"
  {
    assert SkipForward(" A ", 0) == 1;
    assert SkipBackward(" A ", 1, 3) == 2;
    assert SkipForward("B\n", 0) == 0;
    assert SkipBackward("B\n", 0, 2) == 1;
  }

  /** A whole new-entry session: mount, type a title and some content,
      submit. Whatever draft was stored, the payload carries only the
      trimmed title and content, and the draft key is gone afterwards. */
  method NewEntrySession(store: Storage) returns (payload: Option<Payload>)
    modifies store
    ensures payload == Some(Payload(Some("A"), "B", None, []))
    ensures DraftKey !in store.items
  {
    var form := new EntryForm(None, store);
    form.Mount();
    form.SetTitle(" A ");
    form.SetContent("B\n");
    TrimExamples();
    payload := form.HandleSubmit();
  }
}
