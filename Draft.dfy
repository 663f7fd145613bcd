/** The draft record the entry form keeps in local storage, and the text
    it is stored as. `JSON.stringify` and `JSON.parse` are modelled by an
    encoder `Text` and a decoder `Decode` that are exact inverses: the four
    members in a fixed order, each a string, a list of strings or `null`.
    Strings escape only `"` and `\`; `JSON.stringify` also writes control
    characters as escapes, so for a draft holding one the text here is not
    the one the browser stores; the round trip is proved for this text. */
module Draft {
  import opened Js

  /** `{ title, content, mood, tags }` as the form saves it. */
  datatype Draft = Draft(title: string, content: string, mood: Option<string>, tags: seq<string>)

  /** The object `JSON.parse` hands back: any member may be `null`. */
  datatype Parsed = Parsed(title: Option<string>, content: Option<string>, mood: Option<string>, tags: Option<seq<string>>)

  // ------------------------------------------------------------ encoding

  function Escape(s: string): string {
    if s == [] then ""
    else (if s[0] == '"' || s[0] == '\\' then ['\\', s[0]] else [s[0]]) + Escape(s[1..])
  }

  function Quote(s: string): string {
    "\"" + Escape(s) + "\""
  }

  function NullableString(o: Option<string>): string {
    if o.Some? then Quote(o.value) else "null"
  }

  /** The items of a non-empty list and the closing bracket. */
  function Items(xs: seq<string>): string
    requires xs != []
    decreases |xs|
  {
    Quote(xs[0]) + if |xs| == 1 then "]" else "," + Items(xs[1..])
  }

  function List(xs: seq<string>): string {
    "[" + if xs == [] then "]" else Items(xs)
  }

  const TitleKey := "{\"title\":"
  const ContentKey := ",\"content\":"
  const MoodKey := ",\"mood\":"
  const TagsKey := ",\"tags\":"

  function NullableList(o: Option<seq<string>>): string {
    if o.Some? then List(o.value) else "null"
  }

  /** The text of an object with the four members, any of them `null`. */
  function Text(p: Parsed): (s: string)
    ensures s != "" && s[0] == '{'
  {
    TitleKey + (NullableString(p.title) + (ContentKey + (NullableString(p.content) + (MoodKey
      + (NullableString(p.mood) + (TagsKey + (NullableList(p.tags) + "}")))))))
  }

  /** `JSON.stringify(draft)`: a draft's members are never `null`, except a
      mood that was never picked. */
  function Encode(d: Draft): (s: string)
    ensures s != "" && s[0] == '{'
  {
    Text(Parsed(Some(d.title), Some(d.content), d.mood, Some(d.tags)))
  }

  // ------------------------------------------------------------ decoding

  /** The rest of `s` after the literal `lit`, if `s` starts with it. */
  function Skip(lit: string, s: string): (r: Option<string>)
    ensures r.Some? ==> s == lit + r.value
    ensures r.None? <==> !StartsWith(s, lit)
  {
    if StartsWith(s, lit) then Some(s[|lit|..]) else None
  }

  /** A string body after its opening quote, up to the closing quote. */
  function ParseBody(s: string): (r: Option<(string, string)>)
    ensures r.Some? ==> |r.value.1| < |s|
    ensures r.Some? ==> s == Escape(r.value.0) + "\"" + r.value.1
    decreases |s|
  {
    if s == [] then None
    else if s[0] == '"' then Some(("", s[1..]))
    else if s[0] == '\\' then
      if |s| >= 2 && (s[1] == '"' || s[1] == '\\') then
        match ParseBody(s[2..])
        case None => None
        case Some((b, rest)) => Some(([s[1]] + b, rest))
      else None
    else
      match ParseBody(s[1..])
      case None => None
      case Some((b, rest)) => Some(([s[0]] + b, rest))
  }

  function ParseString(s: string): (r: Option<(string, string)>)
    ensures r.Some? ==> |r.value.1| < |s|
    ensures r.Some? ==> s == Quote(r.value.0) + r.value.1
  {
    if s != [] && s[0] == '"' then ParseBody(s[1..]) else None
  }

  function ParseNullableString(s: string): (r: Option<(Option<string>, string)>)
    ensures r.Some? ==> |r.value.1| < |s|
    ensures r.Some? ==> s == NullableString(r.value.0) + r.value.1
  {
    if StartsWith(s, "null") then Some((None, s[4..]))
    else match ParseString(s)
      case None => None
      case Some((x, rest)) => Some((Some(x), rest))
  }

  /** `item (, item)* ]` */
  function ParseItems(s: string): (r: Option<(seq<string>, string)>)
    ensures r.Some? ==> |r.value.1| < |s|
    ensures r.Some? ==> r.value.0 != [] && s == Items(r.value.0) + r.value.1
    decreases |s|
  {
    match ParseString(s)
    case None => None
    case Some((x, rest)) =>
      if rest != [] && rest[0] == ']' then
        ItemsSingle(x, rest);
        Some(([x], rest[1..]))
      else if rest != [] && rest[0] == ',' then
        match ParseItems(rest[1..])
        case None => None
        case Some((xs, rest')) =>
          ItemsCons(x, xs, rest, rest');
          Some(([x] + xs, rest'))
      else None
  }

  lemma ItemsSingle(x: string, rest: string)
    requires rest != [] && rest[0] == ']'
    ensures Items([x]) + rest[1..] == Quote(x) + rest
  {
    assert rest == "]" + rest[1..];
  }

  lemma ItemsCons(x: string, xs: seq<string>, rest: string, rest': string)
    requires xs != [] && rest != [] && rest[0] == ',' && rest[1..] == Items(xs) + rest'
    ensures Items([x] + xs) + rest' == Quote(x) + rest
  {
    assert ([x] + xs)[1..] == xs;
    assert Items([x] + xs) == Quote(x) + ("," + Items(xs));
    assert rest == "," + rest[1..];
  }

  function ParseNullableList(s: string): (r: Option<(Option<seq<string>>, string)>)
    ensures r.Some? ==> |r.value.1| < |s|
    ensures r.Some? ==> s == NullableList(r.value.0) + r.value.1
  {
    if StartsWith(s, "null") then
      NullPrefix(s);
      Some((None, s[4..]))
    else if StartsWith(s, "[]") then
      EmptyListPrefix(s);
      Some((Some([]), s[2..]))
    else if s != [] && s[0] == '[' then
      match ParseItems(s[1..])
      case None => None
      case Some((xs, rest)) =>
        ListPrefix(s, xs, rest);
        Some((Some(xs), rest))
    else None
  }

  lemma NullPrefix(s: string)
    requires StartsWith(s, "null")
    ensures s == NullableList(None) + s[4..]
  {
    assert s == s[..4] + s[4..];
  }

  lemma EmptyListPrefix(s: string)
    requires StartsWith(s, "[]")
    ensures s == NullableList(Some([])) + s[2..]
  {
    assert s == s[..2] + s[2..];
  }

  lemma ListPrefix(s: string, xs: seq<string>, rest: string)
    requires s != [] && s[0] == '[' && xs != [] && s[1..] == Items(xs) + rest
    ensures s == NullableList(Some(xs)) + rest
  {
    assert s == "[" + s[1..];
  }

  /** `JSON.parse(saved)`; `None` is the exception the form catches. The
      only texts it accepts are those `Text` writes. */
  function Decode(s: string): (r: Option<Parsed>)
    ensures r.Some? ==> s == Text(r.value)
  {
    var s1 :- Skip(TitleKey, s);
    var title :- ParseNullableString(s1);
    var s3 :- Skip(ContentKey, title.1);
    var content :- ParseNullableString(s3);
    var s5 :- Skip(MoodKey, content.1);
    var mood :- ParseNullableString(s5);
    var s7 :- Skip(TagsKey, mood.1);
    var tags :- ParseNullableList(s7);
    if tags.1 == "}" then Some(Parsed(title.0, content.0, mood.0, tags.0)) else None
  }

  // ------------------------------------------------------------ round trip

  lemma {:induction false} ParseBodyEscape(x: string, rest: string)
    ensures ParseBody(Escape(x) + "\"" + rest) == Some((x, rest))
  {
    var s := Escape(x) + "\"" + rest;
    if x == [] {
      assert s == "\"" + rest;
      assert s[0] == '"' && s[1..] == rest;
    } else {
      var tail := Escape(x[1..]) + "\"" + rest;
      ParseBodyEscape(x[1..], rest);
      assert [x[0]] + x[1..] == x;
      if x[0] == '"' || x[0] == '\\' {
        assert Escape(x) == ['\\', x[0]] + Escape(x[1..]);
        assert s == ['\\', x[0]] + tail;
        assert s[0] == '\\' && s[1] == x[0] && s[2..] == tail;
      } else {
        assert Escape(x) == [x[0]] + Escape(x[1..]);
        assert s == [x[0]] + tail;
        assert s[0] == x[0] && s[1..] == tail;
      }
    }
  }

  lemma ParseStringQuote(x: string, rest: string)
    ensures ParseString(Quote(x) + rest) == Some((x, rest))
  {
    assert Quote(x) + rest == "\"" + (Escape(x) + "\"" + rest);
    ParseBodyEscape(x, rest);
  }

  lemma ParseNullableStringEncoded(o: Option<string>, rest: string)
    ensures ParseNullableString(NullableString(o) + rest) == Some((o, rest))
  {
    if o.Some? {
      ParseStringQuote(o.value, rest);
      assert !StartsWith(Quote(o.value) + rest, "null") by {
        assert (Quote(o.value) + rest)[0] == '"';
      }
    } else {
      assert ("null" + rest)[4..] == rest;
    }
  }

  lemma {:induction false} ParseItemsEncoded(xs: seq<string>, rest: string)
    requires xs != []
    ensures ParseItems(Items(xs) + rest) == Some((xs, rest))
    decreases |xs|
  {
    if |xs| == 1 {
      ParseOneItemEncoded(xs[0], rest);
      assert [xs[0]] == xs;
    } else {
      var tail := Items(xs[1..]) + rest;
      assert Items(xs) + rest == Quote(xs[0]) + ("," + tail);
      ParseStringQuote(xs[0], "," + tail);
      assert ("," + tail)[1..] == tail;
      ParseItemsEncoded(xs[1..], rest);
      assert [xs[0]] + xs[1..] == xs;
    }
  }

  lemma ParseOneItemEncoded(x: string, rest: string)
    ensures ParseItems(Items([x]) + rest) == Some(([x], rest))
  {
    assert Items([x]) + rest == Quote(x) + ("]" + rest);
    ParseStringQuote(x, "]" + rest);
    assert ("]" + rest)[1..] == rest;
  }

  lemma ParseListEncoded(xs: seq<string>, rest: string)
    ensures ParseNullableList(List(xs) + rest) == Some((Some(xs), rest))
  {
    if xs == [] {
      var s := List(xs) + rest;
      assert s == "[]" + rest;
      assert s[0] == '[' && s[1] == ']';
      assert s[..2] == "[]";
      assert s[2..] == rest;
    } else {
      var s := List(xs) + rest;
      assert s == "[" + (Items(xs) + rest);
      assert s[1..] == Items(xs) + rest;
      ParseItemsEncoded(xs, rest);
      assert Items(xs)[0] == '"';
      assert s[1] == '"';
    }
  }

  lemma ParseNullableListEncoded(o: Option<seq<string>>, rest: string)
    ensures ParseNullableList(NullableList(o) + rest) == Some((o, rest))
  {
    if o.None? {
      assert ("null" + rest)[4..] == rest;
    } else {
      ParseListEncoded(o.value, rest);
    }
  }

  lemma SkipLiteral(lit: string, rest: string)
    ensures Skip(lit, lit + rest) == Some(rest)
  {
    assert (lit + rest)[..|lit|] == lit;
    assert (lit + rest)[|lit|..] == rest;
  }

  /** Reading back any text `Text` writes gives the same object; with the
      contract of `Decode` this makes the two exact inverses. */
  lemma DecodeText(p: Parsed)
    ensures Decode(Text(p)) == Some(p)
  {
    var p8 := "}";
    var p7 := NullableList(p.tags) + p8;
    var p6 := TagsKey + p7;
    var p5 := NullableString(p.mood) + p6;
    var p4 := MoodKey + p5;
    var p3 := NullableString(p.content) + p4;
    var p2 := ContentKey + p3;
    var p1 := NullableString(p.title) + p2;
    SkipLiteral(TitleKey, p1);
    ParseNullableStringEncoded(p.title, p2);
    SkipLiteral(ContentKey, p3);
    ParseNullableStringEncoded(p.content, p4);
    SkipLiteral(MoodKey, p5);
    ParseNullableStringEncoded(p.mood, p6);
    SkipLiteral(TagsKey, p7);
    ParseNullableListEncoded(p.tags, p8);
  }

  /** Reading back what was written gives every member of the draft. */
  lemma DecodeEncode(d: Draft)
    ensures Decode(Encode(d)) == Some(Parsed(Some(d.title), Some(d.content), d.mood, Some(d.tags)))
  {
    DecodeText(Parsed(Some(d.title), Some(d.content), d.mood, Some(d.tags)));
  }
}
