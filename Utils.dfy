/** The display helpers: relative time, truncation, and the two fixed
    lookups from mood to emoji and from tag to colour classes. */
module Utils {
  import opened Js

  // ------------------------------------------------------------ numbers

  function DigitChar(d: nat): (c: char)
    requires d < 10
    ensures '0' <= c <= '9'
  {
    ('0' as int + d) as char
  }

  /** `${n}` for a non-negative integer: its decimal digits, no leading zero. */
  function Decimal(n: nat): (s: string)
    ensures s != []
    ensures forall i :: 0 <= i < |s| ==> '0' <= s[i] <= '9'
    ensures n > 0 ==> s[0] != '0'
    decreases n
  {
    if n < 10 then [DigitChar(n)] else Decimal(n / 10) + [DigitChar(n % 10)]
  }

  /** The number a string of decimal digits denotes. */
  function DecimalValue(s: string): nat
    requires forall i :: 0 <= i < |s| ==> '0' <= s[i] <= '9'
  {
    if s == [] then 0 else DecimalValue(s[..|s| - 1]) * 10 + (s[|s| - 1] as int - '0' as int)
  }

  lemma {:induction false} DecimalRoundTrip(n: nat)
    ensures DecimalValue(Decimal(n)) == n
    decreases n
  {
    if n >= 10 {
      DecimalRoundTrip(n / 10);
      var s := Decimal(n);
      assert s[..|s| - 1] == Decimal(n / 10);
    }
  }

  // ------------------------------------------------------------ relative time

  /** `Math.floor((now - date) / 1000)` over millisecond timestamps. Dafny's
      `/` with a positive divisor rounds down, as `Math.floor` does. */
  function ElapsedSeconds(now: int, date: int): (r: int)
    ensures r * 1000 <= now - date < r * 1000 + 1000
  {
    (now - date) / 1000
  }

  /** `${n} ${n === 1 ? singular : plural} ago` */
  function Ago(n: nat, singular: string, plural: string): (s: string)
    ensures s != [] && '0' <= s[0] <= '9'
  {
    Decimal(n) + " " + (if n == 1 then singular else plural) + " ago"
  }

  /** `formatRelativeTime(date)` with the current time passed in as `now`. */
  function FormatRelativeTime(now: int, date: int): (s: string)
    ensures s == "just now" <==> ElapsedSeconds(now, date) < 60
  {
    var seconds := ElapsedSeconds(now, date);
    if seconds < 60 then "just now"
    else
      var minutes := seconds / 60;
      if minutes < 60 then Ago(minutes, "minute", "minutes")
      else
        var hours := minutes / 60;
        if hours < 24 then Ago(hours, "hour", "hours")
        else
          var days := hours / 24;
          if days < 30 then Ago(days, "day", "days")
          else
            var months := days / 30;
            if months < 12 then Ago(months, "month", "months")
            else Ago(months / 12, "year", "years")
  }

  /** The buckets by whole seconds elapsed, with a single division for each
      count: the successive divisions land in the same place. The months
      are 30-day months and the years twelve of them. */
  lemma RelativeTimeBuckets(now: int, date: int)
    ensures var s := ElapsedSeconds(now, date);
      && (60 <= s < 3600 ==> FormatRelativeTime(now, date) == Ago(s / 60, "minute", "minutes") && 1 <= s / 60 < 60)
      && (3600 <= s < 86400 ==> FormatRelativeTime(now, date) == Ago(s / 3600, "hour", "hours") && 1 <= s / 3600 < 24)
      && (86400 <= s < 2592000 ==> FormatRelativeTime(now, date) == Ago(s / 86400, "day", "days") && 1 <= s / 86400 < 30)
      && (2592000 <= s < 31104000 ==> FormatRelativeTime(now, date) == Ago(s / 2592000, "month", "months") && 1 <= s / 2592000 < 12)
      && (31104000 <= s ==> FormatRelativeTime(now, date) == Ago(s / 31104000, "year", "years") && 1 <= s / 31104000)
  {
    var s := ElapsedSeconds(now, date);
    if s >= 60 {
      assert s / 60 / 60 == s / 3600;
      assert s / 3600 / 24 == s / 86400;
      assert s / 86400 / 30 == s / 2592000;
      assert s / 2592000 / 12 == s / 31104000;
    }
  }

  /** Every count shown is positive, and the unit word is singular exactly
      when the count is 1. */
  lemma AgoWord(n: nat, singular: string, plural: string)
    ensures Ago(n, singular, plural) == Decimal(n) + " " + singular + " ago" || Ago(n, singular, plural) == Decimal(n) + " " + plural + " ago"
    ensures singular != plural ==> (Ago(n, singular, plural) == Decimal(n) + " " + singular + " ago" <==> n == 1)
  {
    if singular != plural && n != 1 {
      var d := Decimal(n) + " ";
      var s1 := d + singular + " ago";
      var s2 := d + plural + " ago";
      assert s2 == Ago(n, singular, plural);
      assert s1[|d|..|s1| - 4] == singular;
      assert s2[|d|..|s2| - 4] == plural;
    }
  }

  // ------------------------------------------------------------ truncate

  /** `truncate(text, length = 150)`: falsy text, or text no longer than
      `length`, comes back as it is; otherwise the first `length`
      characters, trimmed, followed by `...`. `substring` treats a negative
      `length` as 0. */
  function Truncate(text: Option<string>, length: int := 150): (r: Option<string>)
    ensures !Truthy(text) || |text.value| <= length ==> r == text
    ensures Truthy(text) && |text.value| > length ==>
              && r.Some?
              && EndsWith(r.value, "...")
              && |r.value| <= (if length < 0 then 0 else length) + 3
              && Includes(text.value[..if length < 0 then 0 else length], r.value[..|r.value| - 3])
              && r.value[..|r.value| - 3] == Trim(r.value[..|r.value| - 3])
    ensures Truthy(text) && |text.value| > length ==>
              r == Some(Trim(text.value[..if length < 0 then 0 else length]) + "...")
  {
    if !Truthy(text) || |text.value| <= length then text
    else
      var kept := Trim(text.value[..if length < 0 then 0 else length]);
      TrimIdempotent(text.value[..if length < 0 then 0 else length]);
      var r := kept + "...";
      assert r[..|r| - 3] == kept;
      Some(r)
  }

  // ------------------------------------------------------------ lookups

  const Moods: seq<string> := ["challenging", "optimistic", "breakthrough", "frustrated", "motivated"]

  /** The five tags the tag picker offers. */
  predicate IsTag(t: string) {
    t == "win" || t == "lesson" || t == "challenge" || t == "milestone" || t == "idea"
  }

  /** `getMoodEmoji(mood)` with the literals exactly as the file holds them:
      each is the UTF-8 encoding of an emoji read back as Windows-1252
      text, four characters such as U+00F0 U+0178 U+02DC U+00A4. */
  function GetMoodEmoji(mood: string): (r: string)
    ensures r != "" <==> mood in Moods
    ensures mood in Moods ==> |r| == 4
  {
    if mood == "challenging" then "\U{00F0}\U{0178}\U{02DC}\U{00A4}"
    else if mood == "optimistic" then "\U{00F0}\U{0178}\U{0152}\U{0178}"
    else if mood == "breakthrough" then "\U{00F0}\U{0178}\U{2019}\U{00A1}"
    else if mood == "frustrated" then "\U{00F0}\U{0178}\U{02DC}\U{201C}"
    else if mood == "motivated" then "\U{00F0}\U{0178}\U{0161}\U{20AC}"
    else ""
  }

  /** The emoji the mood picker shows for each mood: one character each. */
  function GetMoodEmojiIntended(mood: string): (r: string)
    ensures r != "" <==> mood in Moods
    ensures mood in Moods ==> |r| == 1
  {
    if mood == "challenging" then "\U{1F624}"
    else if mood == "optimistic" then "\U{1F31F}"
    else if mood == "breakthrough" then "\U{1F4A1}"
    else if mood == "frustrated" then "\U{1F613}"
    else if mood == "motivated" then "\U{1F680}"
    else ""
  }

  /** Both tables give each of the five moods its own emoji. */
  lemma MoodEmojisDistinct(m1: string, m2: string)
    requires m1 in Moods && m2 in Moods && m1 != m2
    ensures GetMoodEmoji(m1) != GetMoodEmoji(m2)
    ensures GetMoodEmojiIntended(m1) != GetMoodEmojiIntended(m2)
  {
    var a, b := GetMoodEmoji(m1), GetMoodEmoji(m2);
    assert a[2] != b[2] || a[3] != b[3];
  }

  /** The literals as written are not the emoji the picker shows, for any
      mood: the picker's is one character, the helper's four. */
  lemma MoodEmojiDiffersFromPicker(mood: string)
    requires mood in Moods
    ensures GetMoodEmoji(mood) != GetMoodEmojiIntended(mood)
  {
  }

  /** The four UTF-8 bytes of a code point outside the Basic Multilingual
      Plane. */
  function Utf8Bytes(c: char): (bytes: seq<int>)
    requires c as int >= 0x10000
    ensures |bytes| == 4 && forall i :: 0 <= i < 4 ==> 0 <= bytes[i] < 256
  {
    var n := c as int;
    [0xF0 + n / 0x40000 % 8, 0x80 + n / 0x1000 % 64, 0x80 + n / 64 % 64, 0x80 + n % 64]
  }

  /** A byte read as Windows-1252 text: 0x80-0x9F hold the code page's own
      characters (the five it leaves unassigned map to the same code point),
      every other byte is the code point of the same number. */
  function Cp1252(b: int): (c: char)
    requires 0 <= b < 256
  {
    if b < 0x80 || b >= 0xA0 then b as char
    else
      var high := "\U{20AC}\U{0081}\U{201A}\U{0192}\U{201E}\U{2026}\U{2020}\U{2021}\U{02C6}\U{2030}\U{0160}\U{2039}\U{0152}\U{008D}\U{017D}\U{008F}"
        + "\U{0090}\U{2018}\U{2019}\U{201C}\U{201D}\U{2022}\U{2013}\U{2014}\U{02DC}\U{2122}\U{0161}\U{203A}\U{0153}\U{009D}\U{017E}\U{0178}";
      assert |high| == 32;
      high[b - 0x80]
  }

  /** An emoji's UTF-8 bytes shown as Windows-1252 text. */
  function Misread(c: char): (s: string)
    requires c as int >= 0x10000
    ensures |s| == 4
  {
    var bytes := Utf8Bytes(c);
    [Cp1252(bytes[0]), Cp1252(bytes[1]), Cp1252(bytes[2]), Cp1252(bytes[3])]
  }

  /** Each literal of `getMoodEmoji` is the picker's emoji for that mood,
      encoded as UTF-8 and read back as Windows-1252. */
  lemma MoodEmojiIsMisreadPickerEmoji(mood: string)
    requires mood in Moods
    ensures GetMoodEmojiIntended(mood)[0] as int >= 0x10000
    ensures GetMoodEmoji(mood) == Misread(GetMoodEmojiIntended(mood)[0])
  {
    var c := GetMoodEmojiIntended(mood)[0];
    if mood == "challenging" {
      assert Utf8Bytes(c) == [0xF0, 0x9F, 0x98, 0xA4];
    } else if mood == "optimistic" {
      assert Utf8Bytes(c) == [0xF0, 0x9F, 0x8C, 0x9F];
    } else if mood == "breakthrough" {
      assert Utf8Bytes(c) == [0xF0, 0x9F, 0x92, 0xA1];
    } else if mood == "frustrated" {
      assert Utf8Bytes(c) == [0xF0, 0x9F, 0x98, 0x93];
    } else {
      assert Utf8Bytes(c) == [0xF0, 0x9F, 0x9A, 0x80];
    }
  }

  const DefaultTagColor := "bg-gray-100 text-gray-700 border-gray-200"

  /** `getTagColor(tag)`: the five listed class strings, grey for any other. */
  function GetTagColor(tag: string): (r: string)
    ensures r == DefaultTagColor <==> !IsTag(tag)
  {
    if tag == "win" then "bg-green-100 text-green-700 border-green-200"
    else if tag == "lesson" then "bg-blue-100 text-blue-700 border-blue-200"
    else if tag == "challenge" then "bg-orange-100 text-orange-700 border-orange-200"
    else if tag == "milestone" then "bg-purple-100 text-purple-700 border-purple-200"
    else if tag == "idea" then "bg-yellow-100 text-yellow-700 border-yellow-200"
    else DefaultTagColor
  }

  lemma TagColorInitial(t: string)
    requires IsTag(t)
    ensures GetTagColor(t)[3] == (if t == "win" then 'g' else if t == "lesson" then 'b'
      else if t == "challenge" then 'o' else if t == "milestone" then 'p' else 'y')
  {
    if t == "win" {
      assert GetTagColor(t) == "bg-green-100 text-green-700 border-green-200";
    } else if t == "lesson" {
      assert GetTagColor(t) == "bg-blue-100 text-blue-700 border-blue-200";
    } else if t == "challenge" {
      assert GetTagColor(t) == "bg-orange-100 text-orange-700 border-orange-200";
    } else if t == "milestone" {
      assert GetTagColor(t) == "bg-purple-100 text-purple-700 border-purple-200";
    } else {
      assert GetTagColor(t) == "bg-yellow-100 text-yellow-700 border-yellow-200";
    }
  }

  /** Each of the five tags has its own colour. */
  lemma TagColorsDistinct(t1: string, t2: string)
    requires IsTag(t1) && IsTag(t2) && t1 != t2
    ensures GetTagColor(t1) != GetTagColor(t2)
  {
    TagColorInitial(t1);
    TagColorInitial(t2);
  }
}
