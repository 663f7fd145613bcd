/** The tag-toggle expression that both tag pickers use:
    `list.includes(tag) ? list.filter((t) => t !== tag) : [...list, tag]`.
    It builds a new list and leaves `list` as it was. */
module TagList {
  import opened Js

  predicate NoDuplicates(xs: seq<string>) {
    forall i, j :: 0 <= i < j < |xs| ==> xs[i] != xs[j]
  }

  function Toggle(list: seq<string>, tag: string): (r: seq<string>)
    ensures tag in r <==> tag !in list
    ensures forall t :: t != tag ==> (t in r <==> t in list)
  {
    if tag in list then RemoveAll(list, tag) else list + [tag]
  }

  /** Toggling a selected tag drops every occurrence of it and keeps the
      other tags in their order. */
  lemma ToggleSelectedRemoves(list: seq<string>, tag: string)
    requires tag in list
    ensures IsSubsequence(Toggle(list, tag), list)
    ensures multiset(Toggle(list, tag)) == multiset(list)[tag := 0]
  {
  }

  /** Toggling an unselected tag appends it at the end. */
  lemma ToggleUnselectedAppends(list: seq<string>, tag: string)
    requires tag !in list
    ensures |Toggle(list, tag)| == |list| + 1
    ensures Toggle(list, tag)[..|list|] == list && Toggle(list, tag)[|list|] == tag
  {
  }

  lemma {:induction false} SubsequenceKeepsNoDuplicates(r: seq<string>, s: seq<string>)
    requires IsSubsequence(r, s) && NoDuplicates(s)
    ensures NoDuplicates(r)
    decreases |s|
  {
    if r != [] {
      if r[0] == s[0] && IsSubsequence(r[1..], s[1..]) {
        SubsequenceKeepsNoDuplicates(r[1..], s[1..]);
        SubsequenceElements(r[1..], s[1..]);
        assert r == [r[0]] + r[1..];
        forall j | 0 < j < |r| ensures r[0] != r[j] {
          assert r[j] == r[1..][j - 1];
          assert r[j] in s[1..];
        }
      } else {
        SubsequenceKeepsNoDuplicates(r, s[1..]);
      }
    }
  }

  lemma {:induction false} SubsequenceElements(r: seq<string>, s: seq<string>)
    requires IsSubsequence(r, s)
    ensures forall x :: x in r ==> x in s
    decreases |s|
  {
    if r != [] {
      if r[0] == s[0] && IsSubsequence(r[1..], s[1..]) {
        SubsequenceElements(r[1..], s[1..]);
        assert r == [r[0]] + r[1..];
      } else {
        SubsequenceElements(r, s[1..]);
      }
    }
  }

  /** On a duplicate-free list the toggle keeps the list duplicate-free. */
  lemma ToggleKeepsNoDuplicates(list: seq<string>, tag: string)
    requires NoDuplicates(list)
    ensures NoDuplicates(Toggle(list, tag))
  {
    if tag in list {
      SubsequenceKeepsNoDuplicates(RemoveAll(list, tag), list);
    }
  }

  /** Toggling an unselected tag twice restores the list. */
  lemma ToggleTwiceFromUnselected(list: seq<string>, tag: string)
    requires tag !in list
    ensures Toggle(Toggle(list, tag), tag) == list
  {
    RemoveAllAppended(list, tag);
  }

  lemma {:induction false} RemoveAllAppended(list: seq<string>, tag: string)
    requires tag !in list
    ensures RemoveAll(list + [tag], tag) == list
  {
    if list != [] {
      assert (list + [tag])[1..] == list[1..] + [tag];
      RemoveAllAppended(list[1..], tag);
      assert list == [list[0]] + list[1..];
    } else {
      assert [tag][1..] == [];
    }
  }

  /** Toggling a selected tag twice gives back the same tags, but the tag
      moves to the end: the order is restored only when it was last. */
  lemma ToggleTwiceFromSelected(list: seq<string>, tag: string)
    requires tag in list
    ensures Toggle(Toggle(list, tag), tag) == RemoveAll(list, tag) + [tag]
    ensures forall t :: t in Toggle(Toggle(list, tag), tag) <==> t in list
    ensures NoDuplicates(list) ==> multiset(Toggle(Toggle(list, tag), tag)) == multiset(list)
  {
    if NoDuplicates(list) {
      var i :| 0 <= i < |list| && list[i] == tag;
      forall j | 0 <= j < |list| && j != i ensures list[j] != tag {}
      MultisetCountOne(list, i);
    }
  }

  lemma MultisetCountOne(list: seq<string>, i: nat)
    requires i < |list| && forall j :: 0 <= j < |list| && j != i ==> list[j] != list[i]
    ensures multiset(list)[list[i]] == 1
  {
    assert list == list[..i] + [list[i]] + list[i + 1..];
    assert list[i] !in list[..i];
    assert list[i] !in list[i + 1..];
  }

  /** The order is not restored in general: toggling "win" twice in
      ["win", "idea"] yields ["idea", "win"]. */
  lemma ToggleTwiceReorders()
    ensures Toggle(Toggle(["win", "idea"], "win"), "win") == ["idea", "win"]
  {
    assert RemoveAll(["win", "idea"], "win") == ["idea"] by {
      assert ["win", "idea"][1..] == ["idea"];
      assert ["idea"][1..] == [];
    }
  }
}
