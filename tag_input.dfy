/** The tag-list editor: a text box whose trimmed text is appended to the tag list when it is
    non-empty and not already present, and a remove button per tag. */
module TagInputs {
  import opened Base
  import opened Text
  import opened Seqs

  /** The list `addTag` hands to `onChange`, or `None` when it hands nothing: the trimmed input is
      appended exactly when it is non-empty and not already a tag. */
  function AddedTags(tags: seq<string>, input: string): (r: Option<seq<string>>)
    ensures r.Some? <==> !IsBlank(input) && Trim(input) !in tags
    ensures r.Some? ==> r.value == tags + [Trim(input)] && r.value[..|tags|] == tags
  {
    TrimEmptyIffBlank(input);
    var t := Trim(input);
    if t != "" && t !in tags then Some(tags + [t]) else None
  }

  /** The list `removeTag` hands to `onChange`: every occurrence of the tag is gone, every other tag
      keeps its place and its number of occurrences. */
  function RemoveTag(tags: seq<string>, tag: string): (r: seq<string>)
    ensures tag !in r
    ensures forall t :: t != tag ==> multiset(r)[t] == multiset(tags)[t]
    ensures IsSubsequence(r, tags)
  {
    FilterCounts(tags, (t: string) => t != tag);
    Filter(tags, (t: string) => t != tag)
  }

  /** A duplicate-free list stays duplicate-free after an add. */
  lemma AddKeepsNoDuplicates(tags: seq<string>, input: string)
    requires NoDuplicates(tags) && AddedTags(tags, input).Some?
    ensures NoDuplicates(AddedTags(tags, input).value)
  {
    var r := AddedTags(tags, input).value;
    forall i, j | 0 <= i < j < |r| ensures r[i] != r[j] {
      if j == |tags| {
        assert r[i] == tags[i];
      }
    }
  }

  /** A duplicate-free list stays duplicate-free after a remove. */
  lemma RemoveKeepsNoDuplicates(tags: seq<string>, tag: string)
    requires NoDuplicates(tags)
    ensures NoDuplicates(RemoveTag(tags, tag))
  {
    var r := RemoveTag(tags, tag);
    NoDuplicatesCounts(tags);
    forall t ensures multiset(r)[t] <= 1 {
    }
    CountsNoDuplicates(r);
  }

  /** In a duplicate-free list every value occurs at most once. */
  lemma {:induction false} NoDuplicatesCounts(s: seq<string>)
    requires NoDuplicates(s)
    ensures forall t :: multiset(s)[t] <= 1
  {
    if s != [] {
      assert s == [s[0]] + s[1..];
      NoDuplicatesCounts(s[1..]);
      assert s[0] !in s[1..];
    }
  }

  /** A list in which every value occurs at most once is duplicate-free. */
  lemma {:induction false} CountsNoDuplicates(s: seq<string>)
    requires forall t :: multiset(s)[t] <= 1
    ensures NoDuplicates(s)
  {
    if s != [] {
      assert s == [s[0]] + s[1..];
      assert forall t :: multiset(s[1..])[t] <= multiset(s)[t];
      CountsNoDuplicates(s[1..]);
      assert multiset(s[1..])[s[0]] == 0;
      forall i, j | 0 <= i < j < |s| ensures s[i] != s[j] {
        if i == 0 {
          assert s[j] in s[1..];
        } else {
          assert s[i] == s[1..][i - 1] && s[j] == s[1..][j - 1];
        }
      }
    }
  }

  /** Removing a tag that is not there gives back the same list. */
  lemma {:induction false} RemoveAbsent(tags: seq<string>, tag: string)
    requires tag !in tags
    ensures RemoveTag(tags, tag) == tags
  {
    if tags != [] {
      RemoveAbsent(tags[1..], tag);
    }
  }

  /** Adding a fresh tag and then removing it restores the original list. */
  lemma AddThenRemove(tags: seq<string>, input: string)
    requires AddedTags(tags, input).Some?
    ensures RemoveTag(AddedTags(tags, input).value, Trim(input)) == tags
  {
    var t := Trim(input);
    FilterConcat(tags, [t], (x: string) => x != t);
    RemoveAbsent(tags, t);
  }

  /** The component's own state: the text in the box. The tag list is the `value` property, and a
      new list is handed out through `onChange`, modelled as the returned value. */
  class TagInput {
    var inputValue: string

    constructor()
      ensures inputValue == ""
    {
      inputValue := "";
    }

    /** The box's `onChange`. */
    method SetInput(text: string)
      modifies this
      ensures inputValue == text
    {
      inputValue := text;
    }

    /** The Add button is disabled while the trimmed text is empty, that is, while the text is blank. */
    predicate AddDisabled()
      reads this
    {
      Trim(inputValue) == ""
    }

    /** `addTag`: on an add the new list is emitted and the box cleared; otherwise nothing is
        emitted and the text is kept. */
    method AddTag(tags: seq<string>) returns (emitted: Option<seq<string>>)
      modifies this
      ensures emitted == AddedTags(tags, old(inputValue))
      ensures inputValue == if emitted.Some? then "" else old(inputValue)
      ensures old(AddDisabled()) ==> emitted.None?
    {
      TrimEmptyIffBlank(inputValue);
      var trimmed := Trim(inputValue);
      if trimmed != "" && trimmed !in tags {
        emitted := Some(tags + [trimmed]);
        inputValue := "";
      } else {
        emitted := None;
      }
    }

    /** `handleKeyDown`: Enter adds, any other key does nothing. */
    method HandleKeyDown(key: string, tags: seq<string>) returns (emitted: Option<seq<string>>)
      modifies this
      ensures key == "Enter" ==> emitted == AddedTags(tags, old(inputValue))
                                 && inputValue == if emitted.Some? then "" else old(inputValue)
      ensures key != "Enter" ==> emitted.None? && inputValue == old(inputValue)
    {
      if key == "Enter" {
        emitted := AddTag(tags);
      } else {
        emitted := None;
      }
    }
  }

  /** The button is disabled exactly when the text is blank, and then an add emits nothing. */
  lemma AddDisabledIffBlank(input: string, tags: seq<string>)
    ensures (Trim(input) == "") <==> IsBlank(input)
    ensures IsBlank(input) ==> AddedTags(tags, input).None?
  {
    TrimEmptyIffBlank(input);
  }
}
