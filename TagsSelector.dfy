/** The tags selector: the selected tags shown as removable tokens, the known
    tags not yet selected offered as suggestions, and the two callbacks that
    turn a deletion or an addition into a new selection passed to `onChange`. */
module TagsSelector {
  import opened Options
  import opened JsStrings
  import opened JsSet

  /** The `{ id, name }` record the autocomplete widget takes for a tag. */
  datatype ComponentTag = ComponentTag(id: string, name: string)

  /** The placeholder used when the caller passes none. */
  const DefaultPlaceholder: string := "Add tags to the URL"

  function Placeholder(placeholder: Option<string>): (r: string)
    ensures placeholder.Some? ==> r == placeholder.value
    ensures placeholder.None? ==> r == DefaultPlaceholder
  {
    if placeholder.Some? then placeholder.value else DefaultPlaceholder
  }

  /** `toComponentTag`: a tag becomes a record whose id and name are both the tag,
      so the name gives the tag back. */
  function ToComponentTag(tag: string): (r: ComponentTag)
    ensures r.name == tag && r.id == r.name
  {
    ComponentTag(tag, tag)
  }

  /** `tags.map(toComponentTag)`. */
  function ToComponentTags(tags: seq<string>): (r: seq<ComponentTag>)
    ensures |r| == |tags|
    ensures forall i :: 0 <= i < |tags| ==> r[i] == ToComponentTag(tags[i])
  {
    seq(|tags|, i requires 0 <= i < |tags| => ToComponentTag(tags[i]))
  }

  /** The names of the records, in order. */
  function Names(cts: seq<ComponentTag>): (r: seq<string>)
    ensures |r| == |cts|
    ensures forall i :: 0 <= i < |cts| ==> r[i] == cts[i].name
  {
    seq(|cts|, i requires 0 <= i < |cts| => cts[i].name)
  }

  /** The displayed tokens are the selected tags one for one, in order: their
      names give the selection back. */
  lemma DisplayedTagsRoundTrip(selectedTags: seq<string>)
    ensures Names(ToComponentTags(selectedTags)) == selectedTags
    ensures forall i :: 0 <= i < |selectedTags| ==> ToComponentTags(selectedTags)[i].id == selectedTags[i]
  {
  }

  // ---------------------------------------------------------------------------
  // Suggestions

  /** `tagsList.tags.filter((tag) => !selectedTags.includes(tag))`. */
  function Unselected(known: seq<string>, selectedTags: seq<string>): seq<string>
    decreases |known|
  {
    if |known| == 0 then []
    else
      var last := known[|known| - 1];
      Unselected(known[..|known| - 1], selectedTags) + (if last in selectedTags then [] else [last])
  }

  /** The filter keeps exactly the known tags that are not selected. */
  lemma {:induction false} UnselectedElements(known: seq<string>, selectedTags: seq<string>)
    ensures forall t :: t in Unselected(known, selectedTags) <==> t in known && t !in selectedTags
    ensures |Unselected(known, selectedTags)| <= |known|
    decreases |known|
  {
    if |known| > 0 {
      var init := known[..|known| - 1];
      UnselectedElements(init, selectedTags);
      assert known == init + [known[|known| - 1]];
    }
  }

  /** The suggestion list handed to the widget: a record for every known tag
      that is not selected, and for nothing else, in known-tags order, each
      record's id being its name. */
  function Suggestions(known: seq<string>, selectedTags: seq<string>): (r: seq<ComponentTag>)
    ensures forall t :: ToComponentTag(t) in r <==> t in known && t !in selectedTags
    ensures Names(r) == Unselected(known, selectedTags)
    ensures forall i :: 0 <= i < |r| ==> r[i].id == r[i].name
  {
    var u := Unselected(known, selectedTags);
    var r := ToComponentTags(u);
    UnselectedElements(known, selectedTags);
    DisplayedTagsRoundTrip(u);
    assert forall t :: ToComponentTag(t) in r <==> t in u by {
      forall t | ToComponentTag(t) in r ensures t in u {
        var i :| 0 <= i < |r| && r[i] == ToComponentTag(t);
        assert u[i] == t;
      }
      forall t | t in u ensures ToComponentTag(t) in r {
        var i :| 0 <= i < |u| && u[i] == t;
        assert r[i] == ToComponentTag(t);
      }
    }
    r
  }

  /** Filtering one more known tag appends it when it is not selected. */
  lemma UnselectedSnoc(known: seq<string>, t: string, selectedTags: seq<string>)
    ensures Unselected(known + [t], selectedTags) ==
      Unselected(known, selectedTags) + (if t in selectedTags then [] else [t])
  {
    assert (known + [t])[..|known|] == known;
  }

  /** The filter keeps the known-tags order: filtering a concatenation is the
      concatenation of the filtered parts. */
  lemma {:induction false} UnselectedConcat(a: seq<string>, b: seq<string>, selectedTags: seq<string>)
    ensures Unselected(a + b, selectedTags) == Unselected(a, selectedTags) + Unselected(b, selectedTags)
    decreases |b|
  {
    if |b| == 0 {
      assert a + b == a;
    } else {
      var b', last := b[..|b| - 1], b[|b| - 1];
      var tail := if last in selectedTags then [] else [last];
      assert a + b == (a + b') + [last] && b == b' + [last];
      UnselectedSnoc(a + b', last, selectedTags);
      UnselectedSnoc(b', last, selectedTags);
      UnselectedConcat(a, b', selectedTags);
      assert Unselected(a, selectedTags) + (Unselected(b', selectedTags) + tail) ==
        (Unselected(a, selectedTags) + Unselected(b', selectedTags)) + tail;
    }
  }

  /** One known tag is kept exactly when it is not selected. */
  lemma UnselectedSingle(t: string, selectedTags: seq<string>)
    ensures Unselected([t], selectedTags) == if t in selectedTags then [] else [t]
  {
    UnselectedSnoc([], t, selectedTags);
    assert [] + [t] == [t];
  }

  /** With nothing selected every known tag is suggested, in order. */
  lemma {:induction false} NothingSelectedSuggestsAll(known: seq<string>)
    ensures Unselected(known, []) == known
    decreases |known|
  {
    if |known| > 0 {
      var init, last := known[..|known| - 1], known[|known| - 1];
      NothingSelectedSuggestsAll(init);
      assert known == init + [last];
      UnselectedSnoc(init, last, []);
    }
  }

  /** Known tags without duplicates give suggestions without duplicates. */
  lemma {:induction false} UnselectedNoDup(known: seq<string>, selectedTags: seq<string>)
    requires NoDup(known)
    ensures NoDup(Unselected(known, selectedTags))
    decreases |known|
  {
    if |known| > 0 {
      var init, last := known[..|known| - 1], known[|known| - 1];
      assert NoDup(init);
      UnselectedNoDup(init, selectedTags);
      UnselectedElements(init, selectedTags);
      assert last !in init;
    }
  }

  // ---------------------------------------------------------------------------
  // onDelete: copy the selection, splice one element out of the copy

  /** Where `splice(start, …)` starts on an array of length `len`: a negative
      start counts from the end, and the result is clamped to `0..len`. */
  function SpliceStart(len: nat, start: int): (k: nat)
    ensures k <= len
    ensures 0 <= start <= len ==> k == start
    ensures start > len ==> k == len
    ensures start < 0 ==> k == if len + start < 0 then 0 else len + start
  {
    if start < 0 then (if len + start < 0 then 0 else len + start)
    else if start > len then len
    else start
  }

  /** The list a copy of `s` becomes after `copy.splice(start, 1)`. */
  function RemoveAt(s: seq<string>, start: int): seq<string>
  {
    var k := SpliceStart(|s|, start);
    if k < |s| then s[..k] + s[k + 1..] else s
  }

  /** Deleting a valid index removes exactly that element: the length drops
      by one, the elements before it stay in place, the ones after it move
      down one place, and the removed tag is the only one lost. */
  lemma RemoveAtIndex(s: seq<string>, i: int)
    requires 0 <= i < |s|
    ensures |RemoveAt(s, i)| == |s| - 1
    ensures forall j :: 0 <= j < i ==> RemoveAt(s, i)[j] == s[j]
    ensures forall j :: i <= j < |s| - 1 ==> RemoveAt(s, i)[j] == s[j + 1]
    ensures multiset(RemoveAt(s, i)) + multiset{s[i]} == multiset(s)
    ensures NoDup(s) ==> s[i] !in RemoveAt(s, i) && NoDup(RemoveAt(s, i))
  {
    assert s == s[..i] + [s[i]] + s[i + 1..];
    var r := RemoveAt(s, i);
    if NoDup(s) {
      forall j | 0 <= j < |r| ensures r[j] != s[i] {
        if j < i { assert r[j] == s[j]; } else { assert r[j] == s[j + 1]; }
      }
    }
  }

  /** An index past the end deletes nothing; a negative one counts from the end. */
  lemma RemoveAtOutOfRange(s: seq<string>, i: int)
    ensures i >= |s| ==> RemoveAt(s, i) == s
    ensures -|s| <= i < 0 ==> RemoveAt(s, i) == RemoveAt(s, |s| + i)
    ensures i < -|s| && |s| > 0 ==> RemoveAt(s, i) == s[1..]
  {
  }

  /** `tagsCopy.splice(start, 1)` on an array: the elements after the start move
      down one place; the new length is returned. */
  method SpliceOne(a: array<string>, start: int) returns (newLength: nat)
    modifies a
    ensures newLength <= a.Length
    ensures a[..newLength] == RemoveAt(old(a[..]), start)
  {
    var k := SpliceStart(a.Length, start);
    if k == a.Length {
      newLength := a.Length;
      return;
    }
    var j := k;
    while j < a.Length - 1
      invariant k <= j <= a.Length - 1
      invariant forall m :: 0 <= m < k ==> a[m] == old(a[m])
      invariant forall m :: k <= m < j ==> a[m] == old(a[m + 1])
      invariant forall m :: j < m < a.Length ==> a[m] == old(a[m])
    {
      a[j] := a[j + 1];
      j := j + 1;
    }
    newLength := a.Length - 1;
    ghost var was := old(a[..]);
    assert a[..newLength] == was[..k] + was[k + 1..] by {
      forall m | 0 <= m < newLength ensures a[..newLength][m] == (was[..k] + was[k + 1..])[m] {
        if m < k { assert a[m] == was[m]; } else { assert a[m] == was[m + 1]; }
      }
    }
  }

  /** The value the `onDelete` callback passes to `onChange`: `[...selectedTags]`
      copied element by element into a fresh array, which is then spliced.
      The selection itself is a value and is left as it was. */
  method DeletedSelection(selectedTags: seq<string>, removedTagIndex: int) returns (tags: seq<string>)
    ensures tags == RemoveAt(selectedTags, removedTagIndex)
  {
    var tagsCopy := new string[|selectedTags|];
    var i := 0;
    while i < |selectedTags|
      invariant 0 <= i <= |selectedTags|
      invariant tagsCopy[..i] == selectedTags[..i]
    {
      tagsCopy[i] := selectedTags[i];
      i := i + 1;
    }
    assert tagsCopy[..] == selectedTags;
    var newLength := SpliceOne(tagsCopy, removedTagIndex);
    tags := tagsCopy[..newLength];
  }

  // ---------------------------------------------------------------------------
  // onAddition: lower-case the typed text, split it on commas, de-duplicate

  /** `newTag.toLowerCase().split(',')`: every piece, empty ones included. */
  function NewTags(newTag: string): (r: seq<string>)
    ensures |r| >= 1
  {
    Split(Lower(newTag), ',')
  }

  /** `[ ...new Set([ ...selectedTags, ...newTag.toLowerCase().split(',') ]) ]`. */
  function AddedSelection(selectedTags: seq<string>, newTag: string): seq<string>
  {
    FromSeq(selectedTags + NewTags(newTag))
  }

  /** The pieces are lower case and hold no comma; written back with commas
      they give the lower-cased text. */
  lemma NewTagsPieces(newTag: string)
    ensures forall i :: 0 <= i < |NewTags(newTag)| ==> IsLower(NewTags(newTag)[i]) && ',' !in NewTags(newTag)[i]
    ensures Join(NewTags(newTag), ',') == Lower(newTag)
  {
    LowerIsLower(newTag);
    SplitOfLowerIsLower(Lower(newTag), ',');
    SplitPiecesHaveNoSeparator(Lower(newTag), ',');
    JoinSplit(Lower(newTag), ',');
  }

  /** After an addition there are no duplicates, and the tags are exactly the
      previously selected ones (as they were, not lower-cased) and the new
      pieces; empty pieces are not filtered out. */
  lemma AddedSelectionElements(selectedTags: seq<string>, newTag: string)
    ensures NoDup(AddedSelection(selectedTags, newTag))
    ensures forall t :: t in AddedSelection(selectedTags, newTag) <==> t in selectedTags || t in NewTags(newTag)
    ensures forall t :: t in selectedTags ==> t in AddedSelection(selectedTags, newTag)
  {
  }

  /** A duplicate-free selection is kept as a prefix, in its order, and is
      followed only by new pieces it did not hold. */
  lemma AddedSelectionKeepsPrefix(selectedTags: seq<string>, newTag: string)
    requires NoDup(selectedTags)
    ensures |selectedTags| <= |AddedSelection(selectedTags, newTag)|
    ensures AddedSelection(selectedTags, newTag)[..|selectedTags|] == selectedTags
    ensures forall t :: t in AddedSelection(selectedTags, newTag)[|selectedTags|..] <==>
      t in NewTags(newTag) && t !in selectedTags
  {
    var n, p := |selectedTags|, NewTags(newTag);
    var r := AddAll(selectedTags, p);
    AddAllProperties(selectedTags, p);
    assert AddedSelection(selectedTags, newTag) == r by {
      AddAllConcat([], selectedTags, p);
      FromSeqOfNoDup(selectedTags);
    }
    forall t ensures t in r[n..] <==> t in p && t !in selectedTags {
      if t in r[n..] {
        var m :| 0 <= m < |r| - n && r[n..][m] == t;
        assert r[n + m] == t;
      }
    }
  }

  /** The order is that of first occurrence in the selection followed by the
      new pieces. */
  lemma AddedSelectionOrder(selectedTags: seq<string>, newTag: string)
    ensures var all, r := selectedTags + NewTags(newTag), AddedSelection(selectedTags, newTag);
      forall i, j :: 0 <= i < j < |r| ==> FirstIndex(all, r[i]) < FirstIndex(all, r[j])
  {
    FromSeqFirstOccurrenceOrder(selectedTags + NewTags(newTag));
  }

  /** Adding the same text twice gives what adding it once gave. */
  lemma AddedSelectionIdempotent(selectedTags: seq<string>, newTag: string)
    ensures AddedSelection(AddedSelection(selectedTags, newTag), newTag) == AddedSelection(selectedTags, newTag)
  {
    var r := AddedSelection(selectedTags, newTag);
    var p := NewTags(newTag);
    AddAllConcat([], r, p);
    FromSeqOfNoDup(r);
    AddAllPresent(r, p);
  }

  /** `"A,,b"` gives the pieces `a`, an empty one and `b`. */
  lemma NewTagsWithEmptyPiece()
    ensures NewTags("A,,b") == ["a", "", "b"]
  {
    var pieces := ["a", "", "b"];
    assert Lower("A,,b") == "a,,b";
    assert Join(pieces, ',') == "a,,b";
    SplitJoin(pieces, ',');
  }

  /** Typing `A,,b` into an empty selection gives `a`, an empty tag and `b`. */
  lemma AddedSelectionKeepsEmptyPieces()
    ensures AddedSelection([], "A,,b") == ["a", "", "b"]
  {
    var pieces := ["a", "", "b"];
    assert [] + NewTags("A,,b") == pieces by {
      NewTagsWithEmptyPiece();
    }
    assert NoDup(pieces);
    FromSeqOfNoDup(pieces);
  }

  /** Typing a selected tag in capitals changes nothing. */
  lemma AddedSelectionOfSelectedTag()
    ensures AddedSelection(["a"], "A") == ["a"]
  {
    assert NewTags("A") == ["a"] by {
      assert Lower("A") == "a";
      SplitWithoutSeparator("a", ',');
    }
    assert FromSeq(["a"] + ["a"]) == AddAll(["a"], ["a"]) by {
      AddAllConcat([], ["a"], ["a"]);
      FromSeqOfNoDup(["a"]);
    }
    AddAllPresent(["a"], ["a"]);
  }

  /** A selected tag in capitals is not lower-cased, so its lower-case form
      typed again is a new tag. */
  lemma AddedSelectionKeepsSelectedCase()
    ensures AddedSelection(["B"], "b") == ["B", "b"]
  {
    assert Lower("b") == "b";
    SplitWithoutSeparator("b", ',');
    assert ["B"] + NewTags("b") == ["B", "b"];
    FromSeqOfNoDup(["B", "b"]);
  }

  // ---------------------------------------------------------------------------
  // The component

  /** A mounted tags selector. Its props are the selection and the known tags;
      `changes` records every value passed to `onChange`, in order, and
      `listTagsCalls` counts the calls of `listTags`. */
  class Selector {
    var selectedTags: seq<string>
    var knownTags: seq<string>
    var changes: seq<seq<string>>
    var listTagsCalls: nat

    /** Mounting renders once and runs the mount effect, which lists the tags. */
    constructor (selectedTags: seq<string>, knownTags: seq<string>)
      ensures this.selectedTags == selectedTags && this.knownTags == knownTags
      ensures changes == [] && listTagsCalls == 1
    {
      this.selectedTags := selectedTags;
      this.knownTags := knownTags;
      changes := [];
      listTagsCalls := 1;
    }

    /** The tokens on display. */
    function Tags(): (r: seq<ComponentTag>)
      reads this
      ensures Names(r) == selectedTags
      ensures forall i :: 0 <= i < |r| ==> r[i].id == r[i].name
    {
      DisplayedTagsRoundTrip(selectedTags);
      ToComponentTags(selectedTags)
    }

    /** The suggestions on display. */
    function SuggestionList(): (r: seq<ComponentTag>)
      reads this
      ensures forall t :: ToComponentTag(t) in r <==> t in knownTags && t !in selectedTags
      ensures Names(r) == Unselected(knownTags, selectedTags)
      ensures forall i :: 0 <= i < |r| ==> r[i].id == r[i].name
    {
      Suggestions(knownTags, selectedTags)
    }

    /** New props from the parent; the mount effect does not run again. */
    method Rerender(selectedTags: seq<string>, knownTags: seq<string>)
      modifies this`selectedTags, this`knownTags
      ensures this.selectedTags == selectedTags && this.knownTags == knownTags
    {
      this.selectedTags := selectedTags;
      this.knownTags := knownTags;
    }

    /** `onDelete`: one call of `onChange`, with the selection minus the index. */
    method OnDelete(removedTagIndex: int)
      modifies this`changes
      ensures changes == old(changes) + [RemoveAt(selectedTags, removedTagIndex)]
    {
      var tags := DeletedSelection(selectedTags, removedTagIndex);
      changes := changes + [tags];
    }

    /** `onAddition`: one call of `onChange`, with the new pieces added. */
    method OnAddition(newTag: string)
      modifies this`changes
      ensures changes == old(changes) + [AddedSelection(selectedTags, newTag)]
    {
      changes := changes + [AddedSelection(selectedTags, newTag)];
    }
  }
}
