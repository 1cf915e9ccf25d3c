// tomviz's ComboTextEditor: an editable combo box used to rename the entries
// of a list. Editing the current entry's text renames it, unless duplicates
// are disabled and the new text is already an entry, in which case the edit is
// reverted. Widget focus and the signal are kept as fields.

module ComboText {

  /** Qt::Key_Return and Qt::Key_Enter. */
  const KeyReturn := 0x0100_0004
  const KeyEnter := 0x0100_0005

  /**
   * The events the editor filters for itself: a key event (a QKeyEvent,
   * press or release alike), a focus loss, or anything else.
   */
  datatype Event = KeyEvent(key: int) | FocusOut | OtherEvent

  /** QComboBox::itemText: the text of entry i, or "" when there is no such entry. */
  function ItemText(texts: seq<string>, i: int): string
  {
    if 0 <= i < |texts| then texts[i] else ""
  }

  ghost predicate Distinct(s: seq<string>)
  {
    forall i, j :: 0 <= i < j < |s| ==> s[i] != s[j]
  }

  /** What finishing an edit does: the new entry texts, the new edit text, and whether itemEdited is emitted. */
  datatype Outcome = Outcome(texts: seq<string>, editText: string, emitted: bool)

  /**
   * onEditingFinished as a value: with duplicates disabled, a text that is
   * already an entry (the current one's own text included) puts the current
   * entry's text back in the edit field and nothing is emitted; otherwise the
   * current entry (if any) is renamed and itemEdited is emitted.
   */
  function FinishEdit(texts: seq<string>, current: int, text: string, duplicatesEnabled: bool): (o: Outcome)
    ensures |o.texts| == |texts|
    ensures !duplicatesEnabled && text in texts ==> o == Outcome(texts, ItemText(texts, current), false)
    ensures (duplicatesEnabled || text !in texts) ==> o.emitted && o.editText == text
    ensures (duplicatesEnabled || text !in texts) && 0 <= current < |texts| ==> o.texts[current] == text
    ensures forall i :: 0 <= i < |texts| && i != current ==> o.texts[i] == texts[i]
  {
    if !duplicatesEnabled && text in texts then Outcome(texts, ItemText(texts, current), false)
    else if 0 <= current < |texts| then Outcome(texts[current := text], text, true)
    else Outcome(texts, text, true)
  }

  /** With duplicates disabled, distinct entry texts stay distinct through an edit. */
  lemma FinishEditKeepsDistinct(texts: seq<string>, current: int, text: string)
    requires Distinct(texts)
    ensures Distinct(FinishEdit(texts, current, text, false).texts)
  {
    var o := FinishEdit(texts, current, text, false);
    if text !in texts && 0 <= current < |texts| {
      forall i, j | 0 <= i < j < |o.texts|
        ensures o.texts[i] != o.texts[j]
      {
        if i == current {
          assert o.texts[j] == texts[j];
        } else if j == current {
          assert o.texts[i] == texts[i];
        } else {
          assert o.texts[i] == texts[i] && o.texts[j] == texts[j];
        }
      }
    }
  }

  /** With duplicates enabled an entry may take another's text, so distinctness can be lost. */
  lemma DuplicatesEnabledCanRepeat()
    ensures FinishEdit(["a", "b"], 0, "b", true).texts == ["b", "b"]
    ensures !Distinct(FinishEdit(["a", "b"], 0, "b", true).texts)
  {
    assert FinishEdit(["a", "b"], 0, "b", true).texts == ["a", "b"][0 := "b"];
    assert ["a", "b"][0 := "b"] == ["b", "b"];
    assert ["b", "b"][0] == ["b", "b"][1];
  }

  class ComboTextEditor {
    var texts: seq<string>
    var currentIndex: int
    /** The line edit's text. */
    var editText: string
    var duplicatesEnabled: bool
    var lineEditFocused: bool
    /** The itemEdited(index, text) signals emitted so far. */
    var edits: seq<(int, string)>

    ghost predicate Valid()
      reads this
    {
      -1 <= currentIndex < |texts| && (currentIndex == -1 <==> |texts| == 0)
    }

    /** An empty editable combo box; duplicates are off by default in QComboBox. */
    constructor ()
      ensures Valid() && texts == [] && currentIndex == -1 && editText == ""
      ensures !duplicatesEnabled && edits == [] && !lineEditFocused
    {
      texts, currentIndex, editText := [], -1, "";
      duplicatesEnabled, lineEditFocused, edits := false, false, [];
    }

    /** items(): the entry texts in index order. */
    method Items() returns (r: seq<string>)
      ensures |r| == |texts|
      ensures forall i :: 0 <= i < |r| ==> r[i] == ItemText(texts, i)
    {
      r := [];
      for i := 0 to |texts|
        invariant |r| == i
        invariant forall j :: 0 <= j < i ==> r[j] == texts[j]
      {
        r := r + [texts[i]];
      }
    }

    /** onEditingFinished: the edit is accepted or reverted as FinishEdit says. */
    method OnEditingFinished()
      requires Valid()
      modifies this
      ensures Valid()
      ensures var o := FinishEdit(old(texts), old(currentIndex), old(editText), duplicatesEnabled);
        texts == o.texts && editText == o.editText
        && edits == old(edits) + (if o.emitted then [(old(currentIndex), old(editText))] else [])
      ensures currentIndex == old(currentIndex) && duplicatesEnabled == old(duplicatesEnabled)
      ensures lineEditFocused == old(lineEditFocused)
      ensures !duplicatesEnabled && Distinct(old(texts)) ==> Distinct(texts)
    {
      var text := editText;
      var all := Items();
      assert all == texts;
      if !duplicatesEnabled && text in all {
        editText := ItemText(texts, currentIndex);
        return;
      }
      if 0 <= currentIndex < |texts| {
        texts := texts[currentIndex := text];
      }
      edits := edits + [(currentIndex, text)];
      if !duplicatesEnabled && Distinct(old(texts)) {
        FinishEditKeepsDistinct(old(texts), currentIndex, text);
      }
    }

    /**
     * eventFilter: a key event (press or release) of Enter or Return is consumed and takes the focus away from
     * the line edit. When the focus leaves while the edit text names another
     * entry, the current entry is selected again (which puts its text back),
     * so the combo box does not jump to that other entry. Nothing else is
     * consumed.
     */
    method EventFilter(watchedSelf: bool, event: Event) returns (consumed: bool)
      requires Valid()
      modifies this
      ensures Valid()
      ensures consumed <==> watchedSelf && event.KeyEvent? && (event.key == KeyEnter || event.key == KeyReturn)
      ensures consumed ==> !lineEditFocused && editText == old(editText)
      ensures watchedSelf && event.FocusOut? && editText != old(editText) ==>
        old(editText) in texts && editText == ItemText(texts, currentIndex)
      ensures !consumed ==> lineEditFocused == old(lineEditFocused)
      ensures !(watchedSelf && event.FocusOut?) ==> editText == old(editText)
      ensures texts == old(texts) && currentIndex == old(currentIndex) && edits == old(edits)
      ensures duplicatesEnabled == old(duplicatesEnabled)
    {
      if !watchedSelf {
        return false;
      }
      if event.KeyEvent? && (event.key == KeyEnter || event.key == KeyReturn) {
        lineEditFocused := false;
        return true;
      }
      if event.FocusOut? {
        var text := editText;
        var idx := currentIndex;
        var all := Items();
        assert all == texts;
        if text in all && ItemText(texts, idx) != text {
          editText := ItemText(texts, idx);
          return false;
        }
      }
      return false;
    }
  }
}
