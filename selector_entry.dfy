/**
 * The entry variant of the touch selector (src/hildon-touch-selector-entry.c):
 * typing into the entry selects the first row of the model whose text
 * starts with what was typed, and tells the selector's listeners.
 */
module SelectorEntry {

  import opened Optional

  /** The first row, from row i on, whose text starts with prefix. */
  function FirstMatchFrom(rows: seq<string>, prefix: string, i: nat): (r: Option<nat>)
    requires i <= |rows|
    ensures r.Some? ==> i <= r.value < |rows| && prefix <= rows[r.value]
                        && forall j :: i <= j < r.value ==> !(prefix <= rows[j])
    ensures r.None? <==> forall j :: i <= j < |rows| ==> !(prefix <= rows[j])
    decreases |rows| - i
  {
    if i == |rows| then None
    else if prefix <= rows[i] then Some(i)
    else FirstMatchFrom(rows, prefix, i + 1)
  }

  /** The search of the text-changed handler: the first row whose text
      has the entry text as a prefix (g_str_has_prefix), if any. */
  function FirstMatch(rows: seq<string>, prefix: string): (r: Option<nat>)
    ensures r.Some? ==> r.value < |rows| && prefix <= rows[r.value]
                        && forall j :: 0 <= j < r.value ==> !(prefix <= rows[j])
    ensures r.None? <==> forall j :: 0 <= j < |rows| ==> !(prefix <= rows[j])
  {
    FirstMatchFrom(rows, prefix, 0)
  }

  /** An empty entry text is a prefix of every row, so a non-empty model
      matches at its first row. */
  lemma EmptyPrefixMatchesFirst(rows: seq<string>)
    requires |rows| > 0
    ensures FirstMatch(rows, "") == Some(0)
  {
  }

  /** Any row that matches lies at or after the first match. */
  lemma {:induction false} FirstMatchIsLeast(rows: seq<string>, prefix: string, i: nat, k: nat)
    requires i <= k < |rows| && prefix <= rows[k]
    ensures FirstMatchFrom(rows, prefix, i).Some? && FirstMatchFrom(rows, prefix, i).value <= k
    decreases |rows| - i
  {
    if !(prefix <= rows[i]) {
      FirstMatchIsLeast(rows, prefix, i + 1, k);
    }
  }

  /** A "changed" emission of the selector, with its column, and whether
      the entry's own "changed" handler was blocked when it ran. */
  datatype Emission = Changed(column: int, entryHandlerBlocked: bool)

  /** has_multiple_selection: the entry always allows a free text, so the
      selector always reports multiple selection. */
  function HasMultipleSelection(): (r: bool)
    ensures r
  {
    true
  }

  /**
   * HildonTouchSelectorEntryPrivate with the parts of the selector and the
   * entry completion it drives: the text column, the model of column 0
   * (the strings of its text column), the active row of column 0, the
   * completion's model and text column, and the block count of the
   * selector's "changed" handler that updates the entry (signal_id).
   */
  class TouchSelectorEntry {
    var textColumn: int
    var rows: seq<string>
    var active: Option<nat>
    var completionRows: seq<string>
    var completionColumn: int
    var blockCount: nat

    /** A new selector entry: text column 0 (the zero-filled private
        structure), an empty model, no active row, a new completion with
        no model and no text column (-1), the handler connected and
        unblocked. */
    constructor ()
      ensures textColumn == 0 && rows == [] && active == None
      ensures completionRows == [] && completionColumn == -1 && blockCount == 0
    {
      textColumn := 0;
      rows := [];
      active := None;
      completionRows := [];
      completionColumn := -1;
      blockCount := 0;
    }

    /** hildon_touch_selector_entry_set_text_column: a column below -1
        fails the precondition check and nothing changes; otherwise both
        the completion and the selector take it. */
    method SetTextColumn(c: int)
      modifies this`textColumn, this`completionColumn
      ensures c < -1 ==> textColumn == old(textColumn) && completionColumn == old(completionColumn)
      ensures c >= -1 ==> textColumn == c && completionColumn == c
    {
      if c < -1 {
        return;
      }
      completionColumn := c;
      textColumn := c;
    }

    /** hildon_touch_selector_entry_get_text_column. */
    function GetTextColumn(): (r: int)
      reads this`textColumn
      ensures r == textColumn
    {
      textColumn
    }

    /** hildon_touch_selector_entry_set_model: only column 0 takes a model
        (any other fails the precondition check); the selector shows it
        and the completion completes from it on the text column. */
    method SetModel(column: int, m: seq<string>)
      modifies this`rows, this`completionRows, this`completionColumn
      ensures column != 0 ==> unchanged(this`rows, this`completionRows, this`completionColumn)
      ensures column == 0 ==> rows == m && completionRows == m && completionColumn == textColumn
    {
      if column != 0 {
        return;
      }
      rows := m;
      completionRows := m;
      completionColumn := textColumn;
    }

    /**
     * entry_on_text_changed for the entry text `prefix`. An empty model
     * returns at once. Otherwise the rows are walked from the first until
     * one has the text as a prefix; a match becomes the active row of
     * column 0; and "changed" is emitted for column 0, in both cases,
     * with the entry's own handler blocked around it.
     */
    method OnTextChanged(prefix: string) returns (emitted: seq<Emission>)
      modifies this`active, this`blockCount
      ensures blockCount == old(blockCount)
      ensures |rows| == 0 ==> emitted == [] && active == old(active)
      ensures |rows| > 0 ==> emitted == [Changed(0, true)]
      ensures active == if FirstMatch(rows, prefix).Some? then FirstMatch(rows, prefix) else old(active)
    {
      emitted := [];
      if |rows| == 0 {
        return;
      }
      var i := 0;
      var found := prefix <= rows[0];
      while !found && i + 1 < |rows|
        invariant 0 <= i < |rows|
        invariant found <==> prefix <= rows[i]
        invariant forall j :: 0 <= j < i ==> !(prefix <= rows[j])
        decreases |rows| - i
      {
        i := i + 1;
        found := prefix <= rows[i];
      }
      blockCount := blockCount + 1;
      if found {
        FirstMatchIsLeast(rows, prefix, 0, i);
        active := Some(i);
      }
      emitted := [Changed(0, blockCount > 0)];
      blockCount := blockCount - 1;
    }
  }
}
