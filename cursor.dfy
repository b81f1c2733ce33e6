/** The wrapping row cursor shared by the transaction table, the month list
    of the chart and the first table view: `next_row` / `previous_row` on a
    `TableState` selection over a list of `len` rows. */
module Cursor {
  import opened Wrappers

  /** `next_row`: past the last row (or anywhere beyond it) go to row 0,
      otherwise one row down; with nothing selected, row 0. The source
      computes `len - 1` on a usize, so a selection needs a non-empty list. */
  function NextIndex(selected: Option<nat>, len: nat): (i: nat)
    requires selected.Some? ==> len > 0
    ensures len > 0 ==> i < len
  {
    match selected
    case Some(s) => if s >= len - 1 then 0 else s + 1
    case None => 0
  }

  /** `previous_row`: from row 0 go to the last row, otherwise one row up;
      with nothing selected, row 0. */
  function PrevIndex(selected: Option<nat>, len: nat): (i: nat)
    requires selected.Some? ==> len > 0
    ensures len > 0 && (selected.None? || selected.value < len) ==> i < len
  {
    match selected
    case Some(s) => if s == 0 then len - 1 else s - 1
    case None => 0
  }

  /** On a valid row the two moves undo each other. */
  lemma MovesInverse(i: nat, len: nat)
    requires i < len
    ensures PrevIndex(Some(NextIndex(Some(i), len)), len) == i
    ensures NextIndex(Some(PrevIndex(Some(i), len)), len) == i
  {
  }

  /** The row reached from row i after k presses of `next_row`. */
  function Advance(i: nat, k: nat, len: nat): (j: nat)
    requires i < len
    ensures j < len
  {
    if k == 0 then i else NextIndex(Some(Advance(i, k - 1, len)), len)
  }

  /** k presses move k rows down, wrapping once past the end. */
  lemma {:induction false} AdvanceWraps(i: nat, k: nat, len: nat)
    requires i < len && k <= len
    ensures Advance(i, k, len) == if i + k < len then i + k else i + k - len
  {
    if k > 0 {
      AdvanceWraps(i, k - 1, len);
    }
  }

  /** Pressing `next_row` once per row comes back to the starting row. */
  lemma {:induction false} FullCycle(i: nat, len: nat)
    requires i < len
    ensures Advance(i, len, len) == i
  {
    AdvanceWraps(i, len, len);
  }
}
