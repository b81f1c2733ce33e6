/** The transaction table: a cursor over the rows and, once Enter is
    pressed, the edit form for the selected row. */
module Table {
  import opened Wrappers
  import opened Keys
  import opened Records
  import opened Cursor
  import opened Popup

  class TableComponent {
    var selected: Option<nat>
    var items: seq<Transaction>
    var editPopup: bool
    var popup: PopupForm

    /** The table always has rows and a row selected among them. */
    ghost predicate Valid()
      reads this
    {
      |items| > 0 && selected.Some? && selected.value < |items|
    }

    /** `new`: the first row is selected and the form is prepared for it;
        the source indexes row 0, so the list must not be empty. */
    constructor (ts: seq<Transaction>)
      requires |ts| > 0
      ensures Valid() && items == ts && selected == Some(0) && !editPopup
      ensures fresh(popup) && popup.transaction == ts[0] && popup.focus == FocusTitle
    {
      selected := Some(0);
      items := ts;
      editPopup := false;
      popup := new PopupForm(ts[0]);
    }

    /** `next_row`. */
    method NextRow()
      requires Valid()
      modifies this
      ensures Valid() && selected == Some(NextIndex(old(selected), |items|))
      ensures items == old(items) && editPopup == old(editPopup) && popup == old(popup)
    {
      var i := match selected
        case Some(s) => if s >= |items| - 1 then 0 else s + 1
        case None => 0;
      selected := Some(i);
    }

    /** `previous_row`. */
    method PreviousRow()
      requires Valid()
      modifies this
      ensures Valid() && selected == Some(PrevIndex(old(selected), |items|))
      ensures items == old(items) && editPopup == old(editPopup) && popup == old(popup)
    {
      var i := match selected
        case Some(s) => if s == 0 then |items| - 1 else s - 1
        case None => 0;
      selected := Some(i);
    }

    /** `get_current_row`; nothing changes. */
    method GetCurrentRow() returns (t: Transaction)
      requires Valid()
      ensures t == items[selected.value]
    {
      t := items[selected.value];
    }

    /** `set_current_row`: the selected row is replaced, every other row
        and the selection stay. */
    method SetCurrentRow(t: Transaction)
      requires Valid()
      modifies this
      ensures Valid() && items == old(items)[old(selected).value := t]
      ensures selected == old(selected) && editPopup == old(editPopup) && popup == old(popup)
    {
      items := items[selected.value := t];
    }

    /** `run`. While the form is open the key goes to the form, whose answer
        arrives as `popupResult`; a returned transaction replaces the
        selected row. Otherwise Enter opens the form on the selected row,
        'k' or Down moves down and 'l' or Up moves up. Nothing in the table
        closes the form again. */
    method Run(code: KeyCode, popupResult: Option<Transaction>)
      requires Valid()
      modifies this
      ensures Valid() && |items| == |old(items)|
      ensures old(editPopup) ==> editPopup && selected == old(selected) && popup == old(popup)
      ensures old(editPopup) ==> items == if popupResult.Some?
                                          then old(items)[old(selected).value := popupResult.value]
                                          else old(items)
      ensures !old(editPopup) ==> items == old(items)
      ensures !old(editPopup) && code == Enter ==>
                editPopup && selected == old(selected) && fresh(popup)
                && popup.transaction == items[selected.value] && popup.focus == FocusTitle
      ensures !old(editPopup) && code != Enter ==> !editPopup && popup == old(popup)
      ensures !old(editPopup) && (code == Char('k') || code == Down) ==>
                selected == Some(NextIndex(old(selected), |items|))
      ensures !old(editPopup) && (code == Char('l') || code == Up) ==>
                selected == Some(PrevIndex(old(selected), |items|))
      ensures !old(editPopup) && code !in {Enter, Char('k'), Down, Char('l'), Up} ==>
                selected == old(selected)
    {
      if editPopup {
        match popupResult {
          case Some(t) => SetCurrentRow(t);
          case None =>
        }
      } else {
        match code {
          case Enter =>
            editPopup := !editPopup;
            var t := GetCurrentRow();
            popup := new PopupForm(t);
          case Down => NextRow();
          case Up => PreviousRow();
          case Char(c) =>
            if c == 'k' {
              NextRow();
            } else if c == 'l' {
              PreviousRow();
            }
          case _ =>
        }
      }
    }
  }
}
