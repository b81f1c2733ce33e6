/** The "Edit Transaction" form: a title field, a category selector and an
    Ok button, with Tab moving the focus between them. */
module Popup {
  import opened Wrappers
  import opened Keys
  import opened Records
  import opened Categories
  import opened StringFields
  import opened CategoryFields
  import opened Buttons

  datatype PopupFocus = FocusTitle | FocusCategory | FocusOk {
    /** Title, then Category, then Ok, then back to Title. */
    function Next(): (f: PopupFocus)
      ensures f != this
    {
      match this
      case FocusTitle => FocusCategory
      case FocusCategory => FocusOk
      case FocusOk => FocusTitle
    }
  }

  /** Three Tabs bring the focus back where it was, and every field is
      reached on the way. */
  lemma ThreeTabsCycle(f: PopupFocus)
    ensures f.Next().Next().Next() == f
    ensures {f, f.Next(), f.Next().Next()} == {FocusTitle, FocusCategory, FocusOk}
  {
  }

  const TitleCaption := "Title"
  const CategoryCaption := "Category"
  const ButtonCaption := "Ok"

  /** The popup is 60 cells wide; two borders, two margins and the label
      with its ": " leave this many characters for the title. */
  const TitleMaxLength: nat := 60 - 2 - 2 - (|TitleCaption| + 2)

  /** `validate_title`: a title of fewer than three characters is refused. */
  predicate ValidTitle(title: string)
  {
    |title| >= 3
  }

  /** The category shown when the form opens: the transaction's group, or
      Other when it has none. */
  function InitialCategory(group: Option<Category>): (c: Category)
    ensures group.Some? ==> c == group.value
    ensures group.None? ==> c == Other
  {
    match group
    case Some(g) => g
    case None => Other
  }

  /** `get_transaction`: the transaction with the edited title and the
      chosen category as its group; every other field is the original's. */
  function Edited(t: Transaction, title: string, category: Category): (r: Transaction)
    ensures r.title == title && r.group == Some(category)
    ensures r.id == t.id && r.date == t.date && r.amount == t.amount && r.kind == t.kind
  {
    t.(title := title, group := Some(category))
  }

  /** Opening the form and confirming it untouched gives back the
      transaction, with its group filled in when it had none. */
  lemma {:induction false} UntouchedEdit(t: Transaction)
    ensures Edited(t, t.title, InitialCategory(t.group)) == t.(group := Some(t.group.GetOr(Other)))
  {
  }

  class PopupForm {
    var focus: PopupFocus
    const title: StringField
    const category: CategoryField
    const button: Button
    const transaction: Transaction

    /** `new`: focus on the title, the title field holding the transaction's
        title with room for 49 characters, the selector on its group. */
    constructor (t: Transaction)
      ensures focus == FocusTitle && transaction == t
      ensures title.caption == TitleCaption && title.value == t.title && title.maxLength == 49
      ensures category.caption == CategoryCaption && category.selected == InitialCategory(t.group)
      ensures button == Button(ButtonCaption)
      ensures fresh(title) && fresh(category)
    {
      title := new StringField(TitleCaption, t.title, TitleMaxLength);
      category := new CategoryField(CategoryCaption, InitialCategory(t.group));
      button := Button(ButtonCaption);
      focus := FocusTitle;
      transaction := t;
    }

    /** `handle_key_event`: Tab moves the focus and nothing else; any other
        key goes to the focused field. An edited transaction comes back only
        when Enter reaches the Ok button and the title is valid. */
    method HandleKeyEvent(key: KeyEvent) returns (r: Option<Transaction>)
      modifies this, title, category
      ensures key.code == Tab ==> focus == old(focus).Next()
      ensures key.code != Tab ==> focus == old(focus)
      ensures title.value == if key.code != Tab && old(focus) == FocusTitle
                             then Edit(old(title.value), title.maxLength, key.code)
                             else old(title.value)
      ensures category.selected == if key.code != Tab && old(focus) == FocusCategory
                                   then Step(old(category.selected), key.code)
                                   else old(category.selected)
      ensures r.Some? <==> key.code == Enter && old(focus) == FocusOk && ValidTitle(old(title.value))
      ensures r.Some? ==> r.value == Edited(transaction, title.value, category.selected)
    {
      if key.code == Tab {
        NextField();
        return None;
      }
      match focus {
        case FocusTitle => title.HandleKeyEvent(key);
        case FocusCategory => category.HandleKeyEvent(key);
        case FocusOk =>
          if button.HandleKeyEvent(key) {
            var ok := ValidateTitle();
            if ok {
              var t := GetTransaction();
              return Some(t);
            } else {
              return None;
            }
          }
      }
      return None;
    }

    /** `validate_title` on the current value. */
    method ValidateTitle() returns (ok: bool)
      ensures ok <==> ValidTitle(title.value)
    {
      ok := |title.value| >= 3;
    }

    /** `next_field`. */
    method NextField()
      modifies this
      ensures focus == old(focus).Next()
    {
      focus := focus.Next();
    }

    /** `get_transaction` on the current field values; nothing changes. */
    method GetTransaction() returns (t: Transaction)
      ensures t == Edited(transaction, title.value, category.selected)
    {
      var v := title.GetValue();
      var c := category.Value();
      t := transaction.(title := v, group := Some(c));
    }
  }
}
