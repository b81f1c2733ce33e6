/** The category selector of the edit form (`CategoryField`). */
module CategoryFields {
  import opened Keys
  import opened Categories

  /** The selection after one key: Right or ';' steps forward, Left or 'j'
      steps back, any other key keeps it. */
  function Step(selected: Category, code: KeyCode): Category
  {
    match code
    case Right => Next(selected)
    case Char(c) =>
      if c == ';' then Next(selected)
      else if c == 'j' then Previous(selected)
      else selected
    case Left => Previous(selected)
    case _ => selected
  }

  /** A forward key followed by a backward key returns to the start. */
  lemma {:induction false} ForwardThenBack(c: Category, forward: KeyCode, back: KeyCode)
    requires forward == Right || forward == Char(';')
    requires back == Left || back == Char('j')
    ensures Step(Step(c, forward), back) == c
    ensures Step(Step(c, back), forward) == c
  {
    StepsInverse(c);
  }

  /** Only the four stepping keys move the selection. */
  lemma StepMoves(c: Category, code: KeyCode)
    ensures Step(c, code) != c <==> code in {Right, Left, Char(';'), Char('j')}
  {
  }

  class CategoryField {
    const caption: string
    var selected: Category

    constructor (caption: string, value: Category)
      ensures this.caption == caption && selected == value
    {
      this.caption := caption;
      selected := value;
    }

    /** `handle_key_event`. */
    method HandleKeyEvent(key: KeyEvent)
      modifies this
      ensures selected == Step(old(selected), key.code)
    {
      match key.code {
        case Right => Next();
        case Left => Previous();
        case Char(c) =>
          if c == ';' {
            Next();
          } else if c == 'j' {
            Previous();
          }
        case _ =>
      }
    }

    method Next()
      modifies this
      ensures selected == Categories.Next(old(selected))
    {
      selected := Categories.Next(selected);
    }

    method Previous()
      modifies this
      ensures selected == Categories.Previous(old(selected))
    {
      selected := Categories.Previous(selected);
    }

    /** `value`: the selection; nothing changes. */
    method Value() returns (c: Category)
      ensures c == selected
    {
      c := selected;
    }
  }
}
