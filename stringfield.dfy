/** The bounded one-line text input of the edit form (`StringField`). */
module StringFields {
  import opened Keys

  function Max(a: nat, b: nat): nat
  {
    if a >= b then a else b
  }

  /** The value after one key: a character is appended only while the value
      is shorter than the bound, Backspace drops the last character (nothing
      on an empty value), every other key leaves it alone. */
  function Edit(value: string, maxLength: nat, code: KeyCode): (r: string)
    ensures |r| <= Max(|value|, maxLength)
    ensures |r| <= |value| ==> r == value[..|r|] && |value| <= |r| + 1
    ensures |r| > |value| ==> code.Char? && r == value + [code.c]
    ensures code.Char? ==> (r == value + [code.c] <==> |value| < maxLength)
    ensures code.Char? && |value| >= maxLength ==> r == value
    ensures code.Backspace? ==> r == if value == [] then [] else value[..|value| - 1]
    ensures !code.Char? && !code.Backspace? ==> r == value
  {
    match code
    case Char(c) => if |value| < maxLength then value + [c] else value
    case Backspace => if value == [] then value else value[..|value| - 1]
    case _ => value
  }

  /** A character the field accepts is appended, and Backspace then restores
      the previous value; a character it refuses changes nothing. */
  lemma CharThenBackspace(value: string, maxLength: nat, c: char)
    ensures |value| < maxLength ==> Edit(value, maxLength, Char(c)) == value + [c]
    ensures |value| < maxLength ==> Edit(Edit(value, maxLength, Char(c)), maxLength, Backspace) == value
    ensures |value| >= maxLength ==> Edit(value, maxLength, Char(c)) == value
  {
    if |value| < maxLength {
      assert (value + [c])[..|value|] == value;
    }
  }

  /** Keys other than characters and Backspace never change the value. */
  lemma OtherKeysIgnored(value: string, maxLength: nat, code: KeyCode)
    requires !code.Char? && !code.Backspace?
    ensures Edit(value, maxLength, code) == value
  {
  }

  class StringField {
    const caption: string
    var value: string
    const maxLength: nat

    constructor (caption: string, value: string, maxLength: nat)
      ensures this.caption == caption && this.value == value && this.maxLength == maxLength
    {
      this.caption := caption;
      this.value := value;
      this.maxLength := maxLength;
    }

    /** `clear_value`. */
    method ClearValue()
      modifies this
      ensures value == ""
    {
      value := "";
    }

    /** `get_value`: a copy of the value; nothing changes. */
    method GetValue() returns (v: string)
      ensures v == value
    {
      v := value;
    }

    /** `handle_key_event`: only the key code is looked at. */
    method HandleKeyEvent(key: KeyEvent)
      modifies this
      ensures value == Edit(old(value), maxLength, key.code)
      ensures |value| <= Max(|old(value)|, maxLength)
    {
      match key.code {
        case Char(c) =>
          if |value| < maxLength {
            value := value + [c];
          }
        case Backspace =>
          if value != [] {
            value := value[..|value| - 1];
          }
        case _ =>
      }
    }

    /** `cursor_offset`: the cursor sits after the label, the value and the
        two-character gap, on the field's own line. */
    method CursorOffset() returns (x: int, y: int)
      ensures x == |caption| + |value| + 2 && y == 0
    {
      x, y := |caption| + |value| + 2, 0;
    }
  }
}
