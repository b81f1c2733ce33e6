/** The edit form's confirmation button (`Button`). */
module Buttons {
  import opened Keys

  datatype Button = Button(caption: string) {
    /** `handle_key_event`: pressed by Enter and by no other key; the
        modifiers play no part. The button itself never changes. */
    function HandleKeyEvent(key: KeyEvent): (pressed: bool)
      ensures pressed <==> key.code == Enter
    {
      key.code == Enter
    }
  }

  /** Two events with the same key code get the same answer. */
  lemma ModifiersIgnored(b: Button, k1: KeyEvent, k2: KeyEvent)
    requires k1.code == k2.code
    ensures b.HandleKeyEvent(k1) == b.HandleKeyEvent(k2)
  {
  }
}
