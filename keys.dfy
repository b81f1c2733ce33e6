/** Terminal key events, as crossterm delivers them to the UI components. */
module Keys {

  /** The key codes the components match on; every other crossterm key code
      (Home, Delete, F(n), ...) is an `OtherKey`. */
  datatype KeyCode =
    | Char(c: char)
    | Backspace
    | Enter
    | Tab
    | Esc
    | Left
    | Right
    | Up
    | Down
    | OtherKey(n: nat)

  datatype Modifier = Shift | Control | Alt | Super

  datatype KeyEventKind = Press | Repeat | Release

  datatype KeyEvent = KeyEvent(code: KeyCode, modifiers: set<Modifier>, kind: KeyEventKind)

  /** A terminal event: a key, or anything else (mouse, resize, focus, paste). */
  datatype TermEvent = KeyInput(key: KeyEvent) | NonKey
}
