/** The first, single-table version of the terminal application: a
    scrolling transaction list driven by key presses. */
module LegacyApp {
  import opened Wrappers
  import opened Keys
  import opened Records
  import opened Cursor

  /** Every row is one line high. */
  const ItemHeight: nat := 1

  class App {
    var selected: Option<nat>
    const items: seq<Transaction>
    /** The scrollbar's content length and position. */
    const scrollContentLength: nat
    var scrollPosition: nat

    ghost predicate Valid()
      reads this
    {
      && |items| > 0 && selected.Some? && selected.value < |items|
      && scrollPosition == selected.value * ItemHeight
    }

    /** `new`: row 0 selected, the scrollbar spanning all but one row; the
        list must not be empty, as the length is computed as `len - 1`. */
    constructor (ts: seq<Transaction>)
      requires |ts| > 0
      ensures Valid() && selected == Some(0) && items == ts
      ensures scrollContentLength == (|ts| - 1) * ItemHeight && scrollPosition == 0
    {
      selected := Some(0);
      items := ts;
      scrollContentLength := (|ts| - 1) * ItemHeight;
      scrollPosition := 0;
    }

    /** `next_row`: the cursor moves down and the scrollbar follows it. */
    method NextRow()
      requires Valid()
      modifies this
      ensures Valid() && selected == Some(NextIndex(old(selected), |items|))
      ensures scrollPosition == selected.value * ItemHeight
    {
      var i := match selected
        case Some(s) => if s >= |items| - 1 then 0 else s + 1
        case None => 0;
      selected := Some(i);
      scrollPosition := i * ItemHeight;
    }

    /** `previous_row`: the cursor moves up and the scrollbar follows it. */
    method PreviousRow()
      requires Valid()
      modifies this
      ensures Valid() && selected == Some(PrevIndex(old(selected), |items|))
      ensures scrollPosition == selected.value * ItemHeight
    {
      var i := match selected
        case Some(s) => if s == 0 then |items| - 1 else s - 1
        case None => 0;
      selected := Some(i);
      scrollPosition := i * ItemHeight;
    }

    /** One key of `run`: only presses count; q or Esc ends the loop,
        'k' or Down moves down, 'l' or Up moves up. */
    method HandleKey(key: KeyEvent) returns (quit: bool)
      requires Valid()
      modifies this
      ensures Valid()
      ensures quit <==> key.kind == Press && key.code in {Char('q'), Esc}
      ensures key.kind == Press && key.code in {Char('k'), Down} ==>
                selected == Some(NextIndex(old(selected), |items|)) && scrollPosition == selected.value * ItemHeight
      ensures key.kind == Press && key.code in {Char('l'), Up} ==>
                selected == Some(PrevIndex(old(selected), |items|)) && scrollPosition == selected.value * ItemHeight
      ensures !(key.kind == Press && key.code in {Char('k'), Down, Char('l'), Up}) ==>
                selected == old(selected) && scrollPosition == old(scrollPosition)
      ensures selected == Some(OnEvent(old(selected).value, |items|, KeyInput(key)))
    {
      quit := false;
      if key.kind == Press {
        match key.code {
          case Esc => quit := true;
          case Down => NextRow();
          case Up => PreviousRow();
          case Char(c) =>
            if c == 'q' {
              quit := true;
            } else if c == 'k' {
              NextRow();
            } else if c == 'l' {
              PreviousRow();
            }
          case _ =>
        }
      }
    }

    /** `run`: terminal events are read in order until a q or Esc press;
        events other than keys are skipped. */
    method Run(events: seq<TermEvent>) returns (taken: nat, quit: bool)
      requires Valid()
      modifies this
      ensures Valid() && taken <= |events|
      ensures quit <==> taken > 0 && IsQuit(events[taken - 1])
      ensures !quit ==> taken == |events|
      ensures forall i :: 0 <= i < taken - 1 ==> !IsQuit(events[i])
      ensures selected == Some(AfterEvents(old(selected).value, |items|, events[..taken]))
      ensures scrollPosition == selected.value * ItemHeight
    {
      taken, quit := 0, false;
      while !quit && taken < |events|
        invariant Valid() && taken <= |events|
        invariant selected == Some(AfterEvents(old(selected).value, |items|, events[..taken]))
        invariant quit <==> taken > 0 && IsQuit(events[taken - 1])
        invariant forall i :: 0 <= i < taken - 1 ==> !IsQuit(events[i])
        decreases |events| - taken
      {
        assert events[..taken + 1][..taken] == events[..taken];
        match events[taken] {
          case KeyInput(key) => quit := HandleKey(key);
          case NonKey =>
        }
        taken := taken + 1;
      }
    }
  }

  /** An event that ends the loop: a press of q or Esc. */
  predicate IsQuit(e: TermEvent)
  {
    e.KeyInput? && e.key.kind == Press && e.key.code in {Char('q'), Esc}
  }

  /** The row selected after one terminal event, starting from row `sel` of
      a list of `len` rows: a press of k or Down moves down, of l or Up moves
      up, and nothing else moves the cursor. */
  function OnEvent(sel: nat, len: nat, e: TermEvent): (r: nat)
    requires sel < len
    ensures r < len
    ensures r != sel ==> e.KeyInput? && e.key.kind == Press && e.key.code in {Char('k'), Down, Char('l'), Up}
  {
    if e.KeyInput? && e.key.kind == Press then
      if e.key.code in {Char('k'), Down} then NextIndex(Some(sel), len)
      else if e.key.code in {Char('l'), Up} then PrevIndex(Some(sel), len)
      else sel
    else sel
  }

  /** The row selected after the events, taken one after the other. */
  function AfterEvents(sel: nat, len: nat, evs: seq<TermEvent>): (r: nat)
    requires sel < len
    ensures r < len
  {
    if evs == [] then sel else OnEvent(AfterEvents(sel, len, evs[..|evs| - 1]), len, evs[|evs| - 1])
  }

  /** A press of k or Down. */
  predicate IsDown(e: TermEvent)
  {
    e.KeyInput? && e.key.kind == Press && e.key.code in {Char('k'), Down}
  }

  /** n presses of k or Down advance the cursor n rows, wrapping; so one
      press per row comes back to the starting row (Cursor.FullCycle). */
  lemma {:induction false} DownPressesAdvance(sel: nat, len: nat, evs: seq<TermEvent>)
    requires sel < len
    requires forall i :: 0 <= i < |evs| ==> IsDown(evs[i])
    ensures AfterEvents(sel, len, evs) == Advance(sel, |evs|, len)
  {
    if evs != [] {
      DownPressesAdvance(sel, len, evs[..|evs| - 1]);
    }
  }

  /** Events that are not presses never move the cursor. */
  lemma {:induction false} NonPressesIgnored(sel: nat, len: nat, evs: seq<TermEvent>)
    requires sel < len
    requires forall i :: 0 <= i < |evs| ==> !(evs[i].KeyInput? && evs[i].key.kind == Press)
    ensures AfterEvents(sel, len, evs) == sel
  {
    if evs != [] {
      NonPressesIgnored(sel, len, evs[..|evs| - 1]);
    }
  }
}
