/** The tabbed application shell: which tab is shown, whether the event
    loop keeps running, and where each key goes. */
module Tabs {
  import opened Wrappers
  import opened Keys
  import opened Records
  import Table

  /** The tabs, in their declaration order; the table tab comes first. */
  datatype CurrentTab = TableTab | HomeTab

  /** The tab's position, as `self as usize` gives it. */
  function Index(t: CurrentTab): nat
  {
    match t
    case TableTab => 0
    case HomeTab => 1
  }

  /** `from_repr`: the tab at a position, if there is one. */
  function FromRepr(i: nat): (r: Option<CurrentTab>)
    ensures r.Some? <==> i < 2
    ensures r.Some? ==> Index(r.value) == i
  {
    if i == 0 then Some(TableTab) else if i == 1 then Some(HomeTab) else None
  }

  /** Every tab is found again at its own position. */
  lemma ReprRoundTrip(t: CurrentTab)
    ensures FromRepr(Index(t)) == Some(t)
  {
  }

  /** `CurrentTab::next`: one tab to the right, staying on the last tab. */
  function Next(t: CurrentTab): (r: CurrentTab)
    ensures Index(r) == if Index(t) + 1 < 2 then Index(t) + 1 else Index(t)
  {
    FromRepr(Index(t) + 1).GetOr(t)
  }

  /** `CurrentTab::previous`: one tab to the left (the position saturates
      at zero), staying on the first tab. */
  function Previous(t: CurrentTab): (r: CurrentTab)
    ensures Index(r) == if Index(t) > 0 then Index(t) - 1 else 0
  {
    FromRepr(if Index(t) > 0 then Index(t) - 1 else 0).GetOr(t)
  }

  /** The switcher clamps instead of wrapping: the last tab is a fixed point
      of Next, the first of Previous, and each undoes the other away from
      those ends. */
  lemma {:induction false} TabsClamp(t: CurrentTab)
    ensures Next(HomeTab) == HomeTab && Previous(TableTab) == TableTab
    ensures t != HomeTab ==> Previous(Next(t)) == t
    ensures t != TableTab ==> Next(Previous(t)) == t
  {
    ReprRoundTrip(t);
  }

  /** The events the loop receives (`AppEvent`). */
  datatype AppEvent = Tick | Quit | Crossterm(event: TermEvent)

  /** The part of the application's state that keys and events change:
      whether the loop runs, the events queued for it, and the tab shown. */
  datatype Shell = Shell(running: bool, sent: seq<AppEvent>, tab: CurrentTab)

  /** What `handle_key_events` does to the shell for one key code. */
  function OnKey(s: Shell, code: KeyCode): (r: Shell)
    ensures r.running == s.running
    ensures r.sent == s.sent + [AppEvent.Quit] <==> code in {Char('q'), Esc}
    ensures code !in {Char('q'), Esc} ==> r.sent == s.sent
    ensures r.tab != s.tab ==> code in {Char(';'), Right, Char('j'), Left}
  {
    if code in {Char('q'), Esc} then s.(sent := s.sent + [AppEvent.Quit])
    else if code in {Char(';'), Right} then s.(tab := Next(s.tab))
    else if code in {Char('j'), Left} then s.(tab := Previous(s.tab))
    else s
  }

  /** One event of `run` applied to the shell. */
  function OnEvent(s: Shell, ev: AppEvent): (r: Shell)
    ensures r.running <==> s.running && ev != AppEvent.Quit
  {
    match ev
    case Tick => s
    case Crossterm(e) => if e.KeyInput? then OnKey(s, e.key.code) else s
    case Quit => s.(running := false)
  }

  /** The shell after the events, taken one after the other. */
  function AfterEvents(s: Shell, evs: seq<AppEvent>): Shell
  {
    if evs == [] then s else OnEvent(AfterEvents(s, evs[..|evs| - 1]), evs[|evs| - 1])
  }

  /** The loop keeps running exactly until a Quit event arrives. */
  lemma {:induction false} RunningUntilQuit(s: Shell, evs: seq<AppEvent>)
    ensures AfterEvents(s, evs).running <==> s.running && AppEvent.Quit !in evs
  {
    if evs != [] {
      var init := evs[..|evs| - 1];
      RunningUntilQuit(s, init);
      assert evs == init + [evs[|evs| - 1]];
    }
  }

  /** The queue only grows, and only by Quit events. */
  lemma {:induction false} SentOnlyQuits(s: Shell, evs: seq<AppEvent>)
    ensures s.sent <= AfterEvents(s, evs).sent
    ensures forall i :: |s.sent| <= i < |AfterEvents(s, evs).sent| ==> AfterEvents(s, evs).sent[i] == AppEvent.Quit
  {
    if evs != [] {
      SentOnlyQuits(s, evs[..|evs| - 1]);
    }
  }

  class App {
    var running: bool
    /** The events this application has sent to its own queue. */
    var sent: seq<AppEvent>
    const items: seq<Transaction>
    var currentTab: CurrentTab
    const table: Table.TableComponent
    var editPopup: bool

    /** The shell part of the state. */
    ghost function State(): Shell
      reads this
    {
      Shell(running, sent, currentTab)
    }

    /** `new`: running, on the table tab, the table built over the
        transactions (which must not be empty, as the table indexes row 0). */
    constructor (ts: seq<Transaction>)
      requires |ts| > 0
      ensures running && currentTab == TableTab && items == ts && sent == [] && !editPopup
      ensures fresh(table) && table.Valid() && table.items == ts
    {
      running := true;
      sent := [];
      table := new Table.TableComponent(ts);
      currentTab := TableTab;
      items := ts;
      editPopup := false;
    }

    /** `quit`: stops the loop; quitting twice is quitting once. */
    method Quit()
      modifies this
      ensures !running
      ensures sent == old(sent) && currentTab == old(currentTab) && editPopup == old(editPopup)
    {
      running := false;
    }

    method NextTab()
      modifies this
      ensures currentTab == Next(old(currentTab))
      ensures running == old(running) && sent == old(sent) && editPopup == old(editPopup)
    {
      currentTab := Next(currentTab);
    }

    method PreviousTab()
      modifies this
      ensures currentTab == Previous(old(currentTab))
      ensures running == old(running) && sent == old(sent) && editPopup == old(editPopup)
    {
      currentTab := Previous(currentTab);
    }

    /** `handle_key_events`: q or Esc asks for a Quit event, ';' or Right and
        'j' or Left switch tabs, and any other key goes to the table when
        the table tab is shown; the key passed on is returned. */
    method HandleKeyEvents(key: KeyEvent) returns (forwarded: Option<KeyCode>)
      modifies this
      ensures running == old(running) && editPopup == old(editPopup)
      ensures key.code in {Char('q'), Esc} ==> sent == old(sent) + [AppEvent.Quit] && currentTab == old(currentTab)
      ensures key.code in {Char(';'), Right} ==> currentTab == Next(old(currentTab)) && sent == old(sent)
      ensures key.code in {Char('j'), Left} ==> currentTab == Previous(old(currentTab)) && sent == old(sent)
      ensures key.code !in {Char('q'), Esc, Char(';'), Right, Char('j'), Left} ==>
                sent == old(sent) && currentTab == old(currentTab)
      ensures forwarded.Some? <==>
                key.code !in {Char('q'), Esc, Char(';'), Right, Char('j'), Left} && old(currentTab) == TableTab
      ensures forwarded.Some? ==> forwarded.value == key.code
      ensures State() == OnKey(old(State()), key.code)
    {
      forwarded := None;
      match key.code {
        case Esc => sent := sent + [AppEvent.Quit];
        case Right => NextTab();
        case Left => PreviousTab();
        case Char(c) =>
          if c == 'q' {
            sent := sent + [AppEvent.Quit];
          } else if c == ';' {
            NextTab();
          } else if c == 'j' {
            PreviousTab();
          } else if currentTab == TableTab {
            forwarded := Some(key.code);
          }
        case _ =>
          if currentTab == TableTab {
            forwarded := Some(key.code);
          }
      }
    }

    /** One turn of `run`: a tick only redraws, a key event is handled, any
        other terminal event is ignored, and a Quit event stops the loop. */
    method Step(ev: AppEvent) returns (forwarded: Option<KeyCode>)
      modifies this
      ensures editPopup == old(editPopup)
      ensures ev == AppEvent.Quit ==> !running && sent == old(sent) && currentTab == old(currentTab)
      ensures ev != AppEvent.Quit ==> running == old(running)
      ensures !(ev.Crossterm? && ev.event.KeyInput?) ==> sent == old(sent) && currentTab == old(currentTab)
      ensures forwarded.Some? ==> ev.Crossterm? && ev.event.KeyInput? && forwarded.value == ev.event.key.code
      ensures ev.Crossterm? && ev.event.KeyInput? ==>
        (forwarded.Some? <==> ev.event.key.code !in {Char('q'), Esc, Char(';'), Right, Char('j'), Left}
                              && old(currentTab) == TableTab)
      ensures State() == OnEvent(old(State()), ev)
    {
      forwarded := None;
      match ev {
        case Tick =>
        case Crossterm(e) =>
          match e {
            case KeyInput(key) => forwarded := HandleKeyEvents(key);
            case NonKey =>
          }
        case Quit => Quit();
      }
    }

    /** `run`: events are taken in order while the loop runs; it stops right
        after the first Quit event, or when the events run out. */
    method Run(events: seq<AppEvent>) returns (taken: nat)
      modifies this
      ensures taken <= |events|
      ensures !old(running) ==> taken == 0
      ensures old(running) ==> forall i :: 0 <= i < taken - 1 ==> events[i] != AppEvent.Quit
      ensures old(running) ==> (running <==> taken == |events| && AppEvent.Quit !in events)
      ensures old(running) && !running ==> taken > 0 && events[taken - 1] == AppEvent.Quit
      ensures State() == AfterEvents(old(State()), events[..taken])
      ensures editPopup == old(editPopup)
    {
      taken := 0;
      while running && taken < |events|
        invariant taken <= |events|
        invariant !old(running) ==> taken == 0 && !running
        invariant old(running) ==> forall i :: 0 <= i < taken ==> events[i] != AppEvent.Quit || (i == taken - 1 && !running)
        invariant old(running) ==> (running <==> AppEvent.Quit !in events[..taken])
        invariant State() == AfterEvents(old(State()), events[..taken])
        invariant editPopup == old(editPopup)
        decreases |events| - taken
      {
        assert events[..taken + 1][..taken] == events[..taken];
        var _ := Step(events[taken]);
        assert events[..taken + 1] == events[..taken] + [events[taken]];
        taken := taken + 1;
      }
      if old(running) && running {
        assert events[..taken] == events;
      }
    }
  }
}
