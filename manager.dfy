/**
 * The application manager of src/lib.rs (`Manager`): a map from mode names
 * to modes, one of which is active. Every event is handed to the active
 * mode, after which the mode is asked for a pending transition and, if it
 * has one, that mode becomes the active one.
 *
 * The four kinds of mode are the menu (`UI`), the typing game (`Game`), the
 * editor (`Paint`) and `Quit`, which ends the program on its first update.
 * Handlers a mode does not define behave as the windowing library's
 * defaults: Escape ends the program, a window-close request is granted, and
 * every other event is ignored.
 */
module App {
  import opened Wrappers
  import opened Events
  import opened Menu
  import opened Play
  import opened Wording
  import opened Drawing
  import opened Editor

  datatype Mode = MenuMode(ui: UI) | PlayMode(game: Game) | EditorMode(paint: Paint) | QuitMode

  /** The objects a mode owns. */
  ghost function ModeRepr(m: Mode): set<object> {
    match m
    case MenuMode(ui) => {ui}
    case PlayMode(g) => {g}
    case EditorMode(p) => {p, p.ct}
    case QuitMode => {}
  }

  /** The mode is ready for its next event: its invariant holds and no transition is pending. */
  ghost predicate Ready(m: Mode)
    reads ModeRepr(m)
  {
    match m
    case MenuMode(ui) => ui.goto_state == None
    case PlayMode(g) => g.Valid() && g.goto_state == None
    case EditorMode(p) => p.Valid()
    case QuitMode => true
  }

  /** Every mode a mode can ask for. */
  function Targets(m: Mode): set<States> {
    match m
    case MenuMode(ui) => MenuTargets(ui.options)
    case PlayMode(_) => {Pause, Victory}
    case _ => {}
  }

  /** The transition a ready mode asks for after key `k`. */
  function KeyPending(m: Mode, k: Key): Option<States> {
    match m
    case MenuMode(ui) => FirstTransition(ui.options, k)
    case PlayMode(_) => if k == Escape then Some(Pause) else None
    case _ => None
  }

  /** The transition a ready mode asks for after one update. */
  ghost function UpdatePending(m: Mode): Option<States>
    reads ModeRepr(m)
  {
    match m
    case PlayMode(g) =>
      if NextWord(g.producer, g.level, g.sequence).GameComplete? && g.enemies == [] && g.target == None
      then Some(Victory) else None
    case _ => None
  }

  /** The mode a manager in mode `current` moves to when the active mode asks for `pending`. */
  function Switched(current: States, pending: Option<States>): States {
    if pending.Some? then pending.value else current
  }

  /** A pending transition found after a key press is one the mode declares. */
  lemma KeyPendingTarget(m: Mode, k: Key)
    ensures KeyPending(m, k).Some? ==> KeyPending(m, k).value in Targets(m)
  {
    if m.MenuMode? {
      FirstTransitionTarget(m.ui.options, k);
    }
  }

  /**
   * A key press as the active mode `m` sees it: the mode handles the key and
   * is then polled for its pending transition, which `ns` returns.
   */
  method KeyDownIn(m: Mode, k: Key) returns (quit: bool, ns: Option<States>)
    requires Ready(m)
    modifies ModeRepr(m)
    ensures Ready(m)
    ensures ns == KeyPending(m, k)
    ensures match m
            case QuitMode => quit == (k == Escape)
            case EditorMode(p) => quit == old(Quits(p.Snapshot(), k)) && p.Snapshot() == old(KeyEffect(p.Snapshot(), k))
            case PlayMode(g) => !quit && g.Snapshot() == old(g.Snapshot())
            case MenuMode(_) => !quit
  {
    quit := false;
    ns := None;
    match m {
      case MenuMode(ui) =>
        ui.KeyDown(k);
        ns := ui.NextState();
      case PlayMode(g) =>
        g.KeyDown(k);
        ns := g.NextState();
      case EditorMode(p) =>
        quit := p.KeyDown(k);
        ns := p.NextState();
      case QuitMode =>
        quit := k == Escape;
    }
  }

  class Manager {
    /** The modes by name; the source's map owns each of them. */
    const modes: map<States, Mode>
    var current_state: States
    /** Every object the modes own. */
    ghost const Repr: set<object>

    /**
     * The active mode exists, every mode a mode can ask for exists, the
     * modes own disjoint objects, and every mode is ready.
     */
    ghost predicate Valid()
      reads this, Repr
    {
      current_state in modes
      && (forall s | s in modes :: Targets(modes[s]) <= modes.Keys)
      && (forall s | s in modes :: ModeRepr(modes[s]) <= Repr) && this !in Repr
      && (forall s, t | s in modes && t in modes && s != t :: ModeRepr(modes[s]) !! ModeRepr(modes[t]))
      && (forall s | s in modes :: Ready(modes[s]))
    }

    constructor (initial_state: States, modes: map<States, Mode>)
      requires initial_state in modes
      requires forall s | s in modes :: Targets(modes[s]) <= modes.Keys
      requires forall s, t | s in modes && t in modes && s != t :: ModeRepr(modes[s]) !! ModeRepr(modes[t])
      requires forall s | s in modes :: Ready(modes[s])
      ensures Valid()
      ensures this.modes == modes && current_state == initial_state
    {
      this.modes := modes;
      current_state := initial_state;
      Repr := set s, o | s in modes && o in ModeRepr(modes[s]) :: o;
    }

    /**
     * The manager stays valid when only the objects of mode `m` changed and
     * that mode is ready again.
     */
    twostate lemma ValidAfter(m: States)
      requires old(Valid()) && m in modes && current_state in modes
      requires forall o | o in Repr && o !in ModeRepr(modes[m]) :: unchanged(o)
      requires Ready(modes[m])
      ensures Valid()
    {
      forall s | s in modes && s != m ensures Ready(modes[s]) {
        assert old(Ready(modes[s]));
        assert ModeRepr(modes[s]) !! ModeRepr(modes[m]);
      }
    }

    /** Polling `next_state`: a pending transition makes its target the active mode. */
    method Take(ns: Option<States>)
      requires ns.Some? ==> ns.value in modes
      modifies this
      ensures current_state == Switched(old(current_state), ns)
    {
      if ns.Some? {
        current_state := ns.value;
      }
    }

    /**
     * `update`: the active mode updates, then its pending transition, if
     * any, is taken. Only `Quit` ends the program here.
     */
    method Update(elapsed: bool, spawnX: real) returns (quit: bool)
      requires Valid()
      modifies ModeRepr(modes[current_state])
      modifies this
      ensures Valid()
      ensures current_state == Switched(old(current_state), old(UpdatePending(modes[current_state])))
      ensures quit == modes[old(current_state)].QuitMode?
      ensures match modes[old(current_state)]
              case PlayMode(g) =>
                g.Snapshot() == old(Tick(g.Snapshot(), g.producer, g.font_size, elapsed, spawnX)).(goto_state := None)
              case EditorMode(p) => p.Snapshot() == old(p.Snapshot())
              case _ => true
    {
      var m := modes[current_state];
      quit := false;
      match m {
        case MenuMode(ui) =>
          var ns := ui.NextState();
        case PlayMode(g) =>
          g.Update(elapsed, spawnX);
          var ns := g.NextState();
          Take(ns);
        case EditorMode(p) =>
          var ns := p.NextState();
        case QuitMode =>
          quit := true;
      }
      ValidAfter(old(current_state));
    }

    /**
     * `key_down_event`: the active mode handles the key, then its pending
     * transition, if any, is taken. The editor's own state changes as
     * `KeyEffect` says.
     */
    method Key(k: Key) returns (quit: bool)
      requires Valid()
      modifies ModeRepr(modes[current_state])
      modifies this
      ensures Valid()
      ensures current_state == Switched(old(current_state), KeyPending(modes[old(current_state)], k))
      ensures match modes[old(current_state)]
              case QuitMode => quit == (k == Escape)
              case EditorMode(p) => quit == old(Quits(p.Snapshot(), k)) && p.Snapshot() == old(KeyEffect(p.Snapshot(), k))
              case PlayMode(g) => !quit && g.Snapshot() == old(g.Snapshot())
              case MenuMode(_) => !quit
    {
      var m := modes[current_state];
      KeyPendingTarget(m, k);
      var ns;
      quit, ns := KeyDownIn(m, k);
      Take(ns);
      ValidAfter(old(current_state));
    }

    /** `text_input_event`: only the game reacts, and it never asks for a transition. */
    method Text(ch: char)
      requires Valid()
      modifies ModeRepr(modes[current_state])
      ensures Valid()
      ensures current_state == old(current_state)
      ensures match modes[current_state]
              case PlayMode(g) =>
                Typing(g.enemies, g.target) == old(Typed(g.enemies, g.target, ch))
                && g.level == old(g.level) && g.sequence == old(g.sequence)
              case EditorMode(p) => p.Snapshot() == old(p.Snapshot())
              case _ => true
    {
      var m := modes[current_state];
      match m {
        case PlayMode(g) =>
          g.TextInput(ch);
          var ns := g.NextState();
        case _ =>
      }
      ValidAfter(current_state);
    }

    /** `mouse_motion_event`: only the editor reacts; no transition follows. */
    method MouseMotion(x: real, y: real)
      requires Valid()
      modifies ModeRepr(modes[current_state])
      ensures Valid()
      ensures current_state == old(current_state)
      ensures match modes[current_state]
              case EditorMode(p) => p.Snapshot() == old(p.Snapshot()).(m_pos := Point(x - p.margin, y - p.margin))
              case PlayMode(g) => g.Snapshot() == old(g.Snapshot())
              case _ => true
    {
      var m := modes[current_state];
      match m {
        case EditorMode(p) =>
          p.MouseMotion(x, y);
          var ns := p.NextState();
        case _ =>
      }
      ValidAfter(current_state);
    }

    /** `mouse_button_down_event`: only the editor reacts; no transition follows. */
    method MouseButton(b: MouseButton, x: real, y: real)
      requires Valid()
      modifies ModeRepr(modes[current_state])
      ensures Valid()
      ensures current_state == old(current_state)
      ensures match modes[current_state]
              case EditorMode(p) => p.Snapshot() == old(Clicked(p.Snapshot(), b, x, y, p.margin))
              case PlayMode(g) => g.Snapshot() == old(g.Snapshot())
              case _ => true
    {
      var m := modes[current_state];
      match m {
        case EditorMode(p) =>
          p.MouseButtonDown(b, x, y);
          var ns := p.NextState();
        case _ =>
      }
      ValidAfter(current_state);
    }

    /**
     * `quit_event`: the active mode answers, then is polled for a pending
     * transition. A ready mode has none, so the manager stays put. No mode
     * cancels the request (`true` would): the menu answers `false` itself,
     * and the game and the editor keep the windowing library's default,
     * which also answers `false` and changes nothing.
     */
    method QuitEvent() returns (cancel: bool)
      requires Valid()
      modifies ModeRepr(modes[current_state])
      modifies this
      ensures Valid()
      ensures current_state == old(current_state)
      ensures !cancel
      ensures match modes[current_state]
              case PlayMode(g) => g.Snapshot() == old(g.Snapshot())
              case EditorMode(p) => p.Snapshot() == old(p.Snapshot())
              case _ => true
    {
      var m := modes[current_state];
      cancel := false;
      var ns := None;
      match m {
        case MenuMode(ui) =>
          ns := ui.NextState();
        case PlayMode(g) =>
          ns := g.NextState();
        case EditorMode(p) =>
          ns := p.NextState();
        case QuitMode =>
      }
      Take(ns);
      ValidAfter(old(current_state));
    }
  }

  // ---------------------------------------------------------------------
  // The typing game's executable (src/bin/game.rs)
  // ---------------------------------------------------------------------

  function MainMenu(): seq<MenuEntry> {
    [VSpace(120.0), Message(60.0, "RS-Type"), VSpace(60.0),
     Transition(40.0, "[S]tart game", S, States.Game),
     Transition(40.0, "[Esc] to quit", Escape, Quit)]
  }

  function PauseMenu(): seq<MenuEntry> {
    [VSpace(400.0), Message(70.0, "PAUSED"),
     Transition(30.0, "[Esc] to unpause", Escape, States.Game),
     Transition(30.0, "[Q] to quit game", Q, Quit)]
  }

  function BannerMenu(first: string, second: string): seq<MenuEntry> {
    [VSpace(300.0), Message(70.0, first), Message(70.0, second)]
  }

  /** The transitions the four menus of the typing game offer. */
  lemma TypingMenuTargets()
    ensures MenuTargets(MainMenu()) == {States.Game, Quit}
    ensures MenuTargets(PauseMenu()) == {States.Game, Quit}
    ensures MenuTargets(BannerMenu("Level", "Complete")) == {}
    ensures MenuTargets(BannerMenu("YOU", "WON")) == {}
  {
    assert MainMenu()[3].target == States.Game && MainMenu()[4].target == Quit;
    assert PauseMenu()[2].target == States.Game && PauseMenu()[3].target == Quit;
  }

  /** The mode map of the typing game's executable. */
  function TypingModes(start: UI, game: Game, pause: UI, level: UI, victory: UI): (modes: map<States, Mode>)
    ensures modes.Keys == {StartScreen, States.Game, Pause, NextLevel, Victory, Quit}
    ensures modes[StartScreen] == MenuMode(start) && modes[States.Game] == PlayMode(game)
    ensures modes[Pause] == MenuMode(pause) && modes[NextLevel] == MenuMode(level)
    ensures modes[Victory] == MenuMode(victory) && modes[Quit] == QuitMode
  {
    map[StartScreen := MenuMode(start), States.Game := PlayMode(game), Pause := MenuMode(pause),
        NextLevel := MenuMode(level), Victory := MenuMode(victory), Quit := QuitMode]
  }

  /** Five distinct mode objects give modes that own disjoint objects. */
  lemma TypingModesDisjoint(start: UI, game: Game, pause: UI, level: UI, victory: UI)
    requires start != pause && start != level && start != victory
    requires pause != level && pause != victory && level != victory
    ensures var modes := TypingModes(start, game, pause, level, victory);
            forall s, t | s in modes && t in modes && s != t :: ModeRepr(modes[s]) !! ModeRepr(modes[t])
  {
  }

  /** Every transition a mode of the typing game can ask for is to one of its modes. */
  lemma TypingModesClosed(start: UI, game: Game, pause: UI, level: UI, victory: UI)
    requires start.options == MainMenu() && pause.options == PauseMenu()
    requires level.options == BannerMenu("Level", "Complete") && victory.options == BannerMenu("YOU", "WON")
    ensures var modes := TypingModes(start, game, pause, level, victory);
            forall s | s in modes :: Targets(modes[s]) <= modes.Keys
  {
    TypingMenuTargets();
  }

  /** Fresh menus and a fresh game are ready. */
  lemma TypingModesReady(start: UI, game: Game, pause: UI, level: UI, victory: UI)
    requires start.goto_state == None && pause.goto_state == None
    requires level.goto_state == None && victory.goto_state == None
    requires game.Valid() && game.goto_state == None
    ensures var modes := TypingModes(start, game, pause, level, victory);
            forall s | s in modes :: Ready(modes[s])
  {
  }

  /** The manager the typing game starts with: the start screen is active. */
  method TypingApp(producer: WordProducer, font_size: real)
    returns (app: Manager, start: UI, game: Game, pause: UI, level: UI, victory: UI)
    ensures fresh(app) && fresh(start) && fresh(game) && fresh(pause) && fresh(level) && fresh(victory)
    ensures app.Valid() && app.current_state == StartScreen
    ensures app.modes == TypingModes(start, game, pause, level, victory)
    ensures start.options == MainMenu() && pause.options == PauseMenu()
  {
    start := new UI(MainMenu());
    game := new Game(producer, font_size);
    pause := new UI(PauseMenu());
    level := new UI(BannerMenu("Level", "Complete"));
    victory := new UI(BannerMenu("YOU", "WON"));
    var modes := TypingModes(start, game, pause, level, victory);
    TypingModesDisjoint(start, game, pause, level, victory);
    TypingModesClosed(start, game, pause, level, victory);
    TypingModesReady(start, game, pause, level, victory);
    app := new Manager(StartScreen, modes);
  }

  /** S on the start screen starts the game. */
  lemma MainMenuKeys()
    ensures FirstTransition(MainMenu(), S) == Some(States.Game)
  {
    var es := MainMenu();
    assert !Triggers(es[0], S) && !Triggers(es[1], S) && !Triggers(es[2], S);
    FirstTransitionAt(es, S, 3);
  }

  /** Escape on the pause screen resumes the game. */
  lemma PauseMenuResumes()
    ensures FirstTransition(PauseMenu(), Escape) == Some(States.Game)
  {
    FirstTransitionAt(PauseMenu(), Escape, 2);
  }

  /** Q on the pause screen quits. */
  lemma PauseMenuQuits()
    ensures FirstTransition(PauseMenu(), Q) == Some(Quit)
  {
    FirstTransitionAt(PauseMenu(), Q, 3);
  }

  /** One key press that the active mode answers with a transition to `target`. */
  method Press(app: Manager, k: Key, ghost target: States)
    requires app.Valid()
    requires KeyPending(app.modes[app.current_state], k) == Some(target)
    modifies app, ModeRepr(app.modes[app.current_state])
    ensures app.Valid() && app.current_state == target
  {
    var quit := app.Key(k);
  }

  /**
   * From the start screen: S starts the game, Escape pauses it, Escape
   * resumes it, Escape pauses again, Q picks "quit game", and the next
   * update of `Quit` ends the program.
   */
  method PauseAndQuit(producer: WordProducer) returns (visited: seq<States>, quit: bool)
    ensures visited == [StartScreen, States.Game, Pause, States.Game, Pause, Quit]
    ensures quit
  {
    var app, start, game, pause, level, victory := TypingApp(producer, 30.0);
    var s0 := app.current_state;
    var s1, s2 := StartThenPause(app, start, game, pause, level, victory);
    var s3, s4 := ResumeThenPause(app, start, game, pause, level, victory);
    var s5;
    s5, quit := QuitFromPause(app, start, game, pause, level, victory);
    visited := [s0, s1, s2, s3, s4, s5];
  }

  /** From the start screen: S starts the game and Escape pauses it. */
  method StartThenPause(app: Manager, start: UI, game: Game, pause: UI, level: UI, victory: UI)
    returns (s1: States, s2: States)
    requires app.Valid() && app.current_state == StartScreen
    requires app.modes == TypingModes(start, game, pause, level, victory)
    requires start.options == MainMenu()
    modifies app, start, game
    ensures app.Valid() && app.current_state == Pause
    ensures s1 == States.Game && s2 == Pause
  {
    MainMenuKeys();
    Press(app, S, States.Game);
    s1 := app.current_state;
    Press(app, Escape, Pause);
    s2 := app.current_state;
  }

  /** From the pause screen: Escape resumes the game and Escape pauses it again. */
  method ResumeThenPause(app: Manager, start: UI, game: Game, pause: UI, level: UI, victory: UI)
    returns (s3: States, s4: States)
    requires app.Valid() && app.current_state == Pause
    requires app.modes == TypingModes(start, game, pause, level, victory)
    requires pause.options == PauseMenu()
    modifies app, game, pause
    ensures app.Valid() && app.current_state == Pause
    ensures s3 == States.Game && s4 == Pause
  {
    PauseMenuResumes();
    Press(app, Escape, States.Game);
    s3 := app.current_state;
    Press(app, Escape, Pause);
    s4 := app.current_state;
  }

  /** From the pause screen: Q picks "quit game", and the next update ends the program. */
  method QuitFromPause(app: Manager, start: UI, game: Game, pause: UI, level: UI, victory: UI)
    returns (s5: States, quit: bool)
    requires app.Valid() && app.current_state == Pause
    requires app.modes == TypingModes(start, game, pause, level, victory)
    requires pause.options == PauseMenu()
    modifies app, pause
    ensures s5 == Quit && quit
  {
    PauseMenuQuits();
    Press(app, Q, Quit);
    s5 := app.current_state;
    quit := QuitUpdate(app);
  }

  /** The update of a manager whose active mode is `Quit` ends the program. */
  method QuitUpdate(app: Manager) returns (quit: bool)
    requires app.Valid() && app.modes[app.current_state] == QuitMode
    modifies app
    ensures quit
  {
    quit := app.Update(false, 0.0);
  }
}
