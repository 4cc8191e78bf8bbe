/**
  The simulation-launch menu: six options (case name, precision, equation of
  state, Riemann solver, wall-time limit, launch), the case-name field edited
  as soon as the cursor reaches it, and the values exported to the launch
  script.
 */
module RunMenu {
  import opened Wrappers
  import opened Strings
  import opened Menus

  const OptionCount: nat := 6
  /** The option values; `Name` gives the text the menu shows and exports. */
  datatype Fp = FP64 | FP32 {
    function Name(): string { if this == FP64 then "FP64" else "FP32" }
  }
  datatype Eos = Isothermal | Adiabatic {
    function Name(): string { if this == Isothermal then "isothermal" else "adiabatic" }
  }
  datatype RSolver = HLLD | LHLLD {
    function Name(): string { if this == HLLD then "HLLD" else "LHLLD" }
  }

  const FpOptions: seq<Fp> := [FP64, FP32]
  const EosOptions: seq<Eos> := [Isothermal, Adiabatic]
  const RSolverOptions: seq<RSolver> := [HLLD, LHLLD]

  /**
    The loop's variables between two keys. `errorShown` is set while the
    empty-name message waits for the key that dismisses it.
   */
  datatype State = State(
    option: int,
    caseDir: string,
    fpIndex: int, fp: Fp,
    eosIndex: int, eos: Eos,
    rSolverIndex: int, rSolver: RSolver,
    wallTimeLimit: string,
    editingCaseName: bool,
    errorShown: bool)

  datatype Transition = Continue(state: State) | Launch(state: State) | Quit | Interrupt

  /**
    The facts every pass keeps. An isothermal equation of state always comes
    with the HLLD solver. The solver index is not reset when the equation of
    state forces HLLD, so the solver shown is the entry its index names or
    HLLD.
   */
  ghost predicate Inv(s: State) {
    && 0 <= s.option < OptionCount
    && 0 <= s.fpIndex < |FpOptions| && s.fp == FpOptions[s.fpIndex]
    && 0 <= s.eosIndex < |EosOptions| && s.eos == EosOptions[s.eosIndex]
    && 0 <= s.rSolverIndex < |RSolverOptions|
    && (s.rSolver == RSolverOptions[s.rSolverIndex] || s.rSolver == HLLD)
    && (s.eos == Isothermal ==> s.rSolver == HLLD)
    && ValidWallTime(s.wallTimeLimit)
    && (s.editingCaseName ==> s.option == 0)
    && (s.errorShown ==> s.option == 5 && s.caseDir == [])
  }

  function Initial(): (s: State)
    ensures Inv(s)
    ensures s.eos == Isothermal && s.rSolver == HLLD && s.fp == FP64 && s.wallTimeLimit == "24" && s.caseDir == []
  {
    DefaultWallTime();
    State(0, "", 0, FP64, 0, Isothermal, 0, HLLD, "24", false, false)
  }

  /** A new equation of state; isothermal forces the HLLD solver. */
  function SetEos(s: State, i: int): (r: State)
    requires Inv(s) && 0 <= i < |EosOptions|
    ensures Inv(r)
    ensures r.eos == EosOptions[i] && r == s.(eosIndex := i, eos := EosOptions[i], rSolver := r.rSolver)
    ensures r.eos == Isothermal ==> r.rSolver == HLLD
    ensures r.eos != Isothermal ==> r.rSolver == s.rSolver
  {
    var e := EosOptions[i];
    s.(eosIndex := i, eos := e, rSolver := if e == Isothermal then HLLD else s.rSolver)
  }

  /** Left (`forward` false) or Right (`forward` true) outside the text field. */
  function Cycle(s: State, forward: bool): (r: State)
    requires Inv(s) && !s.editingCaseName && !s.errorShown
    ensures Inv(r) && !r.editingCaseName && !r.errorShown && r.option == s.option && r.caseDir == s.caseDir
    ensures s.option == 4 ==> r == s.(wallTimeLimit := if forward then WallTimeUp(s.wallTimeLimit) else WallTimeDown(s.wallTimeLimit))
  {
    if s.option == 1 then
      var i := Turn(s.fpIndex, |FpOptions|, forward);
      s.(fpIndex := i, fp := FpOptions[i])
    else if s.option == 2 then
      SetEos(s, Turn(s.eosIndex, |EosOptions|, forward))
    else if s.option == 3 && s.eos != Isothermal then
      var i := Turn(s.rSolverIndex, |RSolverOptions|, forward);
      s.(rSolverIndex := i, rSolver := RSolverOptions[i])
    else if s.option == 4 then
      WallTimeValid(s.wallTimeLimit);
      s.(wallTimeLimit := if forward then WallTimeUp(s.wallTimeLimit) else WallTimeDown(s.wallTimeLimit))
    else s
  }

  /** A key while the case name is edited. */
  function EditingKey(s: State, key: Key): (r: State)
    requires Inv(s) && s.editingCaseName
    ensures Inv(r)
  {
    match key
    case Enter => s.(editingCaseName := false, option := 1)
    case Escape => s.(editingCaseName := false)
    case Up => s.(editingCaseName := false, option := Previous(s.option, OptionCount))
    case Down => s.(editingCaseName := false, option := Next(s.option, OptionCount))
    case _ => s.(caseDir := EditText(s.caseDir, key))
  }

  /** A key outside the text field. */
  function NormalKey(s: State, key: Key): (t: Transition)
    requires Inv(s) && !s.editingCaseName && !s.errorShown
    ensures t.Continue? || t.Launch? ==> Inv(t.state)
    ensures t.Launch? <==> key == Enter && s.option == 5 && s.caseDir != []
    ensures t.Quit? <==> key == Escape
    ensures t.Interrupt? <==> key == CtrlC
  {
    match key
    case Up => Continue(s.(option := Previous(s.option, OptionCount)))
    case Down => Continue(s.(option := Next(s.option, OptionCount)))
    case Left => Continue(Cycle(s, false))
    case Right => Continue(Cycle(s, true))
    case Enter =>
      if s.option == 5 then
        if s.caseDir == [] then Continue(s.(errorShown := true)) else Launch(s)
      else Continue(s)
    case Escape => Quit
    case CtrlC => Interrupt
    case _ => Continue(s)
  }

  /**
    One pass of the loop: the key that dismisses the empty-name message is
    swallowed; otherwise the cursor on the case name starts editing it and
    the key is handled.
   */
  function Step(s: State, key: Key): (t: Transition)
    requires Inv(s)
    ensures t.Continue? || t.Launch? ==> Inv(t.state)
    ensures t.Launch? ==> t.state.caseDir != [] && t.state.option == 5
    ensures t.Launch? <==> key == Enter && s.option == 5 && s.caseDir != [] && !s.errorShown
    ensures t.Quit? <==> key == Escape && s.option != 0 && !s.errorShown
    ensures t.Interrupt? <==> key == CtrlC
  {
    if key == CtrlC then Interrupt
    else if s.errorShown then Continue(s.(errorShown := false))
    else
      var a := if s.option == 0 && !s.editingCaseName then s.(editingCaseName := true) else s;
      if a.editingCaseName then Continue(EditingKey(a, key)) else NormalKey(a, key)
  }

  /** Off the case name and with no message shown, Left and Right only cycle the value under the cursor. */
  lemma CycleStep(s: State, forward: bool)
    requires Inv(s) && s.option != 0 && !s.errorShown
    ensures !s.editingCaseName && Step(s, if forward then Right else Left) == Continue(Cycle(s, forward))
  {
  }

  /** Isothermal ⇒ HLLD after any key from any reachable state. */
  lemma IsothermalForcesHLLD(s: State, key: Key)
    requires Inv(s)
    ensures var t := Step(s, key); (t.Continue? || t.Launch?) && t.state.eos == Isothermal ==> t.state.rSolver == HLLD
  {
  }

  /** The solver cannot be changed while the equation of state is isothermal. */
  lemma SolverFixedWhenIsothermal(s: State, key: Key)
    requires Inv(s) && s.option == 3 && s.eos == Isothermal && !s.errorShown
    ensures var t := Step(s, key); !t.Launch? && (t.Continue? ==> t.state.rSolver == HLLD)
  {
  }

  /** Left at one hour keeps one hour, so the limit never drops below one. */
  lemma WallTimeFloor(s: State)
    requires Inv(s) && s.option == 4 && !s.errorShown && ParseInt(s.wallTimeLimit) == Some(1)
    ensures Step(s, Left) == Continue(s)
  {
    CycleStep(s, false);
  }

  /** Right adds one hour to the wall-time limit and touches nothing else. */
  lemma WallTimeRight(s: State)
    requires Inv(s) && s.option == 4 && !s.errorShown
    ensures Step(s, Right) == Continue(s.(wallTimeLimit := WallTimeUp(s.wallTimeLimit)))
  {
    CycleStep(s, true);
  }

  /** Left takes one hour from the wall-time limit, down to one, and touches nothing else. */
  lemma WallTimeLeft(s: State)
    requires Inv(s) && s.option == 4 && !s.errorShown
    ensures Step(s, Left) == Continue(s.(wallTimeLimit := WallTimeDown(s.wallTimeLimit)))
  {
    CycleStep(s, false);
  }

  /** Right then Left gives back the same state. */
  lemma WallTimeRightLeft(s: State)
    requires Inv(s) && s.option == 4 && !s.errorShown
    ensures Step(s, Right).Continue?
    ensures Step(Step(s, Right).state, Left) == Continue(s)
  {
    WallTimeRight(s);
    var u := s.(wallTimeLimit := WallTimeUp(s.wallTimeLimit));
    WallTimeValid(s.wallTimeLimit);
    WallTimeLeft(u);
    WallTimeUpDown(s.wallTimeLimit);
  }

  /** Right on the precision switches between FP64 and FP32. */
  lemma PrecisionToggles(s: State)
    requires Inv(s) && !s.errorShown && s.option == 1
    ensures Step(s, Right).Continue? && Step(s, Right).state.fp == (if s.fp == FP64 then FP32 else FP64)
  {
    CycleStep(s, true);
    var i := Next(s.fpIndex, |FpOptions|);
    assert Cycle(s, true) == s.(fpIndex := i, fp := FpOptions[i]);
  }

  /** Right on the equation of state switches between isothermal and adiabatic. */
  lemma EosToggles(s: State)
    requires Inv(s) && !s.errorShown && s.option == 2
    ensures Step(s, Right).Continue? && Step(s, Right).state.eos == (if s.eos == Isothermal then Adiabatic else Isothermal)
  {
    CycleStep(s, true);
    var i := Next(s.eosIndex, |EosOptions|);
    assert Cycle(s, true) == SetEos(s, i);
  }

  /**
    Enter on launch with no case name shows the message, and the next key
    only dismisses it; Ctrl+C while the message waits interrupts instead.
   */
  lemma EmptyNameStays(s: State, key: Key)
    requires Inv(s) && s.option == 5 && s.caseDir == [] && !s.errorShown
    ensures Step(s, Enter) == Continue(s.(errorShown := true))
    ensures key != CtrlC ==> Step(Step(s, Enter).state, key) == Continue(s)
    ensures key == CtrlC ==> Step(Step(s, Enter).state, key) == Interrupt
  {
  }

  /** Enter in the case name moves to the precision. */
  lemma CaseNameEnter(s: State)
    requires Inv(s) && s.option == 0 && !s.errorShown
    ensures Step(s, Enter) == Continue(s.(option := 1, editingCaseName := false))
  {
  }

  /** The case name takes printable keys and Backspace while the cursor is on it. */
  lemma CaseNameEdited(s: State, key: Key)
    requires Inv(s) && s.option == 0 && !s.errorShown
    requires key == Backspace || (key.Code? && Printable(key.code))
    ensures Step(s, key) == Continue(s.(caseDir := EditText(s.caseDir, key), editingCaseName := true))
  {
  }

  // ------------------------------------------------------------------ the loop

  /** The values exported before the launch script runs. */
  datatype Env = Env(caseDir: string, fp: string, eos: string, rSolver: string, wallTimeLimit: string)

  /** `ATHENA_CASE_DIR`, `ATHENA_FP`, `ATHENA_EOS`, `ATHENA_RSOLVER` and `ATHENA_WALL_TIME_LIMIT`. */
  function EnvOf(s: State): (e: Env)
    requires Inv(s)
    ensures e.caseDir == s.caseDir && e.wallTimeLimit == s.wallTimeLimit
    ensures e.eos == "isothermal" ==> e.rSolver == "HLLD"
  {
    Env(s.caseDir, s.fp.Name(), s.eos.Name(), s.rSolver.Name(), s.wallTimeLimit)
  }

  datatype Outcome = Waiting(state: State) | Launched(state: State, env: Env) | Cancelled | Interrupted

  /**
    The keys applied one after the other from `s`: every key is handed to
    `Step` until Ctrl+C interrupts or one launches (from the launch option with a non-empty case name, exporting that state's values) or quits; keys after that are
    never read. `Waiting` holds the state reached when the keys run out first.
   */
  function Drive(s: State, keys: seq<Key>): (o: Outcome)
    requires Inv(s)
    ensures o.Waiting? ==> Inv(o.state)
    ensures o.Launched? ==> Inv(o.state) && o.state.caseDir != [] && o.state.option == 5 && Enter in keys
    ensures o.Launched? ==> o.env == EnvOf(o.state)
    ensures o.Cancelled? ==> Escape in keys
    ensures o.Interrupted? ==> CtrlC in keys
    decreases |keys|
  {
    if keys == [] then Waiting(s)
    else
      match Step(s, keys[0])
      case Continue(next) => Drive(next, keys[1..])
      case Launch(next) => Launched(next, EnvOf(next))
      case Quit => Cancelled
      case Interrupt => Interrupted
  }

  /** Ctrl+C ends the menu in every state, the case name being edited and the empty-name message shown included, and nothing is launched. */
  lemma CtrlCEndsMenu(s: State, keys: seq<Key>)
    requires Inv(s)
    ensures Drive(s, [CtrlC] + keys) == Interrupted
  {
    assert ([CtrlC] + keys)[0] == CtrlC;
  }

  /**
    Reading more keys only continues a menu that is still waiting: after
    `keys` it goes on from the state reached, and once it has launched or
    quit, later keys change nothing.
   */
  lemma {:induction false} DriveAppend(s: State, keys: seq<Key>, more: seq<Key>)
    requires Inv(s)
    ensures Drive(s, keys).Waiting? ==> Drive(s, keys + more) == Drive(Drive(s, keys).state, more)
    ensures !Drive(s, keys).Waiting? ==> Drive(s, keys + more) == Drive(s, keys)
    decreases |keys|
  {
    if keys != [] {
      assert (keys + more)[0] == keys[0] && (keys + more)[1..] == keys[1..] + more;
      match Step(s, keys[0])
      case Continue(next) => DriveAppend(next, keys[1..], more);
      case Launch(_) =>
      case Quit =>
      case Interrupt =>
    } else {
      assert keys + more == more;
    }
  }

  /**
    The key loop over the keys read, in order: its outcome is `Drive` of the
    keys from the initial state. It stops at the first key that launches or
    quits.
   */
  method Run(keys: seq<Key>) returns (o: Outcome)
    ensures o == Drive(Initial(), keys)
  {
    var s := Initial();
    var n := 0;
    while n < |keys|
      invariant 0 <= n <= |keys|
      invariant Inv(s)
      invariant Drive(Initial(), keys) == Drive(s, keys[n..])
    {
      assert keys[n..][0] == keys[n] && keys[n..][1..] == keys[n + 1..];
      var t := Step(s, keys[n]);
      match t {
        case Continue(next) =>
          s := next;
        case Launch(next) =>
          return Launched(next, EnvOf(next));
        case Quit =>
          return Cancelled;
        case Interrupt =>
          return Interrupted;
      }
      n := n + 1;
    }
    return Waiting(s);
  }
}
