/**
  The restart menu: five options (end time, wall-time limit, new output,
  input editor, confirm), the end-time field edited as soon as the cursor
  reaches it, and the values exported to the restart script.
 */
module RstMenu {
  import opened Wrappers
  import opened Strings
  import opened Menus

  const OptionCount: nat := 5

  /** How the input file is edited before the restart; `Name` gives the text shown and exported. */
  datatype Editor = NotApplicable | Manual | Nano {
    function Name(): string {
      match this
      case NotApplicable => "N/A"
      case Manual => "manual"
      case Nano => "nano"
    }
  }

  const YesNoOptions: seq<bool> := [false, true]
  const EditorOptions: seq<Editor> := [NotApplicable, Manual, Nano]

  /** The loop's variables between two keys. */
  datatype State = State(
    option: int,
    tlim: string,
    wallTimeLimit: string,
    yesNoIndex: int, newOutputFlag: bool,
    editorIndex: int, inputEditor: Editor,
    editingTlim: bool)

  datatype Transition = Continue(state: State) | Launch(state: State) | Quit | Interrupt

  /**
    The facts every pass keeps. Without a new output the editor is `N/A`
    with index 0, and it can only be chosen while a new output is asked for.
   */
  ghost predicate Inv(s: State) {
    && 0 <= s.option < OptionCount
    && 0 <= s.yesNoIndex < |YesNoOptions| && s.newOutputFlag == YesNoOptions[s.yesNoIndex]
    && 0 <= s.editorIndex < |EditorOptions| && s.inputEditor == EditorOptions[s.editorIndex]
    && (!s.newOutputFlag ==> s.editorIndex == 0)
    && ValidWallTime(s.wallTimeLimit)
    && (s.editingTlim ==> s.option == 0)
  }

  /** The values before the first key: no end time, 24 hours, no new output, `N/A`. */
  function Initial(): (s: State)
    ensures Inv(s)
    ensures s.tlim == [] && s.wallTimeLimit == "24" && !s.newOutputFlag && s.inputEditor == NotApplicable && s.option == 0
  {
    DefaultWallTime();
    State(0, "", "24", 0, false, 0, NotApplicable, false)
  }

  /** Left (`forward` false) or Right (`forward` true) outside the text field. */
  function Cycle(s: State, forward: bool): (r: State)
    requires Inv(s) && !s.editingTlim
    ensures Inv(r) && !r.editingTlim && r.option == s.option && r.tlim == s.tlim
    ensures s.option == 1 ==> r == s.(wallTimeLimit := if forward then WallTimeUp(s.wallTimeLimit) else WallTimeDown(s.wallTimeLimit))
    ensures s.option == 3 && s.newOutputFlag ==> r == s.(editorIndex := Turn(s.editorIndex, |EditorOptions|, forward), inputEditor := EditorOptions[Turn(s.editorIndex, |EditorOptions|, forward)])
  {
    if s.option == 1 then
      WallTimeValid(s.wallTimeLimit);
      s.(wallTimeLimit := if forward then WallTimeUp(s.wallTimeLimit) else WallTimeDown(s.wallTimeLimit))
    else if s.option == 2 then
      var i := Turn(s.yesNoIndex, |YesNoOptions|, forward);
      var flag := YesNoOptions[i];
      if flag then s.(yesNoIndex := i, newOutputFlag := flag)
      else s.(yesNoIndex := i, newOutputFlag := flag, inputEditor := NotApplicable, editorIndex := 0)
    else if s.option == 3 && s.newOutputFlag then
      var i := Turn(s.editorIndex, |EditorOptions|, forward);
      s.(editorIndex := i, inputEditor := EditorOptions[i])
    else s
  }

  /** A key while the end time is edited. */
  function EditingKey(s: State, key: Key): (r: State)
    requires Inv(s) && s.editingTlim
    ensures Inv(r)
  {
    match key
    case Enter => s.(editingTlim := false, option := 1)
    case Escape => s.(editingTlim := false)
    case Up => s.(editingTlim := false, option := Previous(s.option, OptionCount))
    case Down => s.(editingTlim := false, option := Next(s.option, OptionCount))
    case _ => s.(tlim := EditText(s.tlim, key))
  }

  /** A key outside the text field. */
  function NormalKey(s: State, key: Key): (t: Transition)
    requires Inv(s) && !s.editingTlim
    ensures t.Continue? || t.Launch? ==> Inv(t.state)
    ensures t.Launch? <==> key == Enter && s.option == 4
    ensures t.Quit? <==> key == Escape
    ensures t.Interrupt? <==> key == CtrlC
  {
    match key
    case Up => Continue(s.(option := Previous(s.option, OptionCount)))
    case Down => Continue(s.(option := Next(s.option, OptionCount)))
    case Left => Continue(Cycle(s, false))
    case Right => Continue(Cycle(s, true))
    case Enter => if s.option == 4 then Launch(s) else Continue(s)
    case Escape => Quit
    case CtrlC => Interrupt
    case _ => Continue(s)
  }

  /** One pass of the loop: the cursor on the end time starts editing it, then the key is handled. */
  function Step(s: State, key: Key): (t: Transition)
    requires Inv(s)
    ensures t.Continue? || t.Launch? ==> Inv(t.state)
    ensures t.Launch? <==> key == Enter && s.option == 4
    ensures t.Quit? <==> key == Escape && s.option != 0
    ensures t.Interrupt? <==> key == CtrlC
  {
    if key == CtrlC then Interrupt else
    var a := if s.option == 0 && !s.editingTlim then s.(editingTlim := true) else s;
    if a.editingTlim then Continue(EditingKey(a, key)) else NormalKey(a, key)
  }

  /** Off the end time, Left and Right only cycle the value under the cursor. */
  lemma CycleStep(s: State, forward: bool)
    requires Inv(s) && s.option != 0
    ensures !s.editingTlim && Step(s, if forward then Right else Left) == Continue(Cycle(s, forward))
  {
  }

  /** Without a new output, Left and Right on the editor change nothing. */
  lemma EditorFixedWithoutNewOutput(s: State)
    requires Inv(s) && s.option == 3 && !s.newOutputFlag
    ensures Step(s, Left) == Continue(s) && Step(s, Right) == Continue(s)
    ensures s.inputEditor == NotApplicable
  {
    CycleStep(s, false);
    CycleStep(s, true);
  }

  /** Right on the new-output option switches it; switching it off puts the editor back to `N/A`. */
  lemma NewOutputToggles(s: State)
    requires Inv(s) && s.option == 2
    ensures var t := Step(s, Right);
      && t.Continue? && t.state.newOutputFlag == !s.newOutputFlag
      && (!t.state.newOutputFlag ==> t.state.inputEditor == NotApplicable && t.state.editorIndex == 0)
      && (t.state.newOutputFlag ==> t.state.inputEditor == s.inputEditor)
  {
    CycleStep(s, true);
  }

  /** With a new output, the editor cycles N/A, manual, nano and back under Right. */
  lemma EditorCycle(s: State)
    requires Inv(s) && s.option == 3 && s.newOutputFlag
    ensures var t := Step(s, Right);
      && t.Continue?
      && t.state.inputEditor == (match s.inputEditor case NotApplicable => Manual case Manual => Nano case Nano => NotApplicable)
  {
    CycleStep(s, true);
  }

  /** With a new output, Left on the editor undoes Right. */
  lemma EditorCycleInverse(s: State)
    requires Inv(s) && s.option == 3 && s.newOutputFlag
    ensures Step(s, Right).Continue? && Step(Step(s, Right).state, Left) == Continue(s)
  {
    var i := Turn(s.editorIndex, |EditorOptions|, true);
    CycleStep(s, true);
    var u := Cycle(s, true);
    CycleStep(u, false);
    PreviousNextInverse(s.editorIndex, |EditorOptions|);
    assert Turn(i, |EditorOptions|, false) == s.editorIndex;
  }

  /** Right adds one hour to the wall-time limit and touches nothing else. */
  lemma WallTimeRight(s: State)
    requires Inv(s) && s.option == 1
    ensures Step(s, Right) == Continue(s.(wallTimeLimit := WallTimeUp(s.wallTimeLimit)))
  {
    CycleStep(s, true);
  }

  /** Left takes one hour from the wall-time limit, down to one, and touches nothing else. */
  lemma WallTimeLeft(s: State)
    requires Inv(s) && s.option == 1
    ensures Step(s, Left) == Continue(s.(wallTimeLimit := WallTimeDown(s.wallTimeLimit)))
  {
    CycleStep(s, false);
  }

  /** Enter in the end time moves to the wall-time limit. */
  lemma TlimEnter(s: State)
    requires Inv(s) && s.option == 0
    ensures Step(s, Enter) == Continue(s.(option := 1, editingTlim := false))
  {
  }

  /** The end time takes printable keys and Backspace while the cursor is on it. */
  lemma TlimEdited(s: State, key: Key)
    requires Inv(s) && s.option == 0
    requires key == Backspace || (key.Code? && Printable(key.code))
    ensures Step(s, key) == Continue(s.(tlim := EditText(s.tlim, key), editingTlim := true))
  {
  }

  /** Escape in the end time does not leave the menu: editing stops and resumes on the next pass. */
  lemma EscapeWhileEditing(s: State, code: int)
    requires Inv(s) && s.option == 0 && Printable(code)
    ensures var t := Step(s, Escape);
      && t == Continue(s.(editingTlim := false))
      && Step(t.state, Code(code)) == Continue(s.(tlim := s.tlim + [code as char], editingTlim := true))
  {
    var u := s.(editingTlim := false);
    assert Step(s, Escape) == Continue(EditingKey(s.(editingTlim := true), Escape));
    assert Step(u, Code(code)) == Continue(EditingKey(u.(editingTlim := true), Code(code)));
  }

  // ------------------------------------------------------------------ the loop

  /** `ATHENA_TLIM`, `ATHENA_WALL_TIME_LIMIT`, `ATHENA_NEW_OUTPUT_FLAG` and `ATHENA_INPUT_EDITOR`. */
  datatype Env = Env(tlim: string, wallTimeLimit: string, newOutputFlag: string, inputEditor: string)

  /** The values exported: `"0"` for an empty end time (keep the input's), `"1"` or `"0"` for the flag. */
  function EnvOf(s: State): (e: Env)
    requires Inv(s)
    ensures s.tlim != [] ==> e.tlim == s.tlim
    ensures s.tlim == [] ==> e.tlim == "0"
    ensures e.wallTimeLimit == s.wallTimeLimit
    ensures e.newOutputFlag == "1" <==> s.newOutputFlag
    ensures e.newOutputFlag == "0" <==> !s.newOutputFlag
    ensures e.newOutputFlag == "0" ==> e.inputEditor == "N/A"
  {
    Env(if s.tlim != [] then s.tlim else "0", s.wallTimeLimit, if s.newOutputFlag then "1" else "0", s.inputEditor.Name())
  }

  datatype Outcome = Waiting(state: State) | Launched(state: State, env: Env) | Cancelled | Interrupted

  /**
    The keys applied one after the other from `s`: every key is handed to
    `Step` until Ctrl+C interrupts or one launches (from the confirm option, exporting that state's values) or quits; keys after that are
    never read. `Waiting` holds the state reached when the keys run out first.
   */
  function Drive(s: State, keys: seq<Key>): (o: Outcome)
    requires Inv(s)
    ensures o.Waiting? ==> Inv(o.state)
    ensures o.Launched? ==> Inv(o.state) && o.state.option == 4 && Enter in keys
    ensures o.Launched? ==> o.env == EnvOf(o.state)
    ensures o.Cancelled? ==> Escape in keys
    ensures o.Interrupted? ==> CtrlC in keys
    decreases |keys|
  {
    if keys == [] then Waiting(s)
    else
      match Step(s, keys[0])
      case Continue(next) => Drive(next, keys[1..])
      case Launch(next) => Launched(next, EnvOf(next))
      case Quit => Cancelled
      case Interrupt => Interrupted
  }

  /** Ctrl+C ends the menu in every state, the end time being edited included, and nothing is launched. */
  lemma CtrlCEndsMenu(s: State, keys: seq<Key>)
    requires Inv(s)
    ensures Drive(s, [CtrlC] + keys) == Interrupted
  {
    assert ([CtrlC] + keys)[0] == CtrlC;
  }

  /**
    Reading more keys only continues a menu that is still waiting: after
    `keys` it goes on from the state reached, and once it has launched or
    quit, later keys change nothing.
   */
  lemma {:induction false} DriveAppend(s: State, keys: seq<Key>, more: seq<Key>)
    requires Inv(s)
    ensures Drive(s, keys).Waiting? ==> Drive(s, keys + more) == Drive(Drive(s, keys).state, more)
    ensures !Drive(s, keys).Waiting? ==> Drive(s, keys + more) == Drive(s, keys)
    decreases |keys|
  {
    if keys != [] {
      assert (keys + more)[0] == keys[0] && (keys + more)[1..] == keys[1..] + more;
      match Step(s, keys[0])
      case Continue(next) => DriveAppend(next, keys[1..], more);
      case Launch(_) =>
      case Quit =>
      case Interrupt =>
    } else {
      assert keys + more == more;
    }
  }

  /**
    The key loop over the keys read, in order: its outcome is `Drive` of the
    keys from the initial state. It stops at the first key that launches or
    quits.
   */
  method Run(keys: seq<Key>) returns (o: Outcome)
    ensures o == Drive(Initial(), keys)
  {
    var s := Initial();
    var n := 0;
    while n < |keys|
      invariant 0 <= n <= |keys|
      invariant Inv(s)
      invariant Drive(Initial(), keys) == Drive(s, keys[n..])
    {
      assert keys[n..][0] == keys[n] && keys[n..][1..] == keys[n + 1..];
      var t := Step(s, keys[n]);
      match t {
        case Continue(next) =>
          s := next;
        case Launch(next) =>
          return Launched(next, EnvOf(next));
        case Quit =>
          return Cancelled;
        case Interrupt =>
          return Interrupted;
      }
      n := n + 1;
    }
    return Waiting(s);
  }
}
