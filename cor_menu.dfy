/**
  The correlation menu: five options (output format, physical quantity,
  start time, end time, confirm), two text fields that are edited as soon as
  the cursor reaches them, and the argument string handed to the
  correlation script.
 */
module CorMenu {
  import opened Strings
  import opened Menus

  const OptionCount: nat := 5
  const VarOptions: seq<string> := ["rho", "vel", "B"]

  /** The loop's variables between two keys. */
  datatype State = State(
    option: int,
    formatIndex: int, outn: string,
    varIndex: int, variable: string,
    t1: string, t2: string,
    editingT1: bool, editingT2: bool)

  /** What a key leads to: another pass of the loop, the command, leaving without one, or the interrupt that ends the program. */
  datatype Transition = Continue(state: State) | Launch(state: State) | Quit | Interrupt

  /**
    The facts every pass of the loop keeps: the cursor is on an option, each
    cycled value is the entry its index names (`"out2"` when no format was
    found), and a field is only edited while the cursor is on it.
   */
  predicate Inv(formats: seq<string>, s: State) {
    && 0 <= s.option < OptionCount
    && (formats == [] ==> s.formatIndex == 0 && s.outn == "out2")
    && (formats != [] ==> 0 <= s.formatIndex < |formats| && s.outn == formats[s.formatIndex])
    && 0 <= s.varIndex < |VarOptions| && s.variable == VarOptions[s.varIndex]
    && (s.editingT1 ==> s.option == 2)
    && (s.editingT2 ==> s.option == 3)
  }

  /** The values before the first key: the first format, `B`, empty times, the cursor on the format. */
  function Initial(formats: seq<string>): (s: State)
    ensures Inv(formats, s)
    ensures s.variable == "B" && s.t1 == "" && s.t2 == "" && s.option == 0
  {
    State(0, 0, if formats != [] then formats[0] else "out2", 2, "B", "", "", false, false)
  }

  /** The top of the loop: the cursor on a time field starts editing it. */
  function AutoEdit(s: State): (r: State)
    ensures r == s.(editingT1 := r.editingT1, editingT2 := r.editingT2)
    ensures r.editingT1 == (s.editingT1 || s.option == 2)
    ensures r.editingT2 == (s.editingT2 || s.option == 3)
  {
    var s := if s.option == 2 && !s.editingT1 then s.(editingT1 := true) else s;
    if s.option == 3 && !s.editingT2 then s.(editingT2 := true) else s
  }

  /** A key while a time field is edited: Enter moves on to `next`, Escape stops editing, Up/Down stop and move. */
  function EditingKey(s: State, key: Key, text: string, next: int): (r: (State, string))
    requires 0 <= s.option < OptionCount && 0 <= next < OptionCount
    ensures 0 <= r.0.option < OptionCount && r.0 == s.(option := r.0.option)
    ensures key == Enter ==> r.0.option == next
    ensures !(key.Enter? || key.Up? || key.Down?) ==> r.0.option == s.option
  {
    match key
    case Enter => (s.(option := next), text)
    case Escape => (s, text)
    case Up => (s.(option := Previous(s.option, OptionCount)), text)
    case Down => (s.(option := Next(s.option, OptionCount)), text)
    case _ => (s, EditText(text, key))
  }

  /** A key outside the text fields. */
  function NormalKey(formats: seq<string>, s: State, key: Key): (t: Transition)
    requires Inv(formats, s) && !s.editingT1 && !s.editingT2
    ensures t.Continue? || t.Launch? ==> Inv(formats, t.state)
    ensures t.Launch? <==> key == Enter && s.option == 4
    ensures t.Quit? <==> key == Escape
    ensures t.Interrupt? <==> key == CtrlC
  {
    match key
    case Up => Continue(s.(option := Previous(s.option, OptionCount)))
    case Down => Continue(s.(option := Next(s.option, OptionCount)))
    case Left =>
      if s.option == 0 && formats != [] then
        var i := Previous(s.formatIndex, |formats|);
        Continue(s.(formatIndex := i, outn := formats[i]))
      else if s.option == 1 then
        var i := Previous(s.varIndex, |VarOptions|);
        Continue(s.(varIndex := i, variable := VarOptions[i]))
      else Continue(s)
    case Right =>
      if s.option == 0 && formats != [] then
        var i := Next(s.formatIndex, |formats|);
        Continue(s.(formatIndex := i, outn := formats[i]))
      else if s.option == 1 then
        var i := Next(s.varIndex, |VarOptions|);
        Continue(s.(varIndex := i, variable := VarOptions[i]))
      else Continue(s)
    case Enter => if s.option == 4 then Launch(s) else Continue(s)
    case Escape => Quit
    case CtrlC => Interrupt
    case _ => Continue(s)
  }

  /** One pass of the loop: enter editing if due, then handle the key read. */
  function Step(formats: seq<string>, s: State, key: Key): (t: Transition)
    requires Inv(formats, s)
    ensures t.Continue? || t.Launch? ==> Inv(formats, t.state)
    ensures t.Launch? <==> key == Enter && s.option == 4
    ensures t.Quit? <==> key == Escape && s.option != 2 && s.option != 3
    ensures t.Interrupt? <==> key == CtrlC
  {
    var a := AutoEdit(s);
    if key == CtrlC then Interrupt
    else if a.editingT1 then
      var (b, text) := EditingKey(a, key, a.t1, 3);
      Continue(b.(t1 := text, editingT1 := key.Backspace? || key.Code? || key.Left? || key.Right?))
    else if a.editingT2 then
      var (b, text) := EditingKey(a, key, a.t2, 4);
      Continue(b.(t2 := text, editingT2 := key.Backspace? || key.Code? || key.Left? || key.Right?))
    else NormalKey(formats, a, key)
  }

  /** Off the time fields, a pass of the loop only handles the key. */
  lemma NormalStep(formats: seq<string>, s: State, key: Key)
    requires Inv(formats, s) && s.option != 2 && s.option != 3
    ensures !s.editingT1 && !s.editingT2 && Step(formats, s, key) == NormalKey(formats, s, key)
  {
  }

  /** On the quantity, Right then Left gives back the same quantity, and Left then Right too. */
  lemma VariableCycleInverse(formats: seq<string>, s: State)
    requires Inv(formats, s) && s.option == 1
    ensures Step(formats, s, Right).Continue? && Step(formats, Step(formats, s, Right).state, Left) == Continue(s)
    ensures Step(formats, s, Left).Continue? && Step(formats, Step(formats, s, Left).state, Right) == Continue(s)
  {
    var r := Next(s.varIndex, |VarOptions|);
    var l := Previous(s.varIndex, |VarOptions|);
    NormalStep(formats, s, Right);
    NormalStep(formats, s, Left);
    NormalStep(formats, s.(varIndex := r, variable := VarOptions[r]), Left);
    NormalStep(formats, s.(varIndex := l, variable := VarOptions[l]), Right);
    PreviousNextInverse(s.varIndex, |VarOptions|);
  }

  /** The quantity cycles rho, vel, B and back to rho under Right. */
  lemma VariableCycle(formats: seq<string>, s: State)
    requires Inv(formats, s) && s.option == 1
    ensures Step(formats, s, Right).state.variable == (if s.variable == "rho" then "vel" else if s.variable == "vel" then "B" else "rho")
  {
  }

  /** On the format, Right then Left gives back the same format. */
  lemma FormatCycleInverse(formats: seq<string>, s: State)
    requires Inv(formats, s) && s.option == 0
    ensures Step(formats, s, Right).Continue? && Step(formats, Step(formats, s, Right).state, Left) == Continue(s)
  {
    NormalStep(formats, s, Right);
    if formats != [] {
      var r := Next(s.formatIndex, |formats|);
      NormalStep(formats, s.(formatIndex := r, outn := formats[r]), Left);
      PreviousNextInverse(s.formatIndex, |formats|);
    } else {
      NormalStep(formats, s, Left);
    }
  }

  /** With the cursor on the start time, a printable key is typed into it and Backspace deletes from it. */
  lemma StartTimeEdited(formats: seq<string>, s: State, key: Key)
    requires Inv(formats, s) && s.option == 2
    requires key == Backspace || (key.Code? && Printable(key.code))
    ensures Step(formats, s, key) == Continue(s.(t1 := EditText(s.t1, key), editingT1 := true))
  {
  }

  /** Enter on the start time moves to the end time, and the next key already edits the end time. */
  lemma StartTimeEnterMovesOn(formats: seq<string>, s: State, code: int)
    requires Inv(formats, s) && s.option == 2 && Printable(code)
    ensures var t := Step(formats, s, Enter);
      && t.Continue? && t.state.option == 3 && !t.state.editingT1 && t.state.t1 == s.t1
      && Step(formats, t.state, Code(code)) == Continue(t.state.(t2 := s.t2 + [code as char], editingT2 := true))
  {
  }

  /** Enter on the end time moves to the confirm option. */
  lemma EndTimeEnterMovesOn(formats: seq<string>, s: State)
    requires Inv(formats, s) && s.option == 3
    ensures Step(formats, s, Enter) == Continue(s.(option := 4, editingT2 := false))
  {
  }

  /** Escape while a time is edited does not leave the menu: editing stops, then resumes on the next pass. */
  lemma EscapeWhileEditing(formats: seq<string>, s: State, code: int)
    requires Inv(formats, s) && s.option == 2 && Printable(code)
    ensures var t := Step(formats, s, Escape);
      && t == Continue(s.(editingT1 := false))
      && Step(formats, t.state, Code(code)) == Continue(s.(t1 := s.t1 + [code as char], editingT1 := true))
  {
  }

  // ------------------------------------------------------------------ command

  /** The command-line words: format and quantity, then each time only when it is set. */
  function ArgWords(s: State): seq<string> {
    ["--outn=" + s.outn, "--var=" + s.variable]
      + (if s.t1 != "" then ["--t1=" + s.t1] else [])
      + (if s.t2 != "" then ["--t2=" + s.t2] else [])
  }

  /** `cmd_args`: the words of `ArgWords`, in order, separated by single spaces. */
  method CommandArgs(s: State) returns (cmdArgs: string)
    ensures cmdArgs == Join(ArgWords(s), ' ')
  {
    var words := ["--outn=" + s.outn, "--var=" + s.variable];
    cmdArgs := "--outn=" + s.outn + " --var=" + s.variable;
    assert cmdArgs == Join(words, ' ');
    if s.t1 != "" {
      JoinAppend(words, "--t1=" + s.t1, ' ');
      words := words + ["--t1=" + s.t1];
      cmdArgs := cmdArgs + " --t1=" + s.t1;
    }
    if s.t2 != "" {
      JoinAppend(words, "--t2=" + s.t2, ' ');
      words := words + ["--t2=" + s.t2];
      cmdArgs := cmdArgs + " --t2=" + s.t2;
    }
    assert words == ArgWords(s);
  }

  /** With space-free values, splitting the argument string on spaces gives back each word. */
  lemma CommandArgsWords(s: State)
    requires ' ' !in s.outn && ' ' !in s.variable && ' ' !in s.t1 && ' ' !in s.t2
    ensures Split(Join(ArgWords(s), ' '), ' ') == ArgWords(s)
  {
    var w := ArgWords(s);
    forall i | 0 <= i < |w| ensures ' ' !in w[i] {
    }
    JoinSplit(w, ' ');
  }

  // ------------------------------------------------------------------ the loop

  datatype Outcome = Waiting(state: State) | Launched(state: State, args: string) | Cancelled | Interrupted

  /**
    The keys applied one after the other from `s`: every key is handed to
    `Step` until one launches (the arguments of that state are built),
    quits or interrupts; keys after that are never read. `Waiting` holds the state reached
    when the keys run out first.
   */
  function Drive(formats: seq<string>, s: State, keys: seq<Key>): (o: Outcome)
    requires Inv(formats, s)
    ensures o.Waiting? ==> Inv(formats, o.state)
    ensures o.Launched? ==> Inv(formats, o.state) && o.state.option == 4 && Enter in keys
    ensures o.Launched? ==> o.args == Join(ArgWords(o.state), ' ')
    ensures o.Cancelled? ==> Escape in keys
    ensures o.Interrupted? ==> CtrlC in keys
    decreases |keys|
  {
    if keys == [] then Waiting(s)
    else
      match Step(formats, s, keys[0])
      case Continue(next) => Drive(formats, next, keys[1..])
      case Launch(next) => Launched(next, Join(ArgWords(next), ' '))
      case Quit => Cancelled
      case Interrupt => Interrupted
  }

  /** Ctrl+C ends the menu in every state, a time field being edited included, and nothing is launched. */
  lemma CtrlCEndsMenu(formats: seq<string>, s: State, keys: seq<Key>)
    requires Inv(formats, s)
    ensures Drive(formats, s, [CtrlC] + keys) == Interrupted
  {
    assert ([CtrlC] + keys)[0] == CtrlC;
  }

  /**
    Reading more keys only continues a menu that is still waiting: after
    `keys` it goes on from the state reached, and once it has launched or
    quit, later keys change nothing.
   */
  lemma {:induction false} DriveAppend(formats: seq<string>, s: State, keys: seq<Key>, more: seq<Key>)
    requires Inv(formats, s)
    ensures Drive(formats, s, keys).Waiting? ==> Drive(formats, s, keys + more) == Drive(formats, Drive(formats, s, keys).state, more)
    ensures !Drive(formats, s, keys).Waiting? ==> Drive(formats, s, keys + more) == Drive(formats, s, keys)
    decreases |keys|
  {
    if keys != [] {
      assert (keys + more)[0] == keys[0] && (keys + more)[1..] == keys[1..] + more;
      match Step(formats, s, keys[0])
      case Continue(next) => DriveAppend(formats, next, keys[1..], more);
      case Launch(_) =>
      case Quit =>
      case Interrupt =>
    } else {
      assert keys + more == more;
    }
  }

  /**
    The key loop over the keys read, in order: its outcome is `Drive` of the
    keys from the initial state. It stops at the first key that launches
    (then builds the arguments) or quits.
   */
  method Run(formats: seq<string>, keys: seq<Key>) returns (o: Outcome)
    ensures o == Drive(formats, Initial(formats), keys)
  {
    var s := Initial(formats);
    var n := 0;
    while n < |keys|
      invariant 0 <= n <= |keys|
      invariant Inv(formats, s)
      invariant Drive(formats, Initial(formats), keys) == Drive(formats, s, keys[n..])
    {
      assert keys[n..][0] == keys[n] && keys[n..][1..] == keys[n + 1..];
      var t := Step(formats, s, keys[n]);
      match t {
        case Continue(next) =>
          s := next;
        case Launch(next) =>
          var args := CommandArgs(next);
          return Launched(next, args);
        case Quit =>
          return Cancelled;
        case Interrupt =>
          return Interrupted;
      }
      n := n + 1;
    }
    return Waiting(s);
  }
}
