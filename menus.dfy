/**
  What the four configuration menus share: the keys they react to, the
  wrap-around option cursor, the text-field editing keys, the wall-time
  counter, the display width of a label and the list of output formats found
  among the snapshot file names.
 */
module Menus {
  import opened Wrappers
  import opened Strings

  /**
    A key as the menus distinguish it: the four arrows, Enter (10), Escape
    (27), Backspace (`KEY_BACKSPACE`, 127 or 8), and any other key by its code.
    `Code(c)` stands only for a code none of those comparisons names: the
    `getch` value is turned into a key by `KeyOf`, so 10 is always `Enter`
    and never `Code(10)`. `CtrlC` is Ctrl+C: `getch` then raises
    `KeyboardInterrupt` instead of returning a code, so no comparison ever
    sees it and `KeyOf` never gives it.
   */
  datatype Key = Up | Down | Left | Right | Enter | Escape | Backspace | Code(code: int) | CtrlC

  /** The curses key numbers the loops compare against (`KEY_DOWN`, `KEY_UP`, `KEY_LEFT`, `KEY_RIGHT`, `KEY_BACKSPACE`). */
  const KeyDown: int := 258
  const KeyUp: int := 259
  const KeyLeft: int := 260
  const KeyRight: int := 261
  const KeyBackspace: int := 263

  /** The codes some comparison of the key loops names. */
  predicate Named(code: int) {
    code == 10 || code == 27 || code == 8 || code == 127
    || code == KeyDown || code == KeyUp || code == KeyLeft || code == KeyRight || code == KeyBackspace
  }

  /** The key a `getch` code is: the comparisons of the loops, in the order they are made. */
  function KeyOf(code: int): (k: Key)
    ensures k.Code? <==> !Named(code)
    ensures k != CtrlC
    ensures k.Code? ==> k.code == code
    ensures k == Enter <==> code == 10
    ensures k == Escape <==> code == 27
    ensures k == Backspace <==> code == KeyBackspace || code == 127 || code == 8
  {
    if code == 10 then Enter
    else if code == 27 then Escape
    else if code == KeyUp then Up
    else if code == KeyDown then Down
    else if code == KeyLeft then Left
    else if code == KeyRight then Right
    else if code == KeyBackspace || code == 127 || code == 8 then Backspace
    else Code(code)
  }

  /** A code the text fields accept: printable ASCII, 32 to 126. */
  predicate Printable(code: int) {
    32 <= code <= 126
  }

  /** Python's `i % n` for a positive `n`: the index moved back into `0 .. n - 1`. */
  function Wrap(i: int, n: nat): (r: nat)
    requires n > 0
    ensures r < n
    ensures 0 <= i < n ==> r == i
    ensures i == -1 ==> r == n - 1
    ensures i == n ==> r == 0
  {
    i % n
  }

  /** Up on a menu of `n` options: the previous option, the last one from the first. */
  function Previous(option: int, n: nat): (r: nat)
    requires n > 0 && 0 <= option < n
    ensures r < n
    ensures option > 0 ==> r == option - 1
    ensures option == 0 ==> r == n - 1
  {
    Wrap(option - 1, n)
  }

  /** Down on a menu of `n` options: the next option, the first one from the last. */
  function Next(option: int, n: nat): (r: nat)
    requires n > 0 && 0 <= option < n
    ensures r < n
    ensures option < n - 1 ==> r == option + 1
    ensures option == n - 1 ==> r == 0
  {
    Wrap(option + 1, n)
  }

  /** Right (`forward`) or Left on a cycled value: the next or the previous entry. */
  function Turn(i: int, n: nat, forward: bool): (r: nat)
    requires n > 0 && 0 <= i < n
    ensures r < n
  {
    if forward then Next(i, n) else Previous(i, n)
  }

  /** Down undoes Up and Up undoes Down. */
  lemma PreviousNextInverse(option: int, n: nat)
    requires n > 0 && 0 <= option < n
    ensures Next(Previous(option, n), n) == option
    ensures Previous(Next(option, n), n) == option
  {
  }

  /** One key in a text field: Backspace drops the last character, a printable code appends its character. */
  function EditText(text: string, key: Key): (r: string)
    ensures key == Backspace && text != [] ==> r == text[..|text| - 1]
    ensures key == Backspace && text == [] ==> r == []
    ensures key.Code? && Printable(key.code) ==> r == text + [key.code as char]
    ensures key != Backspace && !(key.Code? && Printable(key.code)) ==> r == text
  {
    match key
    case Backspace => if |text| > 0 then text[..|text| - 1] else text
    case Code(c) => if Printable(c) then text + [c as char] else text
    case _ => text
  }

  /** Every character typed into a field is printable ASCII, so the field always is. */
  predicate PrintableText(text: string) {
    forall i | 0 <= i < |text| :: Printable(text[i] as int)
  }

  lemma EditKeepsPrintable(text: string, key: Key)
    requires PrintableText(text)
    ensures PrintableText(EditText(text, key))
  {
    var r := EditText(text, key);
    if key.Code? && Printable(key.code) {
      assert forall i | 0 <= i < |text| :: r[i] == text[i];
    } else if key == Backspace && text != [] {
      assert forall i | 0 <= i < |r| :: r[i] == text[i];
    }
  }

  /** Typing a character and then Backspace gives back the field. */
  lemma TypeThenDelete(text: string, code: int)
    requires Printable(code)
    ensures EditText(EditText(text, Code(code)), Backspace) == text
  {
    assert (text + [code as char])[..|text|] == text;
  }

  // ------------------------------------------------------------------ wall time

  /** `str(h)` for a number of hours. */
  function HoursText(h: int): string {
    IntToString(h)
  }

  /**
    The wall-time text is what the menu ever stores there: `str(h)` for a
    whole number `h` of at least one hour.
   */
  ghost predicate ValidWallTime(wall: string) {
    exists h: int | h >= 1 :: wall == HoursText(h)
  }

  /** A valid wall time reads back, with `int`, as its number of hours. */
  lemma ValidWallTimeValue(wall: string)
    ensures ValidWallTime(wall) ==> ParseInt(wall).Some? && ParseInt(wall).value >= 1 && wall == HoursText(ParseInt(wall).value)
  {
    if ValidWallTime(wall) {
      var h :| h >= 1 && wall == HoursText(h);
      ParseIntOfString(h);
    }
  }

  /** Left on the wall time: one hour less while above one; a non-number is left alone. */
  function WallTimeDown(wall: string): string {
    match ParseInt(wall)
    case Some(n) => if n > 1 then IntToString(n - 1) else wall
    case None => wall
  }

  /** Right on the wall time: one hour more; a non-number becomes "24". */
  function WallTimeUp(wall: string): string {
    match ParseInt(wall)
    case Some(n) => IntToString(n + 1)
    case None => "24"
  }

  /** Right on `str(h)` gives `str(h + 1)`. */
  lemma WallTimeUpOf(h: int)
    requires h >= 1
    ensures WallTimeUp(HoursText(h)) == HoursText(h + 1)
  {
    ParseIntOfString(h);
  }

  /** Left on `str(h)` gives `str(h - 1)`, and `str(1)` stays. */
  lemma WallTimeDownOf(h: int)
    requires h >= 1
    ensures WallTimeDown(HoursText(h)) == HoursText(if h > 1 then h - 1 else 1)
  {
    ParseIntOfString(h);
  }

  /** Left and Right keep the wall time a whole number of at least one hour. */
  lemma WallTimeValid(wall: string)
    requires ValidWallTime(wall)
    ensures ValidWallTime(WallTimeUp(wall)) && ValidWallTime(WallTimeDown(wall))
  {
    var h :| h >= 1 && wall == HoursText(h);
    WallTimeUpOf(h);
    WallTimeDownOf(h);
  }

  /** The default "24" reads as 24 hours. */
  lemma DefaultWallTime()
    ensures ParseInt("24") == Some(24) && ValidWallTime("24")
  {
    ParseIntOfString(24);
    TwentyFour();
    assert "24" == HoursText(24);
  }

  lemma TwentyFour()
    ensures IntToString(24) == "24"
  {
    assert 24 / 10 == 2 && 24 % 10 == 4;
    assert NatToString(2) == [DigitChar(2)] == "2";
    assert NatToString(24) == NatToString(2) + [DigitChar(4)];
    assert NatToString(24) == "24";
  }

  /** Right then Left on a valid wall time gives back the same text. */
  lemma WallTimeUpDown(wall: string)
    requires ValidWallTime(wall)
    ensures WallTimeDown(WallTimeUp(wall)) == wall
  {
    var h :| h >= 1 && wall == HoursText(h);
    WallTimeUpOf(h);
    WallTimeDownOf(h + 1);
  }

  // ------------------------------------------------------------------ display width

  /** A character of the CJK Unified Ideographs block, U+4E00 to U+9FFF, drawn two columns wide. */
  predicate Wide(c: char) {
    '\U{4E00}' <= c <= '\U{9FFF}'
  }

  /** The number of wide characters in `text`. */
  function WideCount(text: string): (n: nat)
    ensures n <= |text|
  {
    if text == [] then 0 else WideCount(text[..|text| - 1]) + (if Wide(text[|text| - 1]) then 1 else 0)
  }

  /** `calculate_display_width`: two columns per wide character, one per other character. */
  method DisplayWidth(text: string) returns (width: nat)
    ensures width == |text| + WideCount(text)
    ensures |text| <= width <= 2 * |text|
  {
    width := 0;
    var n := 0;
    while n < |text|
      invariant 0 <= n <= |text|
      invariant width == n + WideCount(text[..n])
    {
      assert text[..n + 1][..n] == text[..n];
      if '\U{4E00}' <= text[n] <= '\U{9FFF}' {
        width := width + 2;
      } else {
        width := width + 1;
      }
      n := n + 1;
    }
    assert text[..n] == text;
  }

  /** The width of two texts drawn one after the other is the sum of their widths. */
  lemma {:induction false} WideCountConcat(a: string, b: string)
    ensures WideCount(a + b) == WideCount(a) + WideCount(b)
  {
    if b != [] {
      var init := b[..|b| - 1];
      assert (a + b)[..|a| + |b| - 1] == a + init;
      WideCountConcat(a, init);
    } else {
      assert a + b == a;
    }
  }

  // ------------------------------------------------------------------ output formats

  /** The second dot-separated field of a base name with at least four fields. */
  function FormatOf(name: string): Option<string> {
    var parts := Split(name, '.');
    if |parts| >= 4 then Some(parts[1]) else None
  }

  /** The formats of `names`, each once, in the order first seen. */
  function Formats(names: seq<string>): (r: seq<string>)
    ensures forall i, j | 0 <= i < j < |r| :: r[i] != r[j]
    ensures forall f | f in r :: exists k | 0 <= k < |names| :: FormatOf(names[k]) == Some(f)
  {
    if names == [] then []
    else
      var init := names[..|names| - 1];
      var prev := Formats(init);
      var last := names[|names| - 1];
      assert forall f | f in prev :: exists k | 0 <= k < |names| :: FormatOf(names[k]) == Some(f) by {
        forall f | f in prev ensures exists k | 0 <= k < |names| :: FormatOf(names[k]) == Some(f) {
          var k :| 0 <= k < |init| && FormatOf(init[k]) == Some(f);
          assert names[k] == init[k];
        }
      }
      match FormatOf(last)
      case Some(f) => if f in prev then prev else prev + [f]
      case None => prev
  }

  /** Every format of a name is listed. */
  lemma {:induction false} FormatsComplete(names: seq<string>, k: int)
    requires 0 <= k < |names| && FormatOf(names[k]).Some?
    ensures FormatOf(names[k]).value in Formats(names)
  {
    var init := names[..|names| - 1];
    if k < |names| - 1 {
      FormatsComplete(init, k);
      assert init[k] == names[k];
    }
  }

  /** One more name adds its format at the end, unless the format is already listed. */
  lemma FormatsAppend(names: seq<string>, last: string)
    ensures FormatOf(last).Some? && FormatOf(last).value !in Formats(names) ==> Formats(names + [last]) == Formats(names) + [FormatOf(last).value]
    ensures FormatOf(last).None? || FormatOf(last).value in Formats(names) ==> Formats(names + [last]) == Formats(names)
  {
    var all := names + [last];
    assert all[..|all| - 1] == names && all[|all| - 1] == last;
  }

  /** Later names only add formats at the end: the list keeps first-seen order. */
  lemma {:induction false} FormatsPrefix(a: seq<string>, b: seq<string>)
    ensures |Formats(a)| <= |Formats(a + b)| && Formats(a + b)[..|Formats(a)|] == Formats(a)
  {
    if b == [] {
      assert a + b == a;
    } else {
      var init := b[..|b| - 1];
      var last := b[|b| - 1];
      assert a + b == (a + init) + [last];
      FormatsPrefix(a, init);
      FormatsAppend(a + init, last);
      var p := Formats(a + init);
      var k := |Formats(a)|;
      if FormatOf(last).Some? {
        assert (p + [FormatOf(last).value])[..k] == p[..k];
      }
    }
  }

  /**
    `get_output_formats` on the base names the `*.*.*.athdf` pattern in `outputs`
    matched: the formats in first-seen order, or `["out2"]` when there is none.
   */
  method OutputFormats(names: seq<string>) returns (formats: seq<string>)
    ensures formats == if Formats(names) == [] then ["out2"] else Formats(names)
    ensures formats != []
  {
    formats := [];
    var n := 0;
    while n < |names|
      invariant 0 <= n <= |names|
      invariant formats == Formats(names[..n])
    {
      assert names[..n + 1][..n] == names[..n];
      var parts := Split(names[n], '.');
      if |parts| >= 4 {
        var formatPart := parts[1];
        if formatPart !in formats {
          formats := formats + [formatPart];
        }
      }
      n := n + 1;
    }
    assert names[..n] == names;
    if formats == [] {
      formats := ["out2"];
    }
  }
}
