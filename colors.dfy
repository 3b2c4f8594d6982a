/** Colours: SGR control sequences (section 8.3.117 of ECMA-48) with the
    256-colour parameters 48;5;n for the background and 38;5;n for the
    foreground, for the sixteen basic colours. */
module Colors {
  import opened Common

  /** Message levels: a level is a foreground colour, or None for plain text. */
  const LevelError := 1
  const LevelWarning := 3
  const LevelInfo := 2
  const LevelDebug := 5
  const LevelTrace := 8

  /** `ESC [ 0 m`: all attributes off. */
  function Reset(): string {
    [ESC] + "[0m"
  }

  /** A colour is 0 (black) to 15 (white), or None for no colour. */
  predicate InPalette(c: Option<int>) {
    c.None? || 0 <= c.value <= 15
  }

  /** `ESC [ 48 ; 5 ; n m` or `ESC [ 38 ; 5 ; n m`, or nothing. */
  function Decorator(layer: string, c: Option<int>): (r: string)
    requires InPalette(c)
    ensures c.None? <==> r == []
  {
    if c.None? then [] else [ESC] + "[" + layer + ";5;" + NatToString(c.value) + "m"
  }

  /** `colorize(text, bg_color, fg_color)`: without colours the text as it is;
      otherwise the decorators joined with the text and a final reset. */
  function Colorize(text: string, bg: Option<int>, fg: Option<int>): (r: string)
    requires InPalette(bg) && InPalette(fg)
    ensures bg.None? && fg.None? ==> r == text
  {
    var decorators := (if bg.Some? || fg.Some? then [Reset()] else [])
                      + (if bg.Some? then [Decorator("48", bg)] else [])
                      + (if fg.Some? then [Decorator("38", fg)] else []);
    if decorators != [] then Join(decorators + [text, Reset()], "") else text
  }

  /** Joining with no separator puts the first part in front of the rest. */
  lemma JoinFront(p: string, rest: seq<string>)
    requires rest != []
    ensures Join([p] + rest, "") == p + Join(rest, "")
  {
    assert ([p] + rest)[1..] == rest;
  }

  /** The colour escapes, background first. */
  function Escapes(bg: Option<int>, fg: Option<int>): (r: seq<string>)
    requires InPalette(bg) && InPalette(fg)
    ensures |r| == (if bg.Some? then 1 else 0) + (if fg.Some? then 1 else 0)
  {
    (if bg.Some? then [Decorator("48", bg)] else []) + (if fg.Some? then [Decorator("38", fg)] else [])
  }

  /** With a colour, the result is a reset followed by the escapes, the text
      and a closing reset, all joined. */
  lemma ColorizeUnfolds(text: string, bg: Option<int>, fg: Option<int>)
    requires InPalette(bg) && InPalette(fg) && (bg.Some? || fg.Some?)
    ensures Colorize(text, bg, fg) == Reset() + Join(Escapes(bg, fg) + [text, Reset()], "")
  {
    var b, f := Decorator("48", bg), Decorator("38", fg);
    var tail := [text, Reset()];
    var middle := Escapes(bg, fg);
    var decorators := [Reset()] + (if bg.Some? then [b] else []) + (if fg.Some? then [f] else []);
    assert Colorize(text, bg, fg) == Join(decorators + tail, "");
    assert decorators + tail == [Reset()] + (middle + tail);
    JoinFront(Reset(), middle + tail);
  }

  /** With a colour, the result is a reset, the background escape (if any),
      the foreground escape (if any), the text and a closing reset: the
      background always comes before the foreground. */
  lemma ColorizeLayout(text: string, bg: Option<int>, fg: Option<int>)
    requires InPalette(bg) && InPalette(fg) && (bg.Some? || fg.Some?)
    ensures Colorize(text, bg, fg) == Reset() + (Decorator("48", bg) + Decorator("38", fg)) + text + Reset()
  {
    ColorizeUnfolds(text, bg, fg);
    var b, f := Decorator("48", bg), Decorator("38", fg);
    var tail := [text, Reset()];
    assert Join(tail, "") == text + Reset() by {
      JoinFront(text, [Reset()]);
    }
    if bg.Some? && fg.Some? {
      assert Escapes(bg, fg) + tail == [b] + ([f] + tail);
      JoinFront(b, [f] + tail);
      JoinFront(f, tail);
    } else if bg.Some? {
      assert Escapes(bg, fg) + tail == [b] + tail;
      JoinFront(b, tail);
    } else {
      assert Escapes(bg, fg) + tail == [f] + tail;
      JoinFront(f, tail);
    }
  }

  /** The coloured text can be cut back out of the result: it sits between
      the escapes and the closing reset. */
  lemma ColorizeKeepsText(text: string, bg: Option<int>, fg: Option<int>)
    requires InPalette(bg) && InPalette(fg) && (bg.Some? || fg.Some?)
    ensures var r := Colorize(text, bg, fg);
            var d := Decorator("48", bg) + Decorator("38", fg);
            |r| == |text| + |d| + 8 && r[4 + |d|..|r| - 4] == text
  {
    ColorizeLayout(text, bg, fg);
    var d := Decorator("48", bg) + Decorator("38", fg);
    var r := Colorize(text, bg, fg);
    assert |Reset()| == 4;
    assert r == (Reset() + d) + text + Reset();
  }

  /** The background escape always comes before the foreground one. */
  lemma BackgroundFirst(text: string, bg: int, fg: int)
    requires 0 <= bg <= 15 && 0 <= fg <= 15
    ensures Colorize(text, Some(bg), Some(fg))
            == Reset() + Decorator("48", Some(bg)) + Decorator("38", Some(fg)) + text + Reset()
  {
    ColorizeLayout(text, Some(bg), Some(fg));
  }

  /** `colorize_level(text, level)`: no level leaves the text alone; a level
      is a foreground colour. */
  function ColorizeLevel(text: string, level: Option<int>): (r: string)
    requires InPalette(level)
    ensures level.None? ==> r == text
    ensures level.Some? ==> r == Reset() + Decorator("38", level) + text + Reset()
  {
    if level.None? then text
    else
      ColorizeLayout(text, None, level);
      Colorize(text, None, level)
  }
}
