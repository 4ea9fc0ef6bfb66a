/** ANSI colouring of terminal text (lib/debugr/utils/terminal_colors.rb). */
module TerminalColors {
  import opened Wrappers
  import opened RubyText

  /** The colour argument: an Integer code, or a colour name as a String or a Symbol. */
  datatype Color = Code(code: int) | Name(name: string) | Symbol(sym: string)

  /** `CODES` */
  const CODES: map<string, int> := map[
    "red" := 31, "green" := 32, "yellow" := 33, "blue" := 34,
    "pink" := 35, "cyan" := 36, "white" := 37
  ]

  const ESC: char := '\U{1B}'
  /** The escape sequence that selects a colour, up to its code. */
  const OPEN: string := [ESC, '[']
  /** The escape sequence that resets the colour. */
  const RESET: string := [ESC, '[', '0', 'm']

  /** The result of `colorize`: the coloured text, or the `KeyError` that `fetch` raises. */
  datatype Colorized = Colored(text: string) | KeyError(key: string)

  /** `color.to_sym` for a name, the number itself for an Integer. */
  function CodeOf(color: Color): Option<int> {
    match color
    case Code(n) => Some(n)
    case Name(n) => if n in CODES then Some(CODES[n]) else None
    case Symbol(n) => if n in CODES then Some(CODES[n]) else None
  }

  function Wrap(code: int, text: string): string {
    OPEN + IntToString(code) + "m" + text + RESET
  }

  /** `TerminalColors.colorize(text, color)` */
  function Colorize(text: string, color: Color): (r: Colorized)
    ensures color.Code? ==> r == Colored(Wrap(color.code, text))
    ensures !color.Code? ==> var n := if color.Name? then color.name else color.sym;
      r == if n in CODES then Colored(Wrap(CODES[n], text)) else KeyError(n)
  {
    match CodeOf(color)
    case Some(code) => Colored(Wrap(code, text))
    case None => KeyError(if color.Name? then color.name else color.sym)
  }

  /** Inverse of the wrapping: the code and the text between the two escape sequences. */
  function Unwrap(s: string): Option<(int, string)> {
    if |s| < 6 || s[..2] != OPEN || s[|s| - 4..] != RESET then None
    else
      var body := s[2..|s| - 4];
      if 'm' !in body then None
      else
        var k := IndexOf(body, 'm');
        Some((ToI(body[..k]), body[k + 1..]))
  }

  /** Unwrapping a body framed by the two escape sequences looks only inside the frame. */
  lemma UnwrapFramed(body: string)
    requires 'm' in body
    ensures var k := IndexOf(body, 'm');
      Unwrap(OPEN + body + RESET) == Some((ToI(body[..k]), body[k + 1..]))
  {
    var s := OPEN + body + RESET;
    assert |s| == |body| + 6;
    assert s[..2] == OPEN;
    assert s[|s| - 4..] == RESET;
    assert s[2..|s| - 4] == body;
  }

  /** A code's digits, `m` and the text: the first `m` ends the digits. */
  lemma CodeAndText(digits: string, text: string)
    requires 'm' !in digits
    ensures var body := digits + ['m'] + text;
      && 'm' in body && IndexOf(body, 'm') == |digits|
      && body[..|digits|] == digits && body[|digits| + 1..] == text
  {
    IndexOfAfter(digits, 'm', text);
  }

  /** Unwrapping the escape sequences gives back the code and the text. */
  lemma UnwrapWrap(code: int, text: string)
    ensures Unwrap(Wrap(code, text)) == Some((code, text))
  {
    var digits := IntToString(code);
    var body := digits + ['m'] + text;
    assert Wrap(code, text) == OPEN + body + RESET;
    CodeAndText(digits, text);
    UnwrapFramed(body);
    ToIOfIntToString(code, []);
    assert digits + [] == digits;
  }

  /** The coloured text carries the code and the original text unchanged. */
  lemma UnwrapColorize(text: string, color: Color)
    requires Colorize(text, color).Colored?
    ensures Unwrap(Colorize(text, color).text) == Some((CodeOf(color).value, text))
  {
    UnwrapWrap(CodeOf(color).value, text);
  }

  /** A colour name gives the same output whether passed as a String or a Symbol. */
  lemma NameAndSymbolAgree(text: string, name: string)
    ensures Colorize(text, Name(name)) == Colorize(text, Symbol(name))
  {
  }

  /** The colour name of each code of `CODES`: the table read backwards. */
  function NameOfCode(code: int): Option<string> {
    match code
    case 31 => Some("red")
    case 32 => Some("green")
    case 33 => Some("yellow")
    case 34 => Some("blue")
    case 35 => Some("pink")
    case 36 => Some("cyan")
    case 37 => Some("white")
    case _ => None
  }

  /** Each name of `CODES` maps to a code between 31 and 37 that names it back. */
  lemma CodesNamed(a: string)
    requires a in CODES
    ensures 31 <= CODES[a] <= 37
    ensures NameOfCode(CODES[a]) == Some(a)
  {
  }

  /** `CODES` maps its names to distinct codes 31 to 37. */
  lemma CodesDistinct()
    ensures forall a, b :: a in CODES && b in CODES && a != b ==> CODES[a] != CODES[b]
    ensures forall a :: a in CODES ==> 31 <= CODES[a] <= 37
  {
    forall a | a in CODES
      ensures 31 <= CODES[a] <= 37 && NameOfCode(CODES[a]) == Some(a)
    {
      CodesNamed(a);
    }
  }
}
