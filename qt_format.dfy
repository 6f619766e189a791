/** The parts of Qt's QTextCharFormat that the highlighters and formatters set. */
module QtFormat {
  import opened Wrappers

  /** Qt's predefined colours used by the livelex highlighter. */
  datatype GlobalColor = Red | Blue | DarkGray | DarkGreen

  /** A CSS colour as the theme gives it; its conversion to a QColor is not modelled. */
  datatype CssColor = CssColor(r: nat, g: nat, b: nat, a: real)

  datatype Brush = Global(color: GlobalColor) | Css(css: CssColor)

  datatype UnderlineStyle = SingleUnderline | DotLine | DashUnderline | WaveUnderline

  datatype Capitalization = SmallCaps

  /** QFont.Weight values of Qt 5. */
  const Thin: int := 0
  const ExtraLight: int := 12
  const Light: int := 25
  const Normal: int := 50
  const Medium: int := 57
  const DemiBold: int := 63
  const Bold: int := 75
  const ExtraBold: int := 81
  const Black: int := 87

  /** A QTextCharFormat: every property is either unset (None) or set to a value. */
  datatype CharFormat = CharFormat(
    foreground: Option<Brush>,
    background: Option<Brush>,
    underline: Option<bool>,
    overline: Option<bool>,
    strikeOut: Option<bool>,
    underlineStyle: Option<UnderlineStyle>,
    underlineColor: Option<Brush>,
    fontFamilies: Option<seq<string>>,
    fontFamily: Option<string>,
    pointSize: Option<real>,
    stretch: Option<int>,
    italic: Option<bool>,
    capitalization: Option<Capitalization>,
    weight: Option<int>)

  /** A freshly constructed QTextCharFormat: no property set. */
  const Empty: CharFormat :=
    CharFormat(None, None, None, None, None, None, None, None, None, None, None, None, None, None)
}
