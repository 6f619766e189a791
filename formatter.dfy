/**
 * The parceqt formatter's factory: turns the CSS text format parce's theme
 * computes for an action into a QTextCharFormat, by way of small tables for
 * font sizes, stretches and weights.
 */
module Formatter {
  import opened Wrappers
  import opened QtFormat

  /** A CSS property value: a keyword or a number. */
  datatype Value = Keyword(word: string) | Number(n: real)

  /** Python truthiness of a value: the empty keyword and zero are false. */
  predicate Truthy(v: Option<Value>)
  {
    v.Some? && match v.value
      case Keyword(w) => w != ""
      case Number(n) => n != 0.0
  }

  /**
   * parce's TextFormat: the CSS properties of one action. A property that is
   * not given is None, or the empty string or list.
   */
  datatype CssTextFormat = CssTextFormat(
    color: Option<CssColor>,
    backgroundColor: Option<CssColor>,
    decorationLine: seq<string>,
    decorationStyle: string,
    decorationColor: Option<CssColor>,
    fontFamily: seq<string>,
    fontSize: Option<Value>,
    fontSizeUnit: string,
    fontStretch: Option<Value>,
    fontStyle: string,
    fontVariantCaps: string,
    fontWeight: Option<Value>)

  /** The point size of a CSS size keyword, 12 for an unknown one. */
  function KeywordSize(w: string): real
  {
    if w == "xx-small" then 8.0
    else if w == "x-small" then 9.0
    else if w == "small" then 10.0
    else if w == "medium" then 12.0
    else if w == "large" then 14.0
    else if w == "x-large" then 16.0
    else if w == "xx-large" then 20.0
    else if w == "xxx-large" then 24.0
    else if w == "larger" then 14.0
    else if w == "smaller" then 10.0
    else 12.0
  }

  /**
   * _font_point_size: keywords through the table; numbers taken as points,
   * as pixels (16 to 12 points), as ems (12 points each) or as a percentage
   * of 12 points; another unit gives 12.
   */
  function FontPointSize(size: Value, unit: string): real
  {
    match size
    case Keyword(w) => KeywordSize(w)
    case Number(n) =>
      if unit == "pt" then n
      else if unit == "px" then n * 12.0 / 16.0
      else if unit == "rem" || unit == "em" then n * 12.0
      else if unit == "%" then n * 12.0 / 100.0
      else 12.0
  }

  /** The size keywords grow step by step, "smaller" and "larger" are "small" and "large", and the default is "medium". */
  lemma KeywordSizes(w: string)
    ensures KeywordSize("xx-small") < KeywordSize("x-small") < KeywordSize("small") < KeywordSize("medium")
      < KeywordSize("large") < KeywordSize("x-large") < KeywordSize("xx-large") < KeywordSize("xxx-large")
    ensures KeywordSize("smaller") == KeywordSize("small") && KeywordSize("larger") == KeywordSize("large")
    ensures 8.0 <= KeywordSize(w) <= 24.0
    ensures w !in {"xx-small", "x-small", "small", "large", "x-large", "xx-large", "xxx-large", "larger", "smaller"} ==>
      KeywordSize(w) == KeywordSize("medium")
  {
  }

  /** The units agree with each other: 12pt is 16px, 1em, 1rem and 100%, and every size scales linearly. */
  lemma UnitsAgree(x: real)
    ensures FontPointSize(Number(x * 16.0 / 12.0), "px") == x
    ensures FontPointSize(Number(x / 12.0), "em") == x
    ensures FontPointSize(Number(x / 12.0), "rem") == x
    ensures FontPointSize(Number(x * 100.0 / 12.0), "%") == x
    ensures FontPointSize(Number(x), "pt") == x
    ensures forall unit :: unit in {"pt", "px", "em", "rem", "%"} ==>
      FontPointSize(Number(2.0 * x), unit) == 2.0 * FontPointSize(Number(x), unit)
  {
  }

  /** Python's int() on a number: truncation toward zero. */
  function Trunc(x: real): (r: int)
    ensures 0.0 <= x ==> r as real <= x < r as real + 1.0
    ensures x < 0.0 ==> r as real - 1.0 < x <= r as real
  {
    if x >= 0.0 then x.Floor else -((-x).Floor)
  }

  /** The stretch of a CSS stretch keyword, 100 for an unknown one. */
  function KeywordStretch(w: string): int
  {
    if w == "ultra-condensed" then 50
    else if w == "extra-condensed" then 62
    else if w == "condensed" then 75
    else if w == "semi-condensed" then 87
    else if w == "normal" then 100
    else if w == "semi-expanded" then 112
    else if w == "expanded" then 125
    else if w == "extra-expanded" then 150
    else if w == "ultra-expanded" then 200
    else 100
  }

  /** _font_stretch: keywords through the table, numbers truncated to an int. */
  function FontStretch(stretch: Value): int
  {
    match stretch
    case Keyword(w) => KeywordStretch(w)
    case Number(n) => Trunc(n)
  }

  /** The stretch keywords grow from ultra-condensed to ultra-expanded; unknown keywords are normal. */
  lemma StretchKeywords(w: string)
    ensures KeywordStretch("ultra-condensed") < KeywordStretch("extra-condensed") < KeywordStretch("condensed")
      < KeywordStretch("semi-condensed") < KeywordStretch("normal") < KeywordStretch("semi-expanded")
      < KeywordStretch("expanded") < KeywordStretch("extra-expanded") < KeywordStretch("ultra-expanded")
    ensures 50 <= KeywordStretch(w) <= 200
    ensures KeywordStretch(w) == 100 <==> w == "normal" || w !in {"ultra-condensed", "extra-condensed", "condensed",
      "semi-condensed", "semi-expanded", "expanded", "extra-expanded", "ultra-expanded"}
  {
  }

  /** The QFont weight of a numeric CSS weight: one step per hundred, from Thin below 200 to Black from 900. */
  function NumberWeight(n: real): int
  {
    if n >= 900.0 then Black
    else if n >= 800.0 then ExtraBold
    else if n >= 700.0 then Bold
    else if n >= 600.0 then DemiBold
    else if n >= 500.0 then Medium
    else if n >= 400.0 then Normal
    else if n >= 300.0 then Light
    else if n >= 200.0 then ExtraLight
    else Thin
  }

  /** _font_weight: "bold", "bolder" and "lighter", another keyword Normal; numbers by threshold. */
  function FontWeight(weight: Value): int
  {
    match weight
    case Keyword(w) =>
      if w == "bold" then Bold
      else if w == "bolder" then ExtraBold
      else if w == "lighter" then Light
      else Normal
    case Number(n) => NumberWeight(n)
  }

  /** A heavier CSS weight never gives a lighter QFont weight, and CSS 400 and 700 are Qt's Normal and Bold. */
  lemma WeightMonotone(x: real, y: real)
    requires x <= y
    ensures NumberWeight(x) <= NumberWeight(y)
    ensures Thin <= NumberWeight(x) <= Black
    ensures FontWeight(Number(400.0)) == FontWeight(Keyword("normal")) == Normal
    ensures FontWeight(Number(700.0)) == FontWeight(Keyword("bold")) == Bold
    ensures FontWeight(Keyword("lighter")) < FontWeight(Keyword("normal")) < FontWeight(Keyword("bold")) < FontWeight(Keyword("bolder"))
  {
  }

  /** The underline style of a CSS decoration style; "double" and unknown styles set none. */
  function DecorationStyle(s: string): Option<UnderlineStyle>
  {
    if s == "solid" then Some(SingleUnderline)
    else if s == "dotted" then Some(DotLine)
    else if s == "dashed" then Some(DashUnderline)
    else if s == "wavy" then Some(WaveUnderline)
    else None
  }

  /** A flag set to true when the condition holds, left unset otherwise. */
  function FlagIf(c: bool): Option<bool>
  {
    if c then Some(true) else None
  }

  /** The brush of a colour, if there is one. */
  function BrushOf(c: Option<CssColor>): Option<Brush>
  {
    if c.Some? then Some(Css(c.value)) else None
  }

  /** The format the CSS properties ask for, property by property. */
  function Settings(tf: CssTextFormat): CharFormat
  {
    CharFormat(
      foreground := BrushOf(tf.color),
      background := BrushOf(tf.backgroundColor),
      underline := FlagIf("underline" in tf.decorationLine),
      overline := FlagIf("overline" in tf.decorationLine),
      strikeOut := FlagIf("line-through" in tf.decorationLine),
      underlineStyle := DecorationStyle(tf.decorationStyle),
      underlineColor := BrushOf(tf.decorationColor),
      fontFamilies := if tf.fontFamily != [] then Some(tf.fontFamily) else None,
      fontFamily := if tf.fontFamily != [] then Some(tf.fontFamily[0]) else None,
      pointSize := if Truthy(tf.fontSize) then Some(FontPointSize(tf.fontSize.value, tf.fontSizeUnit)) else None,
      stretch := if Truthy(tf.fontStretch) then Some(FontStretch(tf.fontStretch.value)) else None,
      italic := FlagIf(tf.fontStyle in {"italic", "oblique"}),
      capitalization := if tf.fontVariantCaps == "small-caps" then Some(SmallCaps) else None,
      weight := if Truthy(tf.fontWeight) then Some(FontWeight(tf.fontWeight.value)) else None)
  }

  /** No property of the CSS format produces a setting. */
  predicate Unstyled(tf: CssTextFormat)
  {
    && tf.color.None? && tf.backgroundColor.None? && tf.decorationColor.None?
    && "underline" !in tf.decorationLine && "overline" !in tf.decorationLine && "line-through" !in tf.decorationLine
    && tf.decorationStyle !in {"solid", "dotted", "dashed", "wavy"}
    && tf.fontFamily == []
    && !Truthy(tf.fontSize) && !Truthy(tf.fontStretch) && !Truthy(tf.fontWeight)
    && tf.fontStyle !in {"italic", "oblique"} && tf.fontVariantCaps != "small-caps"
  }

  /** The format is empty exactly when no property produced a setting. */
  lemma SettingsEmpty(tf: CssTextFormat)
    ensures Settings(tf) == Empty <==> Unstyled(tf)
  {
    if Settings(tf) == Empty {
      assert Settings(tf).underlineStyle == None;
    }
  }

  /** Sets the foreground and background colours the CSS format gives. */
  method SetColors(t: CssTextFormat, f: CharFormat) returns (g: CharFormat)
    ensures g == f.(foreground := if t.color.Some? then BrushOf(t.color) else f.foreground,
                    background := if t.backgroundColor.Some? then BrushOf(t.backgroundColor) else f.background)
  {
    g := f;
    if t.color.Some? {
      g := g.(foreground := Some(Css(t.color.value)));
    }
    if t.backgroundColor.Some? {
      g := g.(background := Some(Css(t.backgroundColor.value)));
    }
  }

  /** Sets the decoration lines named, the decoration style when Qt has it, and the decoration colour. */
  method SetDecoration(t: CssTextFormat, f: CharFormat) returns (g: CharFormat)
    ensures g == f.(underline := if "underline" in t.decorationLine then Some(true) else f.underline,
                    overline := if "overline" in t.decorationLine then Some(true) else f.overline,
                    strikeOut := if "line-through" in t.decorationLine then Some(true) else f.strikeOut,
                    underlineStyle := if DecorationStyle(t.decorationStyle).Some? then DecorationStyle(t.decorationStyle) else f.underlineStyle,
                    underlineColor := if t.decorationColor.Some? then BrushOf(t.decorationColor) else f.underlineColor)
  {
    g := f;
    if t.decorationLine != [] {
      if "underline" in t.decorationLine {
        g := g.(underline := Some(true));
      }
      if "overline" in t.decorationLine {
        g := g.(overline := Some(true));
      }
      if "line-through" in t.decorationLine {
        g := g.(strikeOut := Some(true));
      }
    }
    if t.decorationStyle != "" {
      var s := t.decorationStyle;
      if s == "solid" {
        g := g.(underlineStyle := Some(SingleUnderline));
      } else if s == "dotted" {
        g := g.(underlineStyle := Some(DotLine));
      } else if s == "dashed" {
        g := g.(underlineStyle := Some(DashUnderline));
      } else if s == "wavy" {
        g := g.(underlineStyle := Some(WaveUnderline));
      }
    }
    if t.decorationColor.Some? {
      g := g.(underlineColor := Some(Css(t.decorationColor.value)));
    }
  }

  /** Sets the font families, the first of them as the family, and the point size. */
  method SetFace(t: CssTextFormat, f: CharFormat) returns (g: CharFormat)
    ensures g == f.(fontFamilies := if t.fontFamily != [] then Some(t.fontFamily) else f.fontFamilies,
                    fontFamily := if t.fontFamily != [] then Some(t.fontFamily[0]) else f.fontFamily,
                    pointSize := if Truthy(t.fontSize) then Some(FontPointSize(t.fontSize.value, t.fontSizeUnit)) else f.pointSize)
  {
    g := f;
    if t.fontFamily != [] {
      g := g.(fontFamilies := Some(t.fontFamily));
      g := g.(fontFamily := Some(t.fontFamily[0]));
    }
    if Truthy(t.fontSize) {
      g := g.(pointSize := Some(FontPointSize(t.fontSize.value, t.fontSizeUnit)));
    }
  }

  /** Sets the stretch, italic, small caps and weight the CSS format gives. */
  method SetShape(t: CssTextFormat, f: CharFormat) returns (g: CharFormat)
    ensures g == f.(stretch := if Truthy(t.fontStretch) then Some(FontStretch(t.fontStretch.value)) else f.stretch,
                    italic := if t.fontStyle in {"italic", "oblique"} then Some(true) else f.italic,
                    capitalization := if t.fontVariantCaps == "small-caps" then Some(SmallCaps) else f.capitalization,
                    weight := if Truthy(t.fontWeight) then Some(FontWeight(t.fontWeight.value)) else f.weight)
  {
    g := f;
    if Truthy(t.fontStretch) {
      g := g.(stretch := Some(FontStretch(t.fontStretch.value)));
    }
    if t.fontStyle == "italic" || t.fontStyle == "oblique" {
      g := g.(italic := Some(true));
    }
    if t.fontVariantCaps == "small-caps" {
      g := g.(capitalization := Some(SmallCaps));
    }
    if Truthy(t.fontWeight) {
      g := g.(weight := Some(FontWeight(t.fontWeight.value)));
    }
  }

  /**
   * text_format: builds the format setter by setter and gives it when it
   * is not empty; nothing for no CSS format. Qt's font family list is taken
   * to be there (Qt 5.13 and later).
   */
  method TextFormat(tf: Option<CssTextFormat>) returns (r: Option<CharFormat>)
    ensures r.Some? <==> tf.Some? && !Unstyled(tf.value)
    ensures r.Some? ==> r.value == Settings(tf.value)
  {
    if tf.None? {
      return None;
    }
    var t := tf.value;
    var f := SetColors(t, Empty);
    f := SetDecoration(t, f);
    f := SetFace(t, f);
    f := SetShape(t, f);
    assert f == Settings(t);
    SettingsEmpty(t);
    r := if f != Empty then Some(f) else None;
  }
}
