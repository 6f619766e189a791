/**
 * The parceqt theme's factory: turns the CSS properties of a theme rule into
 * a QTextCharFormat. Its size, stretch and weight tables are the same as the
 * formatter's (theme.py repeats them word for word) and are taken from the
 * Formatter module.
 */
module Theme {
  import opened Wrappers
  import opened QtFormat
  import opened Formatter

  /** The format the theme's properties ask for: as the formatter's, but only the family list is set. */
  function ThemeSettings(p: CssTextFormat): CharFormat
  {
    Settings(p).(fontFamily := None)
  }

  /** The theme's format is empty exactly when no property produced a setting. */
  lemma ThemeSettingsEmpty(p: CssTextFormat)
    ensures ThemeSettings(p) == Empty <==> Unstyled(p)
  {
    SettingsEmpty(p);
    if ThemeSettings(p) == Empty {
      assert ThemeSettings(p).fontFamilies == None;
    }
  }

  /** Sets the font family list only. */
  method SetFamilies(p: CssTextFormat, f: CharFormat) returns (g: CharFormat)
    ensures g == f.(fontFamilies := if p.fontFamily != [] then Some(p.fontFamily) else f.fontFamilies)
  {
    g := f;
    if p.fontFamily != [] {
      g := g.(fontFamilies := Some(p.fontFamily));
    }
  }

  /** Builds the format setter by setter, in the order text_format sets them, with the point size given. */
  method Build(p: CssTextFormat, size: Option<real>) returns (f: CharFormat)
    ensures f == ThemeSettings(p).(pointSize := size)
  {
    f := SetColors(p, Empty);
    f := SetDecoration(p, f);
    f := SetFamilies(p, f);
    if size.Some? {
      f := f.(pointSize := size);
    }
    f := SetShape(p, f);
  }

  /**
   * text_format as written: the point size is computed by _font_size,
   * which the module does not define, so properties with a font size
   * raise a NameError (Err); without one the format is built and given
   * when it is not empty.
   */
  method TextFormatAsWritten(p: CssTextFormat) returns (r: Result<Option<CharFormat>, string>)
    ensures r.Err? <==> Truthy(p.fontSize)
    ensures r.Ok? ==> (r.value.Some? <==> !Unstyled(p))
    ensures r.Ok? && r.value.Some? ==> r.value.value == ThemeSettings(p)
  {
    if Truthy(p.fontSize) {
      return Err("NameError: name '_font_size' is not defined");
    }
    var f := Build(p, None);
    ThemeSettingsEmpty(p);
    r := Ok(if f != Empty then Some(f) else None);
  }

  /**
   * text_format with the point size computed by _font_point_size, as the
   * formatter does: the format is given when it is not empty.
   */
  method TextFormat(p: CssTextFormat) returns (r: Option<CharFormat>)
    ensures r.Some? <==> !Unstyled(p)
    ensures r.Some? ==> r.value == ThemeSettings(p)
  {
    var size := if Truthy(p.fontSize) then Some(FontPointSize(p.fontSize.value, p.fontSizeUnit)) else None;
    var f := Build(p, size);
    ThemeSettingsEmpty(p);
    r := if f != Empty then Some(f) else None;
  }

  /** Properties giving only a font size of 10pt: a format with point size 10, where the code as written fails. */
  lemma SizedProperties()
    ensures var p := CssTextFormat(None, None, [], "", None, [], Some(Number(10.0)), "pt", None, "", "", None);
      && Truthy(p.fontSize) && !Unstyled(p)
      && ThemeSettings(p) == Empty.(pointSize := Some(10.0))
  {
  }
}
