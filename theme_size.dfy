/**
 * hildon_gtk_widget_set_theme_size (hildon/hildon-gtk.c): the size flags
 * of a widget become its size request, its horizontal expansion and the
 * widget name the theme matches.
 */
module ThemeSize {

  /** The HildonSizeType bits the function tests. */
  datatype SizeFlags = SizeFlags(halfscreenWidth: bool, fullscreenWidth: bool,
                                 fingerHeight: bool, thumbHeight: bool)

  /** The parts of a widget the function sets: its size request, whether
      it expands horizontally, and its name. */
  datatype Widget = Widget(requestWidth: int, requestHeight: int, hexpand: bool, name: string)

  const FingerHeight := 70
  const ThumbHeight := 105

  /** The requested height and the name suffix of the height flags. */
  function HeightOf(size: SizeFlags): (r: (int, string))
  {
    if size.fingerHeight then (FingerHeight, "-finger")
    else if size.thumbHeight then (ThumbHeight, "-thumb")
    else (-1, "")
  }

  /**
   * The function on a widget of type `typeName`: the finger height, or
   * else the thumb height, with the matching name suffix after the type
   * name; no width (the screen widths are not used), but either width flag
   * makes the widget expand horizontally; without a height flag the
   * height request is -1 and the name is left as it was.
   */
  function SetThemeSize(w: Widget, typeName: string, size: SizeFlags): (r: Widget)
    ensures r.requestWidth == -1
    ensures size.fingerHeight ==> r.requestHeight == FingerHeight && r.name == typeName + "-finger"
    ensures !size.fingerHeight && size.thumbHeight ==> r.requestHeight == ThumbHeight && r.name == typeName + "-thumb"
    ensures !size.fingerHeight && !size.thumbHeight ==> r.requestHeight == -1 && r.name == w.name
    ensures r.hexpand == (w.hexpand || size.halfscreenWidth || size.fullscreenWidth)
  {
    var (height, suffix) := HeightOf(size);
    var name := if suffix != "" then typeName + suffix else w.name;
    Widget(-1, height, w.hexpand || size.halfscreenWidth || size.fullscreenWidth, name)
  }

  /** The name is renamed exactly when a height is requested, and then it
      starts with the type name. */
  lemma RenamedIffHeight(w: Widget, typeName: string, size: SizeFlags)
    ensures var r := SetThemeSize(w, typeName, size);
            (r.requestHeight != -1 <==> size.fingerHeight || size.thumbHeight)
            && (r.requestHeight != -1 ==> typeName <= r.name)
  {
  }

  /** Setting the same size twice is setting it once. */
  lemma SetThemeSizeIdempotent(w: Widget, typeName: string, size: SizeFlags)
    ensures SetThemeSize(SetThemeSize(w, typeName, size), typeName, size) == SetThemeSize(w, typeName, size)
  {
  }
}
