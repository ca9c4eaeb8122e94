/**
 * Labels of the label store, their screen bounding box and the value copy
 * the render collection receives for a label shown on its own.
 */
module Labels {
  import opened Wrappers
  import opened Geometry

  datatype HorizontalOrigin = Left | Center | Right
  datatype VerticalOrigin = Bottom | Center | Top
  datatype LabelStyle = Fill | Outline | FillAndOutline
  datatype HeightReference = NoReference | ClampToGround | RelativeToGround
  datatype Color = Color(red: real, green: real, blue: real, alpha: real)
  datatype NearFarScalar = NearFarScalar(near: real, nearValue: real, far: real, farValue: real)

  /** The size of a glyph's billboard in pixels, before the label's scale. */
  datatype Size = Size(width: real, height: real)

  /** A laid-out glyph; a glyph without a billboard (a space, say) has no footprint. */
  datatype Glyph = Glyph(billboard: Option<Size>)

  /** A label of the label store: its visual attributes and its laid-out glyphs. */
  datatype Label = Label(
    text: string,
    show: bool,
    font: string,
    fillColor: Color,
    outlineColor: Color,
    outlineWidth: real,
    style: LabelStyle,
    verticalOrigin: VerticalOrigin,
    horizontalOrigin: HorizontalOrigin,
    pixelOffset: Vec2,
    eyeOffset: Vec3,
    position: Vec3,
    scale: real,
    id: Option<nat>,
    translucencyByDistance: Option<NearFarScalar>,
    pixelOffsetScaleByDistance: Option<NearFarScalar>,
    heightReference: HeightReference,
    glyphs: seq<Glyph>)

  /**
   * The attributes a new render-collection label is created from; a style
   * that is absent (None) leaves the new label with the default style.
   */
  datatype LabelOptions = LabelOptions(
    text: string,
    show: bool,
    font: string,
    fillColor: Color,
    outlineColor: Color,
    outlineWidth: real,
    style: Option<LabelStyle>,
    verticalOrigin: VerticalOrigin,
    horizontalOrigin: HorizontalOrigin,
    pixelOffset: Vec2,
    eyeOffset: Vec3,
    position: Vec3,
    scale: real,
    id: Option<nat>,
    translucencyByDistance: Option<NearFarScalar>,
    pixelOffsetScaleByDistance: Option<NearFarScalar>,
    heightReference: HeightReference)

  /**
   * The label the store appends when asked for a new one: empty text, so no
   * glyphs, and the label collection's default attributes.
   */
  const DefaultLabel := Label(
    "", true, "30px sans-serif",
    Color(1.0, 1.0, 1.0, 1.0), Color(0.0, 0.0, 0.0, 1.0), 1.0, Fill,
    VerticalOrigin.Bottom, HorizontalOrigin.Left,
    Vec2(0.0, 0.0), Vec3(0.0, 0.0, 0.0), Vec3(0.0, 0.0, 0.0), 1.0,
    None, None, None, NoReference, [])

  /**
   * AsWritten follows the engine; Corrected is the behaviour its design
   * evidently intends where the two differ.
   */
  datatype Variant = AsWritten | Corrected

  /**
   * A value copy of a label's visual attributes, detached from the store. As
   * written, the style is read from a property the label does not have, so
   * the copy carries no style; corrected, it carries the label's style.
   */
  function CloneLabel(lab: Label, v: Variant): LabelOptions {
    LabelOptions(lab.text, lab.show, lab.font, lab.fillColor, lab.outlineColor,
                 lab.outlineWidth, if v == AsWritten then None else Some(lab.style),
                 lab.verticalOrigin, lab.horizontalOrigin,
                 lab.pixelOffset, lab.eyeOffset, lab.position, lab.scale, lab.id,
                 lab.translucencyByDistance, lab.pixelOffsetScaleByDistance, lab.heightReference)
  }

  /**
   * The label a collection creates from options, given the glyphs its text
   * lays out into; a missing style becomes the default, FILL.
   */
  function LabelFromOptions(o: LabelOptions, glyphs: seq<Glyph>): Label {
    Label(o.text, o.show, o.font, o.fillColor, o.outlineColor, o.outlineWidth,
          if o.style.Some? then o.style.value else DefaultLabel.style,
          o.verticalOrigin, o.horizontalOrigin, o.pixelOffset, o.eyeOffset, o.position, o.scale, o.id,
          o.translucencyByDistance, o.pixelOffsetScaleByDistance, o.heightReference, glyphs)
  }

  /** Corrected, a label created from a label's copy, laid out the same, is that label. */
  lemma CorrectedCloneRoundTrip(lab: Label)
    ensures LabelFromOptions(CloneLabel(lab, Corrected), lab.glyphs) == lab
  {
  }

  /**
   * As written, a label created from a label's copy has the default style:
   * it is the original label exactly when that label has the default style,
   * and agrees with it on every other attribute.
   */
  lemma CloneDropsStyle(lab: Label)
    ensures var copy := LabelFromOptions(CloneLabel(lab, AsWritten), lab.glyphs);
            && copy.style == Fill
            && (copy == lab <==> lab.style == Fill)
            && copy == lab.(style := Fill)
  {
  }

  /** Sum of the billboard widths of the glyphs that have a billboard. */
  function WidthSum(glyphs: seq<Glyph>): real
    decreases |glyphs|
  {
    if glyphs == [] then 0.0
    else
      var last := glyphs[|glyphs| - 1];
      WidthSum(glyphs[..|glyphs| - 1]) + (if last.billboard.Some? then last.billboard.value.width else 0.0)
  }

  /** Larger of an optional maximum (None standing for minus infinity) and a height. */
  function MaxWith(m: Option<real>, h: real): Option<real> {
    if m.None? then Some(h) else Some(Max(m.value, h))
  }

  /**
   * The tallest billboard among the glyphs; None, the source's negative
   * infinity, when no glyph has a billboard.
   */
  function MaxHeight(glyphs: seq<Glyph>): Option<real>
    decreases |glyphs|
  {
    if glyphs == [] then None
    else
      var last := glyphs[|glyphs| - 1];
      var m := MaxHeight(glyphs[..|glyphs| - 1]);
      if last.billboard.Some? then MaxWith(m, last.billboard.value.height) else m
  }

  /**
   * The running maximum is the tallest billboard: undefined exactly when no
   * glyph has a billboard, otherwise at least every billboard's height and
   * equal to one of them.
   */
  lemma {:induction false} MaxHeightIsMaximum(glyphs: seq<Glyph>)
    ensures MaxHeight(glyphs).None? <==> forall i | 0 <= i < |glyphs| :: glyphs[i].billboard.None?
    ensures MaxHeight(glyphs).Some? ==>
              forall i | 0 <= i < |glyphs| && glyphs[i].billboard.Some? ::
                glyphs[i].billboard.value.height <= MaxHeight(glyphs).value
    ensures MaxHeight(glyphs).Some? ==>
              exists i | 0 <= i < |glyphs| ::
                glyphs[i].billboard.Some? && glyphs[i].billboard.value.height == MaxHeight(glyphs).value
  {
    if glyphs != [] {
      var init := glyphs[..|glyphs| - 1];
      MaxHeightIsMaximum(init);
      assert forall i | 0 <= i < |init| :: init[i] == glyphs[i];
      var last := |glyphs| - 1;
      if glyphs[last].billboard.Some? && (MaxHeight(init).None? || MaxHeight(init).value < glyphs[last].billboard.value.height) {
        assert glyphs[last].billboard.value.height == MaxHeight(glyphs).value;
      } else if MaxHeight(init).Some? {
        var i :| 0 <= i < |init| && init[i].billboard.Some? && init[i].billboard.value.height == MaxHeight(init).value;
        assert glyphs[i].billboard.value.height == MaxHeight(glyphs).value;
      }
    }
  }

  /** A label whose glyph run has at least one billboard, so its box height is finite. */
  predicate Measurable(lab: Label) {
    MaxHeight(lab.glyphs).Some?
  }

  /**
   * Places a glyph run of unscaled total width `glyphWidth` and unscaled
   * height `glyphHeight` at `coord` according to the label's origin anchors,
   * and widens it by the pixel range.
   */
  function PlaceBox(lab: Label, coord: Vec2, pixelRange: real, glyphWidth: real, glyphHeight: real): Rect {
    var width := glyphWidth * lab.scale;
    var height := glyphHeight * lab.scale;
    var x := match lab.horizontalOrigin
             case Right => coord.x - width
             case Center => coord.x - width * 0.5
             case Left => coord.x;
    var y := match lab.verticalOrigin
             case Top => coord.y - height
             case Center => coord.y - height * 0.5
             case Bottom => coord.y;
    Rect(x + pixelRange, y + pixelRange, width + pixelRange * 0.5, height + pixelRange * 0.5)
  }

  /** The label's screen footprint at `coord`, widened by the pixel range. */
  function LabelBoundingBox(lab: Label, coord: Vec2, pixelRange: real): Rect
    requires Measurable(lab)
  {
    PlaceBox(lab, coord, pixelRange, WidthSum(lab.glyphs), MaxHeight(lab.glyphs).value)
  }

  /**
   * Where the box sits: its extent, less half the pixel range, is the scaled
   * glyph run (summed billboard widths, tallest billboard); and with the
   * corner moved back by the pixel range, the anchor lies on the run's right
   * edge (RIGHT), middle (CENTER) or left edge (LEFT), and on its top edge
   * (TOP), middle (CENTER) or bottom edge (BOTTOM).
   */
  lemma AnchorPlacement(lab: Label, coord: Vec2, pixelRange: real)
    requires Measurable(lab)
    ensures var r := LabelBoundingBox(lab, coord, pixelRange);
            var w := r.width - pixelRange * 0.5;
            var h := r.height - pixelRange * 0.5;
            var left := r.x - pixelRange;
            var bottom := r.y - pixelRange;
            && w == WidthSum(lab.glyphs) * lab.scale
            && h == MaxHeight(lab.glyphs).value * lab.scale
            && coord.x == (match lab.horizontalOrigin
                           case Right => left + w
                           case Center => left + w * 0.5
                           case Left => left)
            && coord.y == (match lab.verticalOrigin
                           case Top => bottom + h
                           case Center => bottom + h * 0.5
                           case Bottom => bottom)
  {
  }

  /**
   * Computes the bounding box glyph by glyph, as the engine does, with the
   * running height starting at minus infinity (None).
   */
  method GetLabelBoundingBox(lab: Label, coord: Vec2, pixelRange: real) returns (r: Rect)
    requires Measurable(lab)
    ensures r == LabelBoundingBox(lab, coord, pixelRange)
  {
    var width := 0.0;
    var height: Option<real> := None;
    var glyphs := lab.glyphs;
    var i := 0;
    while i < |glyphs|
      invariant 0 <= i <= |glyphs|
      invariant width == WidthSum(glyphs[..i])
      invariant height == MaxHeight(glyphs[..i])
    {
      assert glyphs[..i + 1][..i] == glyphs[..i];
      var billboard := glyphs[i].billboard;
      if billboard.Some? {
        width := width + billboard.value.width;
        height := MaxWith(height, billboard.value.height);
      }
      i := i + 1;
    }
    assert glyphs[..i] == glyphs;
    r := PlaceBox(lab, coord, pixelRange, width, height.value);
  }
}
