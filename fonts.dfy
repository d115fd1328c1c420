/**
 * `myst.Font` (src/myst.js): a bitmap font for the printable ASCII characters 32 to 126.
 * A variable-width font carries a table of 95 glyph widths, built from a map of
 * per-character widths or taken from a list as given.
 */
module Fonts {
  import opened Wrappers

  /** `options.widths`: a map from characters to widths, or a list. */
  datatype Widths = WidthMap(m: map<char, int>) | WidthList(list: seq<int>)

  /** The options the table depends on: the tile size, the spacing and tile offset when
      given, and the widths when given. */
  datatype FontOptions = FontOptions(width: int, height: int, spacing: Option<int>, offset: Option<int>, widths: Option<Widths>)

  datatype Font = Font(width: int, height: int, spacing: int, tileOffset: int, varwidth: bool, widths: Option<seq<int>>)

  /** The number of printable characters, 32 to 126. */
  const Glyphs := 95

  /** A character's width from the map: its entry when that is truthy (not 0), the tile
      width otherwise. */
  function GlyphWidth(m: map<char, int>, width: int, c: char): int {
    if c in m && m[c] != 0 then m[c] else width
  }

  /** The loop that converts a widths map into a table: entry i is the width of character
      32 + i. */
  method WidthTable(m: map<char, int>, width: int) returns (table: seq<int>)
    ensures |table| == Glyphs
    ensures forall i :: 0 <= i < Glyphs ==> table[i] == GlyphWidth(m, width, (32 + i) as char)
  {
    table := [];
    for c := 32 to 127
      invariant |table| == c - 32
      invariant forall i :: 0 <= i < c - 32 ==> table[i] == GlyphWidth(m, width, (32 + i) as char)
    {
      var key := c as char;
      var w := if key in m then m[key] else 0;
      table := table + [if w != 0 then w else width];
    }
  }

  /** The table a map gives, as a value. */
  function TableOf(m: map<char, int>, width: int): (table: seq<int>)
    ensures |table| == Glyphs
  {
    seq(Glyphs, i requires 0 <= i < Glyphs => GlyphWidth(m, width, (32 + i) as char))
  }

  /** The font as the constructor builds it, with the list branch as written: it reads
      `options.width` (no such option) instead of `options.widths`, so the font is marked
      variable-width but has no table. */
  function FontAsWritten(options: FontOptions): Font {
    Font(options.width, options.height,
      options.spacing.GetOr(2), options.offset.GetOr(0),
      options.widths.Some?,
      match options.widths
      case None => None
      case Some(WidthList(_)) => None
      case Some(WidthMap(m)) => Some(TableOf(m, options.width)))
  }

  /** A width list given to the constructor as written is lost. */
  lemma WidthListLost(options: FontOptions)
    requires options.widths.Some? && options.widths.value.WidthList?
    ensures FontAsWritten(options).varwidth && FontAsWritten(options).widths.None?
  {
  }

  /** The font the constructor evidently means to build: a list of widths is used as is. */
  function FontOf(options: FontOptions): (f: Font)
    ensures f.varwidth <==> f.widths.Some?
    ensures options.spacing.None? ==> f.spacing == 2
    ensures options.offset.None? ==> f.tileOffset == 0
    ensures options.widths.Some? && options.widths.value.WidthList? ==> f.widths == Some(options.widths.value.list)
    ensures options.widths.Some? && options.widths.value.WidthMap? ==>
      f.widths.Some? && |f.widths.value| == Glyphs &&
      forall i :: 0 <= i < Glyphs ==> f.widths.value[i] == GlyphWidth(options.widths.value.m, options.width, (32 + i) as char)
  {
    Font(options.width, options.height,
      options.spacing.GetOr(2), options.offset.GetOr(0),
      options.widths.Some?,
      match options.widths
      case None => None
      case Some(WidthList(list)) => Some(list)
      case Some(WidthMap(m)) => Some(TableOf(m, options.width)))
  }

  /** The two constructors agree except on a width list. */
  lemma AsWrittenAgrees(options: FontOptions)
    requires !(options.widths.Some? && options.widths.value.WidthList?)
    ensures FontAsWritten(options) == FontOf(options)
  {
  }

  /** `new Font(options)` */
  method NewFont(options: FontOptions) returns (f: Font)
    ensures f == FontOf(options)
  {
    var widths: Option<seq<int>> := None;
    if options.widths.Some? {
      match options.widths.value
      case WidthList(list) =>
        widths := Some(list);
      case WidthMap(m) =>
        var table := WidthTable(m, options.width);
        assert table == TableOf(m, options.width);
        widths := Some(table);
    }
    var spacing := if options.spacing.None? then 2 else options.spacing.value;
    var offset := if options.offset.None? then 0 else options.offset.value;
    f := Font(options.width, options.height, spacing, offset, options.widths.Some?, widths);
  }
}
