/**
 * `getBMPTextWidth` (demo/zakk/src/util.js): the width of a text drawn in a
 * variable-width bitmap font, the sum over its characters of the glyph width plus the
 * letter spacing.
 */
module TextWidths {
  import opened Wrappers
  import opened JsNumbers
  import opened Fonts

  const NoWidths := "TypeError: Cannot read properties of undefined"

  /** One character's advance: its glyph width, `widths[code - 32]`, plus the spacing; a
      character outside the table has no width and makes the sum NaN. */
  function Advance(widths: seq<int>, spacing: int, c: char): Number {
    Add(At(widths, c as int - 32), Num(spacing))
  }

  /** The advances of the characters, summed left to right from 0. */
  function Width(widths: seq<int>, spacing: int, text: string): Number
    decreases |text|
  {
    if text == [] then Num(0)
    else Add(Width(widths, spacing, text[..|text| - 1]), Advance(widths, spacing, text[|text| - 1]))
  }

  /** `getBMPTextWidth(font, text)`: an empty text is 0 wide; otherwise a font without a
      widths table cannot be indexed. */
  function TextWidth(font: Font, text: string): Result<Number> {
    if text == [] then Ok(Num(0))
    else if font.widths.None? then Err(NoWidths)
    else Ok(Width(font.widths.value, font.spacing, text))
  }

  /** The loop over the characters, accumulating. */
  method GetBMPTextWidth(font: Font, text: string) returns (r: Result<Number>)
    ensures r == TextWidth(font, text)
  {
    var acc := Num(0);
    for i := 0 to |text|
      invariant font.widths.Some? || i == 0
      invariant font.widths.Some? ==> acc == Width(font.widths.value, font.spacing, text[..i])
      invariant font.widths.None? ==> acc == Num(0)
    {
      if font.widths.None? {
        return Err(NoWidths);
      }
      assert text[..i + 1][..i] == text[..i];
      var ci := text[i] as int - 32;
      acc := Add(acc, Add(At(font.widths.value, ci), Num(font.spacing)));
    }
    if text != [] {
      assert text[..|text|] == text;
    }
    return Ok(acc);
  }

  /** The width of a concatenation is the sum of the widths of its parts. */
  lemma {:induction false} WidthConcat(widths: seq<int>, spacing: int, a: string, b: string)
    ensures Width(widths, spacing, a + b) == Add(Width(widths, spacing, a), Width(widths, spacing, b))
    decreases |b|
  {
    if b == [] {
      assert a + b == a;
    } else {
      var init := b[..|b| - 1];
      WidthConcat(widths, spacing, a, init);
      assert (a + b)[..|a + b| - 1] == a + init;
      assert (a + b)[|a + b| - 1] == b[|b| - 1];
    }
  }

  /** Every character has a glyph in the table. */
  predicate InTable(widths: seq<int>, text: string) {
    forall i :: 0 <= i < |text| ==> 0 <= text[i] as int - 32 < |widths|
  }

  /** The sum of the glyph widths of a text whose characters are all in the table. */
  function GlyphSum(widths: seq<int>, text: string): int
    requires InTable(widths, text)
    decreases |text|
  {
    if text == [] then 0
    else GlyphSum(widths, text[..|text| - 1]) + widths[text[|text| - 1] as int - 32]
  }

  /** The width is the length times the spacing plus the glyph widths; one character
      outside the table makes it NaN. */
  lemma {:induction false} WidthClosedForm(widths: seq<int>, spacing: int, text: string)
    ensures InTable(widths, text) ==> Width(widths, spacing, text) == Num(|text| * spacing + GlyphSum(widths, text))
    ensures !InTable(widths, text) ==> Width(widths, spacing, text) == NaN
    decreases |text|
  {
    if text != [] {
      var init := text[..|text| - 1];
      WidthClosedForm(widths, spacing, init);
      assert forall i :: 0 <= i < |init| ==> init[i] == text[i];
      if InTable(widths, text) {
        assert (|text| - 1) * spacing + spacing == |text| * spacing;
      }
    }
  }
}
