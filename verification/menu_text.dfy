/** The menu's bitmap text (tp3): each character of a string becomes a
    sprite cut from a sprite sheet of 15 columns by 8 rows, through a fixed
    table from characters to cell indices. Characters are looked up after
    uppercasing; one the table lacks adds nothing. Texture cloning, the UV
    arithmetic in floating point and the sprite's scale are left to the
    graphics library; a sprite is kept as its cell and its x position. */
module MenuText {
  import opened Wrappers
  import opened JsonValue

  /** Columns and rows of the sprite sheet. */
  const Columns: nat := 15
  const Rows: nat := 8

  /** Horizontal distance between consecutive sprites. */
  const Spacing: real := 1.4

  /** `charMap[key]`: the cell of the sprite sheet that shows `key`, or
      `undefined`. Cells 2, 7 and 60 and those from 64 to 95 are unused. */
  function CharCell(key: char): Option<nat>
  {
    match key
    case ' ' => Some(0) case '!' => Some(1) case '#' => Some(3) case '$' => Some(4)
    case '%' => Some(5) case '&' => Some(6) case '(' => Some(8) case ')' => Some(9)
    case '*' => Some(10) case '+' => Some(11) case ',' => Some(12) case '-' => Some(13)
    case '.' => Some(14) case '/' => Some(15) case '0' => Some(16) case '1' => Some(17)
    case '2' => Some(18) case '3' => Some(19) case '4' => Some(20) case '5' => Some(21)
    case '6' => Some(22) case '7' => Some(23) case '8' => Some(24) case '9' => Some(25)
    case ':' => Some(26) case ';' => Some(27) case '<' => Some(28) case '=' => Some(29)
    case '>' => Some(30) case '?' => Some(31) case '@' => Some(32) case 'A' => Some(33)
    case 'B' => Some(34) case 'C' => Some(35) case 'D' => Some(36) case 'E' => Some(37)
    case 'F' => Some(38) case 'G' => Some(39) case 'H' => Some(40) case 'I' => Some(41)
    case 'J' => Some(42) case 'K' => Some(43) case 'L' => Some(44) case 'M' => Some(45)
    case 'N' => Some(46) case 'O' => Some(47) case 'P' => Some(48) case 'Q' => Some(49)
    case 'R' => Some(50) case 'S' => Some(51) case 'T' => Some(52) case 'U' => Some(53)
    case 'V' => Some(54) case 'W' => Some(55) case 'X' => Some(56) case 'Y' => Some(57)
    case 'Z' => Some(58) case '[' => Some(59) case ']' => Some(61) case '^' => Some(62)
    case '_' => Some(63) case 'Ç' => Some(96)
    case _ => None
  }

  /** The character cell `cell` of the sprite sheet shows: the sheet
      follows the character codes from the space (code 32) to `_` (code 95),
      without `"`, `'` and the backslash, and then `Ç` sits in cell 96. */
  function CellChar(cell: nat): Option<char>
  {
    if cell == 96 then Some('Ç')
    else if cell <= 63 && cell != 2 && cell != 7 && cell != 60 then Some((cell + 32) as char)
    else None
  }

  /** `char.toUpperCase()` where it matters for the table: the ASCII
      letters, `ç`, and the two letters whose capital is an ASCII letter
      (dotless `ı` and long `ſ`). Every other character either is its own
      capital or has a capital that is not in the table. */
  function ToUpper(c: char): (u: char)
    ensures !('a' <= u <= 'z') && u != 'ç' && u != 'ı' && u != 'ſ'
  {
    if 'a' <= c <= 'z' then (c as int - 32) as char
    else if c == 'ç' then 'Ç'
    else if c == 'ı' then 'I'
    else if c == 'ſ' then 'S'
    else c
  }

  /** `charMap[char.toUpperCase()]`: the cell of a character, or
      `undefined`. */
  function GlyphIndex(c: char): Option<nat>
  {
    CharCell(ToUpper(c))
  }

  /** A sprite of the text: its cell on the sheet and its x position. */
  datatype Sprite = Sprite(column: nat, row: nat, x: real)

  /** The sprite for cell `index` placed at `x`: column `index mod 15`,
      row `index div 15`. */
  function SpriteFor(index: nat, x: real): (s: Sprite)
    ensures s.row * Columns + s.column == index && s.column < Columns
  {
    Sprite(index % Columns, index / Columns, x)
  }

  /** The cells that `cell` gives the characters of `text`, skipping the
      characters it has none for, in text order. */
  function GlyphsBy(cell: char -> Option<nat>, text: string): (r: seq<nat>)
    ensures |r| <= |text|
  {
    if text == [] then []
    else
      match cell(text[|text| - 1])
      case None => GlyphsBy(cell, text[..|text| - 1])
      case Some(g) => GlyphsBy(cell, text[..|text| - 1]) + [g]
  }

  /** The cells of the characters of `text` that the table knows, in text
      order. */
  function Glyphs(text: string): (r: seq<nat>)
    ensures |r| <= |text|
  {
    GlyphsBy(GlyphIndex, text)
  }

  /** The sprites for `glyphs`, the k-th one at `x = 1.4 * k`. */
  function Placed(glyphs: seq<nat>): (r: seq<Sprite>)
    ensures |r| == |glyphs|
    ensures forall k :: 0 <= k < |glyphs| ==> r[k] == SpriteFor(glyphs[k], Spacing * k as real)
  {
    seq(|glyphs|, k requires 0 <= k < |glyphs| => SpriteFor(glyphs[k], Spacing * k as real))
  }

  /** The text's glyphs are those of its parts, in order: each character
      contributes on its own. */
  lemma {:induction false} GlyphsAppend(a: string, b: string)
    ensures Glyphs(a + b) == Glyphs(a) + Glyphs(b)
    decreases |b|
  {
    if b == [] {
      assert a + b == a;
    } else {
      var b' := b[..|b| - 1];
      assert (a + b)[..|a + b| - 1] == a + b';
      assert (a + b)[|a + b| - 1] == b[|b| - 1];
      GlyphsAppend(a, b');
    }
  }

  /** A character the table lacks adds no glyph; any other adds exactly
      its own cell. */
  lemma GlyphsOfChar(c: char)
    ensures GlyphIndex(c).None? ==> Glyphs([c]) == []
    ensures GlyphIndex(c).Some? ==> Glyphs([c]) == [GlyphIndex(c).value]
  {
    assert [c][..0] == [];
    assert Glyphs([c]) == GlyphsBy(GlyphIndex, [c]);
  }

  /** Uppercasing the text first changes nothing: a lowercase letter gives
      the glyph of its capital. */
  lemma {:induction false} GlyphsIgnoreCase(text: string)
    ensures Glyphs(text) == Glyphs(seq(|text|, i requires 0 <= i < |text| => ToUpper(text[i])))
  {
    var upper := seq(|text|, i requires 0 <= i < |text| => ToUpper(text[i]));
    if text != [] {
      var init := text[..|text| - 1];
      var upperInit := seq(|init|, i requires 0 <= i < |init| => ToUpper(init[i]));
      assert upper[..|upper| - 1] == upperInit;
      assert ToUpper(ToUpper(text[|text| - 1])) == ToUpper(text[|text| - 1]);
      GlyphsIgnoreCase(init);
    }
  }

  /** The table is one to one: the cell of a character shows that
      character, and every cell lies on the 15 by 8 sheet. */
  lemma CharCellInverse(key: char)
    requires CharCell(key).Some?
    ensures CellChar(CharCell(key).value) == Some(key)
    ensures CharCell(key).value < Columns * Rows
  {
  }

  /** Characters with different capitals have different cells, and every
      cell's row is below 8. */
  lemma GlyphCellsDistinct(c1: char, c2: char)
    requires GlyphIndex(c1).Some? && GlyphIndex(c2).Some?
    requires ToUpper(c1) != ToUpper(c2)
    ensures GlyphIndex(c1) != GlyphIndex(c2)
    ensures GlyphIndex(c1).value < Columns * Rows
    ensures GlyphIndex(c1).value / Columns < Rows
  {
    CharCellInverse(ToUpper(c1));
    CharCellInverse(ToUpper(c2));
  }

  /** The group the sprites are added to. Adding only appends. */
  class SpriteGroup {
    var children: seq<Sprite>

    constructor ()
      ensures children == []
    {
      children := [];
    }

    /** `group.add(sprite)`. */
    method Add(s: Sprite)
      modifies this
      ensures children == old(children) + [s]
    {
      children := children + [s];
    }
  }

  /** One more character of the text adds its cell when `cell` has one,
      and nothing otherwise. */
  lemma GlyphsPrefix(cell: char -> Option<nat>, text: string, i: nat)
    requires i < |text|
    ensures cell(text[i]).None? ==> GlyphsBy(cell, text[..i + 1]) == GlyphsBy(cell, text[..i])
    ensures cell(text[i]).Some? ==>
              GlyphsBy(cell, text[..i + 1]) == GlyphsBy(cell, text[..i]) + [cell(text[i]).value]
  {
    assert text[..i + 1][..i] == text[..i];
  }

  /** One more glyph places one more sprite, after all the others. */
  lemma PlacedSnoc(glyphs: seq<nat>, g: nat)
    ensures Placed(glyphs + [g]) == Placed(glyphs) + [SpriteFor(g, Spacing * |glyphs| as real)]
  {
    var lhs, rhs := Placed(glyphs + [g]), Placed(glyphs) + [SpriteFor(g, Spacing * |glyphs| as real)];
    forall k | 0 <= k < |lhs|
      ensures lhs[k] == rhs[k]
    {
      if k < |glyphs| {
        assert (glyphs + [g])[k] == glyphs[k];
      }
    }
  }

  /** `convertTextToSprite(text, group)`: walks the text, skips characters
      the table lacks, and for every other character adds the sprite of its
      cell at the running offset, which then grows by 1.4. The sprites the
      group already holds are kept. */
  method ConvertTextToSprite(text: string, group: SpriteGroup)
    modifies group
    ensures group.children == old(group.children) + Placed(Glyphs(text))
  {
    PlaceText(GlyphIndex, text, group);
  }

  /** The loop of `convertTextToSprite`, for the character table `cell`. */
  method PlaceText(cell: char -> Option<nat>, text: string, group: SpriteGroup)
    modifies group
    ensures group.children == old(group.children) + Placed(GlyphsBy(cell, text))
  {
    var xOffset: real := 0.0;
    ghost var start := group.children;
    ghost var glyphs: seq<nat> := [];
    var i := 0;
    while i < |text|
      invariant i <= |text|
      invariant glyphs == GlyphsBy(cell, text[..i])
      invariant group.children == start + Placed(glyphs)
      invariant xOffset == Spacing * |glyphs| as real
    {
      GlyphsPrefix(cell, text, i);
      var spriteIndex := cell(text[i]);
      if spriteIndex.Some? {
        PlacedSnoc(glyphs, spriteIndex.value);
        group.Add(SpriteFor(spriteIndex.value, xOffset));
        xOffset := xOffset + Spacing;
        glyphs := glyphs + [spriteIndex.value];
      }
      i := i + 1;
    }
    assert text[..i] == text;
  }
}
