/**
 * A text whose characters each have their own fill colour, outline colour
 * and outline thickness. The per-character values live in three sparse maps
 * keyed by character index; a dirty flag says when the geometry has to be
 * rebuilt, and the rebuild fills the maps for every drawn character.
 */
module MulticolorText {
  import opened Common

  datatype Color = Color(r: int, g: int, b: int, a: int)

  const White: Color := Color(255, 255, 255, 255)
  const Black: Color := Color(0, 0, 0, 255)

  /** The style bit for bold glyphs, as in SFML's text styles. */
  const BoldBit: nat := 1

  /** The font metrics the text uses; the glyph tables are left abstract. */
  datatype Font = Font(
    id: nat,
    advance: (nat, nat, bool, real) -> real,  // code point, character size, bold, outline thickness
    kerning: (nat, nat, nat) -> real,   // previous code point, code point, character size
    lineSpacing: nat -> real)           // character size

  datatype Vec = Vec(x: real, y: real)

  /**
   * The text's transform (position, rotation, scale and origin combined)
   * as the affine map x' = a·x + b·y + c, y' = d·x + e·y + f.
   */
  datatype Affine = Affine(a: real, b: real, c: real, d: real, e: real, f: real)

  /** The transform of a text whose position, rotation, scale and origin are untouched. */
  const Identity: Affine := Affine(1.0, 0.0, 0.0, 0.0, 1.0, 0.0)

  function TransformPoint(t: Affine, p: Vec): Vec
  {
    Vec(t.a * p.x + t.b * p.y + t.c, t.d * p.x + t.e * p.y + t.f)
  }

  /** The untouched transform leaves every point where it is. */
  lemma IdentityKeepsPoints(p: Vec)
    ensures TransformPoint(Identity, p) == p
  {
  }

  /** The stored value at `i`, or the default when `i` has no entry. */
  function Lookup<V>(m: map<nat, V>, i: nat, default: V): V
  {
    if i in m then m[i] else default
  }

  /** `m` with every index of [lo, hi] (inclusive) set to `v`. */
  function Paint<V>(m: map<nat, V>, lo: nat, hi: int, v: V): (r: map<nat, V>)
    ensures forall i :: lo <= i <= hi ==> i in r && r[i] == v
    ensures forall i :: i in m && !(lo <= i <= hi) ==> i in r && r[i] == m[i]
    ensures forall i :: i in r ==> i in m || lo <= i <= hi
    decreases hi - lo
  {
    if hi < lo then m else Paint(m, lo, hi - 1, v)[hi := v]
  }

  /** The end of a colouring range: 0 stands for the last index of a string of `size` characters. */
  function RangeEnd(size: nat, end: nat): (r: int)
    ensures end == 0 ==> r == SizeT(size - 1)
    ensures end != 0 ==> r == end
  {
    if end == 0 then SizeT(size - 1) else end
  }

  /** The for-loop of the range setters: fills [lo, hi] one index at a time. */
  method PaintRange<V>(m: map<nat, V>, lo: nat, hi: nat, v: V) returns (r: map<nat, V>)
    ensures r == Paint(m, lo, hi, v)
  {
    r := m;
    var i := lo;
    while i <= hi
      invariant lo <= i <= Max(lo, hi + 1)
      invariant r == Paint(m, lo, i - 1, v)
      decreases hi + 1 - i
    {
      r := r[i := v];
      i := i + 1;
    }
  }

  /** Painting the same range with the same value twice is painting it once. */
  lemma PaintTwice<V>(m: map<nat, V>, lo: nat, hi: int, v: V)
    ensures Paint(Paint(m, lo, hi, v), lo, hi, v) == Paint(m, lo, hi, v)
  {
  }

  /**
   * The rebuild's fill, one character at a time: every drawn character
   * (not '\r') below |s| gets `d` unless it already has a value.
   */
  function Densify<V>(m: map<nat, V>, s: string, d: V): map<nat, V>
    decreases |s|
  {
    if s == [] then m
    else
      var r := Densify(m, s[..|s| - 1], d);
      if s[|s| - 1] == '\r' then r else InsertAbsent(r, |s| - 1, d)
  }

  /** After the fill every drawn character has an entry, old entries are kept and new ones hold the default. */
  lemma {:induction false} DensifyCovers<V>(m: map<nat, V>, s: string, d: V)
    ensures forall i :: 0 <= i < |s| && s[i] != '\r' ==> i in Densify(m, s, d)
    ensures forall i :: i in m ==> i in Densify(m, s, d) && Densify(m, s, d)[i] == m[i]
    ensures forall i :: i in Densify(m, s, d) && i !in m ==> i < |s| && s[i] != '\r' && Densify(m, s, d)[i] == d
    decreases |s|
  {
    if s != [] {
      var t := s[..|s| - 1];
      DensifyCovers(m, t, d);
      assert forall i :: 0 <= i < |t| ==> t[i] == s[i];
    }
  }

  /** A map that already has an entry for every index of the text is left as it is by the fill. */
  lemma DensifyFull<V>(m: map<nat, V>, s: string, d: V)
    requires forall i :: 0 <= i < |s| ==> i in m
    ensures Densify(m, s, d) == m
  {
    DensifyCovers(m, s, d);
    assert Densify(m, s, d).Keys == m.Keys;
  }

  /**
   * The maps a bounds query leaves behind: getLocalBounds runs the pending
   * geometry rebuild, which fills the map densely; a clean text is untouched.
   */
  function Settled<V>(m: map<nat, V>, s: string, pending: bool, d: V): map<nat, V>
  {
    if pending then Densify(m, s, d) else m
  }

  /** Filling the maps with the defaults changes no lookup, and a second fill changes nothing. */
  lemma DensifyKeepsLookups<V>(m: map<nat, V>, s: string, d: V, i: nat)
    ensures Lookup(Densify(m, s, d), i, d) == Lookup(m, i, d)
    ensures Densify(Densify(m, s, d), s, d) == Densify(m, s, d)
  {
    var a := Densify(m, s, d);
    DensifyCovers(m, s, d);
    DensifyCovers(a, s, d);
    var b := Densify(a, s, d);
    assert b.Keys == a.Keys;
    assert forall k :: k in a ==> b[k] == a[k];
  }

  /** The pen while the characters are replayed: position and previous code point. */
  datatype Pen = Pen(pos: Vec, prev: nat)

  /** The per-text constants of the replay. */
  datatype Layout = Layout(font: Font, size: nat, bold: bool, whitespace: real, letterSpacing: real, lineSpacing: real)

  function MakeLayout(font: Font, size: nat, style: nat, letterFactor: real, lineFactor: real): (l: Layout)
    ensures l.whitespace == font.advance(' ' as nat, size, l.bold, 0.0) + l.letterSpacing
    ensures l.letterSpacing == font.advance(' ' as nat, size, l.bold, 0.0) / 3.0 * (letterFactor - 1.0)
  {
    var bold := style % 2 == BoldBit;
    var ws := font.advance(' ' as nat, size, bold, 0.0);
    var letterSpacing := ws / 3.0 * (letterFactor - 1.0);
    Layout(font, size, bold, ws + letterSpacing, letterSpacing, font.lineSpacing(size) * lineFactor)
  }

  /** The pen's x after one character that is not a line break: kerning first, then its own advance. */
  function AdvanceX(l: Layout, p: Pen, c: char): real
  {
    var x := p.pos.x + l.font.kerning(p.prev, c as nat, l.size);
    if c == ' ' then x + l.whitespace
    else if c == '\t' then x + l.whitespace * 4.0
    else x + l.font.advance(c as nat, l.size, l.bold, 0.0) + l.letterSpacing
  }

  /** One character of the replay: a line break starts the next line, anything else advances x. */
  function PenStep(l: Layout, p: Pen, c: char): (q: Pen)
  {
    if c == '\n' then Pen(Vec(0.0, p.pos.y + l.lineSpacing), c as nat)
    else Pen(Vec(AdvanceX(l, p, c), p.pos.y), c as nat)
  }

  /** The pen after `s`, starting at the origin with previous code point 0. */
  function Replay(l: Layout, s: string): Pen
  {
    if s == [] then Pen(Vec(0.0, 0.0), 0) else PenStep(l, Replay(l, s[..|s| - 1]), s[|s| - 1])
  }

  /** n line spacings stacked up. */
  function Lines(n: nat, spacing: real): real
  {
    if n == 0 then 0.0 else Lines(n - 1, spacing) + spacing
  }

  lemma {:induction false} LinesIsProduct(n: nat, spacing: real)
    ensures Lines(n, spacing) == n as real * spacing
  {
    if n > 0 {
      LinesIsProduct(n - 1, spacing);
      assert n as real * spacing == (n - 1) as real * spacing + spacing;
    }
  }

  /** The pen's height is one line spacing per line break replayed. */
  lemma {:induction false} ReplayHeight(l: Layout, s: string)
    ensures Replay(l, s).pos.y == Lines(Count(s, '\n'), l.lineSpacing)
  {
    if s == [] {
      assert Count(s, '\n') == 0;
    } else {
      ReplayHeight(l, s[..|s| - 1]);
      CountLast(s);
    }
  }

  lemma CountLast(s: string)
    requires s != []
    ensures Count(s, '\n') == Count(s[..|s| - 1], '\n') + if s[|s| - 1] == '\n' then 1 else 0
  {
    var init, c := s[..|s| - 1], s[|s| - 1];
    assert s == init + [c];
    CountAppend(init, [c], '\n');
    assert [c][1..] == [];
  }

  /** Right after a line break the pen is back at the left edge. */
  lemma ReplayAfterNewline(l: Layout, s: string)
    ensures Replay(l, s + ['\n']).pos.x == 0.0
  {
    assert (s + ['\n'])[..|s|] == s;
  }

  /**
   * The outline thickness map after `setOutlineThickness(1)` on a text of
   * `n` characters: every index of the text holds 1.
   */
  function UnitOutline(n: nat): (m: map<nat, real>)
    ensures forall i: nat :: i in m <==> i < n
    ensures forall i :: i in m ==> m[i] == 1.0
  {
    Paint(map[], 0, n - 1, 1.0)
  }

  /** An empty text carries no outline entry. */
  lemma UnitOutlineEmpty()
    ensures UnitOutline(0) == map[]
  {
    assert UnitOutline(0).Keys == {};
  }

  /**
   * The advance of character `c` at index `i` while the wrap loop runs:
   * the glyph is looked up with the text's size, not bold, and the outline
   * thickness the text holds at index `i`.
   */
  function GlyphAdvance(f: Font, size: nat, thickness: map<nat, real>): (char, nat) -> real
  {
    (c: char, i: nat) => f.advance(c as nat, size, false, Lookup(thickness, i, 0.0))
  }

  class MulticolorText {
    var str: string
    var font: Option<Font>
    var characterSize: nat
    var letterSpacingFactor: real
    var lineSpacingFactor: real
    var style: nat
    var geometryNeedUpdate: bool
    var fillColors: map<nat, Color>
    var outlineColors: map<nat, Color>
    var outlineThicknesses: map<nat, real>
    var transform: Affine

    /** An empty text without a font. */
    constructor ()
      ensures str == [] && font == None && characterSize == 30 && style == 0
      ensures letterSpacingFactor == 1.0 && lineSpacingFactor == 1.0
      ensures !geometryNeedUpdate && transform == Identity
      ensures fillColors == map[] && outlineColors == map[] && outlineThicknesses == map[]
    {
      transform := Identity;
      str, font, characterSize, style := [], None, 30, 0;
      letterSpacingFactor, lineSpacingFactor := 1.0, 1.0;
      geometryNeedUpdate := false;
      fillColors, outlineColors, outlineThicknesses := map[], map[], map[];
    }

    /** A text with a string and a font, whose geometry is still to be built. */
    constructor WithString(s: string, f: Font, size: nat)
      ensures str == s && font == Some(f) && characterSize == size && style == 0
      ensures letterSpacingFactor == 1.0 && lineSpacingFactor == 1.0
      ensures geometryNeedUpdate && transform == Identity
      ensures fillColors == map[] && outlineColors == map[] && outlineThicknesses == map[]
    {
      transform := Identity;
      str, font, characterSize, style := s, Some(f), size, 0;
      letterSpacingFactor, lineSpacingFactor := 1.0, 1.0;
      geometryNeedUpdate := true;
      fillColors, outlineColors, outlineThicknesses := map[], map[], map[];
    }

    /** A new string invalidates every per-character value; the same string changes nothing. */
    method SetString(s: string)
      modifies this`str, this`geometryNeedUpdate, this`fillColors, this`outlineColors, this`outlineThicknesses
      ensures str == s
      ensures old(str) != s ==>
        fillColors == map[] && outlineColors == map[] && outlineThicknesses == map[] && geometryNeedUpdate
      ensures old(str) == s ==>
        fillColors == old(fillColors) && outlineColors == old(outlineColors)
        && outlineThicknesses == old(outlineThicknesses) && geometryNeedUpdate == old(geometryNeedUpdate)
    {
      if str != s {
        fillColors := map[];
        outlineColors := map[];
        outlineThicknesses := map[];
        str := s;
        geometryNeedUpdate := true;
      }
    }

    /** Fonts are compared by identity, as the source compares pointers. */
    method SetFont(f: Font)
      modifies this`font, this`geometryNeedUpdate
      ensures font.Some? && font.value.id == f.id
      ensures old(font).Some? && old(font).value.id == f.id ==>
        font == old(font) && geometryNeedUpdate == old(geometryNeedUpdate)
      ensures !(old(font).Some? && old(font).value.id == f.id) ==> font == Some(f) && geometryNeedUpdate
    {
      if !(font.Some? && font.value.id == f.id) {
        font := Some(f);
        geometryNeedUpdate := true;
      }
    }

    method SetCharacterSize(size: nat)
      modifies this`characterSize, this`geometryNeedUpdate
      ensures characterSize == size
      ensures geometryNeedUpdate == (old(geometryNeedUpdate) || old(characterSize) != size)
    {
      if characterSize != size {
        characterSize := size;
        geometryNeedUpdate := true;
      }
    }

    method SetLetterSpacing(factor: real)
      modifies this`letterSpacingFactor, this`geometryNeedUpdate
      ensures letterSpacingFactor == factor
      ensures geometryNeedUpdate == (old(geometryNeedUpdate) || old(letterSpacingFactor) != factor)
    {
      if letterSpacingFactor != factor {
        letterSpacingFactor := factor;
        geometryNeedUpdate := true;
      }
    }

    method SetLineSpacing(factor: real)
      modifies this`lineSpacingFactor, this`geometryNeedUpdate
      ensures lineSpacingFactor == factor
      ensures geometryNeedUpdate == (old(geometryNeedUpdate) || old(lineSpacingFactor) != factor)
    {
      if lineSpacingFactor != factor {
        lineSpacingFactor := factor;
        geometryNeedUpdate := true;
      }
    }

    method SetStyle(s: nat)
      modifies this`style, this`geometryNeedUpdate
      ensures style == s
      ensures geometryNeedUpdate == (old(geometryNeedUpdate) || old(style) != s)
    {
      if style != s {
        style := s;
        geometryNeedUpdate := true;
      }
    }

    /**
     * Colours [start, end]; an end of 0 means the last character. The
     * size_t loop never ends when the end is SIZE_MAX, which is also what
     * an end of 0 on an empty string becomes.
     */
    method SetFillColor(c: Color, start: nat, end: nat)
      requires start < SizeModulus && RangeEnd(|str|, end) < SizeModulus - 1
      modifies this`fillColors, this`geometryNeedUpdate
      ensures fillColors == Paint(old(fillColors), start, RangeEnd(|str|, end), c)
      ensures geometryNeedUpdate
    {
      var last := RangeEnd(|str|, end);
      fillColors := PaintRange(fillColors, start, last, c);
      geometryNeedUpdate := true;
    }

    method SetOutlineColor(c: Color, start: nat, end: nat)
      requires start < SizeModulus && RangeEnd(|str|, end) < SizeModulus - 1
      modifies this`outlineColors, this`geometryNeedUpdate
      ensures outlineColors == Paint(old(outlineColors), start, RangeEnd(|str|, end), c)
      ensures geometryNeedUpdate
    {
      var last := RangeEnd(|str|, end);
      outlineColors := PaintRange(outlineColors, start, last, c);
      geometryNeedUpdate := true;
    }

    /** Like the colour setters, but nothing at all happens on an empty string. */
    method SetOutlineThickness(t: real, start: nat, end: nat)
      requires start < SizeModulus && (str != [] ==> RangeEnd(|str|, end) < SizeModulus - 1)
      modifies this`outlineThicknesses, this`geometryNeedUpdate
      ensures str == [] ==> outlineThicknesses == old(outlineThicknesses) && geometryNeedUpdate == old(geometryNeedUpdate)
      ensures str != [] ==>
        outlineThicknesses == Paint(old(outlineThicknesses), start, RangeEnd(|str|, end), t) && geometryNeedUpdate
    {
      if str == [] {
        return;
      }
      var last := RangeEnd(|str|, end);
      outlineThicknesses := PaintRange(outlineThicknesses, start, last, t);
      geometryNeedUpdate := true;
    }

    function GetFillColor(i: nat): (c: Color)
      reads this
      ensures c == Lookup(fillColors, i, White)
    {
      if fillColors == map[] || i !in fillColors then White else fillColors[i]
    }

    function GetOutlineColor(i: nat): (c: Color)
      reads this
      ensures c == Lookup(outlineColors, i, Black)
    {
      if outlineColors == map[] || i !in outlineColors then Black else outlineColors[i]
    }

    function GetOutlineThickness(i: nat): (t: real)
      reads this
      ensures t == Lookup(outlineThicknesses, i, 0.0)
    {
      if outlineThicknesses == map[] || i !in outlineThicknesses then 0.0 else outlineThicknesses[i]
    }

    /**
     * The map-filling part of the geometry rebuild: runs only with a font
     * and a pending update, clears the flag and gives every drawn character
     * an entry in each map. Building the vertex arrays is not modelled.
     */
    method EnsureGeometryUpdate()
      modifies this`geometryNeedUpdate, this`fillColors, this`outlineColors, this`outlineThicknesses
      ensures old(font).None? || !old(geometryNeedUpdate) ==>
        geometryNeedUpdate == old(geometryNeedUpdate) && fillColors == old(fillColors)
        && outlineColors == old(outlineColors) && outlineThicknesses == old(outlineThicknesses)
      ensures old(font).Some? && old(geometryNeedUpdate) ==>
        !geometryNeedUpdate
        && fillColors == Densify(old(fillColors), str, White)
        && outlineColors == Densify(old(outlineColors), str, Black)
        && outlineThicknesses == Densify(old(outlineThicknesses), str, 0.0)
    {
      if font.None? {
        return;
      }
      if !geometryNeedUpdate {
        return;
      }
      geometryNeedUpdate := false;
      if str == [] {
        assert Densify(fillColors, str, White) == fillColors;
        assert Densify(outlineColors, str, Black) == outlineColors;
        assert Densify(outlineThicknesses, str, 0.0) == outlineThicknesses;
        return;
      }
      var i := 0;
      while i < |str|
        invariant 0 <= i <= |str| && !geometryNeedUpdate
        invariant fillColors == Densify(old(fillColors), str[..i], White)
        invariant outlineColors == Densify(old(outlineColors), str[..i], Black)
        invariant outlineThicknesses == Densify(old(outlineThicknesses), str[..i], 0.0)
      {
        fillColors := FillDefault(fillColors, str, i, White, old(fillColors));
        outlineColors := FillDefault(outlineColors, str, i, Black, old(outlineColors));
        outlineThicknesses := FillDefault(outlineThicknesses, str, i, 0.0, old(outlineThicknesses));
        i := i + 1;
      }
      assert str[..i] == str;
    }

    /**
     * The global position of character `index`: the origin without a font,
     * else the pen after the characters before `index` (clamped to the
     * string's length), mapped through the text's transform.
     */
    method FindCharacterPos(index: nat) returns (p: Vec)
      ensures font.None? ==> p == Vec(0.0, 0.0)
      ensures font.Some? ==>
        p == TransformPoint(transform,
               Replay(MakeLayout(font.value, characterSize, style, letterSpacingFactor, lineSpacingFactor),
                      str[..Min(index, |str|)]).pos)
      ensures font.Some? && transform == Identity ==>
        p == Replay(MakeLayout(font.value, characterSize, style, letterSpacingFactor, lineSpacingFactor),
                    str[..Min(index, |str|)]).pos
    {
      if font.None? {
        return Vec(0.0, 0.0);
      }
      var n := index;
      if n > |str| {
        n := |str|;
      }
      var layout := MakeLayout(font.value, characterSize, style, letterSpacingFactor, lineSpacingFactor);
      var x, y := 0.0, 0.0;
      var prevChar: nat := 0;
      var i := 0;
      while i < n
        invariant 0 <= i <= n <= |str|
        invariant Replay(layout, str[..i]) == Pen(Vec(x, y), prevChar)
      {
        var curChar := str[i];
        assert str[..i + 1][..i] == str[..i];
        x := x + font.value.kerning(prevChar, curChar as nat, characterSize);
        prevChar := curChar as nat;
        if curChar == ' ' {
          x := x + layout.whitespace;
        } else if curChar == '\t' {
          x := x + layout.whitespace * 4.0;
        } else if curChar == '\n' {
          y := y + layout.lineSpacing;
          x := 0.0;
        } else {
          x := x + font.value.advance(curChar as nat, characterSize, layout.bold, 0.0) + layout.letterSpacing;
        }
        i := i + 1;
      }
      IdentityKeepsPoints(Vec(x, y));
      return TransformPoint(transform, Vec(x, y));
    }
  }

  /**
   * The two calls the message widgets make to replace their text: store the
   * string, then give every character outline thickness 1.
   */
  method ResetText(t: MulticolorText, s: string)
    requires t.outlineThicknesses == UnitOutline(|t.str|) && |s| < SizeModulus
    modifies t`str, t`geometryNeedUpdate, t`fillColors, t`outlineColors, t`outlineThicknesses
    ensures t.str == s && t.outlineThicknesses == UnitOutline(|s|)
    ensures t.fillColors == if old(t.str) != s then map[] else old(t.fillColors)
    ensures t.outlineColors == if old(t.str) != s then map[] else old(t.outlineColors)
    ensures t.geometryNeedUpdate == (old(t.geometryNeedUpdate) || s != [] || old(t.str) != s)
  {
    if t.str == s {
      PaintTwice(map[], 0, |s| - 1, 1.0);
    }
    t.SetString(s);
    if s != [] {
      assert RangeEnd(|s|, 0) == |s| - 1;
    }
    t.SetOutlineThickness(1.0, 0, 0);
  }

  /** One iteration of the rebuild loop for one map: character i gets the default if it is drawn and absent. */
  method FillDefault<V>(m: map<nat, V>, s: string, i: nat, d: V, ghost m0: map<nat, V>) returns (r: map<nat, V>)
    requires i < |s| && m == Densify(m0, s[..i], d)
    ensures r == Densify(m0, s[..i + 1], d)
  {
    DensifyStep(m0, s, i, d);
    r := m;
    if s[i] != '\r' {
      r := InsertAbsent(r, i, d);
    }
  }

  lemma DensifyStep<V>(m: map<nat, V>, s: string, i: nat, d: V)
    requires i < |s|
    ensures Densify(m, s[..i + 1], d) ==
      if s[i] == '\r' then Densify(m, s[..i], d) else InsertAbsent(Densify(m, s[..i], d), i, d)
  {
    assert s[..i + 1][..i] == s[..i];
  }
}
