/**
 * One message of the graphical info box: a multicolour text made of a
 * prefix, the message's title, a suffix, a space and the message's content.
 * Each of the four parts has its own fill colour; line breaks inside a part
 * (from wrapping) are skipped over when the colour ranges are computed.
 */
module GraphicsInfoBoxMessage {
  import opened Common
  import opened TextLayout
  import opened MulticolorText

  /** The fill colours of the four parts. */
  datatype Palette = Palette(prefix: Color, title: Color, suffix: Color, content: Color)

  /** The inclusive index ranges [begin, end] the four parts are coloured over. */
  datatype Segments = Segments(
    prefixBegin: nat, prefixEnd: nat,
    titleBegin: nat, titleEnd: nat,
    suffixBegin: nat, suffixEnd: nat,
    contentBegin: nat, contentEnd: nat)

  const DefaultTitleColor: Color := Color(100, 100, 100, 255)

  /** The text of a message before wrapping. */
  function RawString(prefix: string, title: string, suffix: string, content: string): string
  {
    prefix + title + suffix + " " + content
  }

  /** The raw text is one character longer than its parts together, for the space. */
  lemma RawStringLength(prefix: string, title: string, suffix: string, content: string)
    ensures |RawString(prefix, title, suffix, content)| == |prefix| + |title| + |suffix| + 1 + |content|
  {
  }

  /** Where each part sits in the raw text. */
  lemma RawStringLayout(prefix: string, title: string, suffix: string, content: string)
    ensures var r, p, t, s := RawString(prefix, title, suffix, content), |prefix|, |title|, |suffix|;
      |r| == p + t + s + 1 + |content|
      && r[..p] == prefix && r[p..p + t] == title && r[p + t..p + t + s] == suffix
      && r[p + t + s] == ' ' && r[p + t + s + 1..] == content
  {
    var r, p, t, s := RawString(prefix, title, suffix, content), |prefix|, |title|, |suffix|;
    assert r == prefix + (title + (suffix + ([' '] + content)));
  }

  /**
   * The number of line breaks the scan of getNumberOfLines(start, end) meets.
   * It walks the text from `t`; only characters other than line breaks
   * advance the counter `index`; it stops once `index` passes `end` or the
   * text ends.
   */
  function BreaksScanned(s: string, t: nat, index: nat, end: nat): (n: nat)
    ensures t <= |s| ==> n <= |s| - t
    ensures t >= |s| ==> n == 0
    decreases |s| - t
  {
    if index <= end && t < |s| then
      if s[t] == '\n' then 1 + BreaksScanned(s, t + 1, index, end)
      else BreaksScanned(s, t + 1, index + 1, end)
    else 0
  }

  /** Without line breaks the scan meets none. */
  lemma {:induction false} BreaksScannedNone(s: string, t: nat, index: nat, end: nat)
    requires NoBreaks(s)
    ensures BreaksScanned(s, t, index, end) == 0
    decreases |s| - t
  {
    if index <= end && t < |s| {
      BreaksScannedNone(s, t + 1, index + 1, end);
    }
  }

  /** A scan whose window reaches the end of the text meets every line break after `t`. */
  lemma {:induction false} BreaksScannedWhole(s: string, t: nat, index: nat, end: nat)
    requires index <= t <= |s| && |s| <= end + 1
    ensures BreaksScanned(s, t, index, end) == Count(s[t..], '\n')
    decreases |s| - t
  {
    if t < |s| {
      assert s[t..][1..] == s[t + 1..];
      if s[t] == '\n' {
        BreaksScannedWhole(s, t + 1, index, end);
      } else {
        BreaksScannedWhole(s, t + 1, index + 1, end);
      }
    }
  }

  /** The end of a part that starts at `begin`, moved past the line breaks inside it. */
  function SegmentEnd(s: string, begin: nat, length: nat): (r: nat)
    ensures begin <= r <= begin + length + |s|
  {
    var end := begin + (if length > 1 then length - 1 else 0);
    end + BreaksScanned(s, begin, begin, end)
  }

  /** The next part starts right after the previous one, or on its end when it was empty. */
  function NextBegin(end: nat, length: nat): nat
  {
    if length > 0 then end + 1 else end
  }

  /** The ranges setTextString computes for parts of the given lengths in the text `s`. */
  function SegmentsOf(s: string, prefixLength: nat, titleLength: nat, suffixLength: nat, contentLength: nat): Segments
  {
    var prefixEnd := SegmentEnd(s, 0, prefixLength);
    var titleBegin := NextBegin(prefixEnd, prefixLength);
    var titleEnd := SegmentEnd(s, titleBegin, titleLength);
    var suffixBegin := NextBegin(titleEnd, titleLength);
    var suffixEnd := SegmentEnd(s, suffixBegin, suffixLength);
    var contentBegin := NextBegin(suffixEnd, suffixLength) + 1;
    var contentEnd := SegmentEnd(s, contentBegin, contentLength);
    Segments(0, prefixEnd, titleBegin, titleEnd, suffixBegin, suffixEnd, contentBegin, contentEnd)
  }

  /** Every range bound is a size_t, and none of the ranges runs to SIZE_MAX on a text of `n` characters. */
  predicate SegmentsFit(g: Segments, n: nat)
  {
    0 < n < SizeModulus
    && g.prefixBegin < SizeModulus - 1 && g.prefixEnd < SizeModulus - 1
    && g.titleBegin < SizeModulus - 1 && g.titleEnd < SizeModulus - 1
    && g.suffixBegin < SizeModulus - 1 && g.suffixEnd < SizeModulus - 1
    && g.contentBegin < SizeModulus - 1 && g.contentEnd < SizeModulus - 1
  }

  /** The ranges of a text and parts of bounded length fit. */
  lemma SegmentsBounded(s: string, prefixLength: nat, titleLength: nat, suffixLength: nat, contentLength: nat)
    requires 0 < |s| < 2 * LengthBound
    requires prefixLength + titleLength + suffixLength + contentLength < LengthBound
    ensures SegmentsFit(SegmentsOf(s, prefixLength, titleLength, suffixLength, contentLength), |s|)
  {
    var g := SegmentsOf(s, prefixLength, titleLength, suffixLength, contentLength);
    assert g.contentEnd <= prefixLength + titleLength + suffixLength + contentLength + 4 + 4 * |s|;
  }

  /** The fill colours after the four range setters, applied in order so that a later range wins. */
  function MessageColours(base: map<nat, Color>, s: string, g: Segments, p: Palette): map<nat, Color>
  {
    var m1 := Paint(base, g.prefixBegin, RangeEnd(|s|, g.prefixEnd), p.prefix);
    var m2 := Paint(m1, g.titleBegin, RangeEnd(|s|, g.titleEnd), p.title);
    var m3 := Paint(m2, g.suffixBegin, RangeEnd(|s|, g.suffixEnd), p.suffix);
    Paint(m3, g.contentBegin, RangeEnd(|s|, g.contentEnd), p.content)
  }

  /**
   * On a text without line breaks the parts lie back to back, and the
   * content starts after the suffix and the separating space.
   */
  lemma FlatSegments(s: string, prefixLength: nat, titleLength: nat, suffixLength: nat, contentLength: nat)
    requires NoBreaks(s)
    ensures var p, t, x := prefixLength, titleLength, suffixLength;
      SegmentsOf(s, p, t, x, contentLength) ==
        Segments(0, Max(p - 1, 0), p, p + Max(t - 1, 0), p + t, p + t + Max(x - 1, 0),
                 p + t + x + 1, p + t + x + 1 + Max(contentLength - 1, 0))
  {
    forall begin: nat, end: nat {
      BreaksScannedNone(s, begin, begin, end);
    }
  }

  /**
   * On a text without line breaks every character of a part ends up in
   * that part's colour, whatever the map held before.
   */
  lemma FlatMessageColours(base: map<nat, Color>, s: string, p: Palette,
                           prefixLength: nat, titleLength: nat, suffixLength: nat, contentLength: nat)
    requires NoBreaks(s) && |s| == prefixLength + titleLength + suffixLength + 1 + contentLength
    requires |s| <= SizeModulus
    ensures var m := MessageColours(base, s, SegmentsOf(s, prefixLength, titleLength, suffixLength, contentLength), p);
      (forall i :: 0 <= i < prefixLength ==> Lookup(m, i, White) == p.prefix)
      && (forall i :: prefixLength <= i < prefixLength + titleLength ==> Lookup(m, i, White) == p.title)
      && (forall i :: prefixLength + titleLength <= i < prefixLength + titleLength + suffixLength ==>
            Lookup(m, i, White) == p.suffix)
      && (forall i :: prefixLength + titleLength + suffixLength + 1 <= i < |s| ==> Lookup(m, i, White) == p.content)
  {
    var pl, tl, sl := prefixLength, titleLength, suffixLength;
    var g := SegmentsOf(s, pl, tl, sl, contentLength);
    FlatSegments(s, pl, tl, sl, contentLength);
    var m1 := Paint(base, g.prefixBegin, RangeEnd(|s|, g.prefixEnd), p.prefix);
    var m2 := Paint(m1, g.titleBegin, RangeEnd(|s|, g.titleEnd), p.title);
    var m3 := Paint(m2, g.suffixBegin, RangeEnd(|s|, g.suffixEnd), p.suffix);
    var m := Paint(m3, g.contentBegin, RangeEnd(|s|, g.contentEnd), p.content);
    // Each part's range reaches its last character; a range ending at 0 reaches the end of the text.
    assert RangeEnd(|s|, g.prefixEnd) + 1 >= pl;
    assert RangeEnd(|s|, g.titleEnd) + 1 >= pl + tl;
    assert RangeEnd(|s|, g.suffixEnd) + 1 >= pl + tl + sl;
    assert RangeEnd(|s|, g.contentEnd) + 1 >= |s|;
    assert g.titleBegin == pl && g.suffixBegin == pl + tl && g.contentBegin == pl + tl + sl + 1;
    forall i | 0 <= i < pl ensures Lookup(m, i, White) == p.prefix {
      assert i in m1 && m1[i] == p.prefix;
    }
    forall i | pl <= i < pl + tl ensures Lookup(m, i, White) == p.title {
      assert i in m2 && m2[i] == p.title;
    }
    forall i | pl + tl <= i < pl + tl + sl ensures Lookup(m, i, White) == p.suffix {
      assert i in m3 && m3[i] == p.suffix;
    }
  }

  class InfoBoxMessage {
    const text: MulticolorText
    var title: string
    var content: string
    var titleColor: Color
    var contentColor: Color
    var prefix: string
    var suffix: string
    var prefixColor: Color
    var suffixColor: Color

    /** getRawString */
    function Raw(): string
      reads this
    {
      RawString(prefix, title, suffix, content)
    }

    function Colours(): Palette
      reads this
    {
      Palette(prefixColor, titleColor, suffixColor, contentColor)
    }

    /** The fill colours setTextString(s) leaves, starting from `before` holding `fill`. */
    function Recoloured(before: string, fill: map<nat, Color>, s: string): map<nat, Color>
      reads this
    {
      MessageColours(if before != s then map[] else fill, s, SegmentsOf(s, |prefix|, |title|, |suffix|, |content|), Colours())
    }

    /** What holds of the text object between calls: a font, outline 1 on every character, a bounded length. */
    predicate TextInvariant()
      reads this, text
    {
      text.font.Some? && text.outlineThicknesses == UnitOutline(|text.str|) && |text.str| < 2 * LengthBound
    }

    /** The message parts hold no line break and the text is never empty. */
    predicate Valid()
      reads this, text
    {
      TextInvariant() && text.str != [] && NoBreaks(title) && NoBreaks(content) && |Raw()| < LengthBound
    }

    /** The message with the default affixes (none before, ':' after) and colours, unwrapped. */
    constructor (msg: Message, f: Font, size: nat)
      requires |msg.title| + |msg.content| + 2 < LengthBound
      ensures Valid()
      ensures title == Remove(msg.title, {'\n'}) && content == Remove(msg.content, {'\n'})
      ensures prefix == "" && suffix == ":" && prefixColor == White && suffixColor == White
      ensures titleColor == DefaultTitleColor && contentColor == White
      ensures text.str == Raw() && text.font == Some(f) && text.characterSize == size
      ensures text.fillColors == Recoloured("", map[], Raw())
    {
      text := new MulticolorText.WithString("", f, size);
      titleColor, contentColor := DefaultTitleColor, White;
      prefix, suffix := "", ":";
      prefixColor, suffixColor := White, White;
      var t := RemoveNewlines(msg.title);
      var c := RemoveNewlines(msg.content);
      title, content := t, c;
      new;
      UnitOutlineEmpty();
      RawStringLength(prefix, title, suffix, content);
      SetTextString(Raw());
    }

    /**
     * getNumberOfLines(start, end): one plus the line breaks met while
     * walking from `start` over end - start + 1 other characters.
     */
    method GetNumberOfLines(start: nat, end: nat) returns (count: nat)
      ensures count == 1 + BreaksScanned(text.str, start, start, end)
    {
      var s := text.str;
      count := 1;
      var trueIndex: nat := start;
      var index: nat := start;
      while index <= end && trueIndex < |s|
        invariant count + BreaksScanned(s, trueIndex, index, end) == 1 + BreaksScanned(s, start, start, end)
        decreases |s| - trueIndex
      {
        if s[trueIndex] == '\n' {
          count := count + 1;
        } else {
          index := index + 1;
        }
        trueIndex := trueIndex + 1;
      }
    }

    /** getNumberOfLines(): one plus every line break of the text; 1 for an empty text. */
    method LineCount() returns (count: nat)
      requires |text.str| <= SizeModulus
      ensures count == 1 + Count(text.str, '\n')
    {
      var s := text.str;
      count := GetNumberOfLines(0, SizeT(|s| - 1));
      BreaksScannedWhole(s, 0, 0, SizeT(|s| - 1));
      assert s[0..] == s;
    }

    /**
     * setTextString: store the text, give it outline 1, then colour the
     * prefix, title, suffix and content ranges in that order.
     */
    method SetTextString(s: string)
      requires TextInvariant() && s != [] && |s| < 2 * LengthBound && |Raw()| < LengthBound
      modifies text`str, text`geometryNeedUpdate, text`fillColors, text`outlineColors, text`outlineThicknesses
      ensures TextInvariant() && text.str == s && text.geometryNeedUpdate
      ensures text.fillColors == Recoloured(old(text.str), old(text.fillColors), s)
      ensures text.outlineColors == if old(text.str) != s then map[] else old(text.outlineColors)
    {
      ResetText(text, s);
      var g := ComputeSegments();
      SegmentsBounded(s, |prefix|, |title|, |suffix|, |content|);
      PaintSegments(g);
    }

    /**
     * The index arithmetic of setTextString: each part starts one past the
     * end of the previous non-empty part, the content one further for the
     * space after the suffix.
     */
    method ComputeSegments() returns (g: Segments)
      ensures g == SegmentsOf(text.str, |prefix|, |title|, |suffix|, |content|)
    {
      var prefixLength, suffixLength := |prefix|, |suffix|;
      var titleLength, contentLength := |title|, |content|;

      var prefixBegin := 0;
      var prefixEnd := SegmentEndAt(prefixBegin, prefixLength);

      var titleBegin := prefixEnd;
      if prefixLength > 0 {
        titleBegin := titleBegin + 1;
      }
      assert titleBegin == NextBegin(prefixEnd, prefixLength);
      var titleEnd := SegmentEndAt(titleBegin, titleLength);

      var suffixBegin := titleEnd;
      if titleLength > 0 {
        suffixBegin := suffixBegin + 1;
      }
      assert suffixBegin == NextBegin(titleEnd, titleLength);
      var suffixEnd := SegmentEndAt(suffixBegin, suffixLength);

      var contentBegin := suffixEnd + 1;
      if suffixLength > 0 {
        contentBegin := contentBegin + 1;
      }
      assert contentBegin == NextBegin(suffixEnd, suffixLength) + 1;
      var contentEnd := SegmentEndAt(contentBegin, contentLength);

      g := Segments(prefixBegin, prefixEnd, titleBegin, titleEnd, suffixBegin, suffixEnd, contentBegin, contentEnd);
    }

    /**
     * The end index of one part, as setTextString computes it: the part's
     * last index counted from `begin`, moved past the line breaks inside it.
     */
    method SegmentEndAt(begin: nat, length: nat) returns (end: nat)
      ensures end == SegmentEnd(text.str, begin, length)
    {
      end := begin;
      if length > 1 {
        end := end + (length - 1);
      }
      var offset := GetNumberOfLines(begin, end);
      end := end + (offset - 1);
    }

    /** The four fill-colour calls of setTextString, in order. */
    method PaintSegments(g: Segments)
      requires SegmentsFit(g, |text.str|)
      modifies text`fillColors, text`geometryNeedUpdate
      ensures text.fillColors == MessageColours(old(text.fillColors), text.str, g, Colours())
      ensures text.geometryNeedUpdate
    {
      text.SetFillColor(prefixColor, g.prefixBegin, g.prefixEnd);
      text.SetFillColor(titleColor, g.titleBegin, g.titleEnd);
      text.SetFillColor(suffixColor, g.suffixBegin, g.suffixEnd);
      text.SetFillColor(contentColor, g.contentBegin, g.contentEnd);
    }

    /**
     * fitWidth: unless the text is narrower than `width` and on one line,
     * rebuild it from the raw string and wrap it at `width`. The drawn width
     * of the text is given as `boundsWidth`; asking for the bounds first runs
     * a pending geometry rebuild, which fills the colour maps densely.
     */
    method FitWidth(width: real, boundsWidth: real)
      requires Valid()
      modifies text`str, text`geometryNeedUpdate, text`fillColors, text`outlineColors, text`outlineThicknesses
      ensures Valid()
      ensures !NeedsRefit(width, boundsWidth, old(text.str)) ==>
        text.str == old(text.str) && !text.geometryNeedUpdate
        && text.fillColors == Settled(old(text.fillColors), old(text.str), old(text.geometryNeedUpdate), White)
        && text.outlineColors == Settled(old(text.outlineColors), old(text.str), old(text.geometryNeedUpdate), Black)
        && text.outlineThicknesses == old(text.outlineThicknesses)
      ensures NeedsRefit(width, boundsWidth, old(text.str)) ==>
        text.str == Wrap(Raw(), GlyphAdvance(text.font.value, text.characterSize, UnitOutline(|Raw()|)), width, 0.0, 0)
        && text.fillColors == Recoloured(Raw(), Recoloured(old(text.str),
             Settled(old(text.fillColors), old(text.str), old(text.geometryNeedUpdate), White), Raw()), text.str)
    {
      DensifyFull(text.outlineThicknesses, text.str, 0.0);
      text.EnsureGeometryUpdate();
      var tooWide := boundsWidth >= width;
      var tooNarrow := false;
      if boundsWidth < width {
        var lines := LineCount();
        tooNarrow := lines > 1;
      }
      if !tooWide && !tooNarrow {
        return;
      }
      Refit(width);
    }

    /** The refit of fitWidth: store the raw string, wrap it at `width` and store the wrapped text. */
    method Refit(width: real)
      requires Valid()
      modifies text`str, text`geometryNeedUpdate, text`fillColors, text`outlineColors, text`outlineThicknesses
      ensures Valid()
      ensures text.str == Wrap(Raw(), GlyphAdvance(text.font.value, text.characterSize, UnitOutline(|Raw()|)), width, 0.0, 0)
      ensures text.fillColors == Recoloured(Raw(), Recoloured(old(text.str), old(text.fillColors), Raw()), text.str)
    {
      var raw := Raw();
      RawStringLayout(prefix, title, suffix, content);
      SetTextString(raw);
      var textStr := raw;
      var adv := GlyphAdvance(text.font.value, text.characterSize, text.outlineThicknesses);
      textStr := WrapText(textStr, adv, width);
      SetTextString(textStr);
    }

    /** The glyph advances of the raw string under a unit outline, as fitWidth measures them. */
    function RawAdvance(): (char, nat) -> real
      requires text.font.Some?
      reads this, text
    {
      GlyphAdvance(text.font.value, text.characterSize, UnitOutline(|Raw()|))
    }

    /**
     * What setMessage leaves, starting from the text `before` coloured by
     * `fill`: without a width the raw string, recoloured; with a width the
     * text fitWidth leaves after measuring `before` (drawn `boundsWidth`
     * wide), which is the wrapped raw string when `before` needs a refit
     * and `before` itself otherwise. The measuring settles `fill` first
     * when a geometry rebuild is `pending`.
     */
    predicate ShowsMessage(before: string, fill: map<nat, Color>, pending: bool, width: real, boundsWidth: real)
      requires text.font.Some?
      reads this, text
    {
      var settled := Settled(fill, before, pending, White);
      text.str == ShownAsWritten(before, Raw(), width, boundsWidth, RawAdvance())
      && text.fillColors ==
        if width <= 0.0 then Recoloured(before, fill, Raw())
        else if NeedsRefit(width, boundsWidth, before) then Recoloured(Raw(), Recoloured(before, settled, Raw()), text.str)
        else settled
    }

    /**
     * setMessage: take the message with its line breaks removed; with a
     * positive width fit it to that width, otherwise show the raw string.
     * fitWidth measures the text shown before the call, so a narrow
     * one-line old text stays on screen (see ShownAsWritten).
     */
    method SetMessage(msg: Message, width: real, boundsWidth: real)
      requires TextInvariant() && text.str != [] && |RawString(prefix, msg.title, suffix, msg.content)| < LengthBound
      modifies this`title, this`content
      modifies text`str, text`geometryNeedUpdate, text`fillColors, text`outlineColors, text`outlineThicknesses
      ensures Valid()
      ensures title == Remove(msg.title, {'\n'}) && content == Remove(msg.content, {'\n'})
      ensures ShowsMessage(old(text.str), old(text.fillColors), old(text.geometryNeedUpdate), width, boundsWidth)
    {
      title := RemoveNewlines(msg.title);
      content := RemoveNewlines(msg.content);
      if width > 0.0 {
        FitWidth(width, boundsWidth);
        return;
      }
      SetTextString(Raw());
    }

    method SetTitle(t: string, width: real, boundsWidth: real)
      requires Valid() && |RawString(prefix, t, suffix, content)| < LengthBound
      modifies this`title, this`content
      modifies text`str, text`geometryNeedUpdate, text`fillColors, text`outlineColors, text`outlineThicknesses
      ensures Valid() && title == Remove(t, {'\n'}) && content == old(content)
      ensures ShowsMessage(old(text.str), old(text.fillColors), old(text.geometryNeedUpdate), width, boundsWidth)
    {
      title := t;
      SetMessage(Message(title, content), width, boundsWidth);
    }

    method SetContent(c: string, width: real, boundsWidth: real)
      requires Valid() && |RawString(prefix, title, suffix, c)| < LengthBound
      modifies this`title, this`content
      modifies text`str, text`geometryNeedUpdate, text`fillColors, text`outlineColors, text`outlineThicknesses
      ensures Valid() && content == Remove(c, {'\n'}) && title == old(title)
      ensures ShowsMessage(old(text.str), old(text.fillColors), old(text.geometryNeedUpdate), width, boundsWidth)
    {
      content := c;
      SetMessage(Message(title, content), width, boundsWidth);
    }

    /** A new title colour recolours the current text, line breaks and all. */
    method SetTitleColor(c: Color)
      requires Valid()
      modifies this`titleColor, text`str, text`geometryNeedUpdate, text`fillColors, text`outlineColors, text`outlineThicknesses
      ensures Valid() && titleColor == c && text.str == old(text.str)
      ensures text.fillColors == Recoloured(text.str, old(text.fillColors), text.str)
    {
      titleColor := c;
      SetTextString(text.str);
    }

    method SetContentColor(c: Color)
      requires Valid()
      modifies this`contentColor, text`str, text`geometryNeedUpdate, text`fillColors, text`outlineColors, text`outlineThicknesses
      ensures Valid() && contentColor == c && text.str == old(text.str)
      ensures text.fillColors == Recoloured(text.str, old(text.fillColors), text.str)
    {
      contentColor := c;
      SetTextString(text.str);
    }

    /** New affixes and their colours, then the message is set again. */
    method SetTitleAffixes(p: string, s: string, pc: Color, sc: Color, width: real, boundsWidth: real)
      requires Valid() && |RawString(p, title, s, content)| < LengthBound
      modifies this`prefix, this`suffix, this`prefixColor, this`suffixColor, this`title, this`content
      modifies text`str, text`geometryNeedUpdate, text`fillColors, text`outlineColors, text`outlineThicknesses
      ensures Valid() && prefix == p && suffix == s && prefixColor == pc && suffixColor == sc
      ensures title == old(title) && content == old(content)
      ensures ShowsMessage(old(text.str), old(text.fillColors), old(text.geometryNeedUpdate), width, boundsWidth)
    {
      prefix, suffix := p, s;
      prefixColor, suffixColor := pc, sc;
      SetMessage(Message(title, content), width, boundsWidth);
    }

    /**
     * setMessage as it is evidently meant to work: the raw string is
     * stored first, so fitWidth measures the new message (drawn
     * `rawBoundsWidth` wide) and the new message is always what is shown.
     */
    method SetMessageRefreshed(msg: Message, width: real, rawBoundsWidth: real)
      requires TextInvariant() && text.str != [] && |RawString(prefix, msg.title, suffix, msg.content)| < LengthBound
      modifies this`title, this`content
      modifies text`str, text`geometryNeedUpdate, text`fillColors, text`outlineColors, text`outlineThicknesses
      ensures Valid()
      ensures title == Remove(msg.title, {'\n'}) && content == Remove(msg.content, {'\n'})
      ensures text.str == ShownIntended(Raw(), width, rawBoundsWidth, RawAdvance())
      ensures Remove(text.str, {'\n'}) == Remove(Raw(), {'\n'})
    {
      title := RemoveNewlines(msg.title);
      content := RemoveNewlines(msg.content);
      SetTextString(Raw());
      if width > 0.0 {
        FitWidth(width, rawBoundsWidth);
      }
      IntendedShowsMessage(Raw(), width, rawBoundsWidth, RawAdvance());
    }
  }

  /** fitWidth's test: the text is at least as wide as the target, or narrower but on several lines. */
  predicate NeedsRefit(width: real, boundsWidth: real, s: string)
  {
    var tooWide := boundsWidth >= width;
    var tooNarrow := boundsWidth < width && 1 + Count(s, '\n') > 1;
    tooWide || tooNarrow
  }

  /**
   * The text setMessage leaves as written: fitWidth decides whether to
   * refit by measuring `before`, the text shown before the call, and
   * leaves `before` in place when it is narrower than the width and on one
   * line.
   */
  function ShownAsWritten(before: string, raw: string, width: real, boundsWidth: real,
                          adv: (char, nat) -> real): string
  {
    if width <= 0.0 then raw
    else if NeedsRefit(width, boundsWidth, before) then Wrap(raw, adv, width, 0.0, 0)
    else before
  }

  /** The text setMessage evidently means to leave: the new raw string, wrapped when it needs a refit. */
  function ShownIntended(raw: string, width: real, rawBoundsWidth: real, adv: (char, nat) -> real): string
  {
    if width > 0.0 && NeedsRefit(width, rawBoundsWidth, raw) then Wrap(raw, adv, width, 0.0, 0) else raw
  }

  /** As written, a new message can leave the old one on screen: "a" is narrow and on one line, so "b" is never shown. */
  lemma AsWrittenShowsStaleMessage(adv: (char, nat) -> real)
    ensures ShownAsWritten("a", "b", 100.0, 40.0, adv) == "a"
    ensures Remove(ShownAsWritten("a", "b", 100.0, 40.0, adv), {'\n'}) != Remove("b", {'\n'})
  {
    assert Count("a", '\n') == 0 by {
      CountNone("a", '\n');
    }
    assert Remove("a", {'\n'}) == "a";
    assert Remove("b", {'\n'}) == "b";
  }

  /** Measured on the new message, setMessage always shows it: wrapping only adds line breaks. */
  lemma IntendedShowsMessage(raw: string, width: real, rawBoundsWidth: real, adv: (char, nat) -> real)
    ensures Remove(ShownIntended(raw, width, rawBoundsWidth, adv), {'\n'}) == Remove(raw, {'\n'})
  {
    if width > 0.0 && NeedsRefit(width, rawBoundsWidth, raw) {
      WrapKeepsCharacters(raw, adv, width, 0.0, 0);
    }
  }

  /**
   * setMessage with a width of 0 and affixes without line breaks colours
   * every character of the prefix, title, suffix and content in its part's
   * colour.
   */
  lemma UnwrappedMessageColours(prefix: string, title: string, suffix: string, content: string,
                                before: string, fill: map<nat, Color>, p: Palette)
    requires NoBreaks(prefix) && NoBreaks(title) && NoBreaks(suffix) && NoBreaks(content)
    requires |RawString(prefix, title, suffix, content)| <= SizeModulus
    ensures var s := RawString(prefix, title, suffix, content);
      var m := MessageColours(if before != s then map[] else fill, s,
                              SegmentsOf(s, |prefix|, |title|, |suffix|, |content|), p);
      var a, b, c := |prefix|, |prefix| + |title|, |prefix| + |title| + |suffix|;
      (forall i :: 0 <= i < a ==> Lookup(m, i, White) == p.prefix)
      && (forall i :: a <= i < b ==> Lookup(m, i, White) == p.title)
      && (forall i :: b <= i < c ==> Lookup(m, i, White) == p.suffix)
      && (forall i :: c + 1 <= i < |s| ==> Lookup(m, i, White) == p.content)
  {
    var s := RawString(prefix, title, suffix, content);
    RawStringLayout(prefix, title, suffix, content);
    assert NoBreaks(s) by {
      forall k | 0 <= k < |s| ensures s[k] != '\n' {
        var a, b, c := |prefix|, |prefix| + |title|, |prefix| + |title| + |suffix|;
        if k < a { assert s[k] == s[..a][k]; }
        else if k < b { assert s[k] == s[a..b][k - a]; }
        else if k < c { assert s[k] == s[b..c][k - b]; }
        else if k > c { assert s[k] == s[c + 1..][k - c - 1]; }
      }
    }
    FlatMessageColours(if before != s then map[] else fill, s, p, |prefix|, |title|, |suffix|, |content|);
  }
}
