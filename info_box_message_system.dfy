/**
 * One message of the system info box: the text "<title> content" (or just
 * the content when there is no title), with the title drawn in a colour
 * chosen by who sent it. The colour range is widened by the line breaks
 * counted in the first |title| characters after the '<'; when wrapping puts
 * two or more breaks inside the title this falls short of the title's end
 * (see AsWrittenTitleRangeMissesCharacter and TitleColoursScanned).
 */
module SystemInfoBoxMessage {
  import opened Common
  import opened TextLayout
  import opened MulticolorText
  import GraphicsInfoBoxMessage

  const Red: Color := Color(255, 0, 0, 255)
  const Cyan: Color := Color(0, 255, 255, 255)
  const Magenta: Color := Color(255, 0, 255, 255)

  /** The constructor's text: the title in angle brackets and a space, when there is a title, then the content. */
  function FinalString(msg: Message): (r: string)
    ensures msg.title == "" ==> r == msg.content
    ensures msg.title != "" ==>
      |r| == |msg.title| + 3 + |msg.content| && r[0] == '<' && r[1..|msg.title| + 1] == msg.title
      && r[|msg.title| + 1..|msg.title| + 3] == "> " && r[|msg.title| + 3..] == msg.content
  {
    var prefix := if msg.title != "" then "<" + msg.title + "> " else "";
    prefix + msg.content
  }

  /** The colour of the title: red for the server, cyan for the local player, magenta for anyone else. */
  function TitleColour(title: string): Color
  {
    if title == "Server" then Red
    else if title == "LocalPlayer" then Cyan
    else Magenta
  }

  /** `std::string::substr(pos, count)`; the count is cut at the end of the string. */
  function Substr(s: string, pos: nat, count: nat): (r: string)
    requires pos <= |s|
    ensures |r| == Min(count, |s| - pos) && r == s[pos..pos + |r|]
  {
    s[pos..Min(pos + count, |s|)]
  }

  /**
   * getNumberOfLines(start, end): an end of 0 stands for the last index;
   * the result is one plus the line breaks in `substr(start, end)`, whose
   * second argument is a count. A start past the end of the text throws
   * std::out_of_range, modelled as `None`.
   */
  function LinesInWindow(s: string, start: nat, end: nat): (r: Option<nat>)
    ensures r.None? <==> start > |s|
    ensures r.Some? ==> r.value >= 1
  {
    var count := if end == 0 then SizeT(|s| - 1) else end;
    if start > |s| then None else Some(1 + Count(Substr(s, start, count), '\n'))
  }

  /**
   * The fill colours setString leaves for a title spanning `lines` lines:
   * the title colour on [1, |title| + lines − 1], every other index keeping
   * its colour in `base`.
   */
  function TitleColours(base: map<nat, Color>, s: string, title: string, lines: nat): (m: map<nat, Color>)
    requires lines >= 1
    ensures |title| + lines - 1 > 0 ==>
      (forall i :: 1 <= i <= |title| + lines - 1 ==> Lookup(m, i, White) == TitleColour(title))
      && (forall i :: i == 0 || i > |title| + lines - 1 ==> Lookup(m, i, White) == Lookup(base, i, White))
  {
    Paint(base, 1, RangeEnd(|s|, |title| + (lines - 1)), TitleColour(title))
  }

  /**
   * The colour range setString evidently intends: from index 1 to the title's
   * last character, found by scanning past |title| characters other than
   * line breaks, as the graphics info box's getNumberOfLines does.
   */
  function TitleColoursScanned(base: map<nat, Color>, s: string, title: string): map<nat, Color>
  {
    Paint(base, 1, RangeEnd(|s|, |title| + GraphicsInfoBoxMessage.BreaksScanned(s, 1, 1, |title|)), TitleColour(title))
  }

  /**
   * A character other than a line break at `i` that the scan from `t` reaches
   * before it has passed `end` characters lies at or before the scan's end.
   */
  lemma {:induction false} ScanReaches(s: string, t: nat, index: nat, end: nat, i: nat)
    requires t <= i < |s| && s[i] != '\n'
    requires index + |Remove(s[t..i + 1], {'\n'})| <= end + 1
    ensures index <= end
    ensures i <= t + GraphicsInfoBoxMessage.BreaksScanned(s, t, index, end) + (end - index)
    decreases i - t
  {
    assert s[t..i + 1][1..] == s[t + 1..i + 1];
    if t < i {
      if s[t] == '\n' {
        ScanReaches(s, t + 1, index, end, i);
      } else {
        ScanReaches(s, t + 1, index + 1, end, i);
      }
    }
  }

  /** With the scanned range every character of the title is coloured, however many line breaks wrapping put inside it. */
  lemma TitleScannedColoursWholeTitle(base: map<nat, Color>, s: string, title: string)
    requires title != []
    ensures var m := TitleColoursScanned(base, s, title);
      forall i :: 1 <= i < |s| && s[i] != '\n' && |Remove(s[1..i + 1], {'\n'})| <= |title| ==>
        Lookup(m, i, White) == TitleColour(title)
  {
    forall i | 1 <= i < |s| && s[i] != '\n' && |Remove(s[1..i + 1], {'\n'})| <= |title|
      ensures i <= |title| + GraphicsInfoBoxMessage.BreaksScanned(s, 1, 1, |title|)
    {
      ScanReaches(s, 1, 1, |title|, i);
    }
  }

  /**
   * The range as written: a title wrapped onto three lines ("<", "a", "b",
   * "c>" ...) has two line breaks in the window of |title| characters after
   * the '<', but three before its last character, which is left uncoloured.
   */
  lemma AsWrittenTitleRangeMissesCharacter()
    ensures var s := "<\na\nb\nc\n>\n \nx";
      LinesInWindow(s, 1, 3) == Some(3) && s[6] == 'c'
      && Lookup(TitleColours(map[], s, "abc", 3), 6, White) == White && TitleColour("abc") != White
  {
    var s := "<\na\nb\nc\n>\n \nx";
    assert Substr(s, 1, 3) == "\na\n";
    assert Count("\na\n", '\n') == 2 by {
      assert "\na\n"[1..] == "a\n" && "a\n"[1..] == "\n" && "\n"[1..] == [];
    }
  }

  /** The find loop of getNumberOfLines: one plus the line breaks of `sub`. */
  method LinesOf(sub: string) returns (count: nat)
    ensures count == 1 + Count(sub, '\n')
  {
    count := 1;
    var nPos := Find(sub, '\n', 0);
    if nPos.Some? {
      CountNone(sub[..nPos.value], '\n');
    } else {
      CountNone(sub, '\n');
    }
    while nPos.Some?
      invariant nPos.Some? ==> nPos.value < |sub| && sub[nPos.value] == '\n'
      invariant nPos.Some? ==> count == 1 + Count(sub[..nPos.value], '\n')
      invariant nPos.None? ==> count == 1 + Count(sub, '\n')
      decreases if nPos.Some? then |sub| - nPos.value else 0
    {
      var p := nPos.value;
      count := count + 1;
      nPos := Find(sub, '\n', p + 1);
      if nPos.Some? {
        CountThroughBreak(sub, p, nPos.value);
      } else {
        CountThroughBreak(sub, p, |sub|);
        assert sub[..|sub|] == sub;
      }
    }
  }

  /** One line break more in the prefix up to `q` than in the prefix up to `p`, the break at `p`. */
  lemma CountThroughBreak(s: string, p: nat, q: nat)
    requires p < q <= |s| && s[p] == '\n'
    requires forall k :: p < k < q ==> s[k] != '\n'
    ensures Count(s[..q], '\n') == Count(s[..p], '\n') + 1
  {
    assert s[..q] == s[..p] + ([s[p]] + s[p + 1..q]);
    CountAppend(s[..p], [s[p]] + s[p + 1..q], '\n');
    CountAppend([s[p]], s[p + 1..q], '\n');
    CountNone(s[p + 1..q], '\n');
  }

  class InfoBoxMessage {
    const text: MulticolorText
    var title: string
    var content: string

    /** What holds of the text object between calls: a font, outline 1 on every character, a bounded length. */
    predicate TextInvariant()
      reads this, text
    {
      text.font.Some? && text.outlineThicknesses == UnitOutline(|text.str|) && |text.str| < 2 * LengthBound
      && |Remove(text.str, {'\n'})| < LengthBound && |title| < LengthBound
    }

    /** The message as text, with the font and size given. */
    constructor (msg: Message, f: Font, size: nat)
      requires msg.title != "" || msg.content != ""
      requires |FinalString(msg)| < LengthBound
      ensures TextInvariant() && title == msg.title && content == msg.content
      ensures text.str == FinalString(msg) && text.font == Some(f) && text.characterSize == size
      ensures text.fillColors == TitleColours(map[], text.str, title, LinesInWindow(text.str, 1, |title|).value)
    {
      text := new MulticolorText();
      title, content := msg.title, msg.content;
      new;
      text.SetFont(f);
      text.SetCharacterSize(size);
      var finalStr := "";
      if title != "" {
        finalStr := "<" + title + "> ";
      }
      finalStr := finalStr + content;
      assert finalStr == FinalString(msg);
      var ok := SetString(finalStr);
    }

    /** getNumberOfLines(start, end), with the find loop that counts the line breaks of the window. */
    method GetNumberOfLines(start: nat, end: nat) returns (r: Option<nat>)
      ensures r == LinesInWindow(text.str, start, end)
    {
      var s := text.str;
      var e := end;
      if e == 0 {
        e := SizeT(|s| - 1);
      }
      if start > |s| {
        return None;
      }
      var sub := Substr(s, start, e);
      var count := LinesOf(sub);
      return Some(count);
    }

    /**
     * setString: store the text, give it outline 1 and colour the title.
     * Counting the title's lines throws on an empty text (`ok` is false),
     * after the text has been stored.
     */
    method SetString(s: string) returns (ok: bool)
      requires TextInvariant() && |s| < 2 * LengthBound && |Remove(s, {'\n'})| < LengthBound
      modifies text`str, text`geometryNeedUpdate, text`fillColors, text`outlineColors, text`outlineThicknesses
      ensures TextInvariant() && text.str == s
      ensures ok <==> s != []
      ensures ok ==> (text.fillColors ==
        TitleColours(if old(text.str) != s then map[] else old(text.fillColors), s, title, LinesInWindow(s, 1, |title|).value))
      ensures !ok ==> text.fillColors == if old(text.str) != s then map[] else old(text.fillColors)
      ensures text.outlineColors == if old(text.str) != s then map[] else old(text.outlineColors)
    {
      ResetText(text, s);
      var lines := GetNumberOfLines(1, |title|);
      if lines.None? {
        return false;
      }
      PaintTitle(lines.value);
      return true;
    }

    /** The colouring step of setString, for the title's line count `lines`. */
    method PaintTitle(lines: nat)
      requires lines >= 1 && text.str != [] && |text.str| < 2 * LengthBound && lines <= 1 + |text.str| && |title| < LengthBound
      modifies text`fillColors, text`geometryNeedUpdate
      ensures text.fillColors == TitleColours(old(text.fillColors), text.str, title, lines)
    {
      var endOffset := lines;
      endOffset := endOffset - 1;
      if title == "Server" {
        text.SetFillColor(Red, 1, |title| + endOffset);
      } else if title == "LocalPlayer" {
        text.SetFillColor(Cyan, 1, |title| + endOffset);
      } else {
        text.SetFillColor(Magenta, 1, |title| + endOffset);
      }
    }

    /**
     * What the refit of fitWidth leaves, starting from the text `before`
     * with colour maps `fill` and `outline`: the text without line breaks,
     * wrapped at `width`, with the title coloured afresh; the old colours
     * survive only when neither setString changed the string. A text that
     * was nothing but line breaks is left empty (`ok` is false).
     */
    predicate Refitted(before: string, fill: map<nat, Color>, outline: map<nat, Color>, width: real, ok: bool)
      requires text.font.Some?
      reads this, text
    {
      var flat := Remove(before, {'\n'});
      var kept := text.str == flat && before == flat;
      (ok <==> flat != [])
      && (ok ==> text.str == Wrap(flat, GlyphAdvance(text.font.value, text.characterSize, UnitOutline(|flat|)), width, 0.0, 0))
      && (ok ==> text.str != []
                 && text.fillColors == TitleColours(if kept then fill else map[], text.str, title, LinesInWindow(text.str, 1, |title|).value)
                 && text.outlineColors == (if kept then outline else map[]))
      && (!ok ==> text.str == [] && text.fillColors == (if before == [] then fill else map[]))
    }

    /**
     * fitWidth: unless the text is narrower than `width` and on one line,
     * refit it. The drawn width of the text is given as `boundsWidth`, and
     * asking for it first runs a pending geometry rebuild, which fills the
     * colour maps densely.
     */
    method FitWidth(width: real, boundsWidth: real) returns (ok: bool)
      requires TextInvariant()
      modifies text`str, text`geometryNeedUpdate, text`fillColors, text`outlineColors, text`outlineThicknesses
      ensures TextInvariant()
      ensures !NeedsRefit(width, boundsWidth, LinesInWindow(old(text.str), 0, 0).value) ==>
        ok && text.str == old(text.str) && !text.geometryNeedUpdate
        && text.fillColors == Settled(old(text.fillColors), old(text.str), old(text.geometryNeedUpdate), White)
        && text.outlineColors == Settled(old(text.outlineColors), old(text.str), old(text.geometryNeedUpdate), Black)
      ensures NeedsRefit(width, boundsWidth, LinesInWindow(old(text.str), 0, 0).value) ==>
        Refitted(old(text.str), Settled(old(text.fillColors), old(text.str), old(text.geometryNeedUpdate), White),
                 Settled(old(text.outlineColors), old(text.str), old(text.geometryNeedUpdate), Black), width, ok)
    {
      DensifyFull(text.outlineThicknesses, text.str, 0.0);
      text.EnsureGeometryUpdate();
      var lines := GetNumberOfLines(0, 0);
      var tooWide := boundsWidth >= width;
      var tooNarrow := boundsWidth < width && lines.value > 1;
      if !tooWide && !tooNarrow {
        return true;
      }
      ok := Refit(width);
    }

    /** The refit of fitWidth: strip the line breaks, wrap at `width` and store the text again. */
    method Refit(width: real) returns (ok: bool)
      requires TextInvariant()
      modifies text`str, text`geometryNeedUpdate, text`fillColors, text`outlineColors, text`outlineThicknesses
      ensures TextInvariant()
      ensures Refitted(old(text.str), old(text.fillColors), old(text.outlineColors), width, ok)
    {
      var textStr := text.str;
      textStr := RemoveNewlines(textStr);
      ghost var base := if text.str != textStr then map[] else text.fillColors;
      ok := SetString(textStr);
      if !ok {
        return;
      }
      ghost var flat, fill := textStr, text.fillColors;
      var adv := GlyphAdvance(text.font.value, text.characterSize, text.outlineThicknesses);
      textStr := WrapText(textStr, adv, width);
      WrapKeepsCharacters(Remove(old(text.str), {'\n'}), adv, width, 0.0, 0);
      RemoveIdempotent(old(text.str), {'\n'});
      ok := SetString(textStr);
      RestoredTitleColours(base, flat, fill, textStr, title);
    }

    /** The transparency read back from the first character's fill colour. */
    function GetTransparency(): (a: int)
      reads this, text
      ensures a == Lookup(text.fillColors, 0, White).a
    {
      text.GetFillColor(0).a
    }
  }

  /**
   * Storing `flat` and then `wrapped` colours the title of `wrapped` on top
   * of `base` when the wrap changed nothing, and on an empty map otherwise.
   */
  lemma RestoredTitleColours(base: map<nat, Color>, flat: string, fill: map<nat, Color>, wrapped: string, title: string)
    requires flat != [] && wrapped != []
    requires fill == TitleColours(base, flat, title, LinesInWindow(flat, 1, |title|).value)
    ensures TitleColours(if flat != wrapped then map[] else fill, wrapped, title, LinesInWindow(wrapped, 1, |title|).value)
      == TitleColours(if wrapped == flat then base else map[], wrapped, title, LinesInWindow(wrapped, 1, |title|).value)
  {
    if wrapped == flat {
      PaintTwice(base, 1, RangeEnd(|flat|, |title| + (LinesInWindow(flat, 1, |title|).value - 1)), TitleColour(title));
    }
  }

  /** fitWidth's test: the text is at least as wide as the target, or narrower but on several lines. */
  predicate NeedsRefit(width: real, boundsWidth: real, lines: nat)
  {
    boundsWidth >= width || (boundsWidth < width && lines > 1)
  }

  /** A titled message without line breaks has exactly its title coloured; nothing else changes. */
  lemma TitleColouredExactly(msg: Message, base: map<nat, Color>)
    requires msg.title != "" && NoBreaks(msg.title) && |FinalString(msg)| < SizeModulus
    ensures var s := FinalString(msg);
      var m := TitleColours(base, s, msg.title, LinesInWindow(s, 1, |msg.title|).value);
      (forall i :: 1 <= i <= |msg.title| ==> Lookup(m, i, White) == TitleColour(msg.title))
      && (forall i :: i == 0 || i > |msg.title| ==> Lookup(m, i, White) == Lookup(base, i, White))
  {
    var s := FinalString(msg);
    var w := Substr(s, 1, |msg.title|);
    assert w == msg.title;
    CountNone(w, '\n');
  }

  /**
   * Without a title the count for the colour range runs from index 1 to the
   * end of the text; with no line break there, the range end is 0, which
   * colours from index 1 to the last character.
   */
  lemma UntitledColouring(content: string, base: map<nat, Color>)
    requires content != [] && NoBreaks(content) && |content| < SizeModulus
    ensures var s := FinalString(Message("", content));
      var m := TitleColours(base, s, "", LinesInWindow(s, 1, 0).value);
      forall i :: 1 <= i < |s| ==> Lookup(m, i, White) == Magenta
  {
    var s := FinalString(Message("", content));
    var w := Substr(s, 1, SizeT(|s| - 1));
    assert w == s[1..];
    CountNone(w, '\n');
  }
}
