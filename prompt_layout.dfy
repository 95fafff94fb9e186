/**
 * What the dialog prompt and the text entry prompt have in common: the
 * width the constructor picks from the title's drawn width, the refit of
 * the title in fitWidth (strip the line breaks, then wrap greedily with
 * the glyph advances of the title's font), and the column in which the
 * buttons are stacked, 30 high with 5 between them.
 */
module PromptLayout {
  import opened Common
  import opened TextLayout
  import opened MulticolorText

  const MinWidth: real := 300.0
  const MaxWidth: real := 550.0
  const ButtonHeight: real := 30.0
  const ButtonSpacing: real := 5.0

  /** `sf::Vector2f`. */
  datatype Vec2 = Vec2(x: real, y: real)

  /** `sf::Vector2i`, a mouse position in pixels. */
  datatype IVec2 = IVec2(x: int, y: int)

  /** A button: its text, the width of its shape, and where it is placed (the middle of its top edge). */
  datatype Button = Button(text: string, width: real, pos: Vec2)

  /**
   * What alignElements reads from the font instead of computing: the
   * title's bounds relative to its position (top and height) and the text
   * entry box's bounds relative to its position.
   */
  datatype Metrics = Metrics(titleTop: real, titleHeight: real, entryTop: real, entryHeight: real)

  function Abs(x: real): real
  {
    if x < 0.0 then -x else x
  }

  /** The constructor's width: 300 for a title up to 300 wide, the title's own width up to 550, else 550. */
  function ChooseWidth(titleWidth: real): (w: real)
    ensures MinWidth <= w <= MaxWidth
    ensures MinWidth <= titleWidth <= MaxWidth ==> w == titleWidth
    ensures titleWidth < MinWidth ==> w == MinWidth
    ensures titleWidth > MaxWidth ==> w == MaxWidth
  {
    if titleWidth <= MinWidth then MinWidth
    else if titleWidth <= MaxWidth then titleWidth
    else MaxWidth
  }

  /** No width between 300 and 550 is closer to the title's width than the one chosen. */
  lemma ChosenWidthIsNearest(titleWidth: real, v: real)
    requires MinWidth <= v <= MaxWidth
    ensures Abs(ChooseWidth(titleWidth) - titleWidth) <= Abs(v - titleWidth)
  {
  }

  /** fitWidth's test: the title is wider than `width`, or narrower and holding more than one line break. */
  predicate TitleNeedsRefit(boundsWidth: real, width: real, title: string)
  {
    boundsWidth > width || (boundsWidth < width && Count(title, '\n') > 1)
  }

  /** The advance of a title glyph: a regular glyph of the title's size, with the title's outline thickness 1. */
  function TitleAdvance(f: Font, size: nat): (char, nat) -> real
  {
    (c: char, i: nat) => f.advance(c as nat, size, false, 1.0)
  }

  /**
   * The title after fitWidth: unchanged when it needs no refit, otherwise
   * the greedy wrap of the title without its line breaks. Either way its
   * characters other than line breaks are the ones it had, in order.
   */
  function FittedTitle(title: string, boundsWidth: real, width: real, f: Font, size: nat): (r: string)
    ensures !TitleNeedsRefit(boundsWidth, width, title) ==> r == title
    ensures Remove(r, {'\n'}) == Remove(title, {'\n'})
    ensures TitleNeedsRefit(boundsWidth, width, title) ==> |r| <= 2 * |Remove(title, {'\n'})|
  {
    if !TitleNeedsRefit(boundsWidth, width, title) then title
    else
      var flat := Remove(title, {'\n'});
      WrapKeepsCharacters(flat, TitleAdvance(f, size), width, 0.0, 0);
      RemoveIdempotent(title, {'\n'});
      Wrap(flat, TitleAdvance(f, size), width, 0.0, 0)
  }

  /** A title that needs a refit becomes the greedy wrap of its characters without the line breaks. */
  lemma RefitTitleIsWrap(title: string, boundsWidth: real, width: real, f: Font, size: nat)
    requires TitleNeedsRefit(boundsWidth, width, title)
    ensures FittedTitle(title, boundsWidth, width, f, size)
      == Wrap(Remove(title, {'\n'}), TitleAdvance(f, size), width, 0.0, 0)
  {
  }

  /**
   * fitWidth of both prompts: count the line breaks, return when the title
   * is neither too wide nor too narrow, otherwise erase its line breaks and
   * run the wrap loop.
   */
  method FitTitle(title: string, boundsWidth: real, width: real, f: Font, size: nat) returns (r: string)
    ensures r == FittedTitle(title, boundsWidth, width, f, size)
  {
    var lines := Count(title, '\n');
    var tooWide := boundsWidth > width;
    var tooNarrow := boundsWidth < width && lines > 1;
    if !tooWide && !tooNarrow {
      return title;
    }
    r := RemoveNewlines(title);
    r := WrapText(r, TitleAdvance(f, size), width);
  }

  /** The vertical offset of button `i` from the top of the button area: i·30 + i·5. */
  function ButtonOffset(i: nat): (y: real)
    ensures y == 35.0 * (i as real)
  {
    (i as real) * ButtonHeight + (i as real) * ButtonSpacing
  }

  /** The buttons stacked from `top` down, centred on `centerX`; texts and widths are kept. */
  function Stacked(bs: seq<Button>, centerX: real, top: real): (r: seq<Button>)
    ensures |r| == |bs|
    ensures forall i :: 0 <= i < |r| ==> r[i].text == bs[i].text && r[i].width == bs[i].width
    ensures forall i :: 0 <= i < |r| ==> r[i].pos == Vec2(centerX, top + ButtonOffset(i))
  {
    seq(|bs|, i requires 0 <= i < |bs| => bs[i].(pos := Vec2(centerX, top + ButtonOffset(i))))
  }

  /**
   * In the stack each button starts 35 below the one before it, so the
   * 30-high buttons never overlap and are 5 apart; the first starts at
   * the top of the area.
   */
  lemma StackedButtonsDoNotOverlap(bs: seq<Button>, centerX: real, top: real, i: nat)
    requires i + 1 < |bs|
    ensures var r := Stacked(bs, centerX, top);
      r[i + 1].pos.y == r[i].pos.y + ButtonHeight + ButtonSpacing
      && r[0].pos.y == top
  {
  }

  /** The loop of alignElements that places button i at (centerX, top + i·30 + i·5). */
  method StackButtons(bs: seq<Button>, centerX: real, top: real) returns (r: seq<Button>)
    ensures r == Stacked(bs, centerX, top)
  {
    r := bs;
    var i := 0;
    while i < |r|
      invariant i <= |r| == |bs|
      invariant forall k :: 0 <= k < i ==> r[k] == bs[k].(pos := Vec2(centerX, top + ButtonOffset(k)))
      invariant forall k :: i <= k < |r| ==> r[k] == bs[k]
    {
      var y := top + (i as real) * ButtonHeight;
      y := y + (i as real) * ButtonSpacing;
      r := r[i := r[i].(pos := Vec2(centerX, y))];
      i := i + 1;
    }
  }
}
