/**
 * The text entry prompt: a box with a title above a text entry box and a
 * column of buttons under it. Unlike the dialog prompt the box's origin
 * is its upper-left corner (unless setOrigin moves it), the title is
 * fitted to the full width, and the button area has 5 pixels above and
 * below the buttons.
 */
module TextEntryPrompt {
  import opened Common
  import opened TextLayout
  import opened MulticolorText
  import opened PromptLayout

  /** The character size of the title. */
  const TitleCharSize: nat := 22

  /** The width the text entry box is created with, before the constructor's setWidth. */
  const InitialEntryWidth: real := 300.0

  /** The height the button area needs for `n` buttons: the buttons and a gap of 5 above, below and between them. */
  function HeightNeeded(n: nat): (h: real)
    ensures h == (n as real) * ButtonHeight + ((n + 1) as real) * ButtonSpacing
    ensures h == 35.0 * (n as real) + 5.0
  {
    (n as real) * ButtonHeight + ((n + 1) as real) * ButtonSpacing
  }

  /** The top edge of the drawn box: the position less the origin, and the 1-pixel outline. */
  function BoxTop(pos: Vec2, origin: Vec2): real { pos.y - origin.y - 1.0 }

  /** The bottom edge of the drawn box. */
  function BoxBottom(pos: Vec2, origin: Vec2, height: real): real { BoxTop(pos, origin) + height + 2.0 }

  /** The bottom of the title, which sits at the box's position. */
  function TitleBottom(pos: Vec2, m: Metrics): real
  {
    pos.y + m.titleTop + m.titleHeight
  }

  /** Where alignElements puts the text entry box: at the box's x, 10 under the title. */
  function EntryPos(pos: Vec2, m: Metrics): Vec2
  {
    Vec2(pos.x, 10.0 + TitleBottom(pos, m))
  }

  /** The bottom of the text entry box once it is placed. */
  function EntryBottom(pos: Vec2, m: Metrics): real
  {
    EntryPos(pos, m).y + m.entryTop + m.entryHeight
  }

  /** How much higher the area under the text entry box is than the buttons need (negative: lower). */
  function Diff(pos: Vec2, origin: Vec2, height: real, n: nat, m: Metrics): real
  {
    (BoxBottom(pos, origin, height) - EntryBottom(pos, m)) - HeightNeeded(n)
  }

  /**
   * Resizing by the difference settles the layout: setHeight keeps the top
   * edge and the elements, so the bottom edge moves by the whole difference.
   */
  lemma ResizeSettles(pos: Vec2, origin: Vec2, height: real, n: nat, m: Metrics)
    ensures Diff(pos, origin, height - Diff(pos, origin, height, n, m), n, m) == 0.0
  {
    var d := Diff(pos, origin, height, n, m);
    assert BoxBottom(pos, origin, height - d) == BoxBottom(pos, origin, height) - d;
  }

  /**
   * Once the area fits, the buttons have 5 pixels of room above the first
   * and below the last.
   */
  lemma ButtonsFillArea(bs: seq<Button>, pos: Vec2, origin: Vec2, height: real, width: real, m: Metrics)
    requires bs != [] && Diff(pos, origin, height, |bs|, m) == 0.0
    ensures var r := Stacked(bs, pos.x + width / 2.0, EntryBottom(pos, m) + ButtonSpacing);
      r[0].pos.y == EntryBottom(pos, m) + ButtonSpacing
      && r[|r| - 1].pos.y + ButtonHeight == BoxBottom(pos, origin, height) - ButtonSpacing
  {
    var r := Stacked(bs, pos.x + width / 2.0, EntryBottom(pos, m) + ButtonSpacing);
    assert r[|r| - 1].pos.y == EntryBottom(pos, m) + ButtonSpacing + 35.0 * ((|bs| - 1) as real);
  }

  /**
   * dragBox on one axis: first keep the position from going below 0, then
   * keep the box's far edge inside the window. The second test wins, so a
   * box wider than the window ends at a negative position.
   */
  function ClampCorner(v: real, box: real, window: real): (r: real)
    ensures box <= window ==> 0.0 <= r <= window - box
    ensures 0.0 <= v <= window - box ==> r == v
    ensures box > window ==> r == window - box
  {
    var v' := if v < 0.0 then 0.0 else v;
    if v' + box > window then window - box else v'
  }

  /** A dragged box that fits in the window stays wholly inside it. */
  lemma DraggedBoxStaysInWindow(v: real, box: real, window: real)
    requires 0.0 <= box <= window
    ensures 0.0 <= ClampCorner(v, box, window) && ClampCorner(v, box, window) + box <= window
  {
  }

  class TextEntryPrompt {
    const font: Font
    var title: string
    var width: real
    var height: real
    /** The box's position; with the default origin, its upper-left corner. */
    var pos: Vec2
    var origin: Vec2
    var titlePos: Vec2
    var entryWidth: real
    var entryPos: Vec2
    var buttons: seq<Button>
    var alignmentNeeded: bool
    var dragging: bool
    var lastMouse: IVec2
    var lastPosition: Vec2

    /**
     * The prompt for `promptTitle`, whose drawn width is `titleWidth`: the
     * width is chosen from it, the title fitted to it, the box moved to
     * `position` and aligned with the font's `m`.
     */
    constructor (position: Vec2, f: Font, promptTitle: string, titleWidth: real, m: Metrics)
      ensures font == f && buttons == [] && origin == Vec2(0.0, 0.0)
      ensures width == ChooseWidth(titleWidth) && entryWidth == width && pos == position
      ensures title == FittedTitle(promptTitle, titleWidth, width, f, TitleCharSize)
      ensures titlePos == position && entryPos == EntryPos(position, m)
      ensures height == 100.0 - Diff(position, origin, 100.0, 0, m)
      ensures alignmentNeeded == (Diff(position, origin, 100.0, 0, m) != 0.0)
      ensures !dragging && lastPosition == position
    {
      font := f;
      title := promptTitle;
      width, height := MaxWidth, 100.0;
      pos, origin, titlePos := Vec2(0.0, 0.0), Vec2(0.0, 0.0), Vec2(0.0, 0.0);
      entryWidth, entryPos := InitialEntryWidth, position;
      buttons := [];
      alignmentNeeded := true;
      dragging := false;
      lastMouse, lastPosition := IVec2(0, 0), position;
      new;
      var w := ChooseWidth(titleWidth);
      SetWidth(w, titleWidth);
      SetPosition(position);
      AlignElements(m);
    }

    /** addButton: a button 0.9 of the box wide is appended, and the prompt needs aligning. */
    method AddButton(text: string)
      modifies this`buttons, this`alignmentNeeded
      ensures buttons == old(buttons) + [Button(text, 0.9 * width, Vec2(0.0, 0.0))]
      ensures alignmentNeeded
    {
      buttons := buttons + [Button(text, 0.9 * width, Vec2(0.0, 0.0))];
      alignmentNeeded := true;
    }

    method SetPosition(p: Vec2)
      modifies this`pos, this`alignmentNeeded
      ensures pos == p && alignmentNeeded
    {
      pos := p;
      alignmentNeeded := true;
    }

    method SetOrigin(o: Vec2)
      modifies this`origin, this`alignmentNeeded
      ensures origin == o && alignmentNeeded
    {
      origin := o;
      alignmentNeeded := true;
    }

    /** fitWidth: the title is fitted to the whole width, with no padding taken off. */
    method FitWidth(w: real, boundsWidth: real)
      modifies this`title
      ensures title == FittedTitle(old(title), boundsWidth, w, font, TitleCharSize)
    {
      title := FitTitle(title, boundsWidth, w, font, TitleCharSize);
    }

    /** setHeight: the box keeps its position and needs aligning. */
    method SetHeight(h: real)
      modifies this`height, this`alignmentNeeded
      ensures height == h && alignmentNeeded
    {
      height := h;
      alignmentNeeded := true;
    }

    /** setWidth: the box and the entry box both get the width, the title is fitted to it, and the prompt needs aligning. */
    method SetWidth(w: real, boundsWidth: real)
      modifies this`width, this`entryWidth, this`title, this`alignmentNeeded
      ensures width == w && entryWidth == w && alignmentNeeded
      ensures title == FittedTitle(old(title), boundsWidth, w, font, TitleCharSize)
    {
      width := w;
      entryWidth := w;
      FitWidth(w, boundsWidth);
      alignmentNeeded := true;
    }

    /**
     * alignElements: nothing unless the flag is raised; otherwise lower it,
     * put the title at the position and the entry box 10 under the title,
     * and then either resize the box by the difference (which raises the
     * flag again, placing no button) or stack the buttons from 5 under the
     * entry box.
     */
    method AlignElements(m: Metrics)
      modifies this`alignmentNeeded, this`titlePos, this`entryPos, this`height, this`buttons
      ensures !old(alignmentNeeded) ==>
        alignmentNeeded == false && titlePos == old(titlePos) && entryPos == old(entryPos)
        && height == old(height) && buttons == old(buttons)
      ensures old(alignmentNeeded) ==>
        var d := Diff(pos, origin, old(height), |old(buttons)|, m);
        titlePos == pos && entryPos == EntryPos(pos, m)
        && height == old(height) - d
        && alignmentNeeded == (d != 0.0)
        && buttons == (if d != 0.0 then old(buttons)
                       else Stacked(old(buttons), pos.x + width / 2.0, EntryBottom(pos, m) + ButtonSpacing))
    {
      if !alignmentNeeded {
        return;
      }
      alignmentNeeded := false;
      titlePos := pos;
      entryPos := Vec2(pos.x, 10.0 + TitleBottom(pos, m));
      var rectBottom := BoxBottom(pos, origin, height);
      var textEntryBottom := entryPos.y + m.entryTop + m.entryHeight;
      var heightNeeded := (|buttons| as real) * ButtonHeight + ((|buttons| + 1) as real) * ButtonSpacing;
      var diff := (rectBottom - textEntryBottom) - heightNeeded;
      if diff != 0.0 {
        SetHeight(height - diff);
        return;
      }
      var centerX := pos.x + width / 2.0;
      buttons := StackButtons(buttons, centerX, textEntryBottom + ButtonSpacing);
    }

    /**
     * dragBox with the mouse at `mouse` and the window's size `window` (no
     * window yet: `None`). When dragging and the mouse has moved, the box
     * follows the mouse, each axis clamped to the window.
     */
    method DragBox(mouse: IVec2, window: Option<(nat, nat)>)
      modifies this`lastMouse, this`pos, this`alignmentNeeded
      ensures !dragging || window.None? || mouse == old(lastMouse) ==>
        lastMouse == old(lastMouse) && pos == old(pos) && alignmentNeeded == old(alignmentNeeded)
      ensures dragging && window.Some? && mouse != old(lastMouse) ==>
        lastMouse == mouse && alignmentNeeded
        && pos == Vec2(ClampCorner(old(pos).x + (mouse.x - old(lastMouse).x) as real, width + 2.0, window.value.0 as real),
                       ClampCorner(old(pos).y + (mouse.y - old(lastMouse).y) as real, height + 2.0, window.value.1 as real))
    {
      if !dragging || window.None? {
        return;
      }
      var diff := IVec2(mouse.x - lastMouse.x, mouse.y - lastMouse.y);
      if lastMouse == mouse {
        return;
      }
      lastMouse := mouse;
      var newPos := Vec2(pos.x + diff.x as real, pos.y + diff.y as real);
      var boundsWidth, boundsHeight := width + 2.0, height + 2.0;
      if newPos.x < 0.0 {
        newPos := newPos.(x := 0.0);
      }
      if newPos.x + boundsWidth > window.value.0 as real {
        newPos := newPos.(x := window.value.0 as real - boundsWidth);
      }
      if newPos.y < 0.0 {
        newPos := newPos.(y := 0.0);
      }
      if newPos.y + boundsHeight > window.value.1 as real {
        newPos := newPos.(y := window.value.1 as real - boundsHeight);
      }
      SetPosition(newPos);
    }
  }

  /**
   * With the width chosen from the title, a title between 300 and 550
   * wide is never refit: it is neither wider nor narrower than itself.
   */
  lemma MidWidthTitleIsKept(titleWidth: real, title: string, f: Font)
    requires MinWidth <= titleWidth <= MaxWidth
    ensures FittedTitle(title, titleWidth, ChooseWidth(titleWidth), f, TitleCharSize) == title
  {
  }
}
