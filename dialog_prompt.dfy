/**
 * The dialog prompt: a box with a title, an optional text entry box and a
 * column of buttons. The box's origin is its centre and its outline is 1
 * pixel thick, so its drawn bounds reach one pixel past its size on every
 * side. Whenever the box moves or changes size the alignment flag is
 * raised, and alignElements then places the title, the entry box and the
 * buttons, or first resizes the box so that the area under the lowest
 * element is exactly as high as the buttons need.
 */
module DialogPrompt {
  import opened Common
  import opened TextLayout
  import opened MulticolorText
  import opened PromptLayout

  const ButtonTopPadding: real := 10.0
  const ButtonBottomPadding: real := 10.0
  const TitleTopPadding: real := 5.0
  const TextSidePadding: real := 20.0
  const TextEntryTopPadding: real := 5.0

  /** The text entry box as far as the prompt lays it out: its width and position. */
  datatype EntryLayout = EntryLayout(width: real, pos: Vec2)

  /** The height the button area needs for `n` buttons: the buttons, the gaps between them and 10 above and below. */
  function HeightNeeded(n: nat): (h: real)
    ensures n == 0 ==> h == ButtonTopPadding + ButtonBottomPadding
    ensures n > 0 ==> h == (n as real) * ButtonHeight + ((n - 1) as real) * ButtonSpacing + 20.0
  {
    var totalSpacing := if n > 0 then ((n - 1) as real) * ButtonSpacing else 0.0;
    (n as real) * ButtonHeight + totalSpacing + ButtonTopPadding + ButtonBottomPadding
  }

  /** The top edge of the drawn box centred on `y`. */
  function BoxTop(y: real, height: real): real { y - height / 2.0 - 1.0 }

  /** The bottom edge of the drawn box centred on `y`. */
  function BoxBottom(y: real, height: real): real { y + height / 2.0 + 1.0 }

  /** The left edge of the drawn box centred on `x`. */
  function BoxLeft(x: real, width: real): real { x - width / 2.0 - 1.0 }

  /** Where alignElements puts the title: 20 right of the box's left edge, 5 below its top. */
  function TitlePos(pos: Vec2, width: real, height: real): Vec2
  {
    Vec2(BoxLeft(pos.x, width) + TextSidePadding, BoxTop(pos.y, height) + TitleTopPadding)
  }

  /** The bottom of the title once it is placed. */
  function TitleBottom(pos: Vec2, width: real, height: real, m: Metrics): real
  {
    TitlePos(pos, width, height).y + m.titleTop + m.titleHeight
  }

  /** Where alignElements puts the text entry box: under the title, 5 below it. */
  function EntryPos(pos: Vec2, width: real, height: real, m: Metrics): Vec2
  {
    Vec2(BoxLeft(pos.x, width) + TextSidePadding, TitleBottom(pos, width, height, m) + TextEntryTopPadding)
  }

  /** The bottom of the lowest element: the text entry box when there is one, else the title. */
  function LowestBottom(pos: Vec2, width: real, height: real, hasEntry: bool, m: Metrics): real
  {
    if hasEntry then EntryPos(pos, width, height, m).y + m.entryTop + m.entryHeight
    else TitleBottom(pos, width, height, m)
  }

  /** How much higher the area under the lowest element is than the buttons need (negative: lower). */
  function Diff(pos: Vec2, width: real, height: real, hasEntry: bool, n: nat, m: Metrics): real
  {
    (BoxBottom(pos.y, height) - LowestBottom(pos, width, height, hasEntry, m)) - HeightNeeded(n)
  }

  /** The top of the button area: 10 under the lowest element. */
  function AreaTop(pos: Vec2, width: real, height: real, hasEntry: bool, m: Metrics): real
  {
    LowestBottom(pos, width, height, hasEntry, m) + ButtonTopPadding
  }

  /**
   * Resizing by the difference settles the layout. setHeight keeps the
   * centre, so the top edge and everything hanging from it move down by
   * half the difference while the bottom edge moves up by the other half:
   * on the next frame the area is exactly as high as needed.
   */
  lemma ResizeSettles(pos: Vec2, width: real, height: real, hasEntry: bool, n: nat, m: Metrics)
    ensures var d := Diff(pos, width, height, hasEntry, n, m);
      Diff(pos, width, height - d, hasEntry, n, m) == 0.0
  {
    var d := Diff(pos, width, height, hasEntry, n, m);
    assert BoxBottom(pos.y, height - d) == BoxBottom(pos.y, height) - d / 2.0;
    assert TitleBottom(pos, width, height - d, m) == TitleBottom(pos, width, height, m) + d / 2.0;
    assert LowestBottom(pos, width, height - d, hasEntry, m) == LowestBottom(pos, width, height, hasEntry, m) + d / 2.0;
  }

  /**
   * Once the area fits, the last button ends 10 above the bottom edge of
   * the box and the first starts 10 below the lowest element.
   */
  lemma ButtonsFillArea(bs: seq<Button>, pos: Vec2, width: real, height: real, hasEntry: bool, m: Metrics)
    requires bs != [] && Diff(pos, width, height, hasEntry, |bs|, m) == 0.0
    ensures var r := Stacked(bs, BoxLeft(pos.x, width) + width / 2.0, AreaTop(pos, width, height, hasEntry, m));
      r[0].pos.y == LowestBottom(pos, width, height, hasEntry, m) + ButtonTopPadding
      && r[|r| - 1].pos.y + ButtonHeight == BoxBottom(pos.y, height) - ButtonBottomPadding
  {
    var r := Stacked(bs, BoxLeft(pos.x, width) + width / 2.0, AreaTop(pos, width, height, hasEntry, m));
    assert r[|r| - 1].pos.y == AreaTop(pos, width, height, hasEntry, m) + 35.0 * ((|bs| - 1) as real);
  }

  /** dragBox on one axis: keep the centre between half the box and the view's size less half the box. */
  function ClampCentre(v: real, box: real, view: real): (r: real)
    ensures box <= view ==> box / 2.0 <= r <= view - box / 2.0
    ensures box / 2.0 <= v <= view - box / 2.0 ==> r == v
    ensures v < box / 2.0 ==> r == box / 2.0
  {
    var lo := box / 2.0;
    var span := view - box;
    if v < lo then lo
    else if v > lo + span then lo + span
    else v
  }

  class DialogPrompt {
    const font: Font
    const titleSize: nat
    var title: string
    var width: real
    var height: real
    /** The box's position, which is its centre. */
    var pos: Vec2
    var titlePos: Vec2
    var entry: Option<EntryLayout>
    var buttons: seq<Button>
    var alignmentNeeded: bool
    var draggable: bool
    var dragging: bool
    var lastMouse: IVec2
    var lastPosition: Vec2

    /**
     * The prompt for `promptTitle`, whose drawn width is `titleWidth`. The
     * width is chosen from it, the title is fitted to that width, the box
     * is moved to `position` and aligned with the font's `m`.
     */
    constructor (textEntryEnabled: bool, position: Vec2, f: Font, promptTitle: string, titleCharSize: nat,
                 titleWidth: real, m: Metrics)
      ensures font == f && titleSize == titleCharSize && buttons == []
      ensures width == ChooseWidth(titleWidth) && pos == position
      ensures title == FittedTitle(promptTitle, titleWidth, width - TextSidePadding, f, titleCharSize)
      ensures entry.Some? == textEntryEnabled
      ensures entry.Some? ==> entry.value == EntryLayout(width - 2.0 * TextSidePadding, EntryPos(pos, width, 100.0, m))
      ensures titlePos == TitlePos(pos, width, 100.0)
      ensures height == 100.0 - Diff(pos, width, 100.0, textEntryEnabled, 0, m)
      ensures alignmentNeeded == (Diff(pos, width, 100.0, textEntryEnabled, 0, m) != 0.0)
      ensures draggable && !dragging && lastPosition == position
    {
      font, titleSize := f, titleCharSize;
      title := promptTitle;
      width, height := MaxWidth, 100.0;
      pos, titlePos := Vec2(0.0, 0.0), Vec2(0.0, 0.0);
      entry := if textEntryEnabled then Some(EntryLayout(MaxWidth, position)) else None;
      buttons := [];
      alignmentNeeded := true;
      draggable, dragging := true, false;
      lastMouse, lastPosition := IVec2(0, 0), position;
      new;
      var w := ChooseWidth(titleWidth);
      SetWidth(w, titleWidth);
      SetPosition(position);
      AlignElements(m);
    }

    /** addButton: a button 0.9 of the box wide is appended, and the prompt needs aligning. */
    method AddButton(text: string)
      modifies this`buttons, this`alignmentNeeded
      ensures buttons == old(buttons) + [Button(text, 0.9 * width, Vec2(0.0, 0.0))]
      ensures alignmentNeeded
    {
      buttons := buttons + [Button(text, 0.9 * width, Vec2(0.0, 0.0))];
      alignmentNeeded := true;
    }

    method SetPosition(p: Vec2)
      modifies this`pos, this`alignmentNeeded
      ensures pos == p && alignmentNeeded
    {
      pos := p;
      alignmentNeeded := true;
    }

    method SetDraggable(d: bool)
      modifies this`draggable
      ensures draggable == d
    {
      draggable := d;
    }

    /** fitWidth: the title is fitted to the width less the 20 pixels of side padding. */
    method FitWidth(w: real, boundsWidth: real)
      modifies this`title
      ensures title == FittedTitle(old(title), boundsWidth, w - TextSidePadding, font, titleSize)
    {
      var effective := w - TextSidePadding;
      title := FitTitle(title, boundsWidth, effective, font, titleSize);
    }

    /** setHeight: the box keeps its centre and needs aligning. */
    method SetHeight(h: real)
      modifies this`height, this`alignmentNeeded
      ensures height == h && alignmentNeeded
    {
      height := h;
      alignmentNeeded := true;
    }

    /**
     * setWidth: the entry box gets the width less 20 on each side, the box
     * the width itself, and the title is fitted to it; the prompt needs
     * aligning.
     */
    method SetWidth(w: real, boundsWidth: real)
      modifies this`entry, this`width, this`title, this`alignmentNeeded
      ensures entry == if old(entry).Some? then Some(old(entry).value.(width := w - 2.0 * TextSidePadding)) else None
      ensures width == w && alignmentNeeded
      ensures title == FittedTitle(old(title), boundsWidth, w - TextSidePadding, font, titleSize)
    {
      if entry.Some? {
        entry := Some(entry.value.(width := w - 2.0 * TextSidePadding));
      }
      width := w;
      FitWidth(w, boundsWidth);
      alignmentNeeded := true;
    }

    /**
     * alignElements: nothing unless the flag is raised; otherwise lower it,
     * place the title and the entry box, and then either resize the box by
     * the difference (which raises the flag again) or, when the area fits,
     * stack the buttons from 10 under the lowest element.
     */
    method AlignElements(m: Metrics)
      modifies this`alignmentNeeded, this`titlePos, this`entry, this`height, this`buttons
      ensures !old(alignmentNeeded) ==>
        alignmentNeeded == false && titlePos == old(titlePos) && entry == old(entry)
        && height == old(height) && buttons == old(buttons)
      ensures old(alignmentNeeded) ==>
        var d := Diff(pos, width, old(height), old(entry).Some?, |old(buttons)|, m);
        titlePos == TitlePos(pos, width, old(height))
        && entry == (if old(entry).Some? then Some(old(entry).value.(pos := EntryPos(pos, width, old(height), m))) else None)
        && height == old(height) - d
        && alignmentNeeded == (d != 0.0)
        && buttons == (if d != 0.0 then old(buttons)
                       else Stacked(old(buttons), BoxLeft(pos.x, width) + width / 2.0,
                                    AreaTop(pos, width, old(height), old(entry).Some?, m)))
    {
      if !alignmentNeeded {
        return;
      }
      alignmentNeeded := false;
      titlePos := TitlePos(pos, width, height);
      if entry.Some? {
        entry := Some(entry.value.(pos := EntryPos(pos, width, height, m)));
      }
      var bottom := LowestBottom(pos, width, height, entry.Some?, m);
      var areaHeight := BoxBottom(pos.y, height) - bottom;
      var diff := areaHeight - HeightNeeded(|buttons|);
      if diff != 0.0 {
        SetHeight(height - diff);
        return;
      }
      var centerX := BoxLeft(pos.x, width) + width / 2.0;
      buttons := StackButtons(buttons, centerX, bottom + ButtonTopPadding);
    }

    /**
     * dragBox with the mouse at `mouse` and the view's size `view` (no
     * view: no window yet). When dragging and the mouse has moved, the box
     * follows the mouse, its centre kept where the whole box stays in view.
     */
    method DragBox(mouse: IVec2, view: Option<Vec2>)
      modifies this`lastMouse, this`pos, this`alignmentNeeded
      ensures !draggable || !dragging || view.None? || mouse == old(lastMouse) ==>
        lastMouse == old(lastMouse) && pos == old(pos) && alignmentNeeded == old(alignmentNeeded)
      ensures draggable && dragging && view.Some? && mouse != old(lastMouse) ==>
        lastMouse == mouse && alignmentNeeded
        && pos == Vec2(ClampCentre(old(pos).x + (mouse.x - old(lastMouse).x) as real, width + 2.0, view.value.x),
                       ClampCentre(old(pos).y + (mouse.y - old(lastMouse).y) as real, height + 2.0, view.value.y))
    {
      if !draggable || !dragging || view.None? {
        return;
      }
      var diff := IVec2(mouse.x - lastMouse.x, mouse.y - lastMouse.y);
      if lastMouse == mouse {
        return;
      }
      lastMouse := mouse;
      var boundsWidth, boundsHeight := width + 2.0, height + 2.0;
      var newPos := Vec2(pos.x + diff.x as real, pos.y + diff.y as real);
      var validLeft, validTop := boundsWidth / 2.0, boundsHeight / 2.0;
      var validWidth, validHeight := view.value.x - boundsWidth, view.value.y - boundsHeight;
      if newPos.x < validLeft {
        newPos := newPos.(x := validLeft);
      } else if newPos.x > validLeft + validWidth {
        newPos := newPos.(x := validLeft + validWidth);
      }
      if newPos.y < validTop {
        newPos := newPos.(y := validTop);
      } else if newPos.y > validTop + validHeight {
        newPos := newPos.(y := validTop + validHeight);
      }
      SetPosition(newPos);
    }
  }

  /**
   * A title a little narrower than the smallest box is still wrapped by
   * the constructor: the width is 300 but the title is fitted to 280.
   */
  lemma NarrowTitleIsRefit(titleWidth: real, title: string)
    requires MinWidth - TextSidePadding < titleWidth <= MinWidth
    ensures TitleNeedsRefit(titleWidth, ChooseWidth(titleWidth) - TextSidePadding, title)
  {
  }

  /** A dragged box that fits in the view stays wholly inside it. */
  lemma DraggedBoxStaysInView(v: real, box: real, view: real)
    requires 0.0 <= box <= view
    ensures 0.0 <= ClampCentre(v, box, view) - box / 2.0
    ensures ClampCentre(v, box, view) + box / 2.0 <= view
  {
  }
}
