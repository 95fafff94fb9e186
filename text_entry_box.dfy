/**
 * The text entry box: the editing state of EntryEditing held in fields and
 * updated in place, plus the active / always-active flags, the edge-triggered
 * "input complete" flag and the last committed string. The keyboard is
 * polled by the source; here the keys held down arrive as a `Keys` value and
 * the clipboard as a parameter (read) or a result (written).
 */
module TextEntryBox {
  import opened Common
  import opened EntryEditing

  /** The keys the box polls while it handles an event. */
  datatype Keys = Keys(lctrl: bool, lshift: bool, left: bool, right: bool,
                       a: bool, c: bool, x: bool, v: bool)

  datatype Key = Return | OtherKey

  datatype Event = KeyPressed(key: Key) | TextEntered(unicode: nat) | OtherEvent

  /** The right arrow jumps a word when Ctrl is held, but not while pasting with Ctrl+V. */
  function Jump(keys: Keys): bool
  {
    keys.lctrl && !keys.v
  }

  /** The text that receives a paste: the selection, if any, is deleted first. */
  function BeforePaste(st: EditState, ctrl: bool): (r: EditState)
    requires st.Valid()
    ensures r.Valid() && !r.Selected() && r.begin == st.begin
  {
    if st.Selected() then DeleteSelection(st, ctrl) else st
  }

  /**
   * A key press other than Return, dispatched on the keys held in the
   * source's order of tests; the second component is what is written to
   * the clipboard, if anything.
   */
  function KeyPress(st: EditState, keys: Keys, clipboard: string, maxChars: nat): (r: (EditState, Option<string>))
    requires st.Valid()
    ensures r.0.Valid()
    ensures r.1.Some? <==> keys.lctrl && (keys.c || keys.x) && !(keys.lshift && (keys.left || keys.right)) && !keys.a
    ensures r.1.Some? ==> r.1.value == GetSelection(st)
  {
    if keys.lshift && keys.left then (SelectLeft(st, keys.lctrl), None)
    else if keys.lshift && keys.right then (SelectRight(st, keys.lctrl), None)
    else if keys.lctrl && keys.a then (SelectAll(st), None)
    else if keys.lctrl && keys.c then (st, Some(GetSelection(st)))
    else if keys.lctrl && keys.x then (BeforePaste(st, keys.lctrl), Some(GetSelection(st)))
    else if keys.lctrl && keys.v then (InsertText(BeforePaste(st, keys.lctrl), clipboard, maxChars), None)
    else if keys.left then (MoveLeft(st, keys.lctrl), None)
    else if keys.right then (MoveRight(st, Jump(keys)), None)
    else (st, None)
  }

  /** Cutting removes exactly the selected range and hands the copy text to the clipboard. */
  lemma CutRemovesSelection(st: EditState, keys: Keys, clipboard: string, maxChars: nat)
    requires st.Valid() && st.Selected()
    requires keys.lctrl && keys.x && !keys.c && !keys.a && !keys.lshift
    ensures KeyPress(st, keys, clipboard, maxChars).0.content == st.content[..st.begin] + st.content[st.end..]
    ensures KeyPress(st, keys, clipboard, maxChars).1 == Some(GetSelection(st))
  {
  }

  class TextEntryBox {
    var content: string
    var selectionBegin: nat
    var selectionEnd: nat
    var selectionDirection: Direction
    var enteringText: bool
    var inputComplete: bool
    var alwaysVisible: bool
    var alwaysActive: bool
    var lastString: string
    var maxChars: nat

    /** The editing part of the state, as a value. */
    function Editing(): EditState
      reads this
    {
      EditState(content, selectionBegin, selectionEnd, selectionDirection)
    }

    predicate Valid()
      reads this
    {
      Editing().Valid() && maxChars < UIntModulus
    }

    /** A new box holds `str` with everything selected and then one Right arrow applied. */
    constructor (str: string, keys: Keys)
      ensures Valid() && Editing() == Initial(str, Jump(keys))
      ensures !enteringText && !inputComplete && !alwaysVisible && !alwaysActive
      ensures lastString == [] && maxChars == 255
    {
      content := str;
      selectionBegin, selectionEnd, selectionDirection := 0, 0, Neutral;
      enteringText, inputComplete := false, false;
      alwaysVisible, alwaysActive := false, false;
      lastString := [];
      maxChars := 255;
      new;
      SelectAll();
      MoveRight(Jump(keys));
    }

    method SetMaxChars(i: nat)
      requires Valid() && i < UIntModulus
      modifies this`maxChars
      ensures Valid() && maxChars == i
    {
      maxChars := i;
    }

    method SetAlwaysVisible(b: bool)
      modifies this`alwaysVisible
      ensures alwaysVisible == b
    {
      alwaysVisible := b;
    }

    method SetAlwaysActive(b: bool)
      modifies this`alwaysActive
      ensures alwaysActive == b
    {
      alwaysActive := b;
    }

    /** Switches text entry on or off. */
    method SetActive(b: bool)
      modifies this`enteringText
      ensures enteringText == b
    {
      enteringText := b;
    }

    /** An always-active box is switched on at every update; the drawing side of update is not modelled. */
    method Update()
      modifies this`enteringText
      ensures enteringText == (old(enteringText) || alwaysActive)
    {
      if alwaysActive {
        enteringText := true;
      }
    }

    /** Reports a commit once: the flag is cleared as it is read. */
    method InputComplete() returns (complete: bool)
      modifies this`inputComplete
      ensures complete == old(inputComplete) && !inputComplete
    {
      if inputComplete {
        inputComplete := false;
        return true;
      }
      return false;
    }

    function SequenceSelected(): (r: bool)
      reads this
      ensures r == Editing().Selected()
    {
      selectionBegin != selectionEnd
    }

    method SelectAll()
      modifies this`selectionBegin, this`selectionEnd, this`selectionDirection
      ensures Editing() == EntryEditing.SelectAll(old(Editing()))
    {
      selectionBegin := 0;
      selectionEnd := |content|;
      selectionDirection := Neutral;
    }

    method UnselectAll()
      requires Valid()
      modifies this`selectionEnd, this`selectionDirection
      ensures Valid() && Editing() == EntryEditing.UnselectAll(old(Editing()))
    {
      selectionEnd := selectionBegin;
      selectionDirection := Neutral;
    }

    /** Moves the selection begin by `offset`, clamped into [0, |content|]. */
    method MoveSelectionBegin(offset: int)
      modifies this`selectionBegin
      ensures Editing() == MoveBegin(old(Editing()), offset)
    {
      var d := selectionBegin + offset;
      if d < 0 {
        selectionBegin := 0;
        return;
      } else if d > |content| {
        selectionBegin := |content|;
        return;
      }
      selectionBegin := d;
    }

    /** Moves the selection end by `offset`, clamped into [0, |content|]. */
    method MoveSelectionEnd(offset: int)
      modifies this`selectionEnd
      ensures Editing() == MoveEnd(old(Editing()), offset)
    {
      var d := selectionEnd + offset;
      if d < 0 {
        selectionEnd := 0;
        return;
      } else if d > |content| {
        selectionEnd := |content|;
        return;
      }
      selectionEnd := d;
    }

    method SwapBeginAndEnd()
      modifies this`selectionBegin, this`selectionEnd
      ensures Editing() == Swap(old(Editing()))
    {
      var t := selectionEnd;
      selectionEnd := selectionBegin;
      selectionBegin := t;
    }

    /** Walks left over the spaces and then the word before `from`. */
    method PosAtPreviousWord(from: nat) returns (pos: nat)
      requires from <= |content|
      ensures pos == PrevWordStart(content, from)
    {
      pos := from;
      if pos == 0 {
        return;
      }
      if content[pos - 1] == ' ' {
        while pos > 0 && content[pos - 1] == ' '
          invariant pos <= from
          invariant SpacesBefore(content, pos) == SpacesBefore(content, from)
        {
          pos := pos - 1;
        }
      }
      while pos > 0 && content[pos - 1] != ' '
        invariant pos <= from
        invariant WordBefore(content, pos) == PrevWordStart(content, from)
      {
        pos := pos - 1;
      }
    }

    /** Walks right over the spaces and then the word after `from`. */
    method PosAtNextWord(from: nat) returns (pos: nat)
      requires from <= |content|
      ensures pos == NextWordEnd(content, from)
    {
      pos := from;
      if pos == |content| {
        return;
      }
      if content[pos] == ' ' {
        while pos < |content| && content[pos] == ' '
          invariant from <= pos <= |content|
          invariant SpacesAfter(content, pos) == SpacesAfter(content, from)
        {
          pos := pos + 1;
        }
      }
      while pos < |content| && content[pos] != ' '
        invariant from <= pos <= |content|
        invariant WordAfter(content, pos) == NextWordEnd(content, from)
      {
        pos := pos + 1;
      }
    }

    method SelectLeft(ctrl: bool)
      requires Valid()
      modifies this`selectionBegin, this`selectionEnd, this`selectionDirection
      ensures Valid() && Editing() == EntryEditing.SelectLeft(old(Editing()), ctrl)
    {
      if selectionDirection == Neutral || selectionDirection == Left {
        if ctrl {
          selectionBegin := PosAtPreviousWord(selectionBegin);
        } else {
          MoveSelectionBegin(-1);
        }
        selectionDirection := Left;
      } else {
        if ctrl {
          selectionEnd := PosAtPreviousWord(selectionEnd);
        } else {
          MoveSelectionEnd(-1);
        }
        if selectionEnd < selectionBegin {
          SwapBeginAndEnd();
          selectionDirection := Left;
        }
      }
    }

    method SelectRight(ctrl: bool)
      requires Valid()
      modifies this`selectionBegin, this`selectionEnd, this`selectionDirection
      ensures Valid() && Editing() == EntryEditing.SelectRight(old(Editing()), ctrl)
    {
      if selectionDirection == Neutral || selectionDirection == Right {
        if ctrl {
          selectionEnd := PosAtNextWord(selectionEnd);
        } else {
          MoveSelectionEnd(1);
        }
        selectionDirection := Right;
      } else {
        if ctrl {
          selectionBegin := PosAtNextWord(selectionBegin);
        } else {
          MoveSelectionBegin(1);
        }
        if selectionEnd < selectionBegin {
          SwapBeginAndEnd();
          selectionDirection := Right;
        }
      }
    }

    method MoveLeft(ctrl: bool)
      requires Valid()
      modifies this`selectionBegin, this`selectionEnd, this`selectionDirection
      ensures Valid() && Editing() == EntryEditing.MoveLeft(old(Editing()), ctrl)
    {
      if ctrl {
        selectionBegin := PosAtPreviousWord(selectionBegin);
      } else if !SequenceSelected() && selectionBegin > 0 {
        MoveSelectionBegin(-1);
      }
      selectionEnd := selectionBegin;
      selectionDirection := Neutral;
    }

    method MoveRight(jump: bool)
      requires Valid()
      modifies this`selectionBegin, this`selectionEnd, this`selectionDirection
      ensures Valid() && Editing() == EntryEditing.MoveRight(old(Editing()), jump)
    {
      if jump {
        selectionBegin := PosAtNextWord(selectionBegin);
        selectionEnd := selectionBegin;
      } else if SequenceSelected() {
        selectionBegin := selectionEnd;
      } else if selectionBegin < |content| {
        MoveSelectionBegin(1);
        selectionEnd := selectionBegin;
      }
      selectionDirection := Neutral;
    }

    method DeleteSelection(ctrl: bool)
      requires Valid()
      modifies this`content, this`selectionBegin, this`selectionEnd, this`selectionDirection
      ensures Valid() && Editing() == EntryEditing.DeleteSelection(old(Editing()), ctrl)
    {
      if content == [] {
        return;
      }
      var newString := content;
      if SequenceSelected() {
        newString := Erase(newString, selectionBegin, selectionEnd - selectionBegin);
      } else {
        SelectLeft(ctrl);
        newString := Erase(newString, selectionBegin, 1);
      }
      selectionEnd := selectionBegin;
      selectionDirection := Neutral;
      content := newString;
    }

    function GetSelection(): (r: string)
      reads this
      requires Valid()
      ensures r == EntryEditing.GetSelection(Editing())
    {
      content[selectionBegin..Min(selectionBegin + selectionEnd, |content|)]
    }

    function ValidInsertion(unicode: nat): (r: bool)
      reads this
      ensures r == EntryEditing.ValidInsertion(unicode, |content|, maxChars)
    {
      32 <= unicode <= 255 && |content| < maxChars
    }

    /** Pastes `text`; the caret is placed after the inserted part (see the paste finding). */
    method InsertText(text: string)
      requires Valid()
      modifies this`content, this`selectionBegin, this`selectionEnd, this`selectionDirection
      ensures Valid() && Editing() == EntryEditing.InsertText(old(Editing()), text, maxChars)
    {
      var str := Remove(text, ControlChars);
      if str == [] {
        return;
      }
      var currentLength := |content|;
      var combinedLength := |str| + currentLength;
      if combinedLength > maxChars {
        str := str[..Min(SizeT(maxChars - currentLength), |str|)];
      }
      content := content[..selectionBegin] + str + content[selectionBegin..];
      selectionEnd := selectionBegin + |str|;
      selectionBegin := selectionEnd;
      selectionDirection := Neutral;
    }

    method InsertChar(c: char, jump: bool)
      requires Valid()
      modifies this`content, this`selectionBegin, this`selectionEnd, this`selectionDirection
      ensures Valid() && Editing() == EntryEditing.InsertChar(old(Editing()), c, maxChars, jump)
    {
      var newLength := |content| + 1;
      if newLength > maxChars {
        return;
      }
      content := content[..selectionBegin] + [c] + content[selectionBegin..];
      selectionEnd := selectionBegin;
      selectionDirection := Neutral;
      MoveRight(jump);
    }

    method ClearText()
      modifies this`content, this`selectionBegin, this`selectionEnd, this`selectionDirection
      ensures Editing() == EditState([], 0, 0, Neutral)
    {
      selectionBegin, selectionEnd, selectionDirection := 0, 0, Neutral;
      content := [];
    }

    /** A character typed into an active box. */
    method HandleInput(unicode: nat, keys: Keys)
      requires Valid()
      modifies this`content, this`selectionBegin, this`selectionEnd, this`selectionDirection
      ensures Valid()
      ensures Editing() == EntryEditing.HandleInput(old(Editing()), unicode, keys.lctrl, maxChars, Jump(keys))
    {
      if SequenceSelected() && !keys.lctrl {
        DeleteSelection(keys.lctrl);
      }
      if unicode == 8 {
        DeleteSelection(keys.lctrl);
      } else if ValidInsertion(unicode) {
        if SequenceSelected() {
          DeleteSelection(keys.lctrl);
        }
        InsertChar(unicode as char, Jump(keys));
      }
    }

    /**
     * One event. Return in an active, non-empty box commits: the flag is
     * raised, the content becomes the last string and, unless the box is
     * always active, the content is cleared. Other key presses edit the
     * content whether or not the box is active; typed text reaches only an
     * active box. The result is the new clipboard text, if any was copied.
     */
    method GetInput(event: Event, keys: Keys, clipboard: string) returns (copied: Option<string>)
      requires Valid()
      modifies this`content, this`selectionBegin, this`selectionEnd, this`selectionDirection,
               this`inputComplete, this`lastString
      ensures Valid()
      ensures event == KeyPressed(Return) ==>
        var commit := enteringText && old(content) != [];
        inputComplete == (commit || old(inputComplete))
        && lastString == (if commit then old(content) else old(lastString))
        && Editing() == (if commit && !alwaysActive then EditState([], 0, 0, Neutral) else old(Editing()))
        && copied == None
      ensures event == KeyPressed(OtherKey) ==>
        (Editing(), copied) == KeyPress(old(Editing()), keys, clipboard, maxChars)
        && inputComplete == old(inputComplete) && lastString == old(lastString)
      ensures !event.KeyPressed? ==>
        Editing() == (if event.TextEntered? && enteringText
                      then EntryEditing.HandleInput(old(Editing()), event.unicode, keys.lctrl, maxChars, Jump(keys))
                      else old(Editing()))
        && inputComplete == old(inputComplete) && lastString == old(lastString) && copied == None
    {
      copied := None;
      match event
      case KeyPressed(key) =>
        if key == Return {
          if enteringText && content != [] {
            inputComplete := true;
            lastString := content;
            if !alwaysActive {
              ClearText();
            }
          }
        } else if keys.lshift && keys.left {
          SelectLeft(keys.lctrl);
        } else if keys.lshift && keys.right {
          SelectRight(keys.lctrl);
        } else if keys.lctrl && keys.a {
          SelectAll();
        } else if keys.lctrl && keys.c {
          copied := Some(GetSelection());
        } else if keys.lctrl && keys.x {
          copied := Some(GetSelection());
          if SequenceSelected() {
            DeleteSelection(keys.lctrl);
          }
        } else if keys.lctrl && keys.v {
          if SequenceSelected() {
            DeleteSelection(keys.lctrl);
          }
          InsertText(clipboard);
        } else if keys.left {
          MoveLeft(keys.lctrl);
        } else if keys.right {
          MoveRight(Jump(keys));
        }
      case TextEntered(unicode) =>
        if enteringText {
          HandleInput(unicode, keys);
        }
      case OtherEvent =>
    }
  }
}
