/**
 * The editing engine of a one-line text entry box, on values: a content
 * string, a selection [begin, end) and the direction the selection was
 * last grown in. Every operation of the box is a function from the old
 * state to the new one; the box class applies these functions in place.
 */
module EntryEditing {
  import opened Common

  /** The selection direction; the source encodes it as -1 / 0 / 1. */
  datatype Direction = Left | Neutral | Right

  datatype EditState = EditState(content: string, begin: nat, end: nat, dir: Direction)
  {
    /** The selection lies within the content, begin first. */
    predicate Valid()
    {
      begin <= end <= |content|
    }

    predicate Selected()
    {
      begin != end
    }
  }

  /** `std::string::erase(pos, count)`: the count is cut at the end of the string. */
  function Erase(s: string, pos: nat, count: nat): (r: string)
    requires pos <= |s|
    ensures |r| == |s| - Min(count, |s| - pos)
    ensures r[..pos] == s[..pos]
  {
    s[..pos] + s[Min(pos + count, |s|)..]
  }

  /** Moves an index by `offset` and clamps it into [0, n]. */
  function Clamp(i: int, n: nat): (r: nat)
    ensures r <= n
    ensures 0 <= i <= n ==> r == i
    ensures i < 0 ==> r == 0
    ensures i > n ==> r == n
  {
    if i < 0 then 0 else if i > n then n else i
  }

  function MoveBegin(st: EditState, offset: int): (r: EditState)
  {
    st.(begin := Clamp(st.begin + offset, |st.content|))
  }

  function MoveEnd(st: EditState, offset: int): (r: EditState)
  {
    st.(end := Clamp(st.end + offset, |st.content|))
  }

  function Swap(st: EditState): EditState
  {
    st.(begin := st.end, end := st.begin)
  }

  // ---------------------------------------------------------------
  // Word skipping
  // ---------------------------------------------------------------

  /** Steps left over the run of spaces that ends at `p`. */
  function SpacesBefore(s: string, p: nat): (r: nat)
    requires p <= |s|
    ensures r <= p
    ensures forall k :: r <= k < p ==> s[k] == ' '
    ensures r == 0 || s[r - 1] != ' '
  {
    if p > 0 && s[p - 1] == ' ' then SpacesBefore(s, p - 1) else p
  }

  /** Steps left over the run of non-spaces that ends at `p`. */
  function WordBefore(s: string, p: nat): (r: nat)
    requires p <= |s|
    ensures r <= p
    ensures forall k :: r <= k < p ==> s[k] != ' '
    ensures r == 0 || s[r - 1] == ' '
  {
    if p > 0 && s[p - 1] != ' ' then WordBefore(s, p - 1) else p
  }

  /** Steps right over the run of spaces that starts at `p`. */
  function SpacesAfter(s: string, p: nat): (r: nat)
    requires p <= |s|
    ensures p <= r <= |s|
    ensures forall k :: p <= k < r ==> s[k] == ' '
    ensures r == |s| || s[r] != ' '
    decreases |s| - p
  {
    if p < |s| && s[p] == ' ' then SpacesAfter(s, p + 1) else p
  }

  /** Steps right over the run of non-spaces that starts at `p`. */
  function WordAfter(s: string, p: nat): (r: nat)
    requires p <= |s|
    ensures p <= r <= |s|
    ensures forall k :: p <= k < r ==> s[k] != ' '
    ensures r == |s| || s[r] == ' '
    decreases |s| - p
  {
    if p < |s| && s[p] != ' ' then WordAfter(s, p + 1) else p
  }

  /** Where the caret lands on Ctrl+Left: the start of the word before `from`. */
  function PrevWordStart(s: string, from: nat): nat
    requires from <= |s|
  {
    WordBefore(s, SpacesBefore(s, from))
  }

  /** Where the caret lands on Ctrl+Right: the end of the word after `from`. */
  function NextWordEnd(s: string, from: nat): nat
    requires from <= |s|
  {
    WordAfter(s, SpacesAfter(s, from))
  }

  /**
   * The start of the previous word lies in [0, from], moves whenever it can,
   * is a word start (0, or a non-space after a space), and only a word
   * followed by spaces lies between it and `from`.
   */
  lemma PrevWordStartIsWordStart(s: string, from: nat)
    requires from <= |s|
    ensures PrevWordStart(s, from) <= from
    ensures from == 0 ==> PrevWordStart(s, from) == 0
    ensures from > 0 ==> PrevWordStart(s, from) < from
    ensures PrevWordStart(s, from) == 0 || s[PrevWordStart(s, from) - 1] == ' '
    ensures PrevWordStart(s, from) > 0 ==> s[PrevWordStart(s, from)] != ' '
    ensures forall k, j :: PrevWordStart(s, from) <= k <= j < from && s[k] == ' ' ==> s[j] == ' '
  {
    var q := SpacesBefore(s, from);
    var r := WordBefore(s, q);
    if from > 0 && s[from - 1] != ' ' {
      assert q == from;
      assert r < from;
    }
    if r > 0 {
      assert r < q;
    }
  }

  /**
   * The end of the next word lies in [from, |s|], moves whenever it can,
   * is a word end (|s|, or a space after a non-space), and only spaces
   * followed by a word lie between `from` and it.
   */
  lemma NextWordEndIsWordEnd(s: string, from: nat)
    requires from <= |s|
    ensures from <= NextWordEnd(s, from) <= |s|
    ensures from == |s| ==> NextWordEnd(s, from) == from
    ensures from < |s| ==> NextWordEnd(s, from) > from
    ensures NextWordEnd(s, from) == |s| || s[NextWordEnd(s, from)] == ' '
    ensures NextWordEnd(s, from) < |s| ==> s[NextWordEnd(s, from) - 1] != ' '
    ensures forall k, j :: from <= j <= k < NextWordEnd(s, from) && s[k] == ' ' ==> s[j] == ' '
  {
    var q := SpacesAfter(s, from);
    var r := WordAfter(s, q);
    if from < |s| && s[from] != ' ' {
      assert q == from;
      assert r > from;
    }
    if r < |s| {
      assert q < r;
    }
  }

  // ---------------------------------------------------------------
  // Selecting and moving
  // ---------------------------------------------------------------

  function SelectAll(st: EditState): (r: EditState)
    ensures r.Valid() && r.content == st.content
    ensures r.begin == 0 && r.end == |st.content| && r.dir == Neutral
  {
    EditState(st.content, 0, |st.content|, Neutral)
  }

  function UnselectAll(st: EditState): (r: EditState)
    requires st.Valid()
    ensures r.Valid() && !r.Selected() && r.content == st.content && r.begin == st.begin && r.dir == Neutral
  {
    st.(end := st.begin, dir := Neutral)
  }

  /**
   * Shift+Left: grows a neutral or leftward selection at its begin, shrinks
   * a rightward one at its end and swaps the two edges once the end crosses
   * the begin.
   */
  function SelectLeft(st: EditState, ctrl: bool): (r: EditState)
    requires st.Valid()
    ensures r.Valid() && r.content == st.content
    ensures r.begin <= st.begin && r.end <= st.end
    ensures st.dir != Right ==> r.end == st.end && r.dir == Left
    ensures st.dir == Right ==> r.begin == st.begin || r.end == st.begin
    ensures st.dir == Right && r.dir == Right ==> r.begin == st.begin
    ensures r.dir != Neutral
    ensures st.dir != Right ==>
      r.begin == (if ctrl then PrevWordStart(st.content, st.begin) else Clamp(st.begin - 1, |st.content|))
    ensures st.dir == Right ==>
      var e := if ctrl then PrevWordStart(st.content, st.end) else Clamp(st.end - 1, |st.content|);
      if e < st.begin then r.begin == e && r.end == st.begin && r.dir == Left
      else r.begin == st.begin && r.end == e && r.dir == Right
  {
    if st.dir != Right then
      var moved := if ctrl then st.(begin := PrevWordStart(st.content, st.begin)) else MoveBegin(st, -1);
      moved.(dir := Left)
    else
      var moved := if ctrl then st.(end := PrevWordStart(st.content, st.end)) else MoveEnd(st, -1);
      if moved.end < moved.begin then Swap(moved).(dir := Left) else moved
  }

  /**
   * Shift+Right: grows a neutral or rightward selection at its end, shrinks
   * a leftward one at its begin and swaps the two edges once the begin
   * crosses the end.
   */
  function SelectRight(st: EditState, ctrl: bool): (r: EditState)
    requires st.Valid()
    ensures r.Valid() && r.content == st.content
    ensures r.begin >= st.begin && r.end >= st.end
    ensures st.dir != Left ==> r.begin == st.begin && r.dir == Right
    ensures st.dir == Left ==> r.end == st.end || r.begin == st.end
    ensures st.dir == Left && r.dir == Left ==> r.end == st.end
    ensures r.dir != Neutral
    ensures st.dir != Left ==>
      r.end == (if ctrl then NextWordEnd(st.content, st.end) else Clamp(st.end + 1, |st.content|))
    ensures st.dir == Left ==>
      var b := if ctrl then NextWordEnd(st.content, st.begin) else Clamp(st.begin + 1, |st.content|);
      if st.end < b then r.begin == st.end && r.end == b && r.dir == Right
      else r.begin == b && r.end == st.end && r.dir == Left
  {
    PrevNextBounds(st.content, st.begin);
    PrevNextBounds(st.content, st.end);
    if st.dir != Left then
      var moved := if ctrl then st.(end := NextWordEnd(st.content, st.end)) else MoveEnd(st, 1);
      moved.(dir := Right)
    else
      var moved := if ctrl then st.(begin := NextWordEnd(st.content, st.begin)) else MoveBegin(st, 1);
      if moved.end < moved.begin then Swap(moved).(dir := Right) else moved
  }

  lemma PrevNextBounds(s: string, from: nat)
    requires from <= |s|
    ensures PrevWordStart(s, from) <= from <= NextWordEnd(s, from) <= |s|
  {
  }

  /**
   * Left arrow: with Ctrl the caret jumps to the previous word start;
   * otherwise a selection collapses to its begin and a bare caret steps
   * back one unless it is at 0. The selection always ends up empty.
   */
  function MoveLeft(st: EditState, ctrl: bool): (r: EditState)
    requires st.Valid()
    ensures r.Valid() && r.content == st.content && !r.Selected() && r.dir == Neutral
    ensures ctrl ==> r.begin == PrevWordStart(st.content, st.begin)
    ensures !ctrl && st.Selected() ==> r.begin == st.begin
    ensures !ctrl && !st.Selected() ==> r.begin == Max(st.begin - 1, 0)
  {
    var moved :=
      if ctrl then st.(begin := PrevWordStart(st.content, st.begin))
      else if !st.Selected() && st.begin > 0 then MoveBegin(st, -1)
      else st;
    moved.(end := moved.begin, dir := Neutral)
  }

  /**
   * Right arrow: when `jump` (Ctrl held without V) the caret goes to the end
   * of the next word after the begin; otherwise a selection collapses to
   * its end and a bare caret steps forward one unless it is at the end.
   */
  function MoveRight(st: EditState, jump: bool): (r: EditState)
    requires st.Valid()
    ensures r.Valid() && r.content == st.content && !r.Selected() && r.dir == Neutral
    ensures jump ==> r.begin == NextWordEnd(st.content, st.begin)
    ensures !jump && st.Selected() ==> r.begin == st.end
    ensures !jump && !st.Selected() ==> r.begin == Min(st.begin + 1, |st.content|)
  {
    PrevNextBounds(st.content, st.begin);
    if jump then
      var b := NextWordEnd(st.content, st.begin);
      st.(begin := b, end := b, dir := Neutral)
    else if st.Selected() then
      st.(begin := st.end, dir := Neutral)
    else if st.begin < |st.content| then
      var moved := MoveBegin(st, 1);
      moved.(end := moved.begin, dir := Neutral)
    else
      st.(dir := Neutral)
  }

  // ---------------------------------------------------------------
  // Deleting, inserting and reading
  // ---------------------------------------------------------------

  /** The index a Backspace without a selection erases: the caret after one Shift+Left. */
  function BackspaceIndex(st: EditState, ctrl: bool): nat
    requires st.Valid()
  {
    if ctrl then PrevWordStart(st.content, st.begin) else Max(st.begin - 1, 0)
  }

  /**
   * Deleting: nothing on an empty string; a selection [begin, end) is
   * erased; without one the box first does a Shift+Left and then erases the
   * single character at the new begin. The caret ends up where the erased
   * text started.
   */
  function DeleteSelection(st: EditState, ctrl: bool): (r: EditState)
    requires st.Valid()
    ensures r.Valid()
    ensures st.content == [] ==> r == st
    ensures st.content != [] && st.Selected() ==>
      r == EditState(st.content[..st.begin] + st.content[st.end..], st.begin, st.begin, Neutral)
    ensures st.content != [] && !st.Selected() ==>
      var i := BackspaceIndex(st, ctrl);
      i < |st.content| && r == EditState(st.content[..i] + st.content[i + 1..], i, i, Neutral)
  {
    if st.content == [] then st
    else if st.Selected() then
      EditState(Erase(st.content, st.begin, st.end - st.begin), st.begin, st.begin, Neutral)
    else
      var moved := SelectLeft(st, ctrl);
      PrevWordStartIsWordStart(st.content, st.begin);
      assert moved.begin == BackspaceIndex(st, ctrl) && moved.content == st.content && moved.begin < |st.content|;
      EditState(Erase(moved.content, moved.begin, 1), moved.begin, moved.begin, Neutral)
  }

  /**
   * Characters 32 to 255 are typed into the box while it holds fewer than
   * `maxChars`: an accepted code is neither Backspace nor a control
   * character, and one more character still fits.
   */
  predicate ValidInsertion(unicode: nat, length: nat, maxChars: nat)
    ensures ValidInsertion(unicode, length, maxChars) ==>
      length + 1 <= maxChars && unicode != 8 && forall c :: c in ControlChars ==> c as nat != unicode
  {
    32 <= unicode <= 255 && length < maxChars
  }

  /** Typing one character: spliced in at the begin when it fits, then the caret moves right. */
  function InsertChar(st: EditState, c: char, maxChars: nat, jump: bool): (r: EditState)
    requires st.Valid()
    ensures r.Valid()
    ensures |st.content| + 1 > maxChars ==> r == st
    ensures |st.content| + 1 <= maxChars ==>
      r.content == st.content[..st.begin] + [c] + st.content[st.begin..] && !r.Selected() && r.dir == Neutral
    ensures |st.content| + 1 <= maxChars && !jump ==> r.begin == st.begin + 1
  {
    if |st.content| + 1 > maxChars then st
    else
      var s := st.content[..st.begin] + [c] + st.content[st.begin..];
      MoveRight(EditState(s, st.begin, st.begin, Neutral), jump)
  }

  /** Line breaks, tabs and carriage returns never enter the box. */
  const ControlChars: set<char> := {'\n', '\t', '\r'}

  /**
   * The part of a pasted text that is inserted: control characters are
   * dropped and, when the result would exceed `maxChars`, the text is cut to
   * `maxChars - length` characters, a size_t difference that wraps when the
   * box already holds more than `maxChars`.
   */
  function Admitted(text: string, length: nat, maxChars: nat): (r: string)
    ensures |r| <= |Remove(text, ControlChars)| && r == Remove(text, ControlChars)[..|r|]
    ensures length <= maxChars < SizeModulus ==> |r| == Min(|Remove(text, ControlChars)|, maxChars - length)
    ensures maxChars < length && |text| + length <= SizeModulus ==> r == Remove(text, ControlChars)
  {
    var t := Remove(text, ControlChars);
    if |t| + length > maxChars then t[..Min(SizeT(maxChars - length), |t|)] else t
  }

  /**
   * Pasting: nothing when no character survives the filter; otherwise the
   * admitted text is spliced in at the begin and the caret is placed after it.
   */
  function InsertText(st: EditState, text: string, maxChars: nat): (r: EditState)
    requires st.Valid()
    ensures r.Valid()
    ensures Remove(text, ControlChars) == [] ==> r == st
    ensures Remove(text, ControlChars) != [] ==>
      var a := Admitted(text, |st.content|, maxChars);
      r == EditState(st.content[..st.begin] + a + st.content[st.begin..], st.begin + |a|, st.begin + |a|, Neutral)
  {
    if Remove(text, ControlChars) == [] then st
    else
      var a := Admitted(text, |st.content|, maxChars);
      var s := st.content[..st.begin] + a + st.content[st.begin..];
      EditState(s, st.begin + |a|, st.begin + |a|, Neutral)
  }

  /**
   * The caret the paste code computes: `begin + length - 1` in size_t, then
   * one step right unless that index is already at or past the end.
   */
  function AsWrittenInsertCaret(begin: nat, length: nat, newSize: nat): (r: nat)
    ensures r < SizeModulus || r == SizeT(begin + length - 1) + 1
  {
    var c := SizeT(begin + length - 1);
    if c < newSize then c + 1 else c
  }

  /** Whenever something is inserted or the caret is not at 0, the paste code's caret is the one the model uses. */
  lemma AsWrittenInsertCaretAgrees(begin: nat, length: nat, newSize: nat)
    requires begin + length <= newSize < SizeModulus
    requires begin > 0 || length > 0
    ensures AsWrittenInsertCaret(begin, length, newSize) == begin + length
  {
  }

  /**
   * A paste into a full box (nothing admitted) with the caret at 0 leaves
   * the caret at SIZE_MAX, far past the end of the content.
   */
  lemma AsWrittenInsertCaretUnderflows(st: EditState, text: string, maxChars: nat)
    requires st.Valid() && st.begin == 0 && |st.content| == maxChars < SizeModulus - 1
    requires Remove(text, ControlChars) != []
    ensures Admitted(text, |st.content|, maxChars) == []
    ensures AsWrittenInsertCaret(st.begin, 0, |st.content|) == SizeModulus - 1 > |st.content|
  {
  }

  /**
   * What a typed character does: a selection is deleted first unless Ctrl
   * is held; Backspace (8) then deletes once more; a valid character deletes
   * a selection that survived and is inserted.
   */
  function HandleInput(st: EditState, unicode: nat, ctrl: bool, maxChars: nat, jump: bool): (r: EditState)
    requires st.Valid()
    ensures r.Valid()
    ensures |r.content| <= |st.content| + 1
    ensures |r.content| > |st.content| ==> ValidInsertion(unicode, |st.content|, maxChars) && |r.content| <= maxChars
    ensures unicode == 8 && st.content != [] ==> |r.content| < |st.content|
  {
    var st1 := if st.Selected() && !ctrl then DeleteSelection(st, ctrl) else st;
    if unicode == 8 then DeleteSelection(st1, ctrl)
    else if ValidInsertion(unicode, |st1.content|, maxChars) then
      var st2 := if st1.Selected() then DeleteSelection(st1, ctrl) else st1;
      InsertChar(st2, unicode as char, maxChars, jump)
    else st1
  }

  /** The content left once the selection is deleted (the content itself without one). */
  function WithoutSelection(st: EditState): string
    requires st.Valid()
  {
    if st.Selected() then st.content[..st.begin] + st.content[st.end..] else st.content
  }

  /**
   * A printable character typed without Ctrl replaces the selection: it is
   * spliced in at the begin and the caret ends right after it; when the box
   * is full, only the selection is deleted.
   */
  lemma TypedCharacterReplacesSelection(st: EditState, unicode: nat, maxChars: nat)
    requires st.Valid() && 32 <= unicode <= 255
    ensures var r := HandleInput(st, unicode, false, maxChars, false);
      var d := WithoutSelection(st);
      if |d| < maxChars then
        r.content == d[..st.begin] + [unicode as char] + d[st.begin..]
        && r.begin == r.end == st.begin + 1 && r.dir == Neutral
      else
        r.content == d && r.begin == r.end == st.begin
  {
  }

  /**
   * A code that is neither Backspace nor printable only deletes the
   * selection, and only when Ctrl is not held.
   */
  lemma OtherCodeOnlyDeletesSelection(st: EditState, unicode: nat, ctrl: bool, maxChars: nat, jump: bool)
    requires st.Valid() && unicode != 8 && !(32 <= unicode <= 255)
    ensures HandleInput(st, unicode, ctrl, maxChars, jump) ==
      if st.Selected() && !ctrl then DeleteSelection(st, false) else st
  {
  }

  /**
   * Backspace over a selection without Ctrl deletes twice: the selection
   * and then the character just before it.
   */
  lemma BackspaceOverSelectionErasesOneMore(st: EditState, maxChars: nat, jump: bool)
    requires st.Valid() && st.Selected() && st.begin > 0
    ensures var r := HandleInput(st, 8, false, maxChars, jump);
      r.content == st.content[..st.begin - 1] + st.content[st.end..]
      && r.begin == r.end == st.begin - 1
  {
    var s := st.content;
    var st1 := DeleteSelection(st, false);
    var b := st.begin;
    assert st1.content == s[..b] + s[st.end..];
    var st2 := DeleteSelection(st1, false);
    assert st2.content == st1.content[..b - 1] + st1.content[b..];
    assert st1.content[..b - 1] == s[..b - 1];
    assert st1.content[b..] == s[st.end..];
  }

  /** Backspace with the caret at 0 and no selection erases the first character. */
  lemma BackspaceAtStartErasesFirst(st: EditState, ctrl: bool, maxChars: nat, jump: bool)
    requires st.Valid() && st.begin == 0 && !st.Selected() && st.content != []
    ensures HandleInput(st, 8, ctrl, maxChars, jump) == EditState(st.content[1..], 0, 0, Neutral)
  {
    PrevWordStartIsWordStart(st.content, 0);
  }

  /** The copy text: `substr(begin, end)`, whose second argument is a count, not an index. */
  function GetSelection(st: EditState): (r: string)
    requires st.Valid()
    ensures |r| <= |st.content| - st.begin
  {
    st.content[st.begin..Min(st.begin + st.end, |st.content|)]
  }

  /** The copy text is the selected range exactly when the selection starts at 0 or runs to the end. */
  lemma GetSelectionIsRangeIff(st: EditState)
    requires st.Valid()
    ensures GetSelection(st) == st.content[st.begin..st.end] <==> st.begin == 0 || st.end == |st.content|
  {
    if GetSelection(st) == st.content[st.begin..st.end] {
      assert |GetSelection(st)| == st.end - st.begin;
    }
  }

  /** The caret lands at the end of the content when the box is built. */
  function Initial(content: string, jump: bool): (r: EditState)
    ensures r.Valid() && r.content == content && !r.Selected()
    ensures !jump ==> r.begin == |content|
  {
    MoveRight(SelectAll(EditState(content, 0, 0, Neutral)), jump)
  }

  /** A paste never makes a box that fits its limit overflow it. */
  lemma InsertTextRespectsLimit(st: EditState, text: string, maxChars: nat)
    requires st.Valid() && |st.content| <= maxChars
    ensures |InsertText(st, text, maxChars).content| <= maxChars
  {
  }

  // ---------------------------------------------------------------
  // Worked examples
  // ---------------------------------------------------------------

  /** Ctrl+Right on "foo bar  baz" stops at the end of each word, skipping both spaces before "baz". */
  lemma NextWordEndExamples()
    ensures NextWordEnd("foo bar  baz", 0) == 3
    ensures NextWordEnd("foo bar  baz", 4) == 7
    ensures NextWordEnd("foo bar  baz", 7) == 12
  {
    var s := "foo bar  baz";
    assert s[3] == ' ' && s[7] == ' ' && s[8] == ' ';
    assert SpacesAfter(s, 7) == SpacesAfter(s, 9) == 9;
  }

  /** Pasting "xyz" into "abcd" with a limit of 5 admits only "x". */
  lemma InsertionCapExample()
    ensures InsertText(EditState("abcd", 4, 4, Neutral), "xyz", 5) == EditState("abcdx", 5, 5, Neutral)
  {
    var t := "xyz";
    assert Remove(t, ControlChars) == t by {
      assert Remove(t[2..], ControlChars) == t[2..];
      assert Remove(t[1..], ControlChars) == t[1..];
    }
    assert Admitted(t, 4, 5) == "x";
  }

  /** Backspace with the caret at the end of "test" erases the "t" and leaves the caret at 3. */
  lemma BackspaceExample(maxChars: nat, jump: bool)
    ensures HandleInput(EditState("test", 4, 4, Neutral), 8, false, maxChars, jump) == EditState("tes", 3, 3, Neutral)
  {
    assert "test"[..3] + "test"[4..] == "tes";
  }

  /** Typing 'x' over "hello" with everything selected leaves "x" with the caret after it. */
  lemma SelectAllThenTypeExample(maxChars: nat)
    requires maxChars >= 1
    ensures HandleInput(SelectAll(EditState("hello", 0, 0, Neutral)), 'x' as nat, false, maxChars, false)
      == EditState("x", 1, 1, Neutral)
  {
    var st := SelectAll(EditState("hello", 0, 0, Neutral));
    assert WithoutSelection(st) == [];
    TypedCharacterReplacesSelection(st, 'x' as nat, maxChars);
  }

  /** `n` presses of Shift+Right without Ctrl: the selection stays within the content. */
  function SelectRightTimes(st: EditState, n: nat): (r: EditState)
    requires st.Valid()
    ensures r.Valid() && r.content == st.content && r.end <= |st.content|
    decreases n
  {
    if n == 0 then st else SelectRightTimes(SelectRight(st, false), n - 1)
  }

  /**
   * Growing a selection rightwards, enough presses of Shift+Right take the
   * end exactly to the end of the content and no further.
   */
  lemma {:induction false} SelectRightReachesEnd(st: EditState, n: nat)
    requires st.Valid() && st.dir != Left && n >= |st.content| - st.end
    ensures SelectRightTimes(st, n).end == |st.content|
    ensures SelectRightTimes(st, n).begin == st.begin
    decreases n
  {
    if n > 0 {
      var next := SelectRight(st, false);
      assert next.end == Min(st.end + 1, |st.content|) && next.dir == Right;
      SelectRightReachesEnd(next, n - 1);
    }
  }
}
