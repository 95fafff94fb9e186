/**
 * The string helpers the message and prompt widgets share: searching for a
 * character, stripping line breaks with a find/erase loop, and the greedy
 * line wrap that inserts a break before every character that would reach
 * the target width.
 */
module TextLayout {
  import opened Common

  /** A message: a sender or heading and the text itself. */
  datatype Message = Message(title: string, content: string)

  /**
   * The texts the message widgets build are kept below this length, so that
   * no index sum they compute (a segment end plus the line breaks inside
   * it) comes near SIZE_MAX.
   */
  const LengthBound: nat := 0x1000_0000_0000_0000  // SizeModulus / 16

  /** `s` holds no line break. */
  predicate NoBreaks(s: string)
  {
    forall k :: 0 <= k < |s| ==> s[k] != '\n'
  }

  /** `std::string::find` for one character from `from` on; `None` is `npos`. */
  function Find(s: string, c: char, from: nat): (r: Option<nat>)
    ensures r.Some? ==> from <= r.value < |s| && s[r.value] == c
    ensures r.Some? ==> forall k :: from <= k < r.value ==> s[k] != c
    ensures r.None? ==> forall k :: from <= k < |s| ==> s[k] != c
    decreases |s| - from
  {
    if from >= |s| then None
    else if s[from] == c then Some(from)
    else Find(s, c, from + 1)
  }

  /** Erasing one line break leaves the text without line breaks unchanged. */
  lemma EraseNewline(t: string, p: nat)
    requires p < |t| && t[p] == '\n'
    ensures Remove(t[..p] + t[p + 1..], {'\n'}) == Remove(t, {'\n'})
  {
    assert t == t[..p] + ([t[p]] + t[p + 1..]);
    RemoveAppend(t[..p], [t[p]] + t[p + 1..], {'\n'});
    RemoveAppend([t[p]], t[p + 1..], {'\n'});
    RemoveAppend(t[..p], t[p + 1..], {'\n'});
  }

  /**
   * removeNewlines: find the first line break, erase it and search again
   * from the same index, until none is left.
   */
  method RemoveNewlines(s: string) returns (t: string)
    ensures t == Remove(s, {'\n'})
  {
    t := s;
    var i := Find(t, '\n', 0);
    while i.Some?
      invariant Remove(t, {'\n'}) == Remove(s, {'\n'})
      invariant i.Some? ==> i.value < |t| && t[i.value] == '\n'
      invariant i.Some? ==> forall k :: 0 <= k < i.value ==> t[k] != '\n'
      invariant i.None? ==> forall k :: 0 <= k < |t| ==> t[k] != '\n'
      decreases |t|
    {
      var p := i.value;
      EraseNewline(t, p);
      t := t[..p] + t[p + 1..];
      i := Find(t, '\n', p);
    }
  }

  /**
   * The greedy wrap of `s`. `lineWidth` is the width of the line so far and
   * `at` the index the next character has in the text built so far (the
   * advance may depend on it). A character whose advance would bring the
   * line to `width` or beyond gets a line break before it, and the new line
   * then starts with that character's advance.
   */
  function Wrap(s: string, adv: (char, nat) -> real, width: real, lineWidth: real, at: nat): (r: string)
    ensures |s| <= |r| <= 2 * |s|
    decreases |s|
  {
    if s == [] then []
    else
      var spacing := adv(s[0], at);
      if lineWidth + spacing >= width then ['\n', s[0]] + Wrap(s[1..], adv, width, spacing, at + 2)
      else [s[0]] + Wrap(s[1..], adv, width, lineWidth + spacing, at + 1)
  }

  /** Wrapping only adds line breaks: without them the text is what it was. */
  lemma {:induction false} WrapKeepsCharacters(s: string, adv: (char, nat) -> real, width: real, lineWidth: real, at: nat)
    ensures Remove(Wrap(s, adv, width, lineWidth, at), {'\n'}) == Remove(s, {'\n'})
    decreases |s|
  {
    if s != [] {
      var spacing := adv(s[0], at);
      assert s == [s[0]] + s[1..];
      RemoveAppend([s[0]], s[1..], {'\n'});
      if lineWidth + spacing >= width {
        WrapKeepsCharacters(s[1..], adv, width, spacing, at + 2);
        RemoveAppend(['\n', s[0]], Wrap(s[1..], adv, width, spacing, at + 2), {'\n'});
        assert Remove(['\n', s[0]], {'\n'}) == Remove([s[0]], {'\n'}) by {
          assert ['\n', s[0]][1..] == [s[0]];
        }
      } else {
        WrapKeepsCharacters(s[1..], adv, width, lineWidth + spacing, at + 1);
        RemoveAppend([s[0]], Wrap(s[1..], adv, width, lineWidth + spacing, at + 1), {'\n'});
      }
    }
  }

  /** A text free of line breaks comes back from the wrap once they are taken out again. */
  lemma WrapOfFlatText(s: string, adv: (char, nat) -> real, width: real)
    requires forall k :: 0 <= k < |s| ==> s[k] != '\n'
    ensures Remove(Wrap(s, adv, width, 0.0, 0), {'\n'}) == s
  {
    WrapKeepsCharacters(s, adv, width, 0.0, 0);
  }

  /** One step of the wrap, seen from the rest of the text: the character at `k` fits on the line. */
  lemma WrapStepFits(s: string, k: nat, adv: (char, nat) -> real, width: real, lineWidth: real, at: nat, done: string)
    requires k < |s| && lineWidth + adv(s[k], at) < width
    ensures done + Wrap(s[k..], adv, width, lineWidth, at)
      == (done + [s[k]]) + Wrap(s[k + 1..], adv, width, lineWidth + adv(s[k], at), at + 1)
  {
    assert s[k..][0] == s[k] && s[k..][1..] == s[k + 1..];
  }

  /** One step of the wrap, seen from the rest of the text: the character at `k` starts a new line. */
  lemma WrapStepBreaks(s: string, k: nat, adv: (char, nat) -> real, width: real, lineWidth: real, at: nat, done: string)
    requires k < |s| && lineWidth + adv(s[k], at) >= width
    ensures done + Wrap(s[k..], adv, width, lineWidth, at)
      == (done + ['\n', s[k]]) + Wrap(s[k + 1..], adv, width, 0.0 + adv(s[k], at), at + 2)
  {
    assert s[k..][0] == s[k] && s[k..][1..] == s[k + 1..];
  }

  /** Inserting a line break at the end of the part already walked. */
  lemma InsertAtSeam(done: string, c: char, rest: string)
    ensures var t := done + ([c] + rest);
      t[..|done|] + ['\n'] + t[|done|..] == (done + ['\n', c]) + rest
  {
    var t := done + ([c] + rest);
    assert t[..|done|] == done && t[|done|..] == [c] + rest;
  }

  /**
   * The wrap loop of fitWidth: walks the text with a running line width and
   * inserts a line break at index i when the character there does not fit,
   * stepping over the inserted break.
   */
  method WrapText(s: string, adv: (char, nat) -> real, width: real) returns (t: string)
    ensures t == Wrap(s, adv, width, 0.0, 0)
  {
    t := s;
    var lineWidth := 0.0;
    var i := 0;
    ghost var k := 0;
    ghost var done: string := [];
    assert s[k..] == s;
    while i < |t|
      invariant k <= |s| && i == |done| && t == done + s[k..]
      invariant Wrap(s, adv, width, 0.0, 0) == done + Wrap(s[k..], adv, width, lineWidth, i)
      decreases |s| - k
    {
      t, lineWidth, i, done := WrapStep(s, adv, width, t, lineWidth, i, k, done);
      k := k + 1;
    }
  }

  /** The body of the wrap loop for the character at index i, which is `s[k]`. */
  method WrapStep(s: string, adv: (char, nat) -> real, width: real, t: string, lineWidth: real, i: nat,
                  ghost k: nat, ghost done: string)
    returns (t': string, lineWidth': real, i': nat, ghost done': string)
    requires k < |s| && i == |done| && t == done + s[k..]
    ensures i' == |done'| && t' == done' + s[k + 1..]
    ensures done + Wrap(s[k..], adv, width, lineWidth, i) == done' + Wrap(s[k + 1..], adv, width, lineWidth', i')
    ensures i < i' <= i + 2 && |t'| == |t| + (i' - i - 1)
  {
    assert s[k..] == [s[k]] + s[k + 1..];
    t', lineWidth', i', done' := t, lineWidth, i, done;
    var c := t'[i'];
    var spacing := adv(c, i');
    if lineWidth' + spacing >= width {
      WrapStepBreaks(s, k, adv, width, lineWidth, i, done);
      InsertAtSeam(done, c, s[k + 1..]);
      t' := t'[..i'] + ['\n'] + t'[i'..];
      lineWidth' := 0.0;
      i' := i' + 1;
      done' := done' + ['\n'];
    } else {
      WrapStepFits(s, k, adv, width, lineWidth, i, done);
    }
    lineWidth' := lineWidth' + spacing;
    i' := i' + 1;
    done' := done' + [c];
  }
}
