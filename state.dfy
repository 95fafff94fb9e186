/**
 * The base class of the application's states: three flags saying whether
 * the state also receives input, updates and draws while another state is
 * on top of it, and the base reaction to a window resize, which keeps the
 * window at least 800 by 600.
 */
module State {
  import opened Common

  const MinWidth: nat := 800
  const MinHeight: nat := 600

  /** The events the states tell apart; every other kind of event is `Other`. */
  datatype Event = Closed | Resized(width: nat, height: nat) | Other(kind: nat)

  /** The render window as far as the states and the core use it: its size and whether it is open. */
  class Window {
    var size: (nat, nat)
    var open: bool

    constructor (width: nat, height: nat)
      ensures size == (width, height) && open
    {
      size := (width, height);
      open := true;
    }

    method SetSize(s: (nat, nat))
      modifies this`size
      ensures size == s
    {
      size := s;
    }

    method Close()
      modifies this`open
      ensures !open
    {
      open := false;
    }
  }

  /** The size a resize asks for, raised to the minimum on each axis that falls short of it. */
  function ClampSize(width: nat, height: nat): (r: (nat, nat))
    ensures r.0 >= MinWidth && r.1 >= MinHeight
    ensures width >= MinWidth ==> r.0 == width
    ensures height >= MinHeight ==> r.1 == height
    ensures width < MinWidth ==> r.0 == MinWidth
    ensures height < MinHeight ==> r.1 == MinHeight
  {
    (if width < MinWidth then MinWidth else width, if height < MinHeight then MinHeight else height)
  }

  /** Clamping a size that is already clamped changes nothing. */
  lemma ClampSizeIdempotent(width: nat, height: nat)
    ensures var r := ClampSize(width, height); ClampSize(r.0, r.1) == r
  {
  }

  /** The clamped size is the smallest one that is at least the size asked for and at least the minimum. */
  lemma ClampSizeIsLeast(width: nat, height: nat, w: nat, h: nat)
    requires w >= width && w >= MinWidth && h >= height && h >= MinHeight
    ensures ClampSize(width, height).0 <= w && ClampSize(width, height).1 <= h
  {
  }

  class State {
    const window: Window
    var pollInBackground: bool
    var drawInBackground: bool
    var updateInBackground: bool

    /** A state drawing to `w`; all three background flags start lowered. */
    constructor (w: Window)
      ensures window == w && !pollInBackground && !drawInBackground && !updateInBackground
    {
      window := w;
      pollInBackground, drawInBackground, updateInBackground := false, false, false;
    }

    /** Whether the state below this one is polled while this one is on top. */
    function PreviousStatePolled(): (b: bool)
      reads this
      ensures b == pollInBackground
    {
      pollInBackground
    }

    /** Whether the state below this one is drawn while this one is on top. */
    function PreviousStateDrawn(): (b: bool)
      reads this
      ensures b == drawInBackground
    {
      drawInBackground
    }

    /** Whether the state below this one is updated while this one is on top. */
    function PreviousStateUpdated(): (b: bool)
      reads this
      ensures b == updateInBackground
    {
      updateInBackground
    }

    /** getInput: a Resized event resizes the window to the clamped size; every other event is ignored. */
    method GetInput(e: Event)
      modifies window`size
      ensures window.size == if e.Resized? then ClampSize(e.width, e.height) else old(window.size)
    {
      if e.Resized? {
        var newSize := (e.width, e.height);
        if newSize.0 < MinWidth {
          newSize := (MinWidth, newSize.1);
        }
        if newSize.1 < MinHeight {
          newSize := (newSize.0, MinHeight);
        }
        OnResize(newSize);
      }
    }

    /** onStateSwitch: resize the window to the size it already has. */
    method OnStateSwitch()
      modifies window`size
      ensures window.size == old(window.size)
    {
      OnResize(window.size);
    }

    method OnResize(newSize: (nat, nat))
      modifies window`size
      ensures window.size == newSize
    {
      window.SetSize(newSize);
    }

    method PollPreviousState(b: bool)
      modifies this`pollInBackground
      ensures PreviousStatePolled() == b
      ensures PreviousStateDrawn() == old(PreviousStateDrawn()) && PreviousStateUpdated() == old(PreviousStateUpdated())
    {
      pollInBackground := b;
    }

    method DrawPreviousState(b: bool)
      modifies this`drawInBackground
      ensures PreviousStateDrawn() == b
      ensures PreviousStatePolled() == old(PreviousStatePolled()) && PreviousStateUpdated() == old(PreviousStateUpdated())
    {
      drawInBackground := b;
    }

    method UpdatePreviousState(b: bool)
      modifies this`updateInBackground
      ensures PreviousStateUpdated() == b
      ensures PreviousStatePolled() == old(PreviousStatePolled()) && PreviousStateDrawn() == old(PreviousStateDrawn())
    {
      updateInBackground := b;
    }
  }
}
