/**
 * The render/event loop of reCam as a state machine.  Each loop iteration
 * reads one camera frame; only when a frame was available does it poll the
 * keyboard, mask the code to its low byte and dispatch on it: ESC stops the
 * loop, 'f' toggles fullscreen, 's' asks for a screenshot, anything else
 * (including the "no key" code -1, masked to 255) does nothing.
 */
module KeyEvents {
  import opened Indices

  const EscKey: int := 27
  const FullscreenKey: int := 'f' as int
  const ScreenshotKey: int := 's' as int

  /** The two flags the loop reads and writes. */
  datatype Window = Window(isRunning: bool, isFullscreen: bool)

  /** One iteration's inputs: whether the camera read produced a frame, and the raw key code. */
  datatype Tick = Tick(available: bool, key: int)

  datatype Action = Quit | ToggleFullscreen | Screenshot | NoAction

  /** `code & 0xFF` on Python's two's-complement integers. */
  function MaskKey(code: int): (m: int)
    ensures 0 <= m < 256
    ensures 0 <= code < 256 ==> m == code
    ensures (code - m) % 256 == 0
  {
    code % 256
  }

  function KeyAction(masked: int): Action {
    if masked == EscKey then Quit
    else if masked == FullscreenKey then ToggleFullscreen
    else if masked == ScreenshotKey then Screenshot
    else NoAction
  }

  /** The action an iteration performs: none at all when no frame was available (no key is polled). */
  function TickAction(t: Tick): Action {
    if t.available then KeyAction(MaskKey(t.key)) else NoAction
  }

  predicate IsQuit(t: Tick) { TickAction(t) == Quit }
  predicate IsToggle(t: Tick) { TickAction(t) == ToggleFullscreen }
  predicate RequestsScreenshot(t: Tick) { TickAction(t) == Screenshot }

  /** Position `k` of the script is an iteration that asks for a screenshot. */
  function ScreenshotAt(ticks: seq<Tick>): nat -> bool {
    (k: nat) => k < |ticks| && RequestsScreenshot(ticks[k])
  }

  /** The screenshot positions among the first `c + 1` iterations. */
  lemma ScreenshotsOneMore(ticks: seq<Tick>, c: nat)
    requires c < |ticks|
    ensures Selected(ScreenshotAt(ticks), c + 1)
         == Selected(ScreenshotAt(ticks), c) + (if RequestsScreenshot(ticks[c]) then [c] else [])
  {
  }

  /** One iteration of the loop body. */
  function Step(w: Window, t: Tick): (r: Window)
    ensures !t.available ==> r == w
    ensures r.isRunning == (w.isRunning && !IsQuit(t))
    ensures r.isFullscreen == (w.isFullscreen != IsToggle(t))
  {
    match TickAction(t)
    case Quit => w.(isRunning := false)
    case ToggleFullscreen => w.(isFullscreen := !w.isFullscreen)
    case Screenshot => w
    case NoAction => w
  }

  /** `while isRunning`: iterations over a script of ticks, until the flag drops or the script ends. */
  function Run(w: Window, ticks: seq<Tick>): Window
    decreases |ticks|
  {
    if !w.isRunning || ticks == [] then w else Run(Step(w, ticks[0]), ticks[1..])
  }

  /** How many toggle ticks a script holds. */
  function Toggles(ticks: seq<Tick>): nat
    decreases |ticks|
  {
    if ticks == [] then 0 else (if IsToggle(ticks[0]) then 1 else 0) + Toggles(ticks[1..])
  }

  /** A stopped loop never runs again: every later input is ignored. */
  lemma StoppedIsTerminal(w: Window, ticks: seq<Tick>)
    requires !w.isRunning
    ensures Run(w, ticks) == w
  {
  }

  /** Running a script in two pieces is running it whole. */
  lemma {:induction false} RunAppend(w: Window, a: seq<Tick>, b: seq<Tick>)
    ensures Run(w, a + b) == Run(Run(w, a), b)
    decreases |a|
  {
    if !w.isRunning || a == [] {
      assert a == [] ==> a + b == b;
    } else {
      assert (a + b)[1..] == a[1..] + b;
      RunAppend(Step(w, a[0]), a[1..], b);
    }
  }

  /** How many iterations the loop runs on a script. */
  function Processed(w: Window, ticks: seq<Tick>): nat
    decreases |ticks|
  {
    if !w.isRunning || ticks == [] then 0 else 1 + Processed(Step(w, ticks[0]), ticks[1..])
  }

  /**
   * The iterations the loop runs are exactly those that find it running:
   * each of them starts running, the state after them is the final state,
   * and an unprocessed remainder means the loop stopped.
   */
  lemma {:induction false} ProcessedExactly(w: Window, ticks: seq<Tick>)
    ensures Processed(w, ticks) <= |ticks|
    ensures Run(w, ticks[..Processed(w, ticks)]) == Run(w, ticks)
    ensures forall k :: 0 <= k < Processed(w, ticks) ==> Run(w, ticks[..k]).isRunning
    ensures Processed(w, ticks) < |ticks| ==> !Run(w, ticks).isRunning
    decreases |ticks|
  {
    if w.isRunning && ticks != [] {
      var next, rest := Step(w, ticks[0]), ticks[1..];
      ProcessedExactly(next, rest);
      var p := Processed(w, ticks);
      assert ticks[..p][1..] == rest[..p - 1];
      forall k | 0 < k < p
        ensures Run(w, ticks[..k]).isRunning
      {
        assert ticks[..k][1..] == rest[..k - 1];
      }
    }
  }

  /** One iteration of a running loop on the rest of a script, from position `c`. */
  lemma OneIteration(w: Window, ticks: seq<Tick>, c: nat)
    requires c < |ticks| && w.isRunning
    ensures Run(w, ticks[c..]) == Run(Step(w, ticks[c]), ticks[c + 1..])
    ensures Processed(w, ticks[c..]) == 1 + Processed(Step(w, ticks[c]), ticks[c + 1..])
  {
    assert ticks[c..][1..] == ticks[c + 1..];
  }

  /**
   * The first ESC (on an available frame) stops the loop: the result is the
   * state just before it with only `isRunning` cleared, and whatever follows
   * it in the script is never processed.
   */
  lemma {:induction false} QuitEndsLoop(w: Window, ticks: seq<Tick>, j: nat)
    requires w.isRunning
    requires j < |ticks| && IsQuit(ticks[j])
    requires forall k :: 0 <= k < j ==> !IsQuit(ticks[k])
    ensures Run(w, ticks[..j]).isRunning
    ensures Run(w, ticks) == Run(w, ticks[..j]).(isRunning := false)
    ensures Run(w, ticks) == Run(w, ticks[..j + 1])
  {
    NoQuitKeepsRunning(w, ticks[..j]);
    var before := Run(w, ticks[..j]);
    assert ticks == ticks[..j] + ticks[j..];
    RunAppend(w, ticks[..j], ticks[j..]);
    assert Run(before, ticks[j..]) == Step(before, ticks[j]);
    assert ticks[..j + 1] == ticks[..j] + [ticks[j]];
    RunAppend(w, ticks[..j], [ticks[j]]);
  }

  /** Inputs that arrive after the first ESC change nothing. */
  lemma IgnoredAfterQuit(w: Window, ticks: seq<Tick>, j: nat, rest: seq<Tick>)
    requires w.isRunning
    requires j < |ticks| && IsQuit(ticks[j])
    requires forall k :: 0 <= k < j ==> !IsQuit(ticks[k])
    ensures Run(w, ticks[..j + 1] + rest) == Run(w, ticks[..j + 1])
  {
    QuitEndsLoop(w, ticks, j);
    RunAppend(w, ticks[..j + 1], rest);
  }

  /** Without an ESC the loop is still running after the whole script. */
  lemma {:induction false} NoQuitKeepsRunning(w: Window, ticks: seq<Tick>)
    requires w.isRunning
    requires forall k :: 0 <= k < |ticks| ==> !IsQuit(ticks[k])
    ensures Run(w, ticks).isRunning
    decreases |ticks|
  {
    if ticks != [] {
      NoQuitKeepsRunning(Step(w, ticks[0]), ticks[1..]);
    }
  }

  /** The loop stops exactly when the script holds an ESC on an available frame. */
  lemma StopsIffQuit(w: Window, ticks: seq<Tick>)
    requires w.isRunning
    ensures !Run(w, ticks).isRunning <==> exists j :: 0 <= j < |ticks| && IsQuit(ticks[j])
  {
    if j :| 0 <= j < |ticks| && IsQuit(ticks[j]) {
      var first := FirstQuit(ticks, j);
      QuitEndsLoop(w, ticks, first);
    } else {
      NoQuitKeepsRunning(w, ticks);
    }
  }

  /** Some ESC exists at or before `j`; find the first. */
  lemma {:induction false} FirstQuit(ticks: seq<Tick>, j: nat) returns (first: nat)
    requires j < |ticks| && IsQuit(ticks[j])
    ensures first <= j && IsQuit(ticks[first])
    ensures forall k :: 0 <= k < first ==> !IsQuit(ticks[k])
    decreases j
  {
    if exists k :: 0 <= k < j && IsQuit(ticks[k]) {
      var k :| 0 <= k < j && IsQuit(ticks[k]);
      first := FirstQuit(ticks, k);
    } else {
      first := j;
    }
  }

  /**
   * Without an ESC, the fullscreen flag ends flipped exactly when the script
   * held an odd number of 'f' ticks; `isRunning` is never touched by them.
   */
  lemma {:induction false} FullscreenParity(w: Window, ticks: seq<Tick>)
    requires w.isRunning
    requires forall k :: 0 <= k < |ticks| ==> !IsQuit(ticks[k])
    ensures Run(w, ticks).isFullscreen == (w.isFullscreen != (Toggles(ticks) % 2 == 1))
    decreases |ticks|
  {
    if ticks != [] {
      FullscreenParity(Step(w, ticks[0]), ticks[1..]);
    }
  }

  /** Two 'f' presses put the window back as it was. */
  lemma ToggleTwiceRestores(w: Window, t: Tick)
    requires w.isRunning && IsToggle(t)
    ensures Run(w, [t, t]) == w
  {
    var once := Step(w, t);
    assert [t, t][1..] == [t];
    assert Run(once, [t]) == Run(Step(once, t), []);
  }

  /** 's' and every key without a command, the masked "no key" code 255 among them, leave the state alone. */
  lemma OtherKeysChangeNothing(w: Window, code: int)
    requires MaskKey(code) != EscKey && MaskKey(code) != FullscreenKey
    ensures Step(w, Tick(true, code)) == w
    ensures KeyAction(MaskKey(-1)) == NoAction
  {
  }
}
