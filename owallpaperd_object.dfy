/**
 * The OWallpaperD daemon object: the Xinerama screens of one X display, the
 * workspace last seen on each of them, and the list of loaded wallpapers.
 *
 * X itself is an input: the connection, the screen list and the desktop
 * windows are handed to the constructor, and the workspace-change wait reads
 * a finite sequence of events together with what the workspace property
 * held when each of them was processed.
 */
module OWallpaperDObject {
  import opened Wrappers
  import opened Helper
  import opened WallpaperObject

  type Window = nat
  type Atom = nat
  /** An X server timestamp; 0 is what `get_current_time` returns on failure. */
  type Time = nat

  /** The two exception types the extension raises. */
  datatype Error = OWallpaperDError(message: string) | IndexError(message: string)

  datatype EventType = PropertyNotify | OtherEvent(code: int)

  /** The parts of an `XEvent` the wait looks at. */
  datatype Event = Event(kind: EventType, atom: Atom, time: Time)

  /**
   * How a wait ends: with the new workspace of every screen, with an
   * exception, or still waiting when the given events run out (the C loop
   * would block for the next event).
   */
  datatype WaitResult = Changed(indices: seq<int>) | WaitFailed(error: Error) | Pending

  /** What a successful `set_wallpaper` makes X show: `pixmap` as `window`'s background. */
  datatype Background = Background(window: Window, pixmap: Pixmap)

  const NoXineramaMessage: string := "Xinerama is not active"
  const InternFailedMessage: string := "could not intern OWALLPAPERD_WORKSPACES atom"
  const TimeFailedMessage: string := "could not get current X server time"
  const ReadFailedMessage: string := "could not get current workspaces"
  const ForeignWallpaperMessage: string := "Wallpaper was not created for this OWallpaperD"
  const OutOfBoundsMessage: string := "screen out of bounds"

  /** The message raised when the display cannot be opened. */
  function OpenFailedMessage(displayName: Option<string>): string
  {
    if displayName.Some? then "could not open display " + displayName.value
    else "could not open default display"
  }

  // ---------------------------------------------------------------------
  // The workspace-change wait, as a function of its inputs

  /**
   * The filter of the event loop: a PropertyNotify on the workspaces atom,
   * strictly newer than the baseline time.
   */
  predicate Accepted(e: Event, atom: Atom, baseline: Time)
  {
    e.kind == PropertyNotify && e.atom == atom && e.time > baseline
  }

  /**
   * The `for (;;)` loop over the given events. `readings[k]` is what
   * `get_workspaces` returns if it is called after event `k` (None when the
   * read fails); `ws` is the stored workspace array.
   */
  function WatchLoop(atom: Atom, baseline: Time, events: seq<Event>, readings: seq<Option<seq<int>>>,
                     ws: seq<int>): (r: (seq<int>, WaitResult))
    requires |readings| == |events|
    ensures r.1.Changed? ==> r.0 == r.1.indices && r.0 != ws
    ensures !r.1.Changed? ==> r.0 == ws
    ensures r.1.WaitFailed? ==> r.1.error == OWallpaperDError(ReadFailedMessage)
    decreases |events|
  {
    if |events| == 0 then (ws, Pending)
    else if !Accepted(events[0], atom, baseline) then WatchLoop(atom, baseline, events[1..], readings[1..], ws)
    else match readings[0]
      case None => (ws, WaitFailed(OWallpaperDError(ReadFailedMessage)))
      case Some(latest) =>
        if latest != ws then (latest, Changed(latest))
        else WatchLoop(atom, baseline, events[1..], readings[1..], ws)
  }

  /**
   * `wait_for_workspace_change`: the atom must already exist, the baseline
   * time must be readable, then the event loop runs. Gives the new stored
   * workspace array and the result.
   */
  function WaitSpec(atom: Option<Atom>, baseline: Time, events: seq<Event>, readings: seq<Option<seq<int>>>,
                    ws: seq<int>): (r: (seq<int>, WaitResult))
    requires |readings| == |events|
    ensures atom.None? ==> r == (ws, WaitFailed(OWallpaperDError(InternFailedMessage)))
    ensures atom.Some? && baseline == 0 ==> r == (ws, WaitFailed(OWallpaperDError(TimeFailedMessage)))
    ensures !r.1.Changed? ==> r.0 == ws
  {
    if atom.None? then (ws, WaitFailed(OWallpaperDError(InternFailedMessage)))
    else if baseline == 0 then (ws, WaitFailed(OWallpaperDError(TimeFailedMessage)))
    else WatchLoop(atom.value, baseline, events, readings, ws)
  }

  /** An event stamped with the baseline time itself is skipped: the filter is strict. */
  lemma BaselineEventSkipped(atom: Atom, baseline: Time)
    ensures !Accepted(Event(PropertyNotify, atom, baseline), atom, baseline)
    ensures Accepted(Event(PropertyNotify, atom, baseline + 1), atom, baseline)
  {
  }

  /**
   * The wait returns a change only after an accepted event whose reading
   * differs from the stored array; every accepted event before it read back
   * exactly the stored array. The result is the new stored array.
   */
  lemma {:induction false} ChangedOnlyOnDifference(atom: Atom, baseline: Time, events: seq<Event>,
                                                   readings: seq<Option<seq<int>>>, ws: seq<int>)
    returns (k: nat)
    requires |readings| == |events|
    requires WatchLoop(atom, baseline, events, readings, ws).1.Changed?
    ensures k < |events| && Accepted(events[k], atom, baseline)
    ensures readings[k] == Some(WatchLoop(atom, baseline, events, readings, ws).0)
    ensures WatchLoop(atom, baseline, events, readings, ws).1.indices == WatchLoop(atom, baseline, events, readings, ws).0
    ensures WatchLoop(atom, baseline, events, readings, ws).0 != ws
    ensures forall j :: 0 <= j < k && Accepted(events[j], atom, baseline) ==> readings[j] == Some(ws)
    decreases |events|
  {
    if !Accepted(events[0], atom, baseline) || readings[0] == Some(ws) {
      var k' := ChangedOnlyOnDifference(atom, baseline, events[1..], readings[1..], ws);
      k := k' + 1;
      assert forall j :: 1 <= j < k ==> events[j] == events[1..][j - 1] && readings[j] == readings[1..][j - 1];
    } else {
      k := 0;
    }
  }

  /**
   * A failed read ends the wait with "could not get current workspaces" and
   * leaves the stored array as it was.
   */
  lemma {:induction false} FailedReadAborts(atom: Atom, baseline: Time, events: seq<Event>,
                                            readings: seq<Option<seq<int>>>, ws: seq<int>)
    returns (k: nat)
    requires |readings| == |events|
    requires WatchLoop(atom, baseline, events, readings, ws).1.WaitFailed?
    ensures WatchLoop(atom, baseline, events, readings, ws) == (ws, WaitFailed(OWallpaperDError(ReadFailedMessage)))
    ensures k < |events| && Accepted(events[k], atom, baseline) && readings[k].None?
    ensures forall j :: 0 <= j < k && Accepted(events[j], atom, baseline) ==> readings[j] == Some(ws)
    decreases |events|
  {
    if !Accepted(events[0], atom, baseline) || readings[0] == Some(ws) {
      var k' := FailedReadAborts(atom, baseline, events[1..], readings[1..], ws);
      k := k' + 1;
      assert forall j :: 1 <= j < k ==> events[j] == events[1..][j - 1] && readings[j] == readings[1..][j - 1];
    } else {
      k := 0;
    }
  }

  /**
   * The wait keeps going exactly when every accepted event read back the
   * stored array unchanged; then the stored array is untouched.
   */
  lemma {:induction false} PendingIffNoChange(atom: Atom, baseline: Time, events: seq<Event>,
                                              readings: seq<Option<seq<int>>>, ws: seq<int>)
    requires |readings| == |events|
    ensures WatchLoop(atom, baseline, events, readings, ws).1.Pending? <==>
      forall k :: 0 <= k < |events| && Accepted(events[k], atom, baseline) ==> readings[k] == Some(ws)
    ensures WatchLoop(atom, baseline, events, readings, ws).1.Pending? ==>
      WatchLoop(atom, baseline, events, readings, ws).0 == ws
    decreases |events|
  {
    if |events| > 0 {
      PendingIffNoChange(atom, baseline, events[1..], readings[1..], ws);
      assert forall k :: 1 <= k < |events| ==> events[k] == events[1..][k - 1] && readings[k] == readings[1..][k - 1];
    }
  }

  /**
   * Only accepted events lead to a read: what the property would have held
   * at any other event makes no difference to the wait.
   */
  lemma {:induction false} SkippedEventsNotRead(atom: Atom, baseline: Time, events: seq<Event>,
                                                r1: seq<Option<seq<int>>>, r2: seq<Option<seq<int>>>, ws: seq<int>)
    requires |r1| == |events| && |r2| == |events|
    requires forall k :: 0 <= k < |events| && Accepted(events[k], atom, baseline) ==> r1[k] == r2[k]
    ensures WatchLoop(atom, baseline, events, r1, ws) == WatchLoop(atom, baseline, events, r2, ws)
    decreases |events|
  {
    if |events| > 0 {
      assert forall k :: 1 <= k < |events| ==> events[k] == events[1..][k - 1] && r1[k] == r1[1..][k - 1] && r2[k] == r2[1..][k - 1];
      SkippedEventsNotRead(atom, baseline, events[1..], r1[1..], r2[1..], ws);
    }
  }

  /** The bounds test of `set_wallpaper` as the C code writes it: an upper bound only. */
  predicate RejectsScreenAsWritten(index: int, numScreens: nat)
  {
    index >= numScreens
  }

  /** A negative screen index gets past the test as written, yet names no screen. */
  lemma NegativeScreenSlipsThrough(numScreens: nat)
    ensures !RejectsScreenAsWritten(-1, numScreens) && !(0 <= -1 < numScreens)
  {
  }

  // ---------------------------------------------------------------------
  // The daemon object

  class Daemon {
    const display: Display
    const screen: int
    const numScreens: nat
    /** The Xinerama screen list, in the order X returned it. */
    const screens: seq<ScreenInfo>
    /** The desktop window created for each screen. */
    const windows: seq<Window>
    /** The workspace last seen on each screen; -1 before the first change. */
    const workspaces: array<int>
    var wallpapers: seq<Wallpaper>

    /** What a wallpaper must have copied to be usable with this daemon. */
    function Id(): Identity
    {
      Identity(display, screen, numScreens)
    }

    ghost predicate Valid()
      reads this, wallpapers
    {
      && display != 0
      && |screens| == numScreens && |windows| == numScreens && workspaces.Length == numScreens
      && forall k :: 0 <= k < |wallpapers| ==> wallpapers[k].Owner() == Id() && wallpapers[k].Ready()
    }

    /**
     * The state `OWallpaperD_init` leaves once X is open and the desktop
     * windows exist: every workspace unknown (-1), no wallpapers.
     */
    constructor (display: Display, screen: int, screens: seq<ScreenInfo>, windows: seq<Window>)
      requires display != 0 && |windows| == |screens|
      ensures Valid() && fresh(workspaces)
      ensures this.display == display && this.screen == screen && numScreens == |screens|
      ensures this.screens == screens && this.windows == windows
      ensures workspaces[..] == seq(|screens|, _ => -1) && wallpapers == []
    {
      this.display, this.screen := display, screen;
      this.screens, this.windows := screens, windows;
      numScreens := |screens|;
      workspaces := new int[|screens|];
      wallpapers := [];
      new;
      var i := 0;
      while i < numScreens
        invariant 0 <= i <= numScreens
        invariant forall j :: 0 <= j < i ==> workspaces[j] == -1
        invariant wallpapers == []
      {
        workspaces[i] := -1;
        i := i + 1;
      }
    }

    /**
     * The compare-and-update loop of the wait: copy every entry of `latest`
     * that differs from the stored one, and report whether any did.
     */
    method UpdateWorkspaces(latest: seq<int>) returns (changed: bool)
      requires |latest| == workspaces.Length
      modifies workspaces
      ensures workspaces[..] == latest
      ensures changed <==> old(workspaces[..]) != latest
    {
      changed := false;
      var i := 0;
      while i < workspaces.Length
        invariant 0 <= i <= workspaces.Length
        invariant forall j :: 0 <= j < i ==> workspaces[j] == latest[j]
        invariant forall j :: i <= j < workspaces.Length ==> workspaces[j] == old(workspaces[j])
        invariant changed <==> exists j :: 0 <= j < i && old(workspaces[j]) != latest[j]
      {
        if latest[i] != workspaces[i] {
          changed := true;
          workspaces[i] := latest[i];
        }
        i := i + 1;
      }
      assert changed ==> old(workspaces[..]) != latest by {
        if changed {
          var j :| 0 <= j < workspaces.Length && old(workspaces[j]) != latest[j];
          assert old(workspaces[..])[j] != latest[j];
        }
      }
    }

    /**
     * `wait_for_workspace_change` over a finite stream of events. `atom` is
     * the lookup of OWALLPAPERD_WORKSPACES, `baseline` the server time read
     * before waiting.
     */
    method WaitForWorkspaceChange(atom: Option<Atom>, baseline: Time, events: seq<Event>,
                                  readings: seq<Option<seq<int>>>)
      returns (r: WaitResult)
      requires Valid() && |readings| == |events|
      requires forall k :: 0 <= k < |readings| && readings[k].Some? ==> |readings[k].value| == numScreens
      modifies workspaces
      ensures (workspaces[..], r) == WaitSpec(atom, baseline, events, readings, old(workspaces[..]))
    {
      if atom.None? {
        return WaitFailed(OWallpaperDError(InternFailedMessage));
      }
      if baseline == 0 {
        return WaitFailed(OWallpaperDError(TimeFailedMessage));
      }
      var a := atom.value;
      ghost var spec := WaitSpec(atom, baseline, events, readings, old(workspaces[..]));
      var i := 0;
      while i < |events|
        invariant 0 <= i <= |events|
        invariant WatchLoop(a, baseline, events[i..], readings[i..], workspaces[..]) == spec
      {
        assert events[i..][1..] == events[i + 1..] && readings[i..][1..] == readings[i + 1..];
        var e := events[i];
        if e.kind == PropertyNotify && e.atom == a && e.time > baseline {
          match readings[i] {
            case None =>
              return WaitFailed(OWallpaperDError(ReadFailedMessage));
            case Some(latest) =>
              var changed := UpdateWorkspaces(latest);
              if changed {
                return Changed(workspaces[..]);
              }
          }
        }
        i := i + 1;
      }
      return Pending;
    }

    /**
     * `add_wallpaper`: build a Wallpaper for this daemon and append it only
     * if its initialisation succeeded. A failed wallpaper is dropped at
     * once, and its dealloc frees what it had rendered (`released`).
     */
    method AddWallpaper(imagePath: string, modeString: Option<string>, color: Uint32, env: seq<ScreenRender>)
      returns (r: Result<Wallpaper, Error>, released: seq<Pixmap>)
      requires Valid() && |env| == numScreens
      modifies this
      ensures Valid()
      ensures r.Success? <==> InitError(modeString, screens, env).None?
      ensures r.Success? ==>
        && fresh(r.value) && wallpapers == old(wallpapers) + [r.value]
        && r.value.Owner() == Id() && r.value.source == imagePath && r.value.Ready()
        && r.value.pixmaps[..] == Filled(env, numScreens) && released == []
      ensures r.Failure? ==>
        wallpapers == old(wallpapers) && r.error == OWallpaperDError(InitError(modeString, screens, env).value)
      ensures r.Failure? && ModeFromString(modeString) == ModeNone ==> released == []
      ensures r.Failure? && ModeFromString(modeString) != ModeNone ==>
        var k := FirstFailure(ModeFromString(modeString), screens, env);
        released == Filled(env, k)[..k]
    {
      var w := new Wallpaper();
      var err := w.Init(Id(), screens, imagePath, modeString, color, env);
      if err.None? {
        wallpapers := wallpapers + [w];
        r, released := Success(w), [];
      } else {
        released := w.Dealloc();
        r := Failure(OWallpaperDError(err.value));
        if ModeFromString(modeString) != ModeNone {
          var k := FirstFailure(ModeFromString(modeString), screens, env);
          NonZeroOfPartialFill(w.pixmaps[..], k);
        }
      }
    }

    /**
     * `set_wallpaper`: a wallpaper created for another daemon is refused
     * first, then a screen index outside [0, numScreens); only then is the
     * pixmap made the screen's background.
     */
    method SetWallpaper(index: int, w: Wallpaper) returns (r: Result<Background, Error>)
      requires Valid()
      requires w.Owner() == Id() ==> w.Ready()
      ensures w.Owner() != Id() ==> r == Failure(OWallpaperDError(ForeignWallpaperMessage))
      ensures w.Owner() == Id() && !(0 <= index < numScreens) ==> r == Failure(IndexError(OutOfBoundsMessage))
      ensures r.Success? <==> w.Owner() == Id() && 0 <= index < numScreens
      ensures r.Success? ==> r.value == Background(windows[index], w.pixmaps[index])
    {
      if w.display != display || w.screen != screen || w.numScreens != numScreens {
        return Failure(OWallpaperDError(ForeignWallpaperMessage));
      }
      if index < 0 || index >= numScreens {
        return Failure(IndexError(OutOfBoundsMessage));
      }
      return Success(Background(windows[index], w.pixmaps[index]));
    }
  }

  /**
   * `OWallpaperD_init` from the X side: `connection` is what `XOpenDisplay`
   * returned (0 on failure), `xinerama` the Xinerama screen list (None when
   * Xinerama is not active), `windows` the desktop windows created for it.
   */
  method Open(connection: Display, displayName: Option<string>, screenNum: int, defaultScreen: int,
              xinerama: Option<seq<ScreenInfo>>, windows: seq<Window>)
    returns (r: Result<Daemon, Error>)
    requires xinerama.Some? ==> |windows| == |xinerama.value|
    ensures connection == 0 ==> r == Failure(OWallpaperDError(OpenFailedMessage(displayName)))
    ensures connection != 0 && xinerama.None? ==> r == Failure(OWallpaperDError(NoXineramaMessage))
    ensures connection != 0 && xinerama.Some? ==>
      && r.Success? && fresh(r.value) && fresh(r.value.workspaces) && r.value.Valid()
      && r.value.display == connection
      && r.value.screen == (if screenNum == -1 then defaultScreen else screenNum)
      && r.value.screens == xinerama.value && r.value.windows == windows
      && r.value.workspaces[..] == seq(|windows|, _ => -1) && r.value.wallpapers == []
  {
    if connection == 0 {
      return Failure(OWallpaperDError(OpenFailedMessage(displayName)));
    }
    var screen := if screenNum == -1 then defaultScreen else screenNum;
    if xinerama.None? {
      return Failure(OWallpaperDError(NoXineramaMessage));
    }
    var d := new Daemon(connection, screen, xinerama.value, windows);
    return Success(d);
  }
}
