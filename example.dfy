/**
 * The example script: load eight wallpapers into one daemon, then for every
 * workspace change give screen `s` the wallpaper `ws[s] % count`.
 *
 * The side of X is an input throughout: what each wallpaper load finds on
 * each screen (`envs`), and, for each call of the wait, its atom lookup,
 * baseline time, events and property readings (`inputs`). The requests the
 * script makes of X are returned as a log, one entry per workspace change.
 */
module Example {
  import opened Wrappers
  import opened Helper
  import opened WallpaperObject
  import opened OWallpaperDObject

  /** The image files the script loads, in order. */
  const WallpaperPaths: seq<string> := [
    "~/pokemon/eevee.jpg",
    "~/pokemon/vaporeon.jpg",
    "~/pokemon/jolteon.jpg",
    "~/pokemon/flareon.jpg",
    "~/pokemon/espeon.jpg",
    "~/pokemon/umbreon.jpg",
    "~/pokemon/leafeon.jpg",
    "~/pokemon/glaceon.jpg"
  ]

  /** `s` without its trailing slashes: Python's `s.rstrip('/')`. */
  function StripSlashes(s: string): (r: string)
    ensures |r| <= |s| && r == s[..|r|]
    ensures |r| == 0 || r[|r| - 1] != '/'
    ensures forall i :: |r| <= i < |s| ==> s[i] == '/'
    decreases |s|
  {
    if |s| > 0 && s[|s| - 1] == '/' then StripSlashes(s[..|s| - 1]) else s
  }

  /** Where the user part of a `~` path ends: the first `/` after the tilde, or the end. */
  function UserEnd(path: string): (i: nat)
    requires |path| > 0
    ensures 1 <= i <= |path| && (i == |path| || path[i] == '/')
    ensures forall j :: 1 <= j < i ==> path[j] != '/'
    decreases |path|
  {
    if |path| == 1 then 1
    else if path[1] == '/' then 1
    else 1 + UserEnd(path[1..])
  }

  /**
   * `os.path.expanduser` on POSIX. `home` is the current user's home
   * directory and `users` the password database (user name to home
   * directory). A path that does not start with `~`, or names an unknown
   * user, is returned unchanged; otherwise the `~` or `~user` part becomes
   * that home directory without its trailing slashes, and an empty result
   * becomes "/".
   */
  function ExpandUser(home: string, users: map<string, string>, path: string): (p: string)
    ensures |path| == 0 || path[0] != '~' ==> p == path
    ensures |path| > 0 && path[0] == '~' && UserEnd(path) > 1 && path[1..UserEnd(path)] !in users ==> p == path
    ensures |path| > 0 && path[0] == '~' && (UserEnd(path) == 1 || path[1..UserEnd(path)] in users) ==>
      var dir := StripSlashes(if UserEnd(path) == 1 then home else users[path[1..UserEnd(path)]]);
      p == (if dir + path[UserEnd(path)..] == "" then "/" else dir + path[UserEnd(path)..])
  {
    if |path| == 0 || path[0] != '~' then path
    else
      var i := UserEnd(path);
      if i > 1 && path[1..i] !in users then path
      else
        var dir := StripSlashes(if i == 1 then home else users[path[1..i]]);
        if dir + path[i..] == "" then "/" else dir + path[i..]
  }

  /**
   * A `~/...` path becomes the home directory, without its trailing
   * slashes, followed by the rest of the path: exactly one slash joins
   * them, whatever the home directory ends with.
   */
  lemma {:induction false} HomePathExpansion(home: string, users: map<string, string>, path: string)
    requires |path| >= 2 && path[0] == '~' && path[1] == '/'
    ensures ExpandUser(home, users, path) == StripSlashes(home) + path[1..]
    ensures var dir := StripSlashes(home); |dir| == 0 || dir[|dir| - 1] != '/'
  {
    assert UserEnd(path) == 1;
    assert path[1..] != [];
  }

  /** Every path the script loads starts with `~/`. */
  lemma PathsUnderHome()
    ensures |WallpaperPaths| == 8
    ensures forall k :: 0 <= k < |WallpaperPaths| ==> |WallpaperPaths[k]| >= 2 && WallpaperPaths[k][..2] == "~/"
  {
  }

  /** So the script loads each of them from under the home directory. */
  lemma ExpandedPaths(home: string, users: map<string, string>)
    ensures forall k :: 0 <= k < |WallpaperPaths| ==>
      ExpandUser(home, users, WallpaperPaths[k]) == StripSlashes(home) + WallpaperPaths[k][1..]
  {
    PathsUnderHome();
    forall k | 0 <= k < |WallpaperPaths|
      ensures ExpandUser(home, users, WallpaperPaths[k]) == StripSlashes(home) + WallpaperPaths[k][1..]
    {
      assert WallpaperPaths[k][0] == WallpaperPaths[k][..2][0];
      assert WallpaperPaths[k][1] == WallpaperPaths[k][..2][1];
      HomePathExpansion(home, users, WallpaperPaths[k]);
    }
  }

  /**
   * The wallpaper index for a screen showing workspace `w` among `count`
   * wallpapers: Python's `w % count`, whose result takes the sign of the
   * divisor.
   */
  function SelectWallpaper(w: int, count: nat): (k: nat)
    requires count > 0
    ensures k < count
    ensures 0 <= w < count ==> k == w
    ensures exists q :: w == q * count + k
  {
    assert w == (w / count) * count + w % count;
    w % count
  }

  /** A screen whose workspace is still unknown (-1) gets the last wallpaper. */
  lemma UnknownWorkspaceGetsLast(count: nat)
    requires count > 0
    ensures SelectWallpaper(-1, count) == count - 1
  {
  }

  // ---------------------------------------------------------------------
  // Loading

  /** Whether every pixmap array of `envs` has one entry per screen. */
  predicate ScreensMatch(screens: seq<ScreenInfo>, envs: seq<seq<ScreenRender>>)
  {
    forall k :: 0 <= k < |envs| ==> |envs[k]| == |screens|
  }

  /** The index of the first wallpaper whose load fails with the default mode, or the count. */
  function FirstUnloadable(screens: seq<ScreenInfo>, envs: seq<seq<ScreenRender>>): (k: nat)
    requires ScreensMatch(screens, envs)
    ensures k <= |envs|
    ensures forall i :: 0 <= i < k ==> InitError(DefaultMode, screens, envs[i]).None?
    ensures k < |envs| ==> InitError(DefaultMode, screens, envs[k]).Some?
    decreases |envs|
  {
    if |envs| == 0 then 0
    else if InitError(DefaultMode, screens, envs[0]).Some? then 0
    else 1 + FirstUnloadable(screens, envs[1..])
  }

  /**
   * The loading loop: `add_wallpaper` on each expanded path in turn. A
   * failure raises and ends the script, so the wallpapers loaded are
   * exactly those before the first failure, in path order.
   */
  method LoadWallpapers(d: Daemon, home: string, users: map<string, string>, paths: seq<string>, envs: seq<seq<ScreenRender>>)
    returns (err: Option<Error>)
    requires d.Valid() && d.wallpapers == []
    requires |envs| == |paths| && ScreensMatch(d.screens, envs)
    modifies d
    ensures d.Valid()
    ensures |d.wallpapers| == FirstUnloadable(d.screens, envs)
    ensures err.None? <==> |d.wallpapers| == |paths|
    ensures err.Some? ==>
      err.value == OWallpaperDError(InitError(DefaultMode, d.screens, envs[|d.wallpapers|]).value)
    ensures forall k :: 0 <= k < |d.wallpapers| ==>
      d.wallpapers[k].source == ExpandUser(home, users, paths[k]) && d.wallpapers[k].pixmaps[..] == Filled(envs[k], d.numScreens)
  {
    ghost var n := FirstUnloadable(d.screens, envs);
    var i := 0;
    while i < |paths|
      invariant 0 <= i <= |paths| && i <= n && d.Valid() && |d.wallpapers| == i
      invariant forall k :: 0 <= k < i ==>
        d.wallpapers[k].source == ExpandUser(home, users, paths[k]) && d.wallpapers[k].pixmaps[..] == Filled(envs[k], d.numScreens)
    {
      ghost var loaded := d.wallpapers;
      var r, _ := d.AddWallpaper(ExpandUser(home, users, paths[i]), DefaultMode, DefaultColor, envs[i]);
      if r.Failure? {
        assert n == i;
        return Some(r.error);
      }
      assert d.wallpapers == loaded + [r.value];
      i := i + 1;
    }
    return None;
  }

  // ---------------------------------------------------------------------
  // Applying a workspace change

  /** The pixmap arrays of the loaded wallpapers, one row per wallpaper. */
  predicate IsTable(table: seq<seq<Pixmap>>, n: nat)
  {
    |table| > 0 && forall k :: 0 <= k < |table| ==> |table[k]| == n
  }

  /**
   * The requests one workspace change makes: screen `s`, in order, gets the
   * pixmap of wallpaper `ws[s] % count` for that screen.
   */
  function Requests(windows: seq<Window>, table: seq<seq<Pixmap>>, ws: seq<int>): (rs: seq<Background>)
    requires IsTable(table, |ws|) && |windows| == |ws|
    ensures |rs| == |ws|
    ensures forall s :: 0 <= s < |ws| ==> rs[s] == Background(windows[s], table[SelectWallpaper(ws[s], |table|)][s])
  {
    seq(|ws|, s requires 0 <= s < |ws| => Background(windows[s], table[SelectWallpaper(ws[s], |table|)][s]))
  }

  /**
   * The `for (s, ws) in enumerate(ws)` loop: every screen is set again,
   * changed or not. Every wallpaper belongs to this daemon and every index
   * is a screen, so no call raises.
   */
  method ApplyAll(d: Daemon, ghost table: seq<seq<Pixmap>>, ws: seq<int>) returns (requests: seq<Background>)
    requires d.Valid() && |ws| == d.numScreens
    requires |table| == |d.wallpapers| && IsTable(table, d.numScreens)
    requires forall k :: 0 <= k < |table| ==> table[k] == d.wallpapers[k].pixmaps[..]
    ensures requests == Requests(d.windows, table, ws)
  {
    requests := [];
    var s := 0;
    while s < |ws|
      invariant 0 <= s <= |ws| && |requests| == s
      invariant forall j :: 0 <= j < s ==> requests[j] == Requests(d.windows, table, ws)[j]
    {
      var w := d.wallpapers[ws[s] % |d.wallpapers|];
      var r := d.SetWallpaper(s, w);
      assert SelectWallpaper(ws[s], |table|) == ws[s] % |d.wallpapers|;
      requests := requests + [r.value];
      s := s + 1;
    }
  }

  // ---------------------------------------------------------------------
  // The watch loop

  /** The outside world during one call of `wait_for_workspace_change`. */
  datatype WaitInput = WaitInput(atom: Option<Atom>, baseline: Time, events: seq<Event>,
                                 readings: seq<Option<seq<int>>>)

  /** One reading per event, and every successful reading has one entry per screen. */
  predicate WellFormed(input: WaitInput, n: nat)
  {
    && |input.readings| == |input.events|
    && forall k :: 0 <= k < |input.readings| && input.readings[k].Some? ==> |input.readings[k].value| == n
  }

  /** A wait over readings of length `n` leaves a stored array of length `n`. */
  lemma {:induction false} WatchKeepsLength(atom: Atom, baseline: Time, events: seq<Event>,
                                            readings: seq<Option<seq<int>>>, ws: seq<int>)
    requires |readings| == |events|
    requires forall k :: 0 <= k < |readings| && readings[k].Some? ==> |readings[k].value| == |ws|
    ensures |WatchLoop(atom, baseline, events, readings, ws).0| == |ws|
    decreases |events|
  {
    if |events| > 0 {
      assert forall k :: 1 <= k < |readings| ==> readings[1..][k - 1] == readings[k];
      WatchKeepsLength(atom, baseline, events[1..], readings[1..], ws);
    }
  }

  /**
   * The requests of the script's `while True` loop over the given waits,
   * starting from stored workspaces `ws`, and the exception that ends it.
   * A wait that runs out of events ends the log with no error.
   */
  function Session(windows: seq<Window>, table: seq<seq<Pixmap>>, inputs: seq<WaitInput>, ws: seq<int>)
    : (r: (seq<seq<Background>>, Option<Error>))
    requires IsTable(table, |ws|) && |windows| == |ws|
    requires forall i :: 0 <= i < |inputs| ==> WellFormed(inputs[i], |ws|)
    ensures |r.0| <= |inputs|
    ensures forall c :: 0 <= c < |r.0| ==> |r.0[c]| == |ws|
    decreases |inputs|
  {
    if |inputs| == 0 then ([], None)
    else
      var w := inputs[0];
      assert WellFormed(w, |ws|);
      var (ws', r) := WaitSpec(w.atom, w.baseline, w.events, w.readings, ws);
      match r
      case Changed(_) =>
        WatchKeepsLength(w.atom.value, w.baseline, w.events, w.readings, ws);
        var (log, err) := Session(windows, table, inputs[1..], ws');
        ([Requests(windows, table, ws')] + log, err)
      case WaitFailed(e) => ([], Some(e))
      case Pending => ([], None)
  }

  /**
   * Every entry of the log sets every screen, in screen order, from the
   * workspaces some reading reported.
   */
  lemma {:induction false} SessionSetsEveryScreen(windows: seq<Window>, table: seq<seq<Pixmap>>,
                                                  inputs: seq<WaitInput>, ws: seq<int>, c: nat)
    returns (i: nat, latest: seq<int>)
    requires IsTable(table, |ws|) && |windows| == |ws|
    requires forall i :: 0 <= i < |inputs| ==> WellFormed(inputs[i], |ws|)
    requires c < |Session(windows, table, inputs, ws).0|
    ensures i < |inputs| && |latest| == |ws|
    ensures exists k :: 0 <= k < |inputs[i].readings| && inputs[i].readings[k] == Some(latest)
    ensures Session(windows, table, inputs, ws).0[c] == Requests(windows, table, latest)
    decreases |inputs|
  {
    var w := inputs[0];
    var (ws', r) := WaitSpec(w.atom, w.baseline, w.events, w.readings, ws);
    var k := ChangedOnlyOnDifference(w.atom.value, w.baseline, w.events, w.readings, ws);
    WatchKeepsLength(w.atom.value, w.baseline, w.events, w.readings, ws);
    if c == 0 {
      i, latest := 0, ws';
    } else {
      assert forall j :: 1 <= j < |inputs| ==> inputs[1..][j - 1] == inputs[j];
      var i', latest' := SessionSetsEveryScreen(windows, table, inputs[1..], ws', c - 1);
      i, latest := i' + 1, latest';
    }
  }

  /**
   * The `while True` loop over the given waits: after each change, apply
   * the selection to every screen; an exception from the wait ends it.
   */
  method Watch(d: Daemon, ghost table: seq<seq<Pixmap>>, inputs: seq<WaitInput>)
    returns (log: seq<seq<Background>>, err: Option<Error>)
    requires d.Valid() && |table| == |d.wallpapers| && IsTable(table, d.numScreens)
    requires forall k :: 0 <= k < |table| ==> table[k] == d.wallpapers[k].pixmaps[..]
    requires forall i :: 0 <= i < |inputs| ==> WellFormed(inputs[i], d.numScreens)
    modifies d.workspaces
    ensures (log, err) == Session(d.windows, table, inputs, old(d.workspaces[..]))
  {
    ghost var total := Session(d.windows, table, inputs, d.workspaces[..]);
    log := [];
    var i := 0;
    while i < |inputs|
      invariant 0 <= i <= |inputs|
      invariant forall k :: 0 <= k < |table| ==> table[k] == d.wallpapers[k].pixmaps[..]
      invariant log + Session(d.windows, table, inputs[i..], d.workspaces[..]).0 == total.0
      invariant Session(d.windows, table, inputs[i..], d.workspaces[..]).1 == total.1
    {
      assert inputs[i..][1..] == inputs[i + 1..] && inputs[i..][0] == inputs[i];
      var w := inputs[i];
      assert WellFormed(w, d.numScreens);
      ghost var before := d.workspaces[..];
      var r := d.WaitForWorkspaceChange(w.atom, w.baseline, w.events, w.readings);
      match r {
        case WaitFailed(e) =>
          assert log + [] == log;
          return log, Some(e);
        case Pending =>
          assert log + [] == log;
          return log, None;
        case Changed(latest) =>
          ghost var _ := ChangedOnlyOnDifference(w.atom.value, w.baseline, w.events, w.readings, before);
          var requests := ApplyAll(d, table, latest);
          assert log + ([requests] + Session(d.windows, table, inputs[i + 1..], d.workspaces[..]).0)
              == (log + [requests]) + Session(d.windows, table, inputs[i + 1..], d.workspaces[..]).0;
          log := log + [requests];
      }
      i := i + 1;
    }
    assert log + [] == log;
    return log, None;
  }

  // ---------------------------------------------------------------------
  // The whole script

  /** The pixmap table once every wallpaper has loaded. */
  function LoadedTable(envs: seq<seq<ScreenRender>>, n: nat): (table: seq<seq<Pixmap>>)
    requires forall k :: 0 <= k < |envs| ==> |envs[k]| == n
    ensures |table| == |envs| && forall k :: 0 <= k < |envs| ==> table[k] == Filled(envs[k], n)
  {
    seq(|envs|, k requires 0 <= k < |envs| => Filled(envs[k], n))
  }

  /**
   * The script from start to end of input: open the default display on
   * the default screen, load the eight wallpapers, then watch.
   */
  method Run(connection: Display, defaultScreen: int, xinerama: Option<seq<ScreenInfo>>, windows: seq<Window>,
             home: string, users: map<string, string>, envs: seq<seq<ScreenRender>>, inputs: seq<WaitInput>)
    returns (log: seq<seq<Background>>, err: Option<Error>)
    requires xinerama.Some? ==> |windows| == |xinerama.value| && ScreensMatch(xinerama.value, envs)
    requires |envs| == |WallpaperPaths|
    requires forall i :: 0 <= i < |inputs| ==> WellFormed(inputs[i], |windows|)
    ensures connection == 0 ==> log == [] && err == Some(OWallpaperDError(OpenFailedMessage(None)))
    ensures connection != 0 && xinerama.None? ==> log == [] && err == Some(OWallpaperDError(NoXineramaMessage))
    ensures connection != 0 && xinerama.Some? && FirstUnloadable(xinerama.value, envs) < |envs| ==>
      && log == []
      && err == Some(OWallpaperDError(InitError(DefaultMode, xinerama.value,
                                               envs[FirstUnloadable(xinerama.value, envs)]).value))
    ensures connection != 0 && xinerama.Some? && FirstUnloadable(xinerama.value, envs) == |envs| ==>
      (log, err) == Session(windows, LoadedTable(envs, |windows|), inputs, seq(|windows|, _ => -1))
  {
    var daemon := Open(connection, None, -1, defaultScreen, xinerama, windows);
    if daemon.Failure? {
      return [], Some(daemon.error);
    }
    var d := daemon.value;
    var loadErr := LoadWallpapers(d, home, users, WallpaperPaths, envs);
    if loadErr.Some? {
      return [], loadErr;
    }
    ghost var table := LoadedTable(envs, |windows|);
    log, err := Watch(d, table, inputs);
  }
}
