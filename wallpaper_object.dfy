/**
 * The Wallpaper object: one rendered pixmap per Xinerama screen, together
 * with a copy of the identity (display, screen, number of screens) of the
 * daemon that created it.
 */
module WallpaperObject {
  import opened Wrappers
  import opened Helper

  /** An X display connection; 0 stands for NULL. */
  type Display = nat

  /** A C `uint32_t`. */
  type Uint32 = x: int | 0 <= x < 0x1_0000_0000

  /** The fields a Wallpaper copies from its daemon and the daemon checks on use. */
  datatype Identity = Identity(display: Display, screen: int, numScreens: nat)

  /**
   * What the outside world hands back while one screen is rendered: the
   * outcome of decoding the image file (read afresh for every screen), the id
   * `XCreatePixmap` returns, and the destination full mode computes in
   * floating point.
   */
  datatype ScreenRender = ScreenRender(image: Option<Image>, pixmap: Xid, fullDst: Rect)

  /** Keyword defaults of the constructor: no mode string, black background. */
  const DefaultMode: Option<string> := None
  const DefaultColor: Uint32 := 0

  const UnknownModeMessage: string := "unknown wallpaper mode (should be 'center', 'fill', 'full', or 'tile'"
  const LoadImageMessage: string := "could not load image file"
  const UnimplementedModeMessage: string := "unimplemented wallpaper mode"
  const UnknownErrorMessage: string := "unknown error loading wallpaper"

  /** The message a failed `create_wallpaper` raises with. */
  function ErrorMessage(error: int): (msg: string)
    ensures msg == LoadImageMessage <==> error == EINVAL
    ensures msg == UnimplementedModeMessage <==> error == ENOSYS
    ensures msg == UnknownErrorMessage <==> error != EINVAL && error != ENOSYS
  {
    if error == EINVAL then LoadImageMessage
    else if error == ENOSYS then UnimplementedModeMessage
    else UnknownErrorMessage
  }

  /** The error `create_wallpaper` returns for one screen. */
  function ScreenError(mode: WallpaperMode, info: ScreenInfo, r: ScreenRender): int
  {
    RenderSpec(r.image, mode, info.width, info.height, r.fullDst).error
  }

  /** The canvas `create_wallpaper` renders for one screen. */
  function ScreenCanvas(mode: WallpaperMode, color: nat, info: ScreenInfo, r: ScreenRender): Canvas
  {
    CanvasSpec(info, r.image, mode, color, r.pixmap, r.fullDst)
  }

  /** The index of the first screen whose rendering fails, or the count if none does. */
  function FirstFailure(mode: WallpaperMode, screens: seq<ScreenInfo>, env: seq<ScreenRender>): (k: nat)
    requires |screens| == |env|
    ensures k <= |env|
    ensures forall i :: 0 <= i < k ==> ScreenError(mode, screens[i], env[i]) == 0
    ensures k < |env| ==> ScreenError(mode, screens[k], env[k]) != 0
    decreases |env|
  {
    if |env| == 0 then 0
    else if ScreenError(mode, screens[0], env[0]) != 0 then 0
    else 1 + FirstFailure(mode, screens[1..], env[1..])
  }

  /**
   * With a recognised mode the only failure left is an image that does not
   * load, so the message is always "could not load image file".
   */
  lemma KnownModeFailsOnLoadOnly(mode: WallpaperMode, screens: seq<ScreenInfo>, env: seq<ScreenRender>)
    requires |screens| == |env| && mode != ModeNone
    requires FirstFailure(mode, screens, env) < |env|
    ensures env[FirstFailure(mode, screens, env)].image.None?
    ensures ErrorMessage(ScreenError(mode, screens[FirstFailure(mode, screens, env)],
                                     env[FirstFailure(mode, screens, env)])) == LoadImageMessage
  {
    RenderErrors(env[FirstFailure(mode, screens, env)].image, mode, 0, 0, Rect(0, 0, 0, 0));
  }

  /** The pixmap array after rendering stopped at screen `k`: ids before it, 0 from it on. */
  function Filled(env: seq<ScreenRender>, k: nat): (slots: seq<Pixmap>)
    ensures |slots| == |env|
    ensures forall i :: 0 <= i < |env| ==> slots[i] == if i < k then env[i].pixmap as Pixmap else 0
  {
    seq(|env|, i requires 0 <= i < |env| => if i < k then env[i].pixmap as Pixmap else 0)
  }

  /** The exception `Wallpaper_init` raises, if any. */
  function InitError(modeString: Option<string>, screens: seq<ScreenInfo>, env: seq<ScreenRender>): (err: Option<string>)
    requires |screens| == |env|
    ensures ModeFromString(modeString) == ModeNone ==> err == Some(UnknownModeMessage)
    ensures err.None? <==> ModeFromString(modeString) != ModeNone && FirstFailure(ModeFromString(modeString), screens, env) == |env|
  {
    var mode := ModeFromString(modeString);
    if mode == ModeNone then Some(UnknownModeMessage)
    else
      var k := FirstFailure(mode, screens, env);
      if k == |env| then None else Some(ErrorMessage(ScreenError(mode, screens[k], env[k])))
  }

  /** The canvases of the first `k` screens. */
  function CanvasesUpTo(mode: WallpaperMode, color: nat, screens: seq<ScreenInfo>, env: seq<ScreenRender>, k: nat)
    : (cs: seq<Canvas>)
    requires |screens| == |env| && k <= |env|
    ensures |cs| == k && forall i :: 0 <= i < k ==> cs[i] == ScreenCanvas(mode, color, screens[i], env[i])
  {
    seq(k, i requires 0 <= i < k => ScreenCanvas(mode, color, screens[i], env[i]))
  }

  /** The non-zero entries of a pixmap array, in order: what dealloc frees. */
  function NonZero(s: seq<Pixmap>): (r: seq<Pixmap>)
    ensures |r| <= |s|
    ensures forall p :: p in r ==> p != 0 && p in s
    ensures forall i :: 0 <= i < |s| && s[i] != 0 ==> s[i] in r
    decreases |s|
  {
    if |s| == 0 then []
    else NonZero(s[..|s| - 1]) + (if s[|s| - 1] != 0 then [s[|s| - 1]] else [])
  }

  /**
   * After rendering stopped at screen `k`, the first `k` slots hold real
   * pixmaps and the rest are 0: dealloc frees exactly those `k` pixmaps.
   */
  lemma {:induction false} NonZeroOfPartialFill(s: seq<Pixmap>, k: nat)
    requires k <= |s|
    requires forall i :: 0 <= i < k ==> s[i] != 0
    requires forall i :: k <= i < |s| ==> s[i] == 0
    ensures NonZero(s) == s[..k]
    decreases |s|
  {
    if |s| > 0 {
      var n := |s| - 1;
      if k <= n {
        NonZeroOfPartialFill(s[..n], k);
        assert s[..n][..k] == s[..k];
      } else {
        NonZeroOfPartialFill(s[..n], n);
        assert s[..n] + [s[n]] == s;
      }
    }
  }

  /**
   * The loop of `Wallpaper_init`: render the screens in index order into
   * the zeroed array `slots`, stopping at the first failure.
   */
  method RenderScreens(slots: array<Pixmap>, modeString: Option<string>, mode: WallpaperMode, color: Uint32,
                       screens: seq<ScreenInfo>, env: seq<ScreenRender>)
    returns (err: Option<string>, ghost canvases: seq<Canvas>)
    requires mode == ModeFromString(modeString) && mode != ModeNone
    requires |screens| == |env| && slots.Length == |env|
    requires slots[..] == Filled(env, 0)
    modifies slots
    ensures slots[..] == Filled(env, FirstFailure(mode, screens, env))
    ensures canvases == CanvasesUpTo(mode, color, screens, env, FirstFailure(mode, screens, env))
    ensures err == InitError(modeString, screens, env)
  {
    canvases := [];
    ghost var k := FirstFailure(mode, screens, env);
    var i := 0;
    while i < slots.Length
      invariant 0 <= i <= slots.Length && i <= k
      invariant slots[..] == Filled(env, i)
      invariant canvases == CanvasesUpTo(mode, color, screens, env, i)
    {
      var error, out := CreateWallpaper(screens[i], env[i].image, mode, color, env[i].pixmap, env[i].fullDst);
      if error != 0 {
        return Some(ErrorMessage(error)), canvases;
      }
      slots[i] := out.value.pixmap;
      assert slots[..] == Filled(env, i + 1);
      canvases := canvases + [out.value];
      i := i + 1;
    }
    return None, canvases;
  }

  class Wallpaper {
    var display: Display
    var screen: int
    var numScreens: nat
    /** NULL until the mode has been accepted; then one slot per screen. */
    var pixmaps: array?<Pixmap>
    /** What each filled slot's pixmap shows. */
    ghost var canvases: seq<Canvas>
    /** The image file the wallpaper was loaded from. */
    ghost var source: string

    /** The daemon identity this wallpaper was created for. */
    function Owner(): Identity
      reads this
    {
      Identity(display, screen, numScreens)
    }

    /** A wallpaper whose pixmap array has been allocated. */
    ghost predicate Ready()
      reads this
    {
      pixmaps != null && pixmaps.Length == numScreens
    }

    /** A freshly allocated object: every field zero, as the generic allocator leaves it. */
    constructor ()
      ensures display == 0 && screen == 0 && numScreens == 0 && pixmaps == null
      ensures canvases == [] && source == ""
    {
      display, screen, numScreens := 0, 0, 0;
      pixmaps := null;
      canvases, source := [], "";
    }

    /**
     * `Wallpaper_init`: copy the daemon's identity, reject an unknown mode
     * before anything is allocated, then render the screens in index order
     * into a zeroed pixmap array, stopping at the first failure.
     */
    method Init(owner: Identity, screens: seq<ScreenInfo>, imagePath: string,
                modeString: Option<string>, color: Uint32, env: seq<ScreenRender>)
      returns (err: Option<string>)
      requires |screens| == owner.numScreens && |env| == owner.numScreens
      modifies this
      ensures Owner() == owner && source == imagePath
      ensures err == InitError(modeString, screens, env)
      ensures ModeFromString(modeString) == ModeNone ==> pixmaps == old(pixmaps) && canvases == old(canvases)
      ensures ModeFromString(modeString) != ModeNone ==> Ready() && fresh(pixmaps)
      ensures ModeFromString(modeString) != ModeNone ==>
        pixmaps[..] == Filled(env, FirstFailure(ModeFromString(modeString), screens, env))
      ensures ModeFromString(modeString) != ModeNone ==>
        canvases == CanvasesUpTo(ModeFromString(modeString), color, screens, env,
                                 FirstFailure(ModeFromString(modeString), screens, env))
    {
      display, screen, numScreens := owner.display, owner.screen, owner.numScreens;
      source := imagePath;
      var mode := ModeFromString(modeString);
      if mode == ModeNone {
        return Some(UnknownModeMessage);
      }
      var slots := new Pixmap[numScreens](_ => 0);
      assert slots[..] == Filled(env, 0);
      pixmaps := slots;
      ghost var cs;
      err, cs := RenderScreens(slots, modeString, mode, color, screens, env);
      canvases := cs;
    }

    /** `Wallpaper_dealloc`: the pixmaps it frees, in order. */
    method Dealloc() returns (freed: seq<Pixmap>)
      requires pixmaps != null ==> pixmaps.Length == numScreens
      ensures pixmaps == null ==> freed == []
      ensures pixmaps != null ==> freed == NonZero(pixmaps[..])
    {
      freed := [];
      if pixmaps != null {
        var i := 0;
        while i < numScreens
          invariant 0 <= i <= numScreens
          invariant freed == NonZero(pixmaps[..i])
        {
          assert pixmaps[..i + 1][..i] == pixmaps[..i];
          if pixmaps[i] != 0 {
            freed := freed + [pixmaps[i]];
          }
          i := i + 1;
        }
        assert pixmaps[..numScreens] == pixmaps[..];
      }
    }
  }
}
