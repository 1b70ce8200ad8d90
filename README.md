# owallpaperd in Dafny

owallpaperd is a Python extension, written in C, that gives every Xinerama
screen of an X display its own wallpaper and switches wallpapers when the
workspace shown on a screen changes. This project models its core and proves
properties of that model:

- **helper.c** (`helper.dfy`, module `Helper`):
  - turning a mode name into a `WallpaperMode`;
  - the destinations `render_wallpaper` blends the image onto in center, fill and tile mode, including tile mode's walk-back loops and grid loops;
  - the splitting of the background colour into channels;
  - the error propagation of `create_wallpaper`.
- **wallpaper_object.c** (`wallpaper_object.dfy`, module `WallpaperObject`): the `Wallpaper` object.
  - `Wallpaper_init` copies the daemon's identity, rejects an unknown mode before it allocates anything, then renders one pixmap per screen in index order and stops at the first failure.
  - `Wallpaper_dealloc` frees the non-zero pixmaps.
- **owallpaperd_object.c** (`owallpaperd_object.dfy`, module `OWallpaperDObject`): the `OWallpaperD` daemon object.
  - Its initialisation leaves every workspace at -1.
  - The workspace-change wait uses a strictly-newer timestamp filter, then a compare-and-update loop with a `changed` flag.
  - `add_wallpaper` appends only on success.
  - `set_wallpaper` checks the wallpaper's identity, then the screen index.
- **example.py** (`example.dfy`, module `Example`): the script.
  - It loads eight wallpapers in order.
  - After every workspace change it sets every screen `s` to the wallpaper `ws[s] % count`.

`wrappers.dfy` holds the `Option` and `Result` types.

How things are represented:

- **Imlib2.** Each `imlib_blend_image_onto_image` call becomes a `Blend` value holding its source and destination rectangles, in call order. A decoded image is its width and height, and `None` means the load failed.
- **X.**
  - Every value X supplies is an input: the connection, the Xinerama screen list, the desktop windows, pixmap ids, the atom lookup, the baseline server time, and the events with what the workspace property reads after each one.
  - Each X request the core makes is returned as a value: the `Background` that `set_wallpaper` sets, and the pixmaps a dealloc frees.
- **Objects.** The two Python objects become the classes `Daemon` and `Wallpaper`. Their fields are updated in place, and the pixmap and workspace buffers are arrays.

## Model

| member | source | states |
|---|---|---|
| Helper.ModeFromString | helper.c:108-122 | no string means Full; otherwise a real mode results exactly when the string is one of the four names, and that mode's name is the string |
| Helper.ModeNameRoundTrip | helper.c:112-119 | each of center, fill, full and tile maps back to its own mode |
| Helper.ModeMatchIsExact | helper.c:112-121 | the match is a byte-wise `strcmp`: "", "Center" and "tile " are not modes |
| Helper.CHalf | helper.c:157-158 | halving toward zero over mathematical integers, in place of C's `(root - image) / 2` on an unsigned difference: bounds on the result for both signs of the operand |
| Helper.CenterDst | helper.c:156-158 | the evidently intended centre placement (see Findings): the centred destination has native size and margins that differ by at most one pixel, and lies inside the canvas when the image fits |
| Helper.CenterDrawnInCorner | helper.c:156-162 | for a 30x30 image on a 100x100 canvas, the offsets computed are (35, 35) but the render specification draws at Rect(0, 0, 30, 30), which is not the centred destination |
| Helper.WalkBack | helper.c:184-187 | the walk-back value is never positive, and a start that is already at or below 0 is kept |
| Helper.WalkBackSteps | helper.c:184-187 | the walk-back loop subtracts a whole number of steps from its start |
| Helper.WalkBackBounds | helper.c:184-187 | once start + step > 0, the loop ends in (-step, 0] |
| Helper.StepBack | helper.c:184-187 | the `while (v > 0) v -= step` loop computes the walk-back value |
| Helper.TileOriginAligned | helper.c:181-187 | the tile origin lies in (-image, 0] and differs from `(canvas - image) / 2` by a multiple of the image extent |
| Helper.ColumnEmpty | helper.c:190-195 | the column the inner loop blends (`TileColumn`) is empty exactly when its first row is at or past the canvas edge |
| Helper.GridEmpty | helper.c:189-196 | the grid the nested loops blend (`TileGrid`) is empty exactly when its first column or first row is at or past the canvas edge |
| Helper.ColumnSound | helper.c:190-195 | every blend of a column is a native-size copy at a grid row before the canvas edge |
| Helper.ColumnComplete | helper.c:190-195 | every grid row before the canvas edge gets a copy in the column |
| Helper.GridSound | helper.c:189-196 | every blend of the nested loops sits at a grid corner (x + i*w, top + j*h) before both edges |
| Helper.GridComplete | helper.c:189-196 | every grid corner before both edges is blended |
| Helper.GridCovers | helper.c:189-196 | a grid that starts at or before the canvas origin covers every canvas pixel |
| Helper.TileCoversCanvas | helper.c:180-197 | tile mode leaves no pixel of [0, cw) x [0, ch) unblended |
| Helper.TileBlendsExact | helper.c:180-197 | in both directions, the tile blends are exactly the whole-image copies at the grid corners before the canvas edges, and each overlaps the canvas |
| Helper.NegativeTileOriginDrawsNothing | helper.c:189-190 | for a 30x30 image on a 100x100 canvas the origin is -25, which the unsigned loop test rejects, although the grid the model uses starts there |
| Helper.TileColumnInto | helper.c:190-195 | the inner loop appends exactly one column of copies |
| Helper.TileWallpaper | helper.c:180-197 | the tile case's loops produce exactly the tile grid |
| Helper.RenderSpec | helper.c:132-209 | the error is 0, EINVAL or ENOSYS; a failed load is EINVAL; an error blends nothing; a success in center, fill or full mode blends exactly once |
| Helper.RenderErrors | helper.c:142-147 | EINVAL exactly when the image fails to load; ENOSYS exactly for a loaded image in no known mode; a failed render blends nothing |
| Helper.RenderSingleBlend | helper.c:156-179 | center, fill and full blend the whole image once: center at native size at the origin, Rect(0, 0, Iw, Ih), as the C code does; fill stretched to the canvas; full onto the full-mode rectangle |
| Helper.RenderWallpaper | helper.c:132-209 | the error code and the blends of `render_wallpaper` for every mode and load outcome; center computes its offsets and then blends at (0, 0) |
| Helper.ColorChannels | helper.c:245-247 | the three colour channels are bytes and alpha is 0xff |
| Helper.ColorChannelsRoundTrip | helper.c:245-247 | the channels hold the low 24 bits of the colour and nothing else |
| Helper.PackRgbRoundTrip | helper.c:245-247 | splitting a packed 0xRRGGBB value gives back its channels |
| Helper.CreateWallpaper | helper.c:212-265 | the render error comes back unchanged; the pixmap is handed out exactly when that error is 0, with the screen's size, the background fill and the render's blends |
| WallpaperObject.ErrorMessage | wallpaper_object.c:66-75 | in both directions, EINVAL gives "could not load image file", ENOSYS gives "unimplemented wallpaper mode", and anything else gives "unknown error loading wallpaper" |
| WallpaperObject.InitError | wallpaper_object.c:47-76 | an unknown mode gives its message; there is no error exactly when the mode is known and every screen renders |
| WallpaperObject.CanvasesUpTo | wallpaper_object.c:59-78 | k canvases, the i-th being what screen i renders with the mode and colour |
| WallpaperObject.FirstFailure | wallpaper_object.c:59-78 | every screen before the index renders, and the screen at the index, if any, fails |
| WallpaperObject.KnownModeFailsOnLoadOnly | wallpaper_object.c:47-68 | once the mode is known, a failed screen always means the image did not load |
| WallpaperObject.Filled | wallpaper_object.c:55-77 | rendering that stopped at screen k leaves the ids before k and 0 after |
| WallpaperObject.NonZero | wallpaper_object.c:6-11 | the slots that are freed are exactly the non-zero ones |
| WallpaperObject.NonZeroOfPartialFill | wallpaper_object.c:6-11 | after rendering stopped at screen k, dealloc frees exactly the first k pixmaps |
| WallpaperObject.RenderScreens | wallpaper_object.c:58-78 | the render loop fills the slots up to the first failure, records their canvases, and reports that failure's message |
| WallpaperObject.Wallpaper.constructor | owallpaperd_module.c:36 | `PyType_GenericNew` hands out a zeroed object: no display, no pixmap array, no screens, so a dealloc before init frees nothing |
| WallpaperObject.Wallpaper.Init | wallpaper_object.c:17-81 | identity copied first; an unknown mode is refused before any allocation; otherwise there is a fresh zeroed array holding the pixmaps of the screens before the first failure, and that failure's message |
| WallpaperObject.Wallpaper.Dealloc | wallpaper_object.c:3-15 | frees nothing without an array, otherwise every non-zero pixmap in order |
| OWallpaperDObject.WatchLoop | owallpaperd_object.c:149-174 | a change returns the new reading, which differs from the stored array; a failed read raises "could not get current workspaces"; otherwise the stored array is kept |
| OWallpaperDObject.WaitSpec | owallpaperd_object.c:114-174 | a missing atom and then a zero baseline time raise their messages; without a change the stored array is kept |
| OWallpaperDObject.BaselineEventSkipped | owallpaperd_object.c:151-153 | an event stamped with the baseline time is ignored; one tick later is accepted |
| OWallpaperDObject.ChangedOnlyOnDifference | owallpaperd_object.c:149-174 | a change is reported only after an accepted event whose reading differs from the stored array, every earlier accepted reading equal it, and the result is the new stored array |
| OWallpaperDObject.FailedReadAborts | owallpaperd_object.c:156-161 | a failed read raises "could not get current workspaces" and leaves the stored array unchanged |
| OWallpaperDObject.PendingIffNoChange | owallpaperd_object.c:149-174 | the wait goes on exactly when every accepted event read back the stored array |
| OWallpaperDObject.SkippedEventsNotRead | owallpaperd_object.c:150-156 | what the property holds at a filtered-out event cannot affect the wait |
| OWallpaperDObject.NegativeScreenSlipsThrough | owallpaperd_object.c:276-279 | the upper-bound-only test lets -1 through, although -1 names no screen |
| OWallpaperDObject.Daemon.constructor | owallpaperd_object.c:73-86 | every workspace starts at -1 and the wallpaper list starts empty |
| OWallpaperDObject.Daemon.UpdateWorkspaces | owallpaperd_object.c:163-169 | the stored array becomes the reading, and `changed` holds exactly when the two differed |
| OWallpaperDObject.Daemon.WaitForWorkspaceChange | owallpaperd_object.c:114-195 | the atom error first, then the time error, then the event loop; the new array and the result are those of the specification |
| OWallpaperDObject.Daemon.AddWallpaper | owallpaperd_object.c:197-240 | appends exactly when initialisation succeeded; on failure the list is unchanged, the message is raised, and the rendered pixmaps are freed |
| OWallpaperDObject.Daemon.SetWallpaper | owallpaperd_object.c:255-293 | a foreign wallpaper is refused first, then an index at or past n (and, in this model, a negative one); otherwise the screen's window gets the wallpaper's pixmap for that screen |
| OWallpaperDObject.Open | owallpaperd_object.c:20-89 | the display error, with or without a name, then the Xinerama error; otherwise a valid daemon on the chosen screen (-1 means the default) |
| Example.StripSlashes | example.py:20 | the result is the input with its trailing slashes removed, and none is left |
| Example.UserEnd | example.py:20 | the user name of a `~` path ends at the first `/` after the tilde, or at the end of the path |
| Example.ExpandUser | example.py:20 | `os.path.expanduser`: a path not starting with `~` and a `~user` path with an unknown user are unchanged; otherwise the home directory (for `~` alone or `~/`) or the user's directory, without trailing slashes, replaces the prefix, and an empty result is "/" |
| Example.HomePathExpansion | example.py:20 | a path starting with `~/` becomes the home directory without trailing slashes followed by the rest of the path |

| Example.PathsUnderHome | example.py:7-16 | there are eight paths and each starts with `~/` |
| Example.ExpandedPaths | example.py:7-20 | each of the eight paths expands to the home directory followed by the rest of the path |
| Example.SelectWallpaper | example.py:27 | the index is in [0, count), is congruent to the workspace modulo count, and equals the workspace when it is already in range |
| Example.UnknownWorkspaceGetsLast | example.py:27 | workspace -1 selects the last wallpaper, as Python's `%` does |
| Example.FirstUnloadable | example.py:20-21 | every path before the index loads, and the path at the index does not |
| Example.LoadWallpapers | example.py:20-21 | the wallpapers loaded are those before the first failure, in path order, each from its expanded path; a failure raises its message |
| Example.Requests | example.py:26-27 | screen s, in order, gets the pixmap of wallpaper `ws[s] % count` for that screen |
| Example.ApplyAll | example.py:26-27 | the loop makes exactly those requests, and none of them fails |
| Example.WatchKeepsLength | owallpaperd_object.c:164-169 | a wait over readings of the screen count keeps the stored array at that length |
| Example.SessionSetsEveryScreen | example.py:23-27 | each change in the log sets every screen from workspaces some reading reported |
| Example.Session | example.py:23-29 | at most one change per wait, and every change sets as many screens as there are workspaces |
| Example.Watch | example.py:23-29 | the requests and the ending exception of the watch loop are those of the session specification |
| Example.Run | example.py:18-29 | open errors; a load failure ends the script before any request; otherwise the session starts from all workspaces at -1 over the eight loaded wallpapers |

## Left out

- Full mode's floating-point placement (helper.c:168-179) is not modelled. The destination rectangle it computes is an input.
- Helper.TileWallpaper: the unsigned arithmetic of `root_width - image_width` and of `x < root_width` (helper.c:133-134, 157, 181, 189-190) is modelled over mathematical integers. The model blends from a negative origin, where the C code blends nothing (see Findings). It also takes no wrap-around for an image wider than the screen.
- Helper.CreateWallpaper: the pixmap, colour range and Imlib2 context are not freed when rendering fails (helper.c:253-255). The model drops the pixmap id and does not track the leak.
- Imlib2's pixel work is recorded as blend rectangles, not pixels: decoding, dithering, the background fill and drawing onto the pixmap. The colour fill is recorded as the `Rgba` value.
- X11 calls are not modelled; their results are inputs to the model.
  - `create_desktop_window`, `get_current_time` and `get_workspaces`: their results are inputs.
  - `XSelectInput`, `XMapWindow`, `XKillClient`, `XSetCloseDownMode`, `XClearWindow`, `XFlush`, `XSync`: the X side is not part of this model.
- The blocking `for (;;)` loop of the wait runs over a finite sequence of events. `Pending` means the events ran out.
- The `KeyboardInterrupt` exit of the script is not modelled. The script's watch loop ends when its inputs run out.
- Allocation failures of `PyMem_New`, `PyList_New`, `PyTuple_New` and `PyList_Append`, and Python reference counting, are not modelled, because Dafny's allocation does not fail.
- Argument parsing and the two type checks ("first argument must be a Wallpaper object", "first argument must be a OWallpaperD object") are not modelled, because Dafny's parameter types enforce them.
- `OWallpaperD_dealloc` only releases X resources and memory, so it is not modelled. The `wallpapers` and `num_screens` getters only return fields, so they are not modelled either.
- Example.ExpandUser: the environment and the password database are inputs: `home` stands for `$HOME` (or the password entry used when it is unset) and `users` for the password database; bytes paths are not modelled.
- The C `long`/`int` widths of workspace numbers and screen indices are not modelled; they are unbounded integers.
- OWallpaperDObject.WatchLoop: X server timestamps are 32-bit and wrap after about 49.7 days, so the `>` test of owallpaperd_object.c:153 can reject newer events after a wrap; `Time` is unbounded and does not wrap.
- OWallpaperDObject.Daemon.SetWallpaper: refuses a negative index with IndexError, where the C code (owallpaperd_object.c:276, 282-283) lets it through and indexes before the start of the windows and pixmaps arrays (see Findings).

## Findings

| source | as written | input that shows it | evidently intended | confidence | as-written member | corrected member |
|---|---|---|---|---|---|---|
| owallpaperd_object.c:276 | only `xinerama_screen >= num_screens` is rejected | `set_wallpaper(-1, w)` passes the bounds test and reads `windows[-1]` | reject every index outside [0, num_screens) with IndexError | high, not executed | OWallpaperDObject.NegativeScreenSlipsThrough | OWallpaperDObject.Daemon.SetWallpaper |
| helper.c:189-190 | `x < root_width` and `y < root_height` compare a signed coordinate with an unsigned extent | tile mode, 30x30 image, 100x100 screen: the origin is -25, which compares as 2^32 - 25, so nothing is blended | tile the whole screen from the walked-back origin | high, not executed | Helper.NegativeTileOriginDrawsNothing | Helper.TileCoversCanvas |
| helper.c:157-161 | center computes `left` and `top` but blends at (0, 0) | center mode, 30x30 image, 100x100 screen: drawn at (0, 0), not (35, 35) | blend at (left, top), as the offsets computed just before show | medium, not executed | Helper.CenterDrawnInCorner | Helper.CenterDst |
