# LiveBoot console pipeline, modelled in Dafny

LiveBoot (Chainfire) shows the logcat and kernel log as scrolling coloured text on
an Android boot animation. A root process, started from a boot script, opens a
SurfaceControl surface above everything and reads `logcat` and `/dev/kmsg` (or
`/proc/kmsg`) through a shell. It holds lines back in a small cache until output
slows down, classifies and filters them, and draws each line as a texture in a
scroll buffer. The settings app decides how the boot script is installed and
writes the parameter list the root process parses back at boot.

This project models that pipeline and the decision routines around it:

- `rate_control.dfy`: the buffering-then-passthrough state machine shared by both readers.
- `logcat.dfy` and `dmesg.dfy`: option parsing, line classification and the reader objects.
- `text_manager.dfy`: the scroll buffer, greedy line splitting, eviction and row placement.
- `texture_manager.dfy`: the LIFO pool of GL texture names.
- `picture.dfy`: tiling a bitmap into textures, suspend/resume and the alpha mode.
- `text_renderer.dfy`: text size, padding, width and justification arithmetic.
- `surface_host.dfy`: the frame loop, the lifecycle hook order and the pixel-format table.
- `runner.dfy`: argument parsing, ingestor choice, the boot-watch loop and the line handler.
- `installer.dfy`: script paths, the install-needed tests, the free-space test, the launch parameters and the uninstall commands.
- `launch_roundtrip.dfy`: the launch parameters parsed back by the runner recover the settings.
- `toolbox.dfy`: choosing between `toybox` and `toolbox` for shell commands.
- `settings_fragment.dfy`: the root-mode decision table, the encoding of level and buffer selections, and the summary text.
- `in_app_purchases.dfy`: all-or-nothing purchase updates, pagination, order filtering and the sort order.
- `java_text.dfy` and `android_color.dfy`: the Java and Android library behaviour the rest relies on. This covers `indexOf`, `trim`, `Integer.valueOf`, `split`, int and long wrap-around, truncating division and `Color.rgb`.

Objects whose fields the Java code updates are classes: the readers, the
scroll buffer, the texture pool, the picture, the renderer, the surface host,
the runner console, the toolbox cache and the purchase store. Each of their
methods states its new state in terms of a function of the old state. The
properties are proved about those functions.

Time, shell output, file existence, system properties and the billing service
are parameters. `Paint.breakText` and `Paint.getTextBounds` are parameters
too. The model assumes that `breakText` returns a count between 1 and the
text's length (the predicate `TextManager.Breaks`). Android can also return 0,
for a width narrower than the first character; see "## Left out".

## Model

| member | source | states |
|---|---|---|
| RateControl.PassthroughIsSticky | liveBootAni2/src/main/java/eu/chainfire/liveboot/shell/Logcat.java:199-210 | once in passthrough, the gate changes nothing and never flushes |
| RateControl.GapSetsSentinel | liveBootAni2/src/main/java/eu/chainfire/liveboot/shell/Logcat.java:201-206 | a gap of more than 16 ms after a positive last time sets the last time to the sentinel 1, and turns on passthrough exactly when the reader is ready |
| RateControl.NoGapRecordsNow | liveBootAni2/src/main/java/eu/chainfire/liveboot/shell/Logcat.java:207-209 | without such a gap the last time becomes `now`, and the reader stays buffering |
| RateControl.FlushExactlyOnSwitch | liveBootAni2/src/main/java/eu/chainfire/liveboot/shell/Logcat.java:201-205 | the cache is flushed exactly when passthrough switches on, which needs `ready` |
| RateControl.CachePushBounded | liveBootAni2/src/main/java/eu/chainfire/liveboot/shell/Logcat.java:215-216 | with a cache size of at least 1, the cache stays within its size, ends with the new line, and is the newest suffix of old cache plus line |
| RateControl.StepConsistent | liveBootAni2/src/main/java/eu/chainfire/liveboot/shell/Logcat.java:199-217 | a step keeps the invariant: in passthrough the cache is empty, otherwise it is within its size |
| RateControl.StepByGate | liveBootAni2/src/main/java/eu/chainfire/liveboot/shell/Logcat.java:199-217 | a step either hands on the flushed cache followed by the line, with the cache emptied, or caches the line and hands on nothing |
| RateControl.SwitchFlushesCacheFirst | liveBootAni2/src/main/java/eu/chainfire/liveboot/shell/Logcat.java:203-213 | when passthrough switches on, the cached lines go out in arrival order before the triggering line, the cache ends empty, and the last time is the sentinel |
| RateControl.PassthroughHandsLine | liveBootAni2/src/main/java/eu/chainfire/liveboot/shell/Logcat.java:212-213 | in passthrough a line is handed straight on and the state is unchanged |
| RateControl.BufferedStep | liveBootAni2/src/main/java/eu/chainfire/liveboot/shell/Logcat.java:207-216 | a buffered step records `now` and keeps the newest lines that fit |
| RateControl.BurstStaysBuffered | liveBootAni2/src/main/java/eu/chainfire/liveboot/shell/Logcat.java:199-217 | a burst of lines no more than 16 ms apart hands nothing on and stays buffering |
| RateControl.BurstKeepsNewest | liveBootAni2/src/main/java/eu/chainfire/liveboot/shell/Logcat.java:215-216 | after such a burst the cache holds exactly the newest cache-size lines of old cache plus burst |
| RateControl.SentinelOpensOnceReady | liveBootAni2/src/main/java/eu/chainfire/liveboot/shell/Logcat.java:201-209 | after the sentinel, the next line opens passthrough if ready, and is cached otherwise |
| RateControl.OutputsAppend | liveBootAni2/src/main/java/eu/chainfire/liveboot/shell/Logcat.java:237-242 | processing two runs of lines emits the outputs of the first run and then those of the second |
| Logcat.ContainsChar | liveBootAni2/src/main/java/eu/chainfire/liveboot/shell/Logcat.java:140 | the one-character `contains` test is membership of the character |
| Logcat.OptionFlags | liveBootAni2/src/main/java/eu/chainfire/liveboot/shell/Logcat.java:137-150 | a level or buffer is enabled exactly when its character is in the option, and all are enabled without an option |
| Logcat.FormatOrBrief | liveBootAni2/src/main/java/eu/chainfire/liveboot/shell/Logcat.java:151-162 | a supported format is kept; a missing or unknown one becomes "brief" |
| Logcat.CommandEmptyExactlyWhenNothingEnabled | liveBootAni2/src/main/java/eu/chainfire/liveboot/shell/Logcat.java:164-179 | the command is empty exactly when no level or no buffer is enabled, and otherwise starts with "logcat -v" and the format |
| Logcat.SelectedBuffersExact | liveBootAni2/src/main/java/eu/chainfire/liveboot/shell/Logcat.java:170-177 | a buffer name is on the command exactly when it is enabled and its device exists |
| Logcat.BufferArgsListSelected | liveBootAni2/src/main/java/eu/chainfire/liveboot/shell/Logcat.java:170-177 | the command's buffer arguments are " -b name" for each selected buffer, in table order |
| Logcat.FirstTrueSpec | liveBootAni2/src/main/java/eu/chainfire/liveboot/shell/Logcat.java:250-256 | the level search returns the first index whose test holds, or -1 when none holds |
| Logcat.MarkedBeforeIff | liveBootAni2/src/main/java/eu/chainfire/liveboot/shell/Logcat.java:251-252 | `indexOf` of the level marker lies before the end exactly when the marker occurs somewhere before the end |
| Logcat.FirstMarkedSpec | liveBootAni2/src/main/java/eu/chainfire/liveboot/shell/Logcat.java:250-256 | the level found is the first in V, D, I, W, E, F, S order whose marker occurs before the end |
| Logcat.TimeFormatLevel | liveBootAni2/src/main/java/eu/chainfire/liveboot/shell/Logcat.java:247-257 | "time" format: the level is the first whose " X/" occurs before the first '(' |
| Logcat.ThreadtimeFormatLevel | liveBootAni2/src/main/java/eu/chainfire/liveboot/shell/Logcat.java:258-268 | "threadtime" format: the level is the first whose " X " occurs before the first ": " |
| Logcat.OtherFormatLevel | liveBootAni2/src/main/java/eu/chainfire/liveboot/shell/Logcat.java:269-277 | other formats: the level is the first character, when it is a level character |
| Logcat.ProcessLineForwards | liveBootAni2/src/main/java/eu/chainfire/liveboot/shell/Logcat.java:244-293 | a line is forwarded exactly when it is non-empty, has an enabled level and contains no skip string, and then with that level's colour |
| Logcat.OwnLinesDropped | liveBootAni2/src/main/java/eu/chainfire/liveboot/shell/Logcat.java:125-129 | a line mentioning "(pid)" of the process itself is never forwarded |
| Logcat.Reader.constructor | liveBootAni2/src/main/java/eu/chainfire/liveboot/shell/Logcat.java:133-183 | the reader starts with the parsed levels, buffers, format and command, an empty cache, not ready and not in passthrough |
| Logcat.Reader.ProcessLine | liveBootAni2/src/main/java/eu/chainfire/liveboot/shell/Logcat.java:244-293 | emits the line's classification and nothing else |
| Logcat.Reader.ProcessCache | liveBootAni2/src/main/java/eu/chainfire/liveboot/shell/Logcat.java:237-242 | emits the cached lines in order and empties the cache |
| Logcat.Reader.OnStdoutLine | liveBootAni2/src/main/java/eu/chainfire/liveboot/shell/Logcat.java:190-224 | every line is logged; lines with "libsuperuser", "SuperSU" or "LiveBoot" change nothing else; any other line takes one rate-control step |
| Logcat.Reader.Admit | liveBootAni2/src/main/java/eu/chainfire/liveboot/shell/Logcat.java:196-217 | the reader's state and output follow the rate-control step |
| Logcat.Reader.Gate | liveBootAni2/src/main/java/eu/chainfire/liveboot/shell/Logcat.java:199-210 | the fields follow the gate, and the cache is flushed exactly when the gate says so |
| Logcat.Reader.CacheLine | liveBootAni2/src/main/java/eu/chainfire/liveboot/shell/Logcat.java:215-216 | drops the oldest line when the cache is full, then appends; a full empty cache loses the line |
| Logcat.Reader.SetReady | liveBootAni2/src/main/java/eu/chainfire/liveboot/shell/Logcat.java:295-303 | sets ready, flushes and empties the cache, and leaves passthrough alone |
| Dmesg.ParseShow | liveBootAni2/src/main/java/eu/chainfire/liveboot/shell/Dmesg.java:48-61 | the range is 0..99 unless the string holds a '-', and the minimum is never negative |
| Dmesg.ParseMinNonNegative | liveBootAni2/src/main/java/eu/chainfire/liveboot/shell/Dmesg.java:50-53 | the part before the first '-' holds no sign, so a parsed minimum is not negative |
| Dmesg.ParseShowRange | liveBootAni2/src/main/java/eu/chainfire/liveboot/shell/Dmesg.java:50-54 | "lo-hi" written in decimal parses back to lo and hi |
| Dmesg.OffRange | liveBootAni2/src/main/java/eu/chainfire/liveboot/shell/Dmesg.java:50-54 | "0--1" gives the empty range 0..-1 |
| Dmesg.ProcKmsgLine | liveBootAni2/src/main/java/eu/chainfire/liveboot/shell/Dmesg.java:128-140 | a "<N>..." line is forwarded unchanged exactly when N is in range, with an unparsable N read as -1 |
| Dmesg.UnparsedProcLevelHidden | liveBootAni2/src/main/java/eu/chainfire/liveboot/shell/Dmesg.java:132-137 | an unparsable level is never shown, whatever the show option |
| Dmesg.DevKmsgLine | liveBootAni2/src/main/java/eu/chainfire/liveboot/shell/Dmesg.java:141-159 | a /dev/kmsg record in range becomes "<lvl>[S.U] msg" when its time field has 6 digits or more, and throws otherwise |
| Dmesg.KmsgBranch | liveBootAni2/src/main/java/eu/chainfire/liveboot/shell/Dmesg.java:143-155 | the /dev/kmsg branch in terms of the first ';' and the comma fields |
| Dmesg.NothingShownWhenOff | liveBootAni2/src/main/java/eu/chainfire/liveboot/shell/Dmesg.java:125-163 | an empty line, or any line under an empty range, is never forwarded |
| Dmesg.ThrowIndex | liveBootAni2/src/main/java/eu/chainfire/liveboot/shell/Dmesg.java:117-122 | the first cached line whose processing throws, or the cache's length when none does |
| Dmesg.StepSettled | liveBootAni2/src/main/java/eu/chainfire/liveboot/shell/Dmesg.java:78-96 | a step keeps the reader's invariant, also when a flush throws part-way |
| Dmesg.FlushSettled | liveBootAni2/src/main/java/eu/chainfire/liveboot/shell/Dmesg.java:168-176 | a flush keeps the reader's invariant |
| Dmesg.StepCases | liveBootAni2/src/main/java/eu/chainfire/liveboot/shell/Dmesg.java:78-96 | a step either hands on the cache prefix before a throwing line and stops, or flushes all and passes the line, or passes the line, or caches it |
| Dmesg.StuckCacheStays | liveBootAni2/src/main/java/eu/chainfire/liveboot/shell/Dmesg.java:91-92 | in passthrough each line is handed on and a cache left by a throw stays as it was |
| Dmesg.ThrowingFlush | liveBootAni2/src/main/java/eu/chainfire/liveboot/shell/Dmesg.java:80-85 | a throw inside the flush leaves passthrough on, the cache whole and the last time unchanged |
| Dmesg.Reader.constructor | liveBootAni2/src/main/java/eu/chainfire/liveboot/shell/Dmesg.java:48-65 | the reader starts with the parsed range, an empty cache, not ready and not in passthrough |
| Dmesg.Reader.ProcessOne | liveBootAni2/src/main/java/eu/chainfire/liveboot/shell/Dmesg.java:124-166 | emits the line's classification, and reports whether it threw |
| Dmesg.Reader.ProcessCache | liveBootAni2/src/main/java/eu/chainfire/liveboot/shell/Dmesg.java:117-122 | emits the cached lines up to the first throw; the cache is cleared only when none throws |
| Dmesg.Reader.OnStdoutLine | liveBootAni2/src/main/java/eu/chainfire/liveboot/shell/Dmesg.java:72-103 | every line is logged and then takes one rate-control step |
| Dmesg.Reader.Admit | liveBootAni2/src/main/java/eu/chainfire/liveboot/shell/Dmesg.java:77-96 | the reader's state and output follow the step |
| Dmesg.Reader.CacheLine | liveBootAni2/src/main/java/eu/chainfire/liveboot/shell/Dmesg.java:94-95 | drops the oldest line when the cache is full, then appends |
| Dmesg.Reader.Gate | liveBootAni2/src/main/java/eu/chainfire/liveboot/shell/Dmesg.java:78-89 | the fields follow the gate; a throw in the flush leaves passthrough on and the last time unchanged |
| Dmesg.Reader.SetReady | liveBootAni2/src/main/java/eu/chainfire/liveboot/shell/Dmesg.java:168-176 | sets ready and flushes the cache; passthrough is unchanged |
| TextManager.CutOff | eu.chainfire/libcfsurface/src/main/java/eu/chainfire/libcfsurface/gl/GLTextManager.java:180-197 | one piece of text: it has no newline, is at most `breakText` long, and makes progress |
| TextManager.CutOffRejoins | eu.chainfire/libcfsurface/src/main/java/eu/chainfire/libcfsurface/gl/GLTextManager.java:181-197 | the piece, the newline it removed and the rest give back the text |
| TextManager.Split | eu.chainfire/libcfsurface/src/main/java/eu/chainfire/libcfsurface/gl/GLTextManager.java:180-201 | non-empty text gives at least one piece; without word wrap at most one |
| TextManager.SplitRejoins | eu.chainfire/libcfsurface/src/main/java/eu/chainfire/libcfsurface/gl/GLTextManager.java:180-201 | with word wrap, the pieces joined back with the removed newlines equal the input |
| TextManager.SplitFits | eu.chainfire/libcfsurface/src/main/java/eu/chainfire/libcfsurface/gl/GLTextManager.java:181-191 | every piece is at most as long as `breakText` allows |
| TextManager.Pieces | eu.chainfire/libcfsurface/src/main/java/eu/chainfire/libcfsurface/gl/GLTextManager.java:176-202 | `add` of a string always adds at least one line, the empty string exactly one empty line |
| TextManager.CutLines | eu.chainfire/libcfsurface/src/main/java/eu/chainfire/libcfsurface/gl/GLTextManager.java:180-202 | the loop adds exactly the lines of the split |
| TextManager.ReleaseLines | eu.chainfire/libcfsurface/src/main/java/eu/chainfire/libcfsurface/gl/GLTextManager.java:61-70 | every line cleared, with the bitmaps and pictures the lines held, in line order |
| TextManager.EvictOldest | eu.chainfire/libcfsurface/src/main/java/eu/chainfire/libcfsurface/gl/GLTextManager.java:160-169 | removes exactly the `Evicted` oldest lines, returning their bitmaps and pictures; fails exactly for a negative line count |
| TextManager.CeilDivCovers | eu.chainfire/libcfsurface/src/main/java/eu/chainfire/libcfsurface/gl/GLTextManager.java:103 | the line count covers the height, and one line fewer would not |
| TextManager.LineCountIsCeiling | eu.chainfire/libcfsurface/src/main/java/eu/chainfire/libcfsurface/gl/GLTextManager.java:103 | the line count is the ceiling of height over line height |
| TextManager.Evicted | eu.chainfire/libcfsurface/src/main/java/eu/chainfire/libcfsurface/gl/GLTextManager.java:160-169 | the number of oldest lines `reduce` drops: enough to fit the line count and no more; all of them when the count is negative |
| TextManager.RowTopNext | eu.chainfire/libcfsurface/src/main/java/eu/chainfire/libcfsurface/gl/GLTextManager.java:139-143 | each older row sits one line height above the newer one |
| TextManager.Manager.constructor | eu.chainfire/libcfsurface/src/main/java/eu/chainfire/libcfsurface/gl/GLTextManager.java:89-92 | starts empty, with negative sizes read as 0 and the line count from the height |
| TextManager.Manager.ReleaseAll | eu.chainfire/libcfsurface/src/main/java/eu/chainfire/libcfsurface/gl/GLTextManager.java:61-70 | every line gives back its bitmap and destroys its picture, and the pool is recycled and emptied |
| TextManager.Manager.Resize | eu.chainfire/libcfsurface/src/main/java/eu/chainfire/libcfsurface/gl/GLTextManager.java:94-112 | a negative argument keeps its field; the line count is recomputed only for a non-negative line height; no line is evicted; every bitmap and picture is released and the pool emptied |
| TextManager.Manager.SetBounds | eu.chainfire/libcfsurface/src/main/java/eu/chainfire/libcfsurface/gl/GLTextManager.java:97-103 | a negative argument keeps its field; the line count follows the new line height only when one was given |
| TextManager.Manager.Reduce | eu.chainfire/libcfsurface/src/main/java/eu/chainfire/libcfsurface/gl/GLTextManager.java:160-169 | drops the oldest lines until the count fits; their bitmaps return to the pool and their pictures are destroyed |
| TextManager.Manager.Add | eu.chainfire/libcfsurface/src/main/java/eu/chainfire/libcfsurface/gl/GLTextManager.java:171-204 | null changes nothing; otherwise the split lines are appended and then the oldest evicted down to the line count |
| TextManager.Manager.RemoveLastLine | eu.chainfire/libcfsurface/src/main/java/eu/chainfire/libcfsurface/gl/GLTextManager.java:206-215 | removes only the newest line, if any, releasing its bitmap and picture |
| TextManager.Manager.Destroy | eu.chainfire/libcfsurface/src/main/java/eu/chainfire/libcfsurface/gl/GLTextManager.java:217-229 | every line is released, the lines and the pool are emptied and the pool's bitmaps recycled |
| TextManager.Manager.LinePicture | eu.chainfire/libcfsurface/src/main/java/eu/chainfire/libcfsurface/gl/GLTextManager.java:48-59 | a line with bitmap and picture keeps them and allocates nothing; otherwise it takes pool bitmap 0 when there is one; no other line changes |
| TextManager.Manager.Draw | eu.chainfire/libcfsurface/src/main/java/eu/chainfire/libcfsurface/gl/GLTextManager.java:131-149 | the k-th newest line is placed at top + height - (k+1) line heights, with the manager's left, width and line height |
| TextureManager.PopValidSpec | eu.chainfire/libcfsurface/src/main/java/eu/chainfire/libcfsurface/gl/GLTextureManager.java:38-46 | the pop returns the topmost valid handle and keeps those below it; invalid handles above it are discarded; with none valid the pool ends empty |
| TextureManager.PushThenPop | eu.chainfire/libcfsurface/src/main/java/eu/chainfire/libcfsurface/gl/GLTextureManager.java:38-40 | a valid handle pushed last is popped first, leaving the pool as before |
| TextureManager.ReleasedNameSkipped | eu.chainfire/libcfsurface/src/main/java/eu/chainfire/libcfsurface/gl/GLTextureManager.java:42-45 | a released, deleted name is skipped by later pops |
| TextureManager.Manager.constructor | eu.chainfire/libcfsurface/src/main/java/eu/chainfire/libcfsurface/gl/GLTextureManager.java:31 | the pool starts empty |
| TextureManager.Manager.NewTextureHandle | eu.chainfire/libcfsurface/src/main/java/eu/chainfire/libcfsurface/gl/GLTextureManager.java:35-56 | returns the pop's handle, or a freshly generated name when the pool has no valid one |
| TextureManager.Manager.ReleaseTextureHandle | eu.chainfire/libcfsurface/src/main/java/eu/chainfire/libcfsurface/gl/GLTextureManager.java:58-68 | deletes the texture and appends exactly that handle to the pool |
| TextureManager.Manager.Destroy | eu.chainfire/libcfsurface/src/main/java/eu/chainfire/libcfsurface/gl/GLTextureManager.java:70-84 | deletes every pooled handle and empties the pool |
| TextureManager.Manager.LoadTexture | eu.chainfire/libcfsurface/src/main/java/eu/chainfire/libcfsurface/gl/GLTextureManager.java:86-123 | returns the handle `newTextureHandle` gave, and throws in debug builds when it is 0 |
| Picture.Intersect | eu.chainfire/libcfsurface/src/main/java/eu/chainfire/libcfsurface/gl/GLPicture.java:170 | `Rect.intersect` clips an overlapping rectangle and leaves a disjoint one unchanged |
| Picture.TilePlan | eu.chainfire/libcfsurface/src/main/java/eu/chainfire/libcfsurface/gl/GLPicture.java:146-177 | the tiles loaded, cols times rows of them, with cols = w/(T+1)+1 and rows = h/(T+1)+1 |
| Picture.TileInside | eu.chainfire/libcfsurface/src/main/java/eu/chainfire/libcfsurface/gl/GLPicture.java:159-172 | every tile rectangle is non-empty, inside the bitmap and at most one tile in each direction |
| Picture.SingleTileIff | eu.chainfire/libcfsurface/src/main/java/eu/chainfire/libcfsurface/gl/GLPicture.java:151-156 | one tile exactly when both sides are at most T, and then the whole bitmap is loaded |
| Picture.GridAt | eu.chainfire/libcfsurface/src/main/java/eu/chainfire/libcfsurface/gl/GLPicture.java:159-176 | the tile at index y*cols+x is the rectangle for column x and row y |
| Picture.PlanAt | eu.chainfire/libcfsurface/src/main/java/eu/chainfire/libcfsurface/gl/GLPicture.java:159-176 | the stored tile y*cols+x spans columns x*T to (x+1)*T and rows counted from the bottom, shifted by the leftover height and clipped to the bitmap |
| Picture.ColumnGap | eu.chainfire/libcfsurface/src/main/java/eu/chainfire/libcfsurface/gl/GLPicture.java:151-164 | a bitmap 2T+1 wide gets 2 columns, which reach only 2T, so its last pixel column is never loaded |
| Picture.AlphaMode | eu.chainfire/libcfsurface/src/main/java/eu/chainfire/libcfsurface/gl/GLPicture.java:228-236 | a negative alpha forces IMAGE with its absolute value; IMAGE uses shader 1 and GLOBAL shader 0 |
| Picture.Picture.constructor | eu.chainfire/libcfsurface/src/main/java/eu/chainfire/libcfsurface/gl/GLPicture.java:127-134 | a null bitmap gives an empty picture; otherwise the geometry follows the bitmap and a copy of it is kept, and in a release build exactly the tile plan is uploaded, every non-zero handle a live texture |
| Picture.Picture.LoadTexture | eu.chainfire/libcfsurface/src/main/java/eu/chainfire/libcfsurface/gl/GLPicture.java:136-178 | does nothing with content present; otherwise sets the geometry and loads exactly the tile plan |
| Picture.Picture.LoadBitmap | eu.chainfire/libcfsurface/src/main/java/eu/chainfire/libcfsurface/gl/GLPicture.java:146-177 | the geometry follows the bitmap and the handle array has cols times rows entries |
| Picture.Picture.LoadWhole | eu.chainfire/libcfsurface/src/main/java/eu/chainfire/libcfsurface/gl/GLPicture.java:155-156 | a bitmap that fits one texture is uploaded whole, as the rectangle from the origin to its width and height, a release build always succeeds, and a non-zero handle 0 names a live texture |
| Picture.Picture.LoadTiles | eu.chainfire/libcfsurface/src/main/java/eu/chainfire/libcfsurface/gl/GLPicture.java:159-176 | the nested loops load the tile grid in order, every non-zero handle a live texture |
| Picture.Picture.LoadRow | eu.chainfire/libcfsurface/src/main/java/eu/chainfire/libcfsurface/gl/GLPicture.java:160-175 | one row of the grid is loaded into its slots |
| Picture.Picture.ReleaseTexture | eu.chainfire/libcfsurface/src/main/java/eu/chainfire/libcfsurface/gl/GLPicture.java:180-194 | with content, every handle goes back to the pool once, the handles become null and content false; without, nothing changes |
| Picture.Picture.Suspend | eu.chainfire/libcfsurface/src/main/java/eu/chainfire/libcfsurface/gl/GLPicture.java:290-292 | with content, every tile handle goes back to the texture manager once, in index order, and leaves its live set; the handles become null and content false. Without content nothing changes. The bitmap copy and the uploads are kept |
| Picture.Picture.Resume | eu.chainfire/libcfsurface/src/main/java/eu/chainfire/libcfsurface/gl/GLPicture.java:294-296 | with content nothing changes; otherwise it reloads from the kept copy with the same geometry, and in release builds uploads the whole tile plan |
| Picture.Picture.Destroy | eu.chainfire/libcfsurface/src/main/java/eu/chainfire/libcfsurface/gl/GLPicture.java:298-305 | drops the bitmap copy; with content every handle goes back to the texture manager once and is deleted, and the picture is left without content; without content the textures are untouched |
| Picture.Picture.Draw | eu.chainfire/libcfsurface/src/main/java/eu/chainfire/libcfsurface/gl/GLPicture.java:218-288 | resumes first; with loaded handles, or in a release build with a kept bitmap, it draws tiles, binding exactly the stored handles with the alpha mode's shader and alpha |
| TextRenderer.TextSizeIsCeiling | eu.chainfire/libcfsurface/src/main/java/eu/chainfire/libcfsurface/gl/GLTextRendererBase.java:48-49 | the text size is the ceiling of line height over 1.2, and never larger than the line height |
| TextRenderer.LeftMargin | eu.chainfire/libcfsurface/src/main/java/eu/chainfire/libcfsurface/gl/GLTextRendererBase.java:75-80 | LEFT gives 0, RIGHT puts the text's end at the width, CENTER splits the slack with truncating division |
| TextRenderer.AutoWidthHasNoMargin | eu.chainfire/libcfsurface/src/main/java/eu/chainfire/libcfsurface/gl/GLTextRendererBase.java:64-80 | with the automatic width, every justification gives margin 0 |
| TextRenderer.GetBitmap | eu.chainfire/libcfsurface/src/main/java/eu/chainfire/libcfsurface/gl/GLTextRendererBase.java:58-85 | a new width-by-line-height bitmap, or the reused one erased with its own width; the text is drawn at the padded, justified origin |
| TextRenderer.JustifiedPlacement | eu.chainfire/libcfsurface/src/main/java/eu/chainfire/libcfsurface/gl/GLTextRendererBase.java:75-83 | the drawn text starts at 0 for LEFT, ends at the width for RIGHT, and is centred within one pixel for CENTER |
| TextRenderer.Renderer.constructor | eu.chainfire/libcfsurface/src/main/java/eu/chainfire/libcfsurface/gl/GLTextRendererBase.java:38-44 | the sizes follow from the initial line height |
| TextRenderer.Renderer.Resize | eu.chainfire/libcfsurface/src/main/java/eu/chainfire/libcfsurface/gl/GLTextRendererBase.java:46-56 | a negative line height keeps the old one; the paddings are never negative |
| TextRenderer.Renderer.GetPicture | eu.chainfire/libcfsurface/src/main/java/eu/chainfire/libcfsurface/gl/GLTextRendererBase.java:87-93 | the picture of the bitmap `getBitmap` makes, and null exactly when no bitmap is made |
| SurfaceHost.Rotate | eu.chainfire/libcfsurface/src/main/java/eu/chainfire/libcfsurface/SurfaceHost.java:74-102 | width and height swap exactly when the rotation moves between the neutral and the rotated class; a failed display read changes nothing |
| SurfaceHost.RotateKeepsNaturalSize | eu.chainfire/libcfsurface/src/main/java/eu/chainfire/libcfsurface/SurfaceHost.java:84-94 | the size in the neutral orientation never changes |
| SurfaceHost.RotateBack | eu.chainfire/libcfsurface/src/main/java/eu/chainfire/libcfsurface/SurfaceHost.java:84-94 | rotating back to the previous rotation restores the state |
| SurfaceHost.Reconcile | eu.chainfire/libcfsurface/src/main/java/eu/chainfire/libcfsurface/SurfaceHost.java:331-358 | a transaction happens exactly when shown and visible differ; afterwards visible equals shown |
| SurfaceHost.ReconcileIdempotent | eu.chainfire/libcfsurface/src/main/java/eu/chainfire/libcfsurface/SurfaceHost.java:331-358 | a second reconcile does nothing |
| SurfaceHost.Limit | eu.chainfire/libcfsurface/src/main/java/eu/chainfire/libcfsurface/SurfaceHost.java:385-395 | sleeps until 17 ms after the last frame when less has passed, and records the `now` read before sleeping |
| SurfaceHost.FrameStep | eu.chainfire/libcfsurface/src/main/java/eu/chainfire/libcfsurface/SurfaceHost.java:435-444 | one frame: render, reconcile visibility, resize only after a rotation change, pace |
| SurfaceHost.FramesKeepNaturalSize | eu.chainfire/libcfsurface/src/main/java/eu/chainfire/libcfsurface/SurfaceHost.java:435-444 | any run of frames keeps the neutral size and ends with the last frame's visibility and time |
| SurfaceHost.FramesDrawEach | eu.chainfire/libcfsurface/src/main/java/eu/chainfire/libcfsurface/SurfaceHost.java:435-437 | each frame renders exactly once |
| SurfaceHost.AcceptedRunsGL | eu.chainfire/libcfsurface/src/main/java/eu/chainfire/libcfsurface/SurfaceHost.java:495-497 | a host that passes the callback guard runs the GL render thread |
| SurfaceHost.PixelFormatTable | eu.chainfire/libcfsurface/src/main/java/eu/chainfire/libcfsurface/SurfaceHost.java:600-616 | RGBA_8888 from SDK 29 or an SDK 28 preview, RGB_565 below 24, RGB_888 between; a newer SDK never uses fewer bytes per pixel |
| SurfaceHost.Host.constructor | eu.chainfire/libcfsurface/src/main/java/eu/chainfire/libcfsurface/SurfaceHost.java:48-56 | shown, not visible, zero size and time, rotation 0 |
| SurfaceHost.Host.SetShow | eu.chainfire/libcfsurface/src/main/java/eu/chainfire/libcfsurface/SurfaceHost.java:540-546 | sets the show flag |
| SurfaceHost.Host.CheckRotation | eu.chainfire/libcfsurface/src/main/java/eu/chainfire/libcfsurface/SurfaceHost.java:74-102 | the fields follow `Rotate` |
| SurfaceHost.Host.UpdateSurfaceVisibility | eu.chainfire/libcfsurface/src/main/java/eu/chainfire/libcfsurface/SurfaceHost.java:331-358 | the fields follow `Reconcile` |
| SurfaceHost.Host.FpsLimiter | eu.chainfire/libcfsurface/src/main/java/eu/chainfire/libcfsurface/SurfaceHost.java:385-395 | the fields and the sleep follow `Limit` |
| SurfaceHost.Host.Frame | eu.chainfire/libcfsurface/src/main/java/eu/chainfire/libcfsurface/SurfaceHost.java:435-444 | the fields and the hook calls follow `FrameStep` |
| SurfaceHost.Host.RenderLoop | eu.chainfire/libcfsurface/src/main/java/eu/chainfire/libcfsurface/SurfaceHost.java:433-445 | onSize and onInitRender, then the frames, then onDoneRender, in that order |
| SurfaceHost.Host.Run | eu.chainfire/libcfsurface/src/main/java/eu/chainfire/libcfsurface/SurfaceHost.java:494-538 | the guard refuses other callbacks; null or too few args stop before onInit; onInit gets args[1..]; no display configs is fatal; then onMainLoop and onDone on the main thread, the render loop on its own |
| AndroidColor.Rgb | liveBootAni2/src/main/java/eu/chainfire/liveboot/shell/Logcat.java:49 | `Color.rgb` is opaque and keeps its blue byte lowest |
| Runner.ApplyValue | liveBootAni2/src/main/java/eu/chainfire/liveboot/shell/Runner.java:218-239 | a key=value argument sets only the option its key names; an unknown key changes nothing |
| Runner.ApplyArg | liveBootAni2/src/main/java/eu/chainfire/liveboot/shell/Runner.java:195-243 | an argument that is neither a flag nor holds '=' changes nothing |
| Runner.ValueAfterFirstEquals | liveBootAni2/src/main/java/eu/chainfire/liveboot/shell/Runner.java:214-216 | the argument splits at its first '=' |
| Runner.ApplyArgKeepsFlags | liveBootAni2/src/main/java/eu/chainfire/liveboot/shell/Runner.java:196-213 | each bare flag sets its field, and no argument clears a flag another one set |
| Runner.FlagArg | liveBootAni2/src/main/java/eu/chainfire/liveboot/shell/Runner.java:196-213 | a bare flag sets its own field and leaves every other option |
| Runner.FlagsStick | liveBootAni2/src/main/java/eu/chainfire/liveboot/shell/Runner.java:194-244 | a flag anywhere in the arguments is set after parsing |
| Runner.StrayArgsIgnored | liveBootAni2/src/main/java/eu/chainfire/liveboot/shell/Runner.java:194-244 | arguments that are no flag and hold no '=', such as "boot", leave the options as they were |
| Runner.ScriptChoice | liveBootAni2/src/main/java/eu/chainfire/liveboot/shell/Runner.java:246-252 | the sbin script, then the su one, then the system one; none when no file exists |
| Runner.IngestorsFor | liveBootAni2/src/main/java/eu/chainfire/liveboot/shell/Runner.java:266-269 | Logcat and Dmesg are made exactly when no script was found, with cache size lines*4 in int arithmetic |
| Runner.Tick | liveBootAni2/src/main/java/eu/chainfire/liveboot/shell/Runner.java:390-444 | one pass of the boot-watch loop: complete set once, seen and gone sampled after 1500 and 2500 ms, kill at most once, exit exactly on the loop's condition |
| Runner.AbortFileExits | liveBootAni2/src/main/java/eu/chainfire/liveboot/shell/Runner.java:427-444 | the abort file sets complete, seen, killed and gone, so the loop exits on that tick without a kill |
| Runner.SignalWithoutAnimationExits | liveBootAni2/src/main/java/eu/chainfire/liveboot/shell/Runner.java:393-397 | the exit property with no animation seen ends the loop on the same tick |
| Runner.Watching | liveBootAni2/src/main/java/eu/chainfire/liveboot/shell/Runner.java:390-458 | the loop over the observed ticks stops at the first exit |
| Runner.KilledAtMostOnce | liveBootAni2/src/main/java/eu/chainfire/liveboot/shell/Runner.java:417-426 | the boot animation is killed at most once over any run |
| Runner.CompleteSetOnce | liveBootAni2/src/main/java/eu/chainfire/liveboot/shell/Runner.java:393-402 | once set, complete never changes |
| Runner.ExitsAtFirstDoneTick | liveBootAni2/src/main/java/eu/chainfire/liveboot/shell/Runner.java:435-453 | an exited run stopped at a tick where the exit condition holds |
| Runner.WatchBoot | liveBootAni2/src/main/java/eu/chainfire/liveboot/shell/Runner.java:378-460 | a test run skips the loop; otherwise the loop's result follows `Watching` |
| Runner.FlushClearsScreen | liveBootAni2/src/main/java/eu/chainfire/liveboot/shell/Runner.java:463-465 | (lines*5)/4 blank lines are queued, at least a screenful |
| Runner.LineFor | liveBootAni2/src/main/java/eu/chainfire/liveboot/shell/Runner.java:333-354 | nothing without a text manager; a blank white line once complete; otherwise the text, white for logcat lines when colours are off |
| Runner.FlushLinesAreBlank | liveBootAni2/src/main/java/eu/chainfire/liveboot/shell/Runner.java:348-354 | the queued flush lines are drawn as blank white lines |
| Runner.ResizeFor | liveBootAni2/src/main/java/eu/chainfire/liveboot/shell/Runner.java:174-180 | the resize keeps left, top and max height, and uses the floor of height over lines; zero lines throws |
| Runner.Console.constructor | liveBootAni2/src/main/java/eu/chainfire/liveboot/shell/Runner.java:82-114 | the field defaults: 80 lines, colours on, every flag off |
| Runner.Console.ApplyOption | liveBootAni2/src/main/java/eu/chainfire/liveboot/shell/Runner.java:195-243 | one pass of the argument loop follows `ApplyArg` |
| Runner.Console.ApplyKeyValue | liveBootAni2/src/main/java/eu/chainfire/liveboot/shell/Runner.java:217-239 | the key=value branch follows `ApplyValue`; an int that does not parse leaves its option as it was |
| Runner.Console.OnInit | liveBootAni2/src/main/java/eu/chainfire/liveboot/shell/Runner.java:182-270 | the options are the parsed arguments, the script follows `ScriptChoice` and the ingestors `IngestorsFor` |
| Runner.Console.OnSize | liveBootAni2/src/main/java/eu/chainfire/liveboot/shell/Runner.java:168-172 | records the size |
| Runner.Console.OnInitRender | liveBootAni2/src/main/java/eu/chainfire/liveboot/shell/Runner.java:281-296 | the text manager is made exactly when lines is not 0 (mHeight / mLines throws first otherwise, so later lines are dropped); then the ingestors are made ready when there is no script, and the script is started when there is one |
| Runner.Console.OnResize | liveBootAni2/src/main/java/eu/chainfire/liveboot/shell/Runner.java:174-180 | records the size and resizes the text manager as `ResizeFor` says |
| Runner.Console.OnLine | liveBootAni2/src/main/java/eu/chainfire/liveboot/shell/Runner.java:325-358 | adds exactly the line `LineFor` gives |
| Runner.Console.Flush | liveBootAni2/src/main/java/eu/chainfire/liveboot/shell/Runner.java:461-465 | sets complete and queues (lines*5)/4 blank lines |
| Installer.Script | liveBootAni2/src/main/java/eu/chainfire/liveboot/Installer.java:45-64 | each mode's fixed script paths: two for the Magisk and KernelSU modes, one otherwise |
| Installer.ScriptsShared | liveBootAni2/src/main/java/eu/chainfire/liveboot/Installer.java:45-64 | two modes share their paths exactly when they are equal or are MAGISK_ADB and KERNELSU |
| Installer.InstallNeededVersion | liveBootAni2/src/main/java/eu/chainfire/liveboot/Installer.java:97-103 | true exactly when the last update is before 182 |
| Installer.ScanLines | liveBootAni2/src/main/java/eu/chainfire/liveboot/Installer.java:120-126 | the scan finds the marker exactly when some line contains it |
| Installer.CatEach | liveBootAni2/src/main/java/eu/chainfire/liveboot/Installer.java:116-128 | every script mentions the launcher, and one `cat` runs per script, in order |
| Installer.InstallNeededScript | liveBootAni2/src/main/java/eu/chainfire/liveboot/Installer.java:112-130 | needed exactly when some script of the mode fails to mention the launcher |
| Installer.InstallNeeded | liveBootAni2/src/main/java/eu/chainfire/liveboot/Installer.java:133-136 | version, then data, then script, and the scripts are read only when the first two pass |
| Installer.SystemFree | liveBootAni2/src/main/java/eu/chainfire/liveboot/Installer.java:66-79 | wanted/blockSize + 3*filecount blocks must be available or free; any failure gives true |
| Installer.RoomSuffices | liveBootAni2/src/main/java/eu/chainfire/liveboot/Installer.java:70-75 | enough bytes in either count for the data and three blocks per file passes the test |
| Installer.FreeMeansRoom | liveBootAni2/src/main/java/eu/chainfire/liveboot/Installer.java:70-75 | passing the test means room for the data, up to one partial block |
| Installer.DmesgRange | liveBootAni2/src/main/java/eu/chainfire/liveboot/Installer.java:143-149 | "0-99" exactly when dmesg is on and this is a boot run or logcat is off, "0--1" otherwise |
| Installer.LaunchParams | liveBootAni2/src/main/java/eu/chainfire/liveboot/Installer.java:152-164 | the package path, "boot" or "test", and one parameter per setting in order, the optional ones only when set |
| Installer.BuildLaunchParams | liveBootAni2/src/main/java/eu/chainfire/liveboot/Installer.java:152-164 | the list built step by step is `LaunchParams` |
| Installer.AddIf | liveBootAni2/src/main/java/eu/chainfire/liveboot/Installer.java:155-156 | a conditional add appends the parameter only when its condition holds |
| Installer.ScriptsCover | liveBootAni2/src/main/java/eu/chainfire/liveboot/Installer.java:379-391 | every script of a listed mode is in the combined list |
| Installer.AllScriptsCount | liveBootAni2/src/main/java/eu/chainfire/liveboot/Installer.java:379-391 | the seven modes give ten script paths |
| Installer.Removals | liveBootAni2/src/main/java/eu/chainfire/liveboot/Installer.java:379-391 | ten rm commands, one for every script path of every mode |
| Installer.RemovalsCover | liveBootAni2/src/main/java/eu/chainfire/liveboot/Installer.java:379-391 | each script path of each mode gets its rm |
| Installer.UninstallCommands | liveBootAni2/src/main/java/eu/chainfire/liveboot/Installer.java:374-395 | the removals, wrapped in the rw/ro remount pairs exactly when /system held a script |
| Installer.Listing | liveBootAni2/src/main/java/eu/chainfire/liveboot/Installer.java:355-361 | one `ls -l` per su.d and init.d script |
| Installer.Touched | liveBootAni2/src/main/java/eu/chainfire/liveboot/Installer.java:364-372 | /system counts as touched exactly when some listing line contains "liveboot" |
| Installer.AppendEach | liveBootAni2/src/main/java/eu/chainfire/liveboot/Installer.java:388-390 | appends one prefixed command per path, in order |
| Installer.RemoveAll | liveBootAni2/src/main/java/eu/chainfire/liveboot/Installer.java:379-391 | the nested loops build `Removals` |
| Installer.Uninstall | liveBootAni2/src/main/java/eu/chainfire/liveboot/Installer.java:354-397 | runs the listing, then the commands `UninstallCommands` gives for what it showed |
| LaunchRoundTrip.LaunchParamsRoundTrip | liveBootAni2/src/main/java/eu/chainfire/liveboot/Installer.java:152-164 | the runner's parse of params[1..] recovers every setting: mode, flags, levels, buffers, format, colours, dmesg range, lines, word wrap, and save on boot only |
| LaunchRoundTrip.LinesRoundTrip | liveBootAni2/src/main/java/eu/chainfire/liveboot/shell/Runner.java:224-226 | a decimal int stored as the lines setting comes back as that number |
| LaunchRoundTrip.LevelsArg | liveBootAni2/src/main/java/eu/chainfire/liveboot/shell/Runner.java:227-229 | "logcatlevels=v" sets the level option to v and nothing else |
| LaunchRoundTrip.DmesgArg | liveBootAni2/src/main/java/eu/chainfire/liveboot/shell/Runner.java:236-238 | "dmesg=v" sets the dmesg option to v and nothing else |
| JavaText.ParseIntToString | liveBootAni2/src/main/java/eu/chainfire/liveboot/shell/Runner.java:225 | `Integer.valueOf` reads back any int written in decimal |
| JavaText.JoinSplitAll | liveBootAni2/src/main/java/eu/chainfire/liveboot/shell/Dmesg.java:146 | splitting at a character and joining back gives the string |
| Toolbox.AppletList | eu.chainfire/libsuperuser/src/eu/chainfire/libsuperuser/Toolbox.java:70-76 | the list starts and ends with a space |
| Toolbox.AppletListed | eu.chainfire/libsuperuser/src/eu/chainfire/libsuperuser/Toolbox.java:72-75 | every trimmed output line stands in the list between two spaces |
| Toolbox.Applet | eu.chainfire/libsuperuser/src/eu/chainfire/libsuperuser/Toolbox.java:107-114 | the trimmed format up to its first space, or all of it when it has no space |
| Toolbox.CommandWith | eu.chainfire/libsuperuser/src/eu/chainfire/libsuperuser/Toolbox.java:100-121 | below SDK 23 "toolbox " + format; otherwise "toybox " exactly when the list holds " applet ", else "toolbox ", before the trimmed format |
| Toolbox.ReportedAppletUsesToybox | eu.chainfire/libsuperuser/src/eu/chainfire/libsuperuser/Toolbox.java:116-117 | an applet toybox reported runs through toybox |
| Toolbox.EmptyListUsesToolbox | eu.chainfire/libsuperuser/src/eu/chainfire/libsuperuser/Toolbox.java:58-59 | with the empty list every command goes through toolbox |
| Toolbox.Tools.constructor | eu.chainfire/libsuperuser/src/eu/chainfire/libsuperuser/Toolbox.java:45 | the list starts unset |
| Toolbox.Tools.Init | eu.chainfire/libsuperuser/src/eu/chainfire/libsuperuser/Toolbox.java:53-79 | a set list is kept; below SDK 23 it becomes ""; otherwise "" without output and the applet list with it |
| Toolbox.Tools.Command | eu.chainfire/libsuperuser/src/eu/chainfire/libsuperuser/Toolbox.java:100-121 | below SDK 23 the list is not consulted; otherwise init runs if needed and the command follows `CommandWith` |
| SettingsFragment.VersionNumber | liveBootAni2/src/main/java/eu/chainfire/liveboot/SettingsFragment.java:189-194 | the parsed version, 0 when it is missing or does not parse |
| SettingsFragment.DirsOf | liveBootAni2/src/main/java/eu/chainfire/liveboot/SettingsFragment.java:212-222 | the directory flags from substring tests; su.d in /su and /sbin always agree; no output gives no flags |
| SettingsFragment.ScanDirs | liveBootAni2/src/main/java/eu/chainfire/liveboot/SettingsFragment.java:213-222 | the scan loop computes `DirsOf` |
| SettingsFragment.ModeFor | liveBootAni2/src/main/java/eu/chainfire/liveboot/SettingsFragment.java:227-239 | MAGISK_ADB, then MAGISK_CORE, then SBIN_SU_D, then SU_SU_D, then INIT_D without SuperSU 2.40, then KERNELSU, else SU_D |
| SettingsFragment.SuSuDUnreachable | liveBootAni2/src/main/java/eu/chainfire/liveboot/SettingsFragment.java:216-233 | SU_SU_D is never chosen |
| SettingsFragment.ProFor | liveBootAni2/src/main/java/eu/chainfire/liveboot/SettingsFragment.java:241-286 | without billing, pro; with it, pro when an order, a pro app or the cached flag says so; the cache is set exactly when found |
| SettingsFragment.StartupFor | liveBootAni2/src/main/java/eu/chainfire/liveboot/SettingsFragment.java:184-297 | 1 exactly without su, 2 for old SuperSU without init.d, 3 with no usable root method, otherwise 4 when an install is needed and 0 if not; pro is real pro or freeload |
| SettingsFragment.OnlyNewSuperSuUsesSystemSuD | liveBootAni2/src/main/java/eu/chainfire/liveboot/SettingsFragment.java:200-239 | without SuperSU 2.40, a successful start never picks /system/su.d |
| SettingsFragment.Encoded | liveBootAni2/src/main/java/eu/chainfire/liveboot/SettingsFragment.java:459-465 | the stored string is no longer than the character table |
| SettingsFragment.Encode | liveBootAni2/src/main/java/eu/chainfire/liveboot/SettingsFragment.java:459-465 | the StringBuilder loop computes `Encoded` |
| SettingsFragment.EncodedMembers | liveBootAni2/src/main/java/eu/chainfire/liveboot/SettingsFragment.java:459-465 | a character is stored exactly when it is in the table and selected |
| SettingsFragment.EncodedInOrder | liveBootAni2/src/main/java/eu/chainfire/liveboot/SettingsFragment.java:501-507 | stored characters follow the table's order |
| SettingsFragment.EncodedDistinct | liveBootAni2/src/main/java/eu/chainfire/liveboot/SettingsFragment.java:501-507 | no character is stored twice |
| SettingsFragment.EncodedFull | liveBootAni2/src/main/java/eu/chainfire/liveboot/SettingsFragment.java:501-507 | the stored string is as long as the table exactly when everything is selected |
| SettingsFragment.SelectedIn | liveBootAni2/src/main/java/eu/chainfire/liveboot/SettingsFragment.java:441-446 | the dialog preselects the table characters the stored string contains |
| SettingsFragment.EncodedAgree | liveBootAni2/src/main/java/eu/chainfire/liveboot/SettingsFragment.java:459-465 | selections that agree on the table encode alike |
| SettingsFragment.EncodedRoundTrip | liveBootAni2/src/main/java/eu/chainfire/liveboot/SettingsFragment.java:441-465 | reopening the dialog on a stored value and saving again stores the same value |
| SettingsFragment.TablesDistinct | liveBootAni2/src/main/java/eu/chainfire/liveboot/shell/Logcat.java:45-76 | the level table VDIWEFS and the buffer table MSREC have no repeats |
| SettingsFragment.SummaryOf | liveBootAni2/src/main/java/eu/chainfire/liveboot/SettingsFragment.java:676-693 | "none" for the empty string, "all" at the all-length, else the comma-joined descriptions |
| SettingsFragment.LevelSummary | liveBootAni2/src/main/java/eu/chainfire/liveboot/SettingsFragment.java:676-693 | every level stored shows "all" |
| SettingsFragment.PartsNonEmpty | liveBootAni2/src/main/java/eu/chainfire/liveboot/SettingsFragment.java:683-692 | a selected table character gives at least one ", " to cut |
| SettingsFragment.LevelSummaryAll | liveBootAni2/src/main/java/eu/chainfire/liveboot/SettingsFragment.java:676-693 | a stored level selection always has a summary, and it is "all" exactly when all seven are selected |
| SettingsFragment.BufferSummaryNeverAll | liveBootAni2/src/main/java/eu/chainfire/liveboot/SettingsFragment.java:704-720 | as written, the buffer summary never says "all" |
| SettingsFragment.BufferSummaryAll | liveBootAni2/src/main/java/eu/chainfire/liveboot/SettingsFragment.java:704-720 | compared with the five buffers, the summary always exists and is "all" exactly when every buffer is selected |
| SettingsFragment.Summarize | liveBootAni2/src/main/java/eu/chainfire/liveboot/SettingsFragment.java:676-693 | the StringBuilder loop computes `SummaryOf` |
| InAppPurchases.TypeOf | liveBootAni2/src/main/java/eu/chainfire/liveboot/InAppPurchases.java:69 | SUBSCRIPTION exactly for "subs" |
| InAppPurchases.StateOf | liveBootAni2/src/main/java/eu/chainfire/liveboot/InAppPurchases.java:104-110 | 0 is PURCHASED, 2 REFUNDED, anything else CANCELED |
| InAppPurchases.PurchaseOf | liveBootAni2/src/main/java/eu/chainfire/liveboot/InAppPurchases.java:66-77 | the record carries the item's id, price and mapped type |
| InAppPurchases.OrderOf | liveBootAni2/src/main/java/eu/chainfire/liveboot/InAppPurchases.java:97-116 | the record carries the order's id, token and mapped state |
| InAppPurchases.PurchasesOf | liveBootAni2/src/main/java/eu/chainfire/liveboot/InAppPurchases.java:198-200 | all items parse or the fetch fails, elementwise |
| InAppPurchases.OrdersOf | liveBootAni2/src/main/java/eu/chainfire/liveboot/InAppPurchases.java:215-217 | all orders parse or the fetch fails, elementwise |
| InAppPurchases.StepOf | liveBootAni2/src/main/java/eu/chainfire/liveboot/InAppPurchases.java:208-220 | another page is fetched exactly after a page with code 0, data and a token |
| InAppPurchases.Calls | liveBootAni2/src/main/java/eu/chainfire/liveboot/InAppPurchases.java:207-221 | the loop asks for pages while each one says to go on, and stops at the first that does not |
| InAppPurchases.Paginate | liveBootAni2/src/main/java/eu/chainfire/liveboot/InAppPurchases.java:205-221 | the fetch fails exactly when the last page read threw |
| InAppPurchases.Tokens | liveBootAni2/src/main/java/eu/chainfire/liveboot/InAppPurchases.java:206-219 | the first request sends no token and each later one the previous page's token |
| InAppPurchases.UpdateOf | liveBootAni2/src/main/java/eu/chainfire/liveboot/InAppPurchases.java:186-237 | succeeds exactly when both sku answers and both purchase feeds do, with the items and orders in fetch order |
| InAppPurchases.AddOrders | liveBootAni2/src/main/java/eu/chainfire/liveboot/InAppPurchases.java:215-217 | appends every parsed order, or fails |
| InAppPurchases.AddPurchases | liveBootAni2/src/main/java/eu/chainfire/liveboot/InAppPurchases.java:198-200 | appends every parsed item, or fails |
| InAppPurchases.AddSku | liveBootAni2/src/main/java/eu/chainfire/liveboot/InAppPurchases.java:195-202 | a null bundle or list adds nothing; otherwise its items |
| InAppPurchases.ReadPage | liveBootAni2/src/main/java/eu/chainfire/liveboot/InAppPurchases.java:208-220 | one page: fails, stops with its orders, or goes on with its token |
| InAppPurchases.FetchOrders | liveBootAni2/src/main/java/eu/chainfire/liveboot/InAppPurchases.java:205-221 | the `while (true)` loop collects `Paginate` and sends `Tokens` |
| InAppPurchases.FirstWithId | liveBootAni2/src/main/java/eu/chainfire/liveboot/InAppPurchases.java:239-246 | the first item with the id, or none when no item has it or the id is null |
| InAppPurchases.OrdersForMembers | liveBootAni2/src/main/java/eu/chainfire/liveboot/InAppPurchases.java:276-286 | an order is returned exactly when it matches the id (null matches all) and is PURCHASED unless inactive ones are asked for |
| InAppPurchases.OrdersForAppend | liveBootAni2/src/main/java/eu/chainfire/liveboot/InAppPurchases.java:278-284 | the filter keeps the original order |
| InAppPurchases.OrdersForAll | liveBootAni2/src/main/java/eu/chainfire/liveboot/InAppPurchases.java:279-280 | no id and inactive included gives every order |
| InAppPurchases.Compare | liveBootAni2/src/main/java/eu/chainfire/liveboot/InAppPurchases.java:252-271 | ONCE before SUBSCRIPTION, then by price; equal exactly for same type and price |
| InAppPurchases.CompareContract | liveBootAni2/src/main/java/eu/chainfire/liveboot/InAppPurchases.java:252-271 | the comparator is antisymmetric, transitive and consistent on ties, as `Arrays.sort` needs |
| InAppPurchases.SortPurchases | liveBootAni2/src/main/java/eu/chainfire/liveboot/InAppPurchases.java:249-250 | the sorted array is a permutation of the items |
| InAppPurchases.SortedPurchases | liveBootAni2/src/main/java/eu/chainfire/liveboot/InAppPurchases.java:250-272 | the result is sorted by the comparator |
| InAppPurchases.OnceFirstThenByPrice | liveBootAni2/src/main/java/eu/chainfire/liveboot/InAppPurchases.java:258-270 | ONCE items come before SUBSCRIPTION items, each group in ascending price |
| InAppPurchases.SortStable | liveBootAni2/src/main/java/eu/chainfire/liveboot/InAppPurchases.java:250 | items that compare equal keep their relative order, as in `Arrays.sort` |
| InAppPurchases.ConsumeProduct | liveBootAni2/src/main/java/eu/chainfire/liveboot/InAppPurchases.java:307-319 | false for a null id; otherwise sends "inapp:package:id" and succeeds exactly on code 0; an unbound service throws |
| InAppPurchases.ConsumeOrder | liveBootAni2/src/main/java/eu/chainfire/liveboot/InAppPurchases.java:321-333 | false for a null order; otherwise sends its token and succeeds exactly on code 0 |
| InAppPurchases.Purchases.constructor | liveBootAni2/src/main/java/eu/chainfire/liveboot/InAppPurchases.java:130-131 | both lists start empty |
| InAppPurchases.Purchases.Update | liveBootAni2/src/main/java/eu/chainfire/liveboot/InAppPurchases.java:186-237 | all or nothing: on success both lists are replaced by the fetched ones; on any failure both stay as they were and it returns false |
| InAppPurchases.Purchases.CopyItems | liveBootAni2/src/main/java/eu/chainfire/liveboot/InAppPurchases.java:224-227 | clears the items and copies the fetched ones, leaving the orders |
| InAppPurchases.Purchases.CopyOrders | liveBootAni2/src/main/java/eu/chainfire/liveboot/InAppPurchases.java:228-231 | clears the orders and copies the fetched ones, leaving the items |
| InAppPurchases.Purchases.GetInAppPurchase | liveBootAni2/src/main/java/eu/chainfire/liveboot/InAppPurchases.java:239-246 | the search loop returns `FirstWithId` |
| InAppPurchases.Purchases.GetInAppPurchases | liveBootAni2/src/main/java/eu/chainfire/liveboot/InAppPurchases.java:248-274 | a sorted permutation of the items |
| InAppPurchases.Purchases.GetOrders | liveBootAni2/src/main/java/eu/chainfire/liveboot/InAppPurchases.java:276-286 | the filter loop returns `OrdersFor` |

## Left out

- Threads, locks and the handler thread: every component is modelled single-threaded, one call at a time.
- `Thread.sleep`, `SystemClock` and the float busy-wait pacing in the runner's line handler (Runner.java:334-347): time is a parameter and the wait is not modelled.
- Shell execution: the output of `ls`, `cat`, `ps` and `toybox`, file existence, system properties and the boot-animation state are inputs.
- `Installer.install`, `installData`, `getShell` and the RootJava/RootDaemon script wrapping: they only run shell command lists. Only the parameter list of `getLaunchScript` is modelled. `installNeededData` is the `dataExists` input.
- The runner's `killBootAnimation`, `infanticide` and `suicide`, the log file in `onLog`, and `onDone`: process and file plumbing.
- Runner.Console.OnInitRender: the texture manager, `GLHelper` and `GLPicture.initGl` it creates are GL set-up; only whether the text manager exists, and whether the ingestors were made ready or the script started, are modelled.
- Reflection-based surface creation in `initSurface`, EGL setup, `doneSurface` and `updateSurfaceSize`: foreign platform calls. Only the fatal "no display configs" case is kept.
- SurfaceHost.Rotate: an exception in `checkRotation` is the `None` rotation input and changes nothing; the display manager itself is not modelled.
- GL drawing: shaders, vertex maths and `GLHelper`. `GLPicture.draw` is modelled up to the alpha mode and the handles it binds.
- Picture.ColumnGap: the tiling is kept as written, including its gap at widths like 2T+1, so full coverage is not claimed.
- TextRenderer.TextSizeIsCeiling: `Math.ceil` on floats is modelled as the exact ceiling of 5·lineHeight/6, without float rounding.
- TextManager.LineCountIsCeiling: the float ceiling in `resize` is modelled as the exact integer ceiling.
- `Paint.breakText` and `Paint.getTextBounds` are parameters, not Android's text measurement.
- TextManager.Split: when `breakText` returns 0, `add` with word wrap adds `substring(0, 0)` and keeps the whole text, so it loops forever adding empty lines (GLTextManager.java:180-197). `Breaks` excludes that case. The settings offer only 20 to 160 lines (SettingsFragment.java:547-557), which leaves a line width far above one character, but the model does not prove this.
- Picture.Picture.constructor: in a debug build, a zero texture name makes `loadTexture` throw inside `GLPicture(...)` (GLPicture.java:132), so Java's constructor throws and no picture exists. The model still returns a picture that keeps the bitmap, and promises the whole tile plan only in a release build.
- Picture.Picture.LoadTexture: a debug-build throw from the texture manager ends the loading early, and only release builds promise the whole tile plan.
- Logcat: the level, buffer and format tables are static in Java and shared between instances. Here they are fields of one reader, because LiveBoot makes only one.
- Logcat.Reader.OnStdoutLine: exceptions from the listener are not modelled; the only throwing step is in Dmesg.
- The stderr listeners only log, and `destroy` only closes the shell, so neither is modelled.
- Dmesg.DevKmsgLine: `String.format("%6s")` is modelled as left-padding to six characters, which is a no-op for six characters.
- Runner.ResizeFor: the resize call of `onResize` is returned as data, not applied to a text manager object.
- SettingsFragment.ProFor: the two 10-try waits for the billing service are the `connected` input, and `getOrders(null, false)` is the `activeOrders` count.
- SettingsFragment: the preference building, dialogs and `disableIfNotPro` are Android UI. This includes the buffer reset for non-pro users (SettingsFragment.java:472-477).
- InAppPurchases: the billing IPC and JSON parsing are modelled by records, and a JSON error by a missing record.
- InAppPurchases: `purchase`, `close`, `haveService`, `isServiceConnected` and the service connection callbacks are IPC plumbing.
- InAppPurchases.Purchases.Update: a purchase feed that paginates forever is not modelled. The page lists are finite and end with a page that stops the loop.
- InAppPurchases.ConsumeProduct: the package name is a parameter, and an unbound service (a null reference) is modelled as the call throwing.
- Toolbox.CommandWith: `String.format(format, args)` is modelled as the format string itself, because every format the core passes (Installer.java:206-279) has no conversions.
- JavaText: `String.trim`, `indexOf`, `split` and `Integer.valueOf` are modelled for the inputs used here. There is no Unicode handling, and `valueOf` accepts an optional sign and ASCII digits only.

Three points of the code that the model keeps as written:
- `SurfaceHost.run` (SurfaceHost.java:495-497) throws unless the host implements the GL render callback and none of the canvas or surface callbacks.
- `GLPicture.loadTexture` (GLPicture.java:151-152) uses `cols = w/(T+1)+1`, which leaves a column gap for some widths (see Picture.ColumnGap).
- The logcat and dmesg readers (Logcat.java:201, Dmesg.java:80) switch to passthrough only for a gap of strictly more than 16 ms.

## Findings

| source | as written | input that shows it | evidently intended | confidence | as-written member | corrected member |
|---|---|---|---|---|---|---|
| liveBootAni2/src/main/java/eu/chainfire/liveboot/SettingsFragment.java:707 | the buffer summary shows "all" only for a stored string of length 7 | every buffer selected, stored as "MSREC" (length 5): the summary lists all five buffer names instead of "all" | compare with the number of buffers, 5, as the level summary compares with its 7 levels | not executed | SettingsFragment.BufferSummaryNeverAll | SettingsFragment.BufferSummaryAll |
