// shell/Runner.java: the boot console itself.  onInit reads the options the
// launcher passes, picks a su.d script if there is one and otherwise sets up the
// logcat and dmesg ingestors; onMainLoop watches the boot animation until the
// boot is over and then pushes the console off the screen with blank lines; onLine
// chooses what each incoming line becomes on the screen.  File existence,
// system properties, the boot animation's presence and the clock are parameters.

module Runner {
  import opened JavaText
  import AndroidColor

  /** The option fields onInit sets (the subclass fields and the local option
      strings). */
  datatype Options = Options(test: bool, transparent: bool, wordWrap: bool, save: bool, dark: bool,
                             logcatColor: bool, lines: int, fallbackWidth: int, fallbackHeight: int,
                             levels: Option<string>, buffers: Option<string>, format: Option<string>,
                             dmesg: Option<string>)

  /** The field initialisers and the null option strings. */
  const Defaults := Options(false, false, false, false, false, true, 80, 0, 0, None, None, None, None)

  /** The value option keys. */
  const ValueKeys: seq<string> := ["fallbackwidth", "fallbackheight", "lines", "logcatlevels",
                                   "logcatbuffers", "logcatformat", "dmesg"]

  /** The bare flags. */
  const Flags: seq<string> := ["test", "transparent", "wordwrap", "save", "dark", "logcatnocolors"]

  /** One key=value argument.  A number that does not parse throws inside the
      try block and the argument is skipped. */
  function ApplyValue(o: Options, key: string, value: string): (r: Options)
    ensures key !in ValueKeys ==> r == o
    ensures r.test == o.test && r.transparent == o.transparent && r.wordWrap == o.wordWrap
            && r.save == o.save && r.dark == o.dark && r.logcatColor == o.logcatColor
  {
    if key == "fallbackwidth" then
      (match ParseInt(value) case Some(v) => o.(fallbackWidth := v) case None => o)
    else if key == "fallbackheight" then
      (match ParseInt(value) case Some(v) => o.(fallbackHeight := v) case None => o)
    else if key == "lines" then
      (match ParseInt(value) case Some(v) => o.(lines := v) case None => o)
    else if key == "logcatlevels" then o.(levels := Some(value))
    else if key == "logcatbuffers" then o.(buffers := Some(value))
    else if key == "logcatformat" then o.(format := Some(value))
    else if key == "dmesg" then o.(dmesg := Some(value))
    else o
  }

  /** One argument of onInit's loop: a bare flag, or key=value split at the first
      '='; anything else (the bare "boot" among them) changes nothing. */
  function ApplyArg(o: Options, arg: string): (r: Options)
    ensures arg !in Flags && '=' !in arg ==> r == o
  {
    if arg == "test" then o.(test := true)
    else if arg == "transparent" then o.(transparent := true)
    else if arg == "wordwrap" then o.(wordWrap := true)
    else if arg == "save" then o.(save := true)
    else if arg == "dark" then o.(dark := true)
    else if arg == "logcatnocolors" then o.(logcatColor := false)
    else if '=' in arg then
      var i := IndexOfChar(arg, '=');
      ApplyValue(o, arg[..i], arg[i + 1..])
    else o
  }

  /** onInit's loop over all arguments, in order. */
  function Parse(o: Options, args: seq<string>): Options
  {
    if args == [] then o else ApplyArg(Parse(o, args[..|args| - 1]), args[|args| - 1])
  }

  /** No bare flag holds a '='. */
  lemma NoFlagHasEquals(arg: string)
    requires '=' in arg
    ensures arg !in Flags
  {
    assert '=' !in "test" && '=' !in "transparent" && '=' !in "wordwrap";
    assert '=' !in "save" && '=' !in "dark" && '=' !in "logcatnocolors";
  }

  /** key=value hands the whole rest after the first '=' to the key, '='s and all. */
  lemma ValueAfterFirstEquals(o: Options, key: string, value: string)
    requires '=' !in key && key !in Flags
    ensures ApplyArg(o, key + "=" + value) == ApplyValue(o, key, value)
  {
    var arg := key + "=" + value;
    IndexOfCharAfter(key, '=', value);
    assert arg[..|key|] == key && arg[|key| + 1..] == value;
    assert arg[|key|] == '=';
    NoFlagHasEquals(arg);
  }

  /** The bare flags of r are at least those of o; only "logcatnocolors" clears
      a field. */
  predicate FlagsKept(o: Options, r: Options)
  {
    (o.transparent ==> r.transparent) && (o.dark ==> r.dark) && (o.wordWrap ==> r.wordWrap)
    && (o.save ==> r.save) && (o.test ==> r.test) && (!o.logcatColor ==> !r.logcatColor)
  }

  lemma ApplyArgKeepsFlags(o: Options, arg: string)
    ensures FlagsKept(o, ApplyArg(o, arg))
    ensures arg == "transparent" ==> ApplyArg(o, arg).transparent
    ensures arg == "dark" ==> ApplyArg(o, arg).dark
    ensures arg == "wordwrap" ==> ApplyArg(o, arg).wordWrap
    ensures arg == "save" ==> ApplyArg(o, arg).save
    ensures arg == "test" ==> ApplyArg(o, arg).test
    ensures arg == "logcatnocolors" ==> !ApplyArg(o, arg).logcatColor
  {
    if arg in Flags {
      FlagArg(o, arg);
    } else if '=' in arg {
      var i := IndexOfChar(arg, '=');
      assert ApplyArg(o, arg) == ApplyValue(o, arg[..i], arg[i + 1..]);
    }
  }

  /** A bare flag sets its own field and no other. */
  lemma FlagArg(o: Options, arg: string)
    requires arg in Flags
    ensures ApplyArg(o, arg) == o.(test := o.test || arg == "test", transparent := o.transparent || arg == "transparent",
                                   wordWrap := o.wordWrap || arg == "wordwrap", save := o.save || arg == "save",
                                   dark := o.dark || arg == "dark", logcatColor := o.logcatColor && arg != "logcatnocolors")
  {
  }

  /** A bare flag anywhere in the arguments stays set: no later argument clears
      it. */
  lemma {:induction false} FlagsStick(o: Options, args: seq<string>)
    ensures FlagsKept(o, Parse(o, args))
    ensures "transparent" in args ==> Parse(o, args).transparent
    ensures "dark" in args ==> Parse(o, args).dark
    ensures "wordwrap" in args ==> Parse(o, args).wordWrap
    ensures "save" in args ==> Parse(o, args).save
    ensures "test" in args ==> Parse(o, args).test
    ensures "logcatnocolors" in args ==> !Parse(o, args).logcatColor
    decreases |args|
  {
    if args != [] {
      var init, last := args[..|args| - 1], args[|args| - 1];
      FlagsStick(o, init);
      ApplyArgKeepsFlags(Parse(o, init), last);
      assert args == init + [last];
    }
  }

  /** Arguments that are neither flags nor key=value leave every option as it was. */
  lemma {:induction false} StrayArgsIgnored(o: Options, args: seq<string>)
    requires forall k :: 0 <= k < |args| ==> args[k] !in Flags && '=' !in args[k]
    ensures Parse(o, args) == o
    decreases |args|
  {
    if args != [] {
      StrayArgsIgnored(o, args[..|args| - 1]);
    }
  }

  /** The su.d scripts onInit looks for, in order. */
  const ScriptSbin := "/sbin/supersu/su.d/0000liveboot.script"
  const ScriptSu := "/su/su.d/0000liveboot.script"
  const ScriptSystem := "/system/su.d/0000liveboot.script"

  /** The first script that exists, SBIN before SU before SYSTEM. */
  function ScriptChoice(sbin: bool, su: bool, system: bool): (s: Option<string>)
    ensures s.None? <==> !sbin && !su && !system
    ensures sbin ==> s == Some(ScriptSbin)
    ensures !sbin && su ==> s == Some(ScriptSu)
    ensures !sbin && !su && system ==> s == Some(ScriptSystem)
  {
    if sbin then Some(ScriptSbin) else if su then Some(ScriptSu) else if system then Some(ScriptSystem) else None
  }

  /** The arguments of the Logcat and Dmesg constructors (modules Logcat and Dmesg). */
  datatype Ingestors = Ingestors(cacheSize: int, levels: Option<string>, buffers: Option<string>,
                                 format: Option<string>, dmesg: Option<string>)

  /** Without a script both ingestors start, each caching lines * 4 lines (an int
      product). */
  function IngestorsFor(o: Options, script: Option<string>): (r: Option<Ingestors>)
    ensures r.Some? <==> script.None?
    ensures r.Some? ==> r.value.cacheSize == Wrap32(o.lines * 4) && r.value.levels == o.levels
                        && r.value.buffers == o.buffers && r.value.format == o.format && r.value.dmesg == o.dmesg
  {
    if script.None? then Some(Ingestors(Wrap32(o.lines * 4), o.levels, o.buffers, o.format, o.dmesg)) else None
  }

  // ---------------------------------------------------------------- onMainLoop

  /** The locals of onMainLoop's loop. */
  datatype Watch = Watch(start: int, seen: bool, gone: bool, killed: bool, complete: int)

  /** What one tick of the loop reads: the clock, the two boot-animation
      properties, the answer of each isBootAnimationRunning call the tick may
      make (before "seen", before "gone", after the kill), and whether the abort
      file exists. */
  datatype Observation = Observation(now: int, exitProperty: string, completedProperty: string,
                                     runningForSeen: bool, runningForGone: bool, runningAfterKill: bool,
                                     abortFile: bool)

  /** The loop's exit test. */
  predicate Done(complete: int, seen: bool, gone: bool, now: int)
  {
    (complete > 0 && !seen) || (seen && gone) || (seen && complete > 0 && now - complete > 2500)
  }

  datatype Ticked = Ticked(watch: Watch, kill: bool, exit: bool)

  const SeenAfter := 1500
  const GoneAfter := 2500

  /** One pass of onMainLoop's while loop. */
  function Tick(w: Watch, o: Observation): (t: Ticked)
    ensures t.watch.start == w.start
    ensures w.complete != 0 ==> t.watch.complete == w.complete
    ensures w.complete == 0 && (o.exitProperty == "1" || o.completedProperty == "1") ==> t.watch.complete == o.now
    ensures t.watch.seen != w.seen ==>
      w.complete == 0 && (o.now - w.start > SeenAfter || o.abortFile)
    ensures t.watch.gone != w.gone ==> t.watch.seen && (o.now - w.start > GoneAfter || t.kill || o.abortFile)
    ensures t.kill ==> t.watch.complete > 0 && t.watch.seen && !w.killed && t.watch.killed
    ensures w.complete > 0 && w.seen && !w.gone && !w.killed && !(o.now - w.start > GoneAfter && !o.runningForGone)
            ==> t.kill
    ensures w.killed ==> t.watch.killed && !t.kill
    ensures t.exit <==> Done(t.watch.complete, t.watch.seen, t.watch.gone, o.now)
  {
    var c1 := if w.complete == 0 && o.exitProperty == "1" then o.now else w.complete;
    var c2 := if c1 == 0 && o.completedProperty == "1" then o.now else c1;
    var seen := w.seen || (c2 == 0 && o.now - w.start > SeenAfter && o.runningForSeen);
    var gone := w.gone || (seen && o.now - w.start > GoneAfter && !o.runningForGone);
    var kill := c2 > 0 && seen && !gone && !w.killed;
    var killed := w.killed || kill;
    var gone2 := gone || (kill && !o.runningAfterKill);
    var next := if c2 == 0 && o.abortFile then Watch(w.start, true, true, true, o.now)
                else Watch(w.start, seen, gone2, killed, c2);
    Ticked(next, kill, Done(next.complete, next.seen, next.gone, o.now))
  }

  /** The abort file ends the loop on the tick that sees it, unless Android
      signalled the end on that same tick (then the ordinary rules apply). */
  lemma AbortFileExits(w: Watch, o: Observation)
    requires w.complete == 0 && o.abortFile && o.exitProperty != "1" && o.completedProperty != "1"
    ensures Tick(w, o).exit && Tick(w, o).watch.seen && Tick(w, o).watch.gone && Tick(w, o).watch.killed
    ensures !Tick(w, o).kill
  {
  }

  /** Android's signal without the boot animation ever seen ends the loop on that
      tick. */
  lemma SignalWithoutAnimationExits(w: Watch, o: Observation)
    requires w.complete == 0 && !w.seen && o.now > 0 && o.exitProperty == "1"
    ensures Tick(w, o).exit && !Tick(w, o).kill && Tick(w, o).watch.complete == o.now
  {
  }

  /** How the loop ends over the ticks it gets: the last locals, the ticks run,
      whether it exited, and how often it killed the boot animation. */
  datatype Watched = Watched(watch: Watch, ticks: nat, exited: bool, kills: nat)

  function Watching(w: Watch, obs: seq<Observation>): (r: Watched)
    ensures r.ticks <= |obs|
    ensures !r.exited ==> r.ticks == |obs|
    decreases |obs|
  {
    if obs == [] then Watched(w, 0, false, 0)
    else
      var t := Tick(w, obs[0]);
      var k := if t.kill then 1 else 0;
      if t.exit then Watched(t.watch, 1, true, k)
      else
        var rest := Watching(t.watch, obs[1..]);
        Watched(rest.watch, rest.ticks + 1, rest.exited, rest.kills + k)
  }

  /** The boot animation is killed at most once however long the loop runs. */
  lemma {:induction false} KilledAtMostOnce(w: Watch, obs: seq<Observation>)
    ensures Watching(w, obs).kills <= if w.killed then 0 else 1
    ensures w.killed ==> Watching(w, obs).watch.killed
    decreases |obs|
  {
    if obs != [] {
      var t := Tick(w, obs[0]);
      if !t.exit {
        KilledAtMostOnce(t.watch, obs[1..]);
      }
    }
  }

  /** Once complete is set it never changes again. */
  lemma {:induction false} CompleteSetOnce(w: Watch, obs: seq<Observation>)
    requires w.complete != 0
    ensures Watching(w, obs).watch.complete == w.complete
    decreases |obs|
  {
    if obs != [] {
      var t := Tick(w, obs[0]);
      if !t.exit {
        CompleteSetOnce(t.watch, obs[1..]);
      }
    }
  }

  /** The loop stops exactly at the first tick whose exit test holds. */
  lemma {:induction false} ExitsAtFirstDoneTick(w: Watch, obs: seq<Observation>)
    ensures var r := Watching(w, obs);
      r.exited ==> r.ticks >= 1 && Done(r.watch.complete, r.watch.seen, r.watch.gone, obs[r.ticks - 1].now)
    decreases |obs|
  {
    if obs != [] {
      var t := Tick(w, obs[0]);
      if !t.exit {
        ExitsAtFirstDoneTick(t.watch, obs[1..]);
        var r := Watching(t.watch, obs[1..]);
        if r.exited {
          assert obs[1..][r.ticks - 1] == obs[r.ticks];
        }
      }
    }
  }

  /** onMainLoop's while loop over the ticks it gets; in test mode there is no loop. */
  method WatchBoot(test: bool, start: int, obs: seq<Observation>) returns (w: Watch, ticks: nat, exited: bool, kills: nat)
    ensures test ==> ticks == 0 && exited && kills == 0
    ensures !test ==> Watched(w, ticks, exited, kills) == Watching(Watch(start, false, false, false, 0), obs)
  {
    w := Watch(start, false, false, false, 0);
    ticks, exited, kills := 0, false, 0;
    if test {
      return w, 0, true, 0;
    }
    ghost var total := Watching(w, obs);
    var i := 0;
    while i < |obs| && !exited
      invariant 0 <= i <= |obs|
      invariant ticks == i
      invariant exited ==> Watched(w, ticks, exited, kills) == total
      invariant !exited ==> var rest := Watching(w, obs[i..]);
        total == Watched(rest.watch, i + rest.ticks, rest.exited, kills + rest.kills)
      decreases |obs| - i, !exited
    {
      var o := obs[i];
      assert obs[i..][1..] == obs[i + 1..] && obs[i..][0] == o;
      var t := Tick(w, o);
      w := t.watch;
      if t.kill {
        kills := kills + 1;
      }
      ticks := ticks + 1;
      i := i + 1;
      if t.exit {
        exited := true;
      }
    }
    if !exited {
      assert obs[i..] == [];
    }
  }

  // ---------------------------------------------------------------- lines

  /** The blank lines onMainLoop queues once it is over: (lines * 5) / 4 in int
      arithmetic; the for loop runs no times for a negative bound. */
  function FlushCount(lines: int): (n: nat)
  {
    var bound := JavaDiv(Wrap32(lines * 5), 4);
    if bound > 0 then bound else 0
  }

  /** Without overflow the flush is at least one screen of lines, so every line
      of text scrolls away. */
  lemma FlushClearsScreen(lines: int)
    requires 0 <= lines && lines * 5 <= IntMax
    ensures FlushCount(lines) == (lines * 5) / 4
    ensures FlushCount(lines) >= lines
  {
  }

  /** n blank white lines. */
  function Blanks(n: nat, wordWrap: bool): (r: seq<Added>)
    ensures |r| == n
  {
    if n == 0 then [] else Blanks(n - 1, wordWrap) + [Added("", AndroidColor.White, wordWrap)]
  }

  /** Who sent a line: the ingestors, a script, or onMainLoop's flush (null). */
  datatype Sender = FromLogcat | FromDmesg | FromScript | FromFlush

  /** What the handler hands to GLTextManager.add. */
  datatype Added = Added(text: string, color: int, wordWrap: bool)

  /** The handler of onLine: nothing while there is no text manager; before the
      end of the boot the line as sent (white for logcat when colours are off,
      where sender == mLogcat also holds for the null sender when there is no
      logcat), afterwards a blank white line. */
  function LineFor(hasTextManager: bool, complete: int, haveLogcat: bool, logcatColor: bool, wordWrap: bool,
                   sender: Sender, text: string, color: int): (r: Option<Added>)
    ensures r.None? <==> !hasTextManager
    ensures r.Some? && complete != 0 ==> r.value == Added("", AndroidColor.White, wordWrap)
    ensures r.Some? && complete == 0 ==> r.value.text == text && r.value.wordWrap == wordWrap
    ensures r.Some? && complete == 0 && sender == FromLogcat ==>
      r.value.color == if logcatColor then color else AndroidColor.White
    ensures r.Some? && complete == 0 && (sender == FromDmesg || sender == FromScript) ==> r.value.color == color
  {
    if !hasTextManager then None
    else if complete == 0 then
      var isLogcat := sender == FromLogcat || (sender == FromFlush && !haveLogcat);
      Some(Added(text, if isLogcat && !logcatColor then AndroidColor.White else color, wordWrap))
    else Some(Added("", AndroidColor.White, wordWrap))
  }

  /** The flush always adds blank white lines, whatever the clock read. */
  lemma FlushLinesAreBlank(hasTextManager: bool, complete: int, haveLogcat: bool, logcatColor: bool,
                           wordWrap: bool)
    requires hasTextManager
    ensures LineFor(hasTextManager, complete, haveLogcat, logcatColor, wordWrap, FromFlush, "", AndroidColor.White)
            == Some(Added("", AndroidColor.White, wordWrap))
  {
  }

  /** The sizes onResize passes to GLTextManager.resize (-1 keeps a field); None
      when there are zero lines and the division throws. */
  datatype ResizeArgs = ResizeArgs(left: int, top: int, width: int, height: int, maxHeight: int, lineHeight: int)

  function ResizeFor(width: int, height: int, lines: int): (r: Option<ResizeArgs>)
    ensures r.None? <==> lines == 0
    ensures r.Some? ==> r.value.left == -1 && r.value.top == -1 && r.value.maxHeight == -1
                        && r.value.width == width && r.value.height == height
    ensures r.Some? && lines > 0 && height >= 0 ==>
      r.value.lineHeight * lines <= height < (r.value.lineHeight + 1) * lines
  {
    if lines == 0 then None else Some(ResizeArgs(-1, -1, width, height, -1, JavaDiv(height, lines)))
  }

  class Console {
    var options: Options
    var script: Option<string>
    var ingestors: Option<Ingestors>
    var width: int
    var height: int
    var hasTextManager: bool
    var complete: int
    /** Whether onInitRender called setReady on the ingestors, or started the script. */
    var ingestorsReady: bool
    var scriptStarted: bool
    /** Every line the handler has passed to GLTextManager.add, in order. */
    var added: seq<Added>

    constructor ()
      ensures options == Defaults && script == None && ingestors == None
      ensures width == 0 && height == 0 && !hasTextManager && complete == 0 && added == []
      ensures !ingestorsReady && !scriptStarted
    {
      options, script, ingestors := Defaults, None, None;
      width, height, hasTextManager, complete, added := 0, 0, false, 0, [];
      ingestorsReady, scriptStarted := false, false;
    }

    /** The body of onInit's loop for one argument. */
    method ApplyOption(arg: string)
      modifies this`options
      ensures options == ApplyArg(old(options), arg)
    {
      if arg == "test" {
        options := options.(test := true);
      } else if arg == "transparent" {
        options := options.(transparent := true);
      } else if arg == "wordwrap" {
        options := options.(wordWrap := true);
      } else if arg == "save" {
        options := options.(save := true);
      } else if arg == "dark" {
        options := options.(dark := true);
      } else if arg == "logcatnocolors" {
        options := options.(logcatColor := false);
      } else if '=' in arg {
        var i := IndexOfChar(arg, '=');
        ApplyKeyValue(arg[..i], arg[i + 1..]);
      }
    }

    /** The key=value branch of onInit's loop; a value that Integer.valueOf
        rejects throws, and the catch leaves the option as it was. */
    method ApplyKeyValue(key: string, value: string)
      modifies this`options
      ensures options == ApplyValue(old(options), key, value)
    {
      if key == "fallbackwidth" {
        var v := ParseInt(value);
        if v.Some? {
          options := options.(fallbackWidth := v.value);
        }
      } else if key == "fallbackheight" {
        var v := ParseInt(value);
        if v.Some? {
          options := options.(fallbackHeight := v.value);
        }
      } else if key == "lines" {
        var v := ParseInt(value);
        if v.Some? {
          options := options.(lines := v.value);
        }
      } else if key == "logcatlevels" {
        options := options.(levels := Some(value));
      } else if key == "logcatbuffers" {
        options := options.(buffers := Some(value));
      } else if key == "logcatformat" {
        options := options.(format := Some(value));
      } else if key == "dmesg" {
        options := options.(dmesg := Some(value));
      }
    }

    /** onInit: the option loop, then the script choice and the ingestors. */
    method OnInit(args: seq<string>, sbinExists: bool, suExists: bool, systemExists: bool)
      modifies this`options, this`script, this`ingestors
      ensures options == Parse(old(options), args)
      ensures script == ScriptChoice(sbinExists, suExists, systemExists)
      ensures ingestors == IngestorsFor(options, script)
    {
      ghost var o0 := options;
      var i := 0;
      while i < |args|
        invariant 0 <= i <= |args|
        invariant options == Parse(o0, args[..i])
      {
        assert args[..i + 1][..i] == args[..i];
        ApplyOption(args[i]);
        i := i + 1;
      }
      assert args[..i] == args;
      if sbinExists {
        script := Some(ScriptSbin);
      } else if suExists {
        script := Some(ScriptSu);
      } else if systemExists {
        script := Some(ScriptSystem);
      } else {
        script := None;
      }
      if script == None {
        ingestors := Some(Ingestors(Wrap32(options.lines * 4), options.levels, options.buffers, options.format,
                                    options.dmesg));
      } else {
        ingestors := None;
      }
    }

    /** onSize: the size of the surface. */
    method OnSize(w: int, h: int)
      modifies this`width, this`height
      ensures width == w && height == h
    {
      width, height := w, h;
    }

    /** onInitRender: the text manager gets line height mHeight / mLines, which
        throws for zero lines before the manager is assigned, so then there is no
        text manager and nothing is made ready (ok == false); otherwise the
        ingestors are made ready when there is no script, and the script is
        started when there is one. */
    method OnInitRender() returns (ok: bool)
      modifies this`hasTextManager, this`ingestorsReady, this`scriptStarted
      ensures ok == (options.lines != 0)
      ensures ok ==> hasTextManager && ingestorsReady == (old(ingestorsReady) || (script.None? && ingestors.Some?))
                     && scriptStarted == (old(scriptStarted) || script.Some?)
      ensures !ok ==> hasTextManager == old(hasTextManager) && ingestorsReady == old(ingestorsReady)
                      && scriptStarted == old(scriptStarted)
    {
      if options.lines == 0 {
        return false;
      }
      hasTextManager := true;
      if script.None? {
        if ingestors.Some? {
          ingestorsReady := true;
        }
      } else {
        scriptStarted := true;
      }
      ok := true;
    }

    /** onResize: the new size, and what it asks the text manager to resize to. */
    method OnResize(w: int, h: int) returns (resize: Option<ResizeArgs>)
      modifies this`width, this`height
      ensures width == w && height == h
      ensures resize == ResizeFor(w, h, options.lines)
    {
      width, height := w, h;
      if options.lines == 0 {
        return None;
      }
      resize := Some(ResizeArgs(-1, -1, w, h, -1, JavaDiv(h, options.lines)));
    }

    /** onLine, with the handler run straight away. */
    method OnLine(sender: Sender, text: string, color: int)
      modifies this`added
      ensures var r := LineFor(hasTextManager, complete, ingestors.Some?, options.logcatColor, options.wordWrap,
                               sender, text, color);
        added == old(added) + (if r.Some? then [r.value] else [])
    {
      if hasTextManager {
        var c := color;
        if complete == 0 {
          if (sender == FromLogcat || (sender == FromFlush && ingestors.None?)) && !options.logcatColor {
            c := AndroidColor.White;
          }
          added := added + [Added(text, c, options.wordWrap)];
        } else {
          added := added + [Added("", AndroidColor.White, options.wordWrap)];
        }
      }
    }

    /** The end of onMainLoop: complete is the time read, and the blank lines are
        queued. */
    method Flush(now: int)
      modifies this`complete, this`added
      ensures complete == now
      ensures added == old(added) + (if hasTextManager then Blanks(FlushCount(options.lines), options.wordWrap) else [])
    {
      complete := now;
      var n := JavaDiv(Wrap32(options.lines * 5), 4);
      ghost var added0 := added;
      var i := 0;
      while i < n
        invariant 0 <= i <= (if n > 0 then n else 0) && complete == now
        invariant added == added0 + (if hasTextManager then Blanks(i, options.wordWrap) else [])
      {
        OnLine(FromFlush, "", AndroidColor.White);
        i := i + 1;
      }
    }
  }
}
