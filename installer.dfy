// Installer.java: where the boot scripts live for each root flavour, when a
// (re)install is needed, whether /system has room, the parameter list handed to
// the boot-time Runner, and the uninstall command list.  The shell, the file
// system and StatFs are parameters: what `cat` printed for a file, whether the
// data file exists, what `ls -l` printed, and the block counts.

module Installer {
  import opened JavaText

  /** Installer.Mode, in declaration order. */
  datatype Mode = SuD | InitD | SuSuD | SbinSuD | MagiskCore | MagiskAdb | KernelSu

  /** Every mode, in the order uninstall walks the script tables. */
  const AllModes: seq<Mode> := [SuD, InitD, SuSuD, SbinSuD, MagiskCore, MagiskAdb, KernelSu]

  /** getScript: the script paths of a mode. */
  function Script(mode: Mode): (paths: seq<string>)
    ensures |paths| == (if mode in {MagiskCore, MagiskAdb, KernelSu} then 2 else 1)
  {
    match mode
    case SuD => ["/system/su.d/0000liveboot"]
    case InitD => ["/system/etc/init.d/0000liveboot"]
    case SuSuD => ["/su/su.d/0000liveboot"]
    case SbinSuD => ["/sbin/supersu/su.d/0000liveboot"]
    case MagiskCore => ["/sbin/.core/img/.core/post-fs-data.d/0000liveboot", "/sbin/.core/img/.core/service.d/0000liveboot"]
    case MagiskAdb => ["/data/adb/post-fs-data.d/0000liveboot", "/data/adb/service.d/0000liveboot"]
    case KernelSu => ["/data/adb/post-fs-data.d/0000liveboot", "/data/adb/service.d/0000liveboot"]
  }

  /** Two modes share their scripts exactly when they are the same mode, or are
      Magisk's /data/adb layout and KernelSU, which use the same paths. */
  lemma ScriptsShared(m1: Mode, m2: Mode)
    ensures Script(m1) == Script(m2) <==> m1 == m2 || (m1 in {MagiskAdb, KernelSu} && m2 in {MagiskAdb, KernelSu})
  {
    if m1 != m2 && !(m1 in {MagiskAdb, KernelSu} && m2 in {MagiskAdb, KernelSu}) {
      var a, b := Script(m1)[0], Script(m2)[0];
      if |a| == |b| {
        // Only init.d and /sbin su.d have paths of equal length, and they differ at index 2.
        assert a[2] != b[2];
      }
      assert a != b;
    }
  }

  // ---------------------------------------------------------------- install checks

  /** LAST_SCRIPT_UPDATE: the version that last changed the scripts. */
  const LastScriptUpdate := 182

  /** installNeededVersion, given the stored LAST_UPDATE. */
  function InstallNeededVersion(lastVersion: int): (needed: bool)
    ensures needed <==> lastVersion < LastScriptUpdate
  {
    lastVersion == 0 || lastVersion < LastScriptUpdate
  }

  /** Some line of the output contains m. */
  predicate AnyLineContains(lines: seq<string>, m: string)
  {
    exists k :: 0 <= k < |lines| && Contains(lines[k], m)
  }

  /** A cat of the script mentions the data file (a null output mentions nothing). */
  predicate Mentions(output: Option<seq<string>>, marker: string)
  {
    output.Some? && AnyLineContains(output.value, marker)
  }

  /** The data file installData writes, whose path every boot script calls. */
  function Marker(filesDir: string): string
  {
    filesDir + "/liveboot"
  }

  /** Every script file's cat mentions the marker. */
  predicate HaveAll(files: seq<string>, cat: string -> Option<seq<string>>, marker: string)
  {
    forall k :: 0 <= k < |files| ==> Mentions(cat(files[k]), marker)
  }

  /** Each path behind the prefix: the commands a loop over paths issues. */
  function Prefixed(prefix: string, paths: seq<string>): (commands: seq<string>)
    ensures |commands| == |paths|
    ensures forall k :: 0 <= k < |paths| ==> commands[k] == prefix + paths[k]
  {
    if paths == [] then [] else Prefixed(prefix, paths[..|paths| - 1]) + [prefix + paths[|paths| - 1]]
  }

  /** The inner loop: does any line contain the marker? */
  method ScanLines(lines: seq<string>, marker: string) returns (have: bool)
    ensures have == AnyLineContains(lines, marker)
  {
    have := false;
    var j := 0;
    while j < |lines|
      invariant 0 <= j <= |lines|
      invariant have == AnyLineContains(lines[..j], marker)
    {
      if Contains(lines[j], marker) {
        have := true;
      }
      assert lines[..j + 1][..j] == lines[..j] && lines[..j + 1][j] == lines[j];
      j := j + 1;
    }
    assert lines[..j] == lines;
  }

  /** installNeededScript: cat every script of the mode and look for the data
      file's path in what comes back.  `cat` is what the root shell printed, or
      None when the shell gave nothing. */
  method InstallNeededScript(filesDir: string, mode: Mode, cat: string -> Option<seq<string>>)
    returns (needed: bool, ran: seq<string>)
    ensures needed <==> exists k :: 0 <= k < |Script(mode)| && !Mentions(cat(Script(mode)[k]), Marker(filesDir))
    ensures ran == Prefixed("cat ", Script(mode))
  {
    var haveAll;
    haveAll, ran := CatEach(Script(mode), cat, Marker(filesDir));
    needed := !haveAll;
  }

  /** The loop over a mode's script files. */
  method CatEach(files: seq<string>, cat: string -> Option<seq<string>>, marker: string)
    returns (haveAll: bool, ran: seq<string>)
    ensures haveAll == HaveAll(files, cat, marker)
    ensures ran == Prefixed("cat ", files)
  {
    haveAll := true;
    ran := [];
    var i := 0;
    while i < |files|
      invariant 0 <= i <= |files|
      invariant haveAll == HaveAll(files[..i], cat, marker)
      invariant ran == Prefixed("cat ", files[..i])
    {
      var have := false;
      ran := ran + ["cat " + files[i]];
      var ls := cat(files[i]);
      if ls.Some? {
        have := ScanLines(ls.value, marker);
      }
      haveAll := haveAll && have;
      assert files[..i + 1][..i] == files[..i] && files[..i + 1][i] == files[i];
      i := i + 1;
    }
    assert files[..i] == files;
  }

  /** installNeeded: the version check, then the data file, then the scripts;
      the scripts are only read when the first two found nothing. */
  method InstallNeeded(lastVersion: int, dataExists: bool, filesDir: string, mode: Mode,
                       cat: string -> Option<seq<string>>)
    returns (needed: bool, ran: seq<string>)
    ensures needed <==> InstallNeededVersion(lastVersion) || !dataExists || !HaveAll(Script(mode), cat, Marker(filesDir))
    ensures ran == (if InstallNeededVersion(lastVersion) || !dataExists then [] else Prefixed("cat ", Script(mode)))
  {
    ran := [];
    if InstallNeededVersion(lastVersion) {
      needed := true;
    } else if !dataExists {
      needed := true;
    } else {
      needed, ran := InstallNeededScript(filesDir, mode, cat);
    }
  }

  // ---------------------------------------------------------------- free space

  /** What StatFs("/system") reports: all Java longs. */
  datatype StatFs = StatFs(blockSize: int, availableBlocks: int, freeBlocks: int)

  /** The blocks systemFree asks for: wanted bytes in whole blocks, plus three
      blocks per file computed in int arithmetic, summed as longs. */
  function BlocksWanted(wanted: int, filecount: int, blockSize: int): int
    requires blockSize != 0
  {
    Wrap64(JavaDiv(wanted, blockSize) + Wrap32(filecount * 3))
  }

  /** systemFree.  `stat` is None when StatFs cannot be made; a zero block size
      divides by zero; both exceptions are swallowed and give true. */
  function SystemFree(wanted: int, filecount: int, stat: Option<StatFs>): (free: bool)
    ensures stat.None? || stat.value.blockSize == 0 ==> free
    ensures stat.Some? && stat.value.blockSize != 0 ==>
      (free <==> stat.value.availableBlocks >= BlocksWanted(wanted, filecount, stat.value.blockSize)
                 || stat.value.freeBlocks >= BlocksWanted(wanted, filecount, stat.value.blockSize))
  {
    match stat
    case None => true
    case Some(fs) =>
      if fs.blockSize == 0 then true
      else
        var blocks := BlocksWanted(wanted, filecount, fs.blockSize);
        fs.availableBlocks >= blocks || fs.freeBlocks >= blocks
  }

  /** The ranges real sizes keep to: no overflow anywhere in systemFree. */
  predicate Plausible(wanted: int, filecount: int, fs: StatFs)
  {
    0 <= wanted && 0 <= filecount && filecount * 3 <= IntMax && IsInt64(wanted + filecount * 3)
    && 0 < fs.blockSize
  }

  /** Whole blocks of a byte count: at most the count, and less than a block short. */
  lemma WholeBlocks(wanted: int, b: int)
    requires 0 <= wanted && 0 < b
    ensures var q := JavaDiv(wanted, b); 0 <= q <= wanted && q * b <= wanted < q * b + b
  {
    var q := JavaDiv(wanted, b);
    assert 0 <= wanted - b * q < b;
    if q < 0 {
      ScaleLe(q, -1, b);
      assert false;
    }
    ScaleLe(1, b, q);
  }

  lemma ScaleLe(x: int, y: int, b: int)
    requires x <= y && 0 <= b
    ensures x * b <= y * b
  {
    assert (y - x) * b >= 0;
  }

  /** Without overflow the wanted blocks are the plain sum. */
  lemma BlocksWantedPlain(wanted: int, filecount: int, fs: StatFs)
    requires Plausible(wanted, filecount, fs)
    ensures var q := JavaDiv(wanted, fs.blockSize);
      BlocksWanted(wanted, filecount, fs.blockSize) == q + 3 * filecount && q * fs.blockSize <= wanted < q * fs.blockSize + fs.blockSize
  {
    WholeBlocks(wanted, fs.blockSize);
  }

  /** Room for the wanted bytes plus three blocks per file is always enough. */
  lemma RoomSuffices(wanted: int, filecount: int, fs: StatFs, blocks: int)
    requires Plausible(wanted, filecount, fs)
    requires blocks == fs.availableBlocks || blocks == fs.freeBlocks
    requires blocks * fs.blockSize >= wanted + 3 * filecount * fs.blockSize
    ensures SystemFree(wanted, filecount, Some(fs))
  {
    var b := fs.blockSize;
    var q := JavaDiv(wanted, b);
    BlocksWantedPlain(wanted, filecount, fs);
    if blocks < q + 3 * filecount {
      ScaleLe(blocks + 1, q + 3 * filecount, b);
      assert false;
    }
  }

  /** Conversely, a true answer means the better of the two counts leaves less
      than one block short of the wanted bytes plus three blocks per file. */
  lemma FreeMeansRoom(wanted: int, filecount: int, fs: StatFs)
    requires Plausible(wanted, filecount, fs)
    requires SystemFree(wanted, filecount, Some(fs))
    ensures var most := if fs.availableBlocks >= fs.freeBlocks then fs.availableBlocks else fs.freeBlocks;
      (most + 1) * fs.blockSize > wanted + 3 * filecount * fs.blockSize
  {
    var b := fs.blockSize;
    var q := JavaDiv(wanted, b);
    BlocksWantedPlain(wanted, filecount, fs);
    var most := if fs.availableBlocks >= fs.freeBlocks then fs.availableBlocks else fs.freeBlocks;
    ScaleLe(q + 3 * filecount + 1, most + 1, b);
    assert (q + 3 * filecount + 1) * b == q * b + b + 3 * filecount * b;
  }

  // ---------------------------------------------------------------- launch parameters

  /** The settings getLaunchScript reads. */
  datatype Settings = Settings(transparent: bool, dark: bool, levels: string, buffers: string, format: string,
                               colors: bool, dmesg: bool, lines: string, wordWrap: bool, saveLogs: bool)

  /** Settings.DMESG_ALL and Settings.DMESG_NONE. */
  const DmesgAll := "0-99"
  const DmesgNone := "0--1"

  /** haveLogcat: false when no level or no buffer is selected. */
  predicate HaveLogcat(s: Settings)
  {
    !(s.levels == "" || s.buffers == "")
  }

  /** The dmesg range: all of it on boot, or on a test run without logcat. */
  function DmesgRange(s: Settings, boot: bool): (range: string)
    ensures range == DmesgAll <==> s.dmesg && (boot || s.levels == "" || s.buffers == "")
    ensures range == DmesgAll || range == DmesgNone
  {
    if s.dmesg && (boot || !HaveLogcat(s)) then DmesgAll else DmesgNone
  }

  /** getLaunchScript's params: the package path, "boot" or "test", then the
      options in a fixed order. */
  function LaunchParams(s: Settings, codePath: string, boot: bool): (params: seq<string>)
    ensures |params| == 7 + (if s.transparent then 1 else 0) + (if s.dark then 1 else 0) + (if s.colors then 0 else 1)
                         + (if s.wordWrap then 1 else 0) + (if s.saveLogs && boot then 1 else 0)
    ensures params[0] == codePath && params[1] == (if boot then "boot" else "test")
  {
    [codePath] + [if boot then "boot" else "test"]
    + (if s.transparent then ["transparent"] else [])
    + (if s.dark then ["dark"] else [])
    + ["logcatlevels=" + s.levels] + ["logcatbuffers=" + s.buffers] + ["logcatformat=" + s.format]
    + (if s.colors then [] else ["logcatnocolors"])
    + ["dmesg=" + DmesgRange(s, boot)]
    + ["lines=" + s.lines]
    + (if s.wordWrap then ["wordwrap"] else [])
    + (if s.saveLogs && boot then ["save"] else [])
  }

  /** getLaunchScript's list, built one add at a time. */
  method BuildLaunchParams(s: Settings, codePath: string, boot: bool) returns (params: seq<string>)
    ensures params == LaunchParams(s, codePath, boot)
  {
    params := [codePath];
    params := params + [if boot then "boot" else "test"];
    params := AddIf(params, s.transparent, "transparent");
    params := AddIf(params, s.dark, "dark");
    params := params + ["logcatlevels=" + s.levels];
    params := params + ["logcatbuffers=" + s.buffers];
    params := params + ["logcatformat=" + s.format];
    params := AddIf(params, !s.colors, "logcatnocolors");
    params := params + ["dmesg=" + DmesgRange(s, boot)];
    params := params + ["lines=" + s.lines];
    params := AddIf(params, s.wordWrap, "wordwrap");
    params := AddIf(params, s.saveLogs && boot, "save");
  }

  /** `if (cond) params.add(p)`. */
  method AddIf(params: seq<string>, cond: bool, p: string) returns (r: seq<string>)
    ensures r == params + (if cond then [p] else [])
  {
    r := params;
    if cond {
      r := r + [p];
    } else {
      assert r + [] == r;
    }
  }

  // ---------------------------------------------------------------- uninstall

  /** Every script of the modes, in order. */
  function Scripts(modes: seq<Mode>): (paths: seq<string>)
  {
    if modes == [] then [] else Scripts(modes[..|modes| - 1]) + Script(modes[|modes| - 1])
  }

  /** A script of a listed mode is among Scripts. */
  lemma {:induction false} ScriptsCover(modes: seq<Mode>, k: nat, p: string)
    requires k < |modes| && p in Script(modes[k])
    ensures p in Scripts(modes)
    decreases |modes|
  {
    if k < |modes| - 1 {
      assert modes[..|modes| - 1][k] == modes[k];
      ScriptsCover(modes[..|modes| - 1], k, p);
    }
  }

  /** The seven tables hold ten paths (the last two tables share theirs). */
  lemma AllScriptsCount()
    ensures |Scripts(AllModes)| == 10
  {
    assert AllModes[..6] == [SuD, InitD, SuSuD, SbinSuD, MagiskCore, MagiskAdb];
    assert AllModes[..6][..5] == [SuD, InitD, SuSuD, SbinSuD, MagiskCore];
    assert AllModes[..6][..5][..4] == [SuD, InitD, SuSuD, SbinSuD];
    assert AllModes[..6][..5][..4][..3] == [SuD, InitD, SuSuD];
    assert AllModes[..6][..5][..4][..3][..2] == [SuD, InitD];
    assert AllModes[..6][..5][..4][..3][..2][..1] == [SuD];
    assert |Scripts([SuD])| == 1;
    assert |Scripts([SuD, InitD])| == 2;
    assert |Scripts([SuD, InitD, SuSuD])| == 3;
    assert |Scripts([SuD, InitD, SuSuD, SbinSuD])| == 4;
    assert |Scripts([SuD, InitD, SuSuD, SbinSuD, MagiskCore])| == 6;
    assert |Scripts([SuD, InitD, SuSuD, SbinSuD, MagiskCore, MagiskAdb])| == 8;
  }

  lemma PrefixedAppend(prefix: string, a: seq<string>, b: seq<string>)
    ensures Prefixed(prefix, a + b) == Prefixed(prefix, a) + Prefixed(prefix, b)
  {
    var l, r := Prefixed(prefix, a + b), Prefixed(prefix, a) + Prefixed(prefix, b);
    assert |l| == |r|;
    forall k | 0 <= k < |l|
      ensures l[k] == r[k]
    {
      assert (a + b)[k] == if k < |a| then a[k] else b[k - |a|];
    }
  }

  /** The listing uninstall asks for: the /system su.d and init.d scripts. */
  const ListCommands := Prefixed("ls -l ", Script(SuD) + Script(InitD))

  /** A listing line naming liveboot means /system holds a script. */
  predicate SystemTouched(listing: Option<seq<string>>)
  {
    Mentions(listing, "liveboot")
  }

  const RemountRw: seq<string> := ["mount -o rw,remount /system", "mount -o rw,remount /system /system"]
  const RemountRo: seq<string> := ["mount -o ro,remount /system /system", "mount -o ro,remount /system"]

  /** The removals: rm for each script of every table, in table order. */
  function Removals(rm: string): (commands: seq<string>)
    ensures |commands| == 10
    ensures forall mode, p :: p in Script(mode) ==> rm + " " + p in commands
  {
    AllScriptsCount();
    RemovalsCover(rm);
    Prefixed(rm + " ", Scripts(AllModes))
  }

  lemma RemovalsCover(rm: string)
    ensures forall mode, p :: p in Script(mode) ==> rm + " " + p in Prefixed(rm + " ", Scripts(AllModes))
  {
    var all := Scripts(AllModes);
    forall mode, p | p in Script(mode)
      ensures rm + " " + p in Prefixed(rm + " ", all)
    {
      var k := match mode
        case SuD => 0 case InitD => 1 case SuSuD => 2 case SbinSuD => 3
        case MagiskCore => 4 case MagiskAdb => 5 case KernelSu => 6;
      assert AllModes[k] == mode;
      ScriptsCover(AllModes, k, p);
      var i :| 0 <= i < |all| && all[i] == p;
      assert Prefixed(rm + " ", all)[i] == rm + " " + p;
    }
  }

  /** uninstall's command list; `rm` is what Toolbox.command("rm") gave.  The
      remount pair wraps the removals only when /system holds a script. */
  function UninstallCommands(system: bool, rm: string): (commands: seq<string>)
    ensures system ==> commands == RemountRw + Removals(rm) + RemountRo
    ensures !system ==> commands == Removals(rm)
  {
    (if system then RemountRw else []) + Removals(rm) + (if system then RemountRo else [])
  }

  /** One loop over a script table: the prefix with each path, appended in order. */
  method AppendEach(commands: seq<string>, prefix: string, paths: seq<string>) returns (r: seq<string>)
    ensures r == commands + Prefixed(prefix, paths)
  {
    r := commands;
    var i := 0;
    while i < |paths|
      invariant 0 <= i <= |paths| && r == commands + Prefixed(prefix, paths[..i])
    {
      assert paths[..i + 1][..i] == paths[..i];
      r := r + [prefix + paths[i]];
      i := i + 1;
    }
    assert paths[..i] == paths;
  }

  /** The /system listing: `ls -l` of each su.d and then each init.d script. */
  method Listing() returns (ls: seq<string>)
    ensures ls == ListCommands
  {
    ls := AppendEach([], "ls -l ", Script(SuD));
    ls := AppendEach(ls, "ls -l ", Script(InitD));
    PrefixedAppend("ls -l ", Script(SuD), Script(InitD));
  }

  /** The scan of the listing, stopping at the first line naming liveboot. */
  method Touched(listing: Option<seq<string>>) returns (system: bool)
    ensures system == SystemTouched(listing)
  {
    system := false;
    if listing.Some? {
      var lines := listing.value;
      var j := 0;
      while j < |lines|
        invariant 0 <= j <= |lines|
        invariant forall k :: 0 <= k < j ==> !Contains(lines[k], "liveboot")
      {
        if Contains(lines[j], "liveboot") {
          system := true;
          break;
        }
        j := j + 1;
      }
    }
  }

  /** The nested loop over the seven tables and their scripts. */
  method RemoveAll(rm: string) returns (commands: seq<string>)
    ensures commands == Removals(rm)
  {
    commands := [];
    var tables := AllModes;
    var m := 0;
    while m < |tables|
      invariant 0 <= m <= |tables|
      invariant commands == Prefixed(rm + " ", Scripts(tables[..m]))
    {
      var scripts := Script(tables[m]);
      PrefixedAppend(rm + " ", Scripts(tables[..m]), scripts);
      commands := AppendEach(commands, rm + " ", scripts);
      assert tables[..m + 1][..m] == tables[..m];
      m := m + 1;
    }
    assert tables[..m] == tables;
  }

  /** uninstall, given what the `ls -l` of the /system scripts printed (None when
      su gave nothing) and the rm command. */
  method Uninstall(listing: Option<seq<string>>, rm: string) returns (ls: seq<string>, commands: seq<string>)
    ensures ls == ListCommands
    ensures commands == UninstallCommands(SystemTouched(listing), rm)
  {
    ls := Listing();
    var system := Touched(listing);
    commands := [];
    if system {
      commands := commands + RemountRw;
    }
    var removals := RemoveAll(rm);
    commands := commands + removals;
    if system {
      commands := commands + RemountRo;
    }
  }
}
