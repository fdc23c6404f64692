// shell/Logcat.java: the logcat ingestor.  The constructor turns the level,
// buffer and format options into flags and the logcat command line; the stdout
// callback runs the shared rate controller (module RateControl) and hands lines
// to processLine, which finds each line's priority according to the output
// format and forwards it, coloured by priority, when that priority is enabled and
// the line is not the console's own output.

module Logcat {
  import opened JavaText
  import AndroidColor
  import RateControl

  const LevelChars: string := ['V', 'D', 'I', 'W', 'E', 'F', 'S']

  const LevelColors: seq<nat> := [
    AndroidColor.White, AndroidColor.Rgb(0x40, 0x80, 0xFF), AndroidColor.Green,
    AndroidColor.Yellow, AndroidColor.Red, AndroidColor.Red, AndroidColor.Black
  ]

  const BufferChars: string := ['M', 'S', 'R', 'E', 'C']

  const BufferNames: seq<string> := ["main", "system", "radio", "events", "crash"]

  const FormatNames: seq<string> := ["brief", "process", "tag", "thread", "time", "threadtime"]

  /** A line forwarded to the console, with its colour. */
  datatype Delivery = Delivery(text: string, color: nat)

  // ------------------------------------------------------- option parsing

  lemma ContainsChar(s: string, c: char)
    ensures Contains(s, [c]) <==> c in s
  {
    if c in s {
      var i :| 0 <= i < |s| && s[i] == c;
      assert s[i..i + 1] == [c];
      assert OccursAt(s, [c], i);
    }
    if Contains(s, [c]) {
      var i := IndexOf(s, [c]);
      assert s[i..i + 1] == [c];
      assert s[i] == c;
    }
  }

  /** The levels or buffers option: flag i is set when chars[i] occurs in the
      option (`levels.contains("" + LEVEL_CHARACTERS[i])`); no option leaves every
      flag at its initial true. */
  function OptionFlags(option: Option<string>, chars: string): (flags: seq<bool>)
    ensures |flags| == |chars|
    ensures forall i :: 0 <= i < |chars| ==> (flags[i] <==> (option.None? || chars[i] in option.value))
  {
    if option.None? then seq(|chars|, _ => true)
    else
      var f := seq(|chars|, i requires 0 <= i < |chars| => Contains(option.value, [chars[i]]));
      assert forall i :: 0 <= i < |chars| ==> (f[i] <==> chars[i] in option.value) by {
        forall i | 0 <= i < |chars| ensures f[i] <==> chars[i] in option.value {
          ContainsChar(option.value, chars[i]);
        }
      }
      f
  }

  predicate AnySet(flags: seq<bool>) { exists i :: 0 <= i < |flags| && flags[i] }

  /** The format actually used: the option if it names a supported format, else "brief". */
  function FormatOrBrief(format: Option<string>): (f: string)
    ensures f in FormatNames
    ensures f != "brief" ==> format == Some(f)
    ensures format.Some? && format.value in FormatNames ==> f == format.value
  {
    if format.Some? && format.value in FormatNames then format.value else "brief"
  }

  /** The ` -b name` arguments for buffers i.. that are enabled and whose /dev/log
      node exists. */
  function BufferArgs(buffers: seq<bool>, present: seq<bool>, i: nat): string
    requires |buffers| == |present| == |BufferNames| && i <= |BufferNames|
    decreases |BufferNames| - i
  {
    if i == |BufferNames| then ""
    else (if buffers[i] && present[i] then " -b " + BufferNames[i] else "") + BufferArgs(buffers, present, i + 1)
  }

  /** The names of the buffers logcat is asked to read, in table order. */
  function SelectedBuffers(buffers: seq<bool>, present: seq<bool>, i: nat): seq<string>
    requires |buffers| == |present| == |BufferNames| && i <= |BufferNames|
    decreases |BufferNames| - i
  {
    if i == |BufferNames| then []
    else (if buffers[i] && present[i] then [BufferNames[i]] else []) + SelectedBuffers(buffers, present, i + 1)
  }

  /** The shell command: empty unless some level and some buffer are enabled. */
  function Command(levels: seq<bool>, buffers: seq<bool>, format: string, present: seq<bool>): string
    requires |buffers| == |present| == |BufferNames|
  {
    if AnySet(levels) && AnySet(buffers) then "logcat -v " + format + BufferArgs(buffers, present, 0)
    else ""
  }

  lemma CommandEmptyExactlyWhenNothingEnabled(levels: seq<bool>, buffers: seq<bool>, format: string,
                                              present: seq<bool>)
    requires |buffers| == |present| == |BufferNames|
    ensures Command(levels, buffers, format, present) == "" <==> !(AnySet(levels) && AnySet(buffers))
    ensures Command(levels, buffers, format, present) != "" ==>
      StartsWith(Command(levels, buffers, format, present), "logcat -v " + format)
  {
    var c := Command(levels, buffers, format, present);
    if c != "" {
      assert c[..|"logcat -v " + format|] == "logcat -v " + format;
    }
  }

  /** A buffer is passed to logcat exactly when it is enabled and its node exists,
      each at most once and in table order. */
  lemma {:induction false} SelectedBuffersExact(buffers: seq<bool>, present: seq<bool>, i: nat)
    requires |buffers| == |present| == |BufferNames| && i <= |BufferNames|
    ensures forall k :: i <= k < |BufferNames| ==>
      (BufferNames[k] in SelectedBuffers(buffers, present, i) <==> buffers[k] && present[k])
    ensures forall k :: 0 <= k < i ==> BufferNames[k] !in SelectedBuffers(buffers, present, i)
    decreases |BufferNames| - i
  {
    if i < |BufferNames| {
      SelectedBuffersExact(buffers, present, i + 1);
    }
  }

  lemma {:induction false} BufferArgsListSelected(buffers: seq<bool>, present: seq<bool>, i: nat)
    requires |buffers| == |present| == |BufferNames| && i <= |BufferNames|
    ensures BufferArgs(buffers, present, i) == ArgsOf(SelectedBuffers(buffers, present, i))
    decreases |BufferNames| - i
  {
    if i < |BufferNames| {
      BufferArgsListSelected(buffers, present, i + 1);
      var rest := SelectedBuffers(buffers, present, i + 1);
      if buffers[i] && present[i] {
        assert [BufferNames[i]] + rest == [BufferNames[i]] + rest;
        assert ([BufferNames[i]] + rest)[1..] == rest;
      } else {
        assert [] + rest == rest;
      }
    }
  }

  function ArgsOf(names: seq<string>): string
  {
    if |names| == 0 then "" else " -b " + names[0] + ArgsOf(names[1..])
  }

  // --------------------------------------------------- level detection

  /** The marker that shows level i in "time" (" X/") and "threadtime" (" X ") lines. */
  function Marker(i: nat, tail: char): string
    requires i < |LevelChars|
  {
    [' ', LevelChars[i], tail]
  }

  /** Level i's marker occurs somewhere before position end. */
  predicate MarkedBefore(line: string, end: int, tail: char, i: nat)
    requires i < |LevelChars|
  {
    exists p :: 0 <= p < end && OccursAt(line, Marker(i, tail), p)
  }

  /** The marker's first occurrence lies before end: the test inside processLine's
      loop over the levels. */
  predicate FoundBefore(line: string, end: int, tail: char, i: nat)
    requires i < |LevelChars|
  {
    var pos := IndexOf(line, Marker(i, tail));
    pos > -1 && pos < end
  }

  /** The outcome of that test for every level, in order. */
  function Found(line: string, end: int, tail: char): (r: seq<bool>)
    ensures |r| == |LevelChars|
  {
    seq(|LevelChars|, j requires 0 <= j < |LevelChars| => FoundBefore(line, end, tail, j))
  }

  /** The loop over levels i..: the first whose test succeeded, or -1. */
  function FirstTrue(found: seq<bool>, i: nat): (r: int)
    requires i <= |found|
    ensures r == -1 || i <= r < |found|
    decreases |found| - i
  {
    if i == |found| then -1 else if found[i] then i else FirstTrue(found, i + 1)
  }

  lemma {:induction false} FirstTrueSpec(found: seq<bool>, i: nat)
    requires i <= |found|
    ensures var r := FirstTrue(found, i);
      (r >= 0 ==> found[r]) && (forall j :: i <= j < |found| && (r == -1 || j < r) ==> !found[j])
    decreases |found| - i
  {
    if i < |found| && !found[i] {
      FirstTrueSpec(found, i + 1);
    }
  }

  lemma MarkedBeforeIff(line: string, end: int, tail: char, i: nat)
    requires i < |LevelChars|
    ensures MarkedBefore(line, end, tail, i) <==> FoundBefore(line, end, tail, i)
  {
    var m := Marker(i, tail);
    if MarkedBefore(line, end, tail, i) {
      var p :| 0 <= p < end && OccursAt(line, m, p);
      assert IndexOf(line, m) <= p;
    }
    if FoundBefore(line, end, tail, i) {
      assert OccursAt(line, m, IndexOf(line, m));
    }
  }

  /** The loop finds the first level whose marker occurs before end. */
  lemma FirstMarkedSpec(line: string, end: int, tail: char)
    ensures var r := FirstTrue(Found(line, end, tail), 0);
      (r >= 0 ==> MarkedBefore(line, end, tail, r))
      && (forall j :: 0 <= j < |LevelChars| && (r == -1 || j < r) ==> !MarkedBefore(line, end, tail, j))
  {
    var found := Found(line, end, tail);
    FirstTrueSpec(found, 0);
    forall j | 0 <= j < |LevelChars| ensures MarkedBefore(line, end, tail, j) <==> found[j] {
      MarkedBeforeIff(line, end, tail, j);
    }
  }

  /** The priority index processLine finds in a non-empty line, or -1. */
  function LevelIndex(format: string, line: string): (r: int)
    requires |line| > 0
    ensures -1 <= r < |LevelChars|
  {
    if format == "time" then
      var end := IndexOfChar(line, '(');
      if end > -1 then FirstTrue(Found(line, end, '/'), 0) else -1
    else if format == "threadtime" then
      var end := IndexOf(line, ": ");
      if end > -1 then FirstTrue(Found(line, end, ' '), 0) else -1
    else IndexOfChar(LevelChars, line[0])
  }

  /** "time": the first level, in the order V D I W E F S, whose " X/" occurs before
      the first '('; none when there is no '('. */
  lemma TimeFormatLevel(line: string)
    requires |line| > 0
    ensures var r := LevelIndex("time", line); var end := IndexOfChar(line, '(');
      (r >= 0 ==> (end >= 0 && MarkedBefore(line, end, '/', r)
                   && forall j :: 0 <= j < r ==> !MarkedBefore(line, end, '/', j)))
      && (r == -1 ==> '(' !in line || forall j :: 0 <= j < |LevelChars| ==> !MarkedBefore(line, end, '/', j))
  {
    var end := IndexOfChar(line, '(');
    FirstMarkedSpec(line, end, '/');
  }

  /** "threadtime": the same rule with " X " before the first ": ". */
  lemma ThreadtimeFormatLevel(line: string)
    requires |line| > 0
    ensures var r := LevelIndex("threadtime", line); var end := IndexOf(line, ": ");
      (r >= 0 ==> (end >= 0 && MarkedBefore(line, end, ' ', r)
                   && forall j :: 0 <= j < r ==> !MarkedBefore(line, end, ' ', j)))
      && (r == -1 ==> end == -1 || forall j :: 0 <= j < |LevelChars| ==> !MarkedBefore(line, end, ' ', j))
  {
    var end := IndexOf(line, ": ");
    FirstMarkedSpec(line, end, ' ');
  }

  /** Any other format: the level whose letter is the line's first character. */
  lemma OtherFormatLevel(format: string, line: string)
    requires |line| > 0 && format != "time" && format != "threadtime"
    ensures var r := LevelIndex(format, line);
      (r >= 0 ==> LevelChars[r] == line[0]) && (r == -1 <==> line[0] !in LevelChars)
  {
  }

  // ------------------------------------------------------------ forwarding

  /** The strings that mark the console's own output: its pid in a thread-id
      position, and its tag. */
  function Skip(pid: int): seq<string>
  {
    [" " + IntToString(pid) + ")", "(" + IntToString(pid) + ")", "LiveBoot"]
  }

  predicate Skipped(line: string, skip: seq<string>)
  {
    exists k :: 0 <= k < |skip| && Contains(line, skip[k])
  }

  /** processLine: the delivery made for one line, if any. */
  function LineDelivery(levels: seq<bool>, format: string, skip: seq<string>, line: string): Option<Delivery>
    requires |levels| == |LevelChars|
  {
    if |line| == 0 then None
    else
      var index := LevelIndex(format, line);
      if index > -1 && levels[index] && !Skipped(line, skip) then Some(Delivery(line, LevelColors[index]))
      else None
  }

  /** A line is forwarded unchanged, in its level's colour, exactly when it is
      non-empty, has a level, that level is enabled and no skip string occurs in it. */
  lemma ProcessLineForwards(levels: seq<bool>, format: string, skip: seq<string>, line: string)
    requires |levels| == |LevelChars|
    ensures LineDelivery(levels, format, skip, line).Some? <==>
      |line| > 0 && LevelIndex(format, line) >= 0 && levels[LevelIndex(format, line)]
      && forall k :: 0 <= k < |skip| ==> !Contains(line, skip[k])
    ensures LineDelivery(levels, format, skip, line).Some? ==>
      LineDelivery(levels, format, skip, line).value == Delivery(line, LevelColors[LevelIndex(format, line)])
  {
  }

  /** The console never echoes a line carrying its own pid as thread id. */
  lemma OwnLinesDropped(levels: seq<bool>, format: string, pid: int, a: string, b: string)
    requires |levels| == |LevelChars|
    ensures LineDelivery(levels, format, Skip(pid), a + "(" + IntToString(pid) + ")" + b).None?
  {
    var line := a + "(" + IntToString(pid) + ")" + b;
    ContainsAt(line, a, "(" + IntToString(pid) + ")", b);
    assert Contains(line, Skip(pid)[1]);
  }

  // ------------------------------------------------------------ the reader

  /** Lines carrying these are the root shell's and the console's own chatter. */
  predicate IsOwnChatter(line: string)
  {
    Contains(line, "libsuperuser") || Contains(line, "SuperSU") || Contains(line, "LiveBoot")
  }

  class Reader {
    const levels: seq<bool>
    const buffers: seq<bool>
    const format: string
    const command: string
    const cacheSize: int
    const skip: seq<string>
    /** processLine's decision for one line, fixed by the options above. */
    const classify: string -> Option<Delivery>

    var lineLast: int
    var passthrough: bool
    var cache: seq<string>
    var ready: bool

    /** Every stdout line as handed to the listener's onLog. */
    var logged: seq<string>
    /** Every line handed to the listener's onLine, with its colour. */
    var delivered: seq<Delivery>

    ghost predicate Valid()
      reads this
    {
      |levels| == |LevelChars| && |buffers| == |BufferChars|
      && RateControl.Consistent(State(), cacheSize)
    }

    function State(): RateControl.Ingest
      reads this
    {
      RateControl.Ingest(lineLast, passthrough, cache)
    }

    /** present[i]: whether /dev/log/BUFFER_NAMES[i] exists. */
    constructor (pid: int, cacheSize: int, levelOption: Option<string>, bufferOption: Option<string>,
                 formatOption: Option<string>, present: seq<bool>)
      requires |present| == |BufferNames|
      ensures Valid()
      ensures levels == OptionFlags(levelOption, LevelChars)
      ensures buffers == OptionFlags(bufferOption, BufferChars)
      ensures format == FormatOrBrief(formatOption)
      ensures command == Command(levels, buffers, format, present)
      ensures skip == Skip(pid) && this.cacheSize == cacheSize
      ensures forall line :: classify(line) == LineDelivery(levels, format, skip, line)
      ensures State() == RateControl.Initial && !ready && logged == [] && delivered == []
    {
      levels := OptionFlags(levelOption, LevelChars);
      buffers := OptionFlags(bufferOption, BufferChars);
      format := FormatOrBrief(formatOption);
      command := Command(OptionFlags(levelOption, LevelChars), OptionFlags(bufferOption, BufferChars),
                         FormatOrBrief(formatOption), present);
      skip := Skip(pid);
      var lv, fm, sk := OptionFlags(levelOption, LevelChars), FormatOrBrief(formatOption), Skip(pid);
      classify := line => LineDelivery(lv, fm, sk, line);
      this.cacheSize := cacheSize;
      lineLast, passthrough, cache, ready := 0, false, [], false;
      logged, delivered := [], [];
    }

    method ProcessLine(line: string)
      modifies this`delivered
      ensures delivered == old(delivered) + RateControl.Outputs(classify, [line])
    {
      assert [line][..0] == [];
      var d := classify(line);
      if d.Some? {
        delivered := delivered + [d.value];
      }
    }

    method ProcessCache()
      modifies this`delivered, this`cache
      ensures delivered == old(delivered) + RateControl.Outputs(classify, old(cache))
      ensures cache == []
    {
      var i := 0;
      while i < |cache|
        invariant 0 <= i <= |cache| && cache == old(cache)
        invariant delivered == old(delivered) + RateControl.Outputs(classify, cache[..i])
      {
        assert cache[..i + 1][..i] == cache[..i];
        ProcessLine(cache[i]);
        RateControl.OutputsAppend(classify, cache[..i], [cache[i]]);
        assert cache[..i] + [cache[i]] == cache[..i + 1];
        i := i + 1;
      }
      assert cache[..i] == cache;
      cache := [];
    }

    /** The stdout callback; now is SystemClock.uptimeMillis() at the time. */
    method OnStdoutLine(line: string, now: int)
      requires Valid()
      modifies this
      ensures Valid()
      ensures logged == old(logged) + [line] && ready == old(ready)
      ensures IsOwnChatter(line) ==> State() == old(State()) && delivered == old(delivered)
      ensures !IsOwnChatter(line) ==>
        var r := RateControl.Step(old(State()), ready, cacheSize, line, now);
        State() == r.next && delivered == old(delivered) + RateControl.Outputs(classify, r.handed)
    {
      logged := logged + [line];
      if Contains(line, "libsuperuser") { return; }
      if Contains(line, "SuperSU") { return; }
      if Contains(line, "LiveBoot") { return; }
      Admit(line, now);
    }

    /** The locked part of the callback: the passthrough test, then processing or
        caching the line. */
    method Admit(line: string, now: int)
      requires Valid()
      modifies this`lineLast, this`passthrough, this`cache, this`delivered
      ensures Valid()
      ensures var r := RateControl.Step(old(State()), ready, cacheSize, line, now);
        State() == r.next && delivered == old(delivered) + RateControl.Outputs(classify, r.handed)
    {
      RateControl.StepConsistent(State(), ready, cacheSize, line, now);
      ghost var before := cache;
      var didFlush := Gate(now);
      if passthrough {
        ghost var flushed := if didFlush then before else [];
        ProcessLine(line);
        RateControl.OutputsAppend(classify, flushed, [line]);
      } else {
        CacheLine(line);
      }
    }

    /** The else branch of the callback: the cache keeps the newest lines.
        LinkedList.pop() throws on the empty cache; the callback catches it. */
    method CacheLine(line: string)
      modifies this`cache
      ensures cache == RateControl.CachePush(old(cache), cacheSize, line)
    {
      if |cache| >= cacheSize {
        if |cache| == 0 {
          return;
        }
        cache := cache[1..];
      }
      cache := cache + [line];
    }

    /** The passthrough test at the top of the callback (processCache included);
        flushed tells whether it ran. */
    method Gate(now: int) returns (flushed: bool)
      modifies this`lineLast, this`passthrough, this`cache, this`delivered
      ensures var g := RateControl.Gate(old(lineLast), old(passthrough), ready, now);
        lineLast == g.lineLast && passthrough == g.passthrough && flushed == g.flush
        && cache == (if g.flush then [] else old(cache))
        && delivered == old(delivered) + (if g.flush then RateControl.Outputs(classify, old(cache)) else [])
    {
      flushed := false;
      if !passthrough {
        if lineLast > 0 && now - lineLast > RateControl.BurstGap {
          if ready {
            passthrough := true;
            ProcessCache();
            flushed := true;
          }
          lineLast := RateControl.Sentinel;
        } else {
          lineLast := now;
        }
      }
    }

    method SetReady()
      requires Valid()
      modifies this
      ensures Valid() && ready
      ensures State() == RateControl.Flush(old(State())).next
      ensures delivered == old(delivered) + RateControl.Outputs(classify, RateControl.Flush(old(State())).handed)
      ensures logged == old(logged)
    {
      ready := true;
      ProcessCache();
    }
  }
}
