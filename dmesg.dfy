// shell/Dmesg.java: the kernel log ingestor.  The constructor reads the
// "min-max" level range; the stdout callback runs the same rate controller as
// Logcat (module RateControl) and hands lines to processLine, which accepts both
// the /proc/kmsg form ("<level>text") and the /dev/kmsg form
// ("level,seq,time,...;text"), the latter rewritten as "<level>[sec.micros] text".
// processLine can throw (a /dev/kmsg time field shorter than six characters);
// the model carries that exception explicitly.

module Dmesg {
  import opened JavaText
  import AndroidColor
  import RateControl

  /** Every kernel line is shown in white. */
  const LineColor: nat := AndroidColor.White

  const DefaultMin: int := 0
  const DefaultMax: int := 99

  /** The constructor's show option: "min-max" with both ends parsing as ints.
      Anything else that holds a '-' falls back to 0-99 (the catch block), and
      no '-' at all leaves the defaults. */
  function ParseShow(show: Option<string>): (range: (int, int))
    ensures range == (DefaultMin, DefaultMax) || (show.Some? && '-' in show.value)
    ensures range.0 >= 0
  {
    if show.None? then (DefaultMin, DefaultMax)
    else
      var p := IndexOfChar(show.value, '-');
      if p == -1 then (DefaultMin, DefaultMax)
      else
        match (ParseInt(show.value[..p]), ParseInt(show.value[p + 1..]))
        case (Some(lo), Some(hi)) =>
          ParseMinNonNegative(show.value[..p]);
          (lo, hi)
        case _ => (DefaultMin, DefaultMax)
  }

  /** The text before the first '-' holds no '-', so its value is never negative. */
  lemma ParseMinNonNegative(s: string)
    requires '-' !in s
    ensures ParseInt(s).Some? ==> ParseInt(s).value >= 0
  {
    if |s| > 0 {
      assert s[0] != '-';
    }
  }

  /** Both ends written as decimal numbers come back unchanged. */
  lemma ParseShowRange(lo: int, hi: int)
    requires 0 <= lo <= IntMax && IsInt32(hi)
    ensures ParseShow(Some(IntToString(lo) + "-" + IntToString(hi))) == (lo, hi)
  {
    var a := IntToString(lo);
    var b := IntToString(hi);
    var s := a + "-" + b;
    NoDigitIsSign(a);
    IndexOfCharAfter(a, '-', b);
    assert s[..|a|] == a && s[|a| + 1..] == b;
    ParseIntToString(lo);
    ParseIntToString(hi);
  }

  /** The "0--1" range the installer uses to switch the kernel log off. */
  lemma OffRange()
    ensures ParseShow(Some("0--1")) == (0, -1)
  {
    ParseShowRange(0, -1);
    assert IntToString(0) + "-" + IntToString(-1) == "0--1";
  }

  // --------------------------------------------------------- processLine

  /** What processLine does with one line. */
  datatype Fate = Dropped | Forward(text: string) | Thrown

  /** The /dev/kmsg rewrite: the time field in microseconds split before its
      last six digits. */
  function KmsgText(level: int, time: string, content: string): string
    requires |time| >= 6
  {
    "<" + IntToString(level) + ">[" + time[..|time| - 6] + "." + time[|time| - 6..] + "] " + content
  }

  function ProcessLine(showMin: int, showMax: int, line: string): Fate
  {
    if |line| == 0 then Dropped
    else if line[0] == '<' then
      // /proc/kmsg
      var p := IndexOfChar(line, '>');
      if p == -1 then Dropped
      else
        var level := ParseIntOr(line[1..p], -1);
        if showMin <= level <= showMax then Forward(line) else Dropped
    else
      // /dev/kmsg
      var p := IndexOfChar(line, ';');
      if p == -1 then Dropped
      else
        var content := line[p + 1..];
        var flags := JavaSplit(line, ',');
        if |flags| < 3 then Dropped
        else
          match ParseInt(flags[0])
          case None => Dropped
          case Some(level) =>
            if !(showMin <= level <= showMax) then Dropped
            else if |flags[2]| < 6 then Thrown
            else Forward(KmsgText(level, flags[2], content))
  }

  function Forwarded(f: Fate): Option<string>
  {
    if f.Forward? then Some(f.text) else None
  }

  /** A /proc/kmsg line is shown unchanged exactly when its level lies in the range;
      a level that does not parse counts as -1. */
  lemma ProcKmsgLine(showMin: int, showMax: int, level: string, rest: string)
    requires '>' !in level
    ensures var line := "<" + level + ">" + rest;
      var l := ParseIntOr(level, -1);
      ProcessLine(showMin, showMax, line) == if showMin <= l <= showMax then Forward(line) else Dropped
  {
    var line := "<" + level + ">" + rest;
    IndexOfCharAfter("<" + level, '>', rest);
    assert line[1..|level| + 1] == level;
  }

  /** With any range the constructor can produce, a /proc/kmsg line whose level
      does not parse is never shown. */
  lemma UnparsedProcLevelHidden(show: Option<string>, level: string, rest: string)
    requires '>' !in level && ParseInt(level).None?
    ensures ProcessLine(ParseShow(show).0, ParseShow(show).1, "<" + level + ">" + rest) == Dropped
  {
    ProcKmsgLine(ParseShow(show).0, ParseShow(show).1, level, rest);
  }

  /** A /dev/kmsg record "level,seq,time,flags;text" in range is rewritten as
      "<level>[seconds.micros] text", the content kept whole even when it holds
      commas; a time field shorter than six characters makes processLine throw
      (String.substring with a negative index). */
  lemma DevKmsgLine(showMin: int, showMax: int, level: int, sequence: string, time: string,
                    flag: string, content: string)
    requires 0 <= level <= IntMax && showMin <= level <= showMax
    requires AllDigits(sequence) && AllDigits(time) && |time| > 0
    requires ';' !in flag && ',' !in flag
    ensures ProcessLine(showMin, showMax,
                        IntToString(level) + "," + sequence + "," + time + "," + flag + ";" + content)
            == if |time| >= 6 then Forward(KmsgText(level, time, content)) else Thrown
  {
    var lv := IntToString(level);
    NoDigitIsSign(lv);
    NoDigitIsSign(sequence);
    NoDigitIsSign(time);
    var head := lv + "," + sequence + "," + time + "," + flag;
    var line := head + ";" + content;
    assert line == IntToString(level) + "," + sequence + "," + time + "," + flag + ";" + content;
    assert line[0] == lv[0];
    HeaderContent(head, content);
    assert line == lv + [','] + (sequence + [','] + (time + [','] + (flag + ";" + content)));
    HeaderFields(lv, sequence, time, flag + ";" + content);
    ParseIntToString(level);
    KmsgBranch(showMin, showMax, line, level, time, content);
  }

  /** The /dev/kmsg branch once its pieces are known. */
  lemma KmsgBranch(showMin: int, showMax: int, line: string, level: int, time: string, content: string)
    requires |line| > 0 && line[0] != '<'
    requires 0 <= IndexOfChar(line, ';') && line[IndexOfChar(line, ';') + 1..] == content
    requires var flags := JavaSplit(line, ',');
      |flags| >= 3 && ParseInt(flags[0]) == Some(level) && flags[2] == time
    requires showMin <= level <= showMax
    ensures ProcessLine(showMin, showMax, line)
            == if |time| >= 6 then Forward(KmsgText(level, time, content)) else Thrown
  {
  }

  /** The content is whatever follows the first ';'. */
  lemma HeaderContent(head: string, content: string)
    requires ';' !in head
    ensures var line := head + ";" + content;
      IndexOfChar(line, ';') == |head| && line[|head| + 1..] == content
  {
    IndexOfCharAfter(head, ';', content);
    var line := head + ";" + content;
    assert line == head + [';'] + content;
  }

  /** The first three comma-separated fields of "a,b,t,tail". */
  lemma HeaderFields(a: string, b: string, t: string, tail: string)
    requires ',' !in a && ',' !in b && ',' !in t && t != ""
    ensures var flags := JavaSplit(a + [','] + (b + [','] + (t + [','] + tail)), ',');
      |flags| >= 3 && flags[0] == a && flags[2] == t
  {
    var line := a + [','] + (b + [','] + (t + [','] + tail));
    var fields := SplitAll(line, ',');
    FirstFields(a, b, t, tail);
    DropTrailingEmptyKeeps(fields, 2);
    assert |line| > 0;
  }

  lemma FirstFields(a: string, b: string, t: string, tail: string)
    requires ',' !in a && ',' !in b && ',' !in t
    ensures var fields := SplitAll(a + [','] + (b + [','] + (t + [','] + tail)), ',');
      |fields| >= 3 && fields[0] == a && fields[1] == b && fields[2] == t
  {
    var r3 := t + [','] + tail;
    var r2 := b + [','] + r3;
    SplitAllAfter(t, ',', tail);
    SplitAllAfter(b, ',', r3);
    SplitAllAfter(a, ',', r2);
  }

  /** With the range min > max nothing is ever shown, and an empty line is never
      shown whatever the range. */
  lemma NothingShownWhenOff(showMin: int, showMax: int, line: string)
    requires showMin > showMax || |line| == 0
    ensures ProcessLine(showMin, showMax, line) == Dropped
  {
  }

  // ----------------------------------------------------------- the cache

  /** The position of the first line that throws, or |lines|. */
  function ThrowIndex(throws: string -> bool, lines: seq<string>): (k: nat)
    ensures k <= |lines|
    ensures forall j :: 0 <= j < k ==> !throws(lines[j])
    ensures k < |lines| ==> throws(lines[k])
  {
    if |lines| == 0 then 0
    else if throws(lines[0]) then 0
    else 1 + ThrowIndex(throws, lines[1..])
  }

  /** One stdout line: the rate controller's step, except that a flush whose
      processCache throws leaves passthrough set, the cache and the last-line
      time untouched, and drops the line. */
  function Step(throws: string -> bool, st: RateControl.Ingest, ready: bool, cacheSize: int, line: string,
                now: int): RateControl.StepResult
  {
    var g := RateControl.Gate(st.lineLast, st.passthrough, ready, now);
    var k := ThrowIndex(throws, st.cache);
    if g.flush && k < |st.cache| then RateControl.StepResult(st.(passthrough := true), st.cache[..k])
    else RateControl.Step(st, ready, cacheSize, line, now)
  }

  /** setReady: processCache, which clears the cache only when no line threw. */
  function Flush(throws: string -> bool, st: RateControl.Ingest): RateControl.StepResult
  {
    var k := ThrowIndex(throws, st.cache);
    if k < |st.cache| then RateControl.StepResult(st, st.cache[..k])
    else RateControl.Flush(st)
  }

  /** The cache stays within its size, and once passthrough is on it is empty
      unless a flush threw on one of its lines. */
  predicate Settled(throws: string -> bool, st: RateControl.Ingest, cacheSize: int)
  {
    (if cacheSize >= 1 then |st.cache| <= cacheSize else st.cache == [])
    && (st.passthrough && st.cache != [] ==> ThrowIndex(throws, st.cache) < |st.cache|)
  }

  lemma StepSettled(throws: string -> bool, st: RateControl.Ingest, ready: bool, cacheSize: int,
                    line: string, now: int)
    requires Settled(throws, st, cacheSize)
    ensures Settled(throws, Step(throws, st, ready, cacheSize, line, now).next, cacheSize)
  {
    var g := RateControl.Gate(st.lineLast, st.passthrough, ready, now);
    if !g.passthrough && cacheSize >= 1 {
      RateControl.CachePushBounded(st.cache, cacheSize, line);
    }
  }

  lemma FlushSettled(throws: string -> bool, st: RateControl.Ingest, cacheSize: int)
    requires Settled(throws, st, cacheSize)
    ensures Settled(throws, Flush(throws, st).next, cacheSize)
  {
  }

  /** Step by the four ways the callback can go. */
  lemma StepCases(throws: string -> bool, st: RateControl.Ingest, ready: bool, cacheSize: int,
                  line: string, now: int)
    ensures var g := RateControl.Gate(st.lineLast, st.passthrough, ready, now);
      var r := Step(throws, st, ready, cacheSize, line, now);
      var k := ThrowIndex(throws, st.cache);
      if g.flush && k < |st.cache| then
        r.next == st.(passthrough := true) && r.handed == st.cache[..k]
      else if g.flush then
        r.next == RateControl.Ingest(RateControl.Sentinel, true, []) && r.handed == st.cache + [line]
      else if g.passthrough then
        r.next == RateControl.Ingest(g.lineLast, true, st.cache) && r.handed == [line]
      else
        r.next == RateControl.Ingest(g.lineLast, false, RateControl.CachePush(st.cache, cacheSize, line))
        && r.handed == []
  {
  }

  /** Once a flush has thrown, the stuck cache is never shown by later lines:
      each later line is processed directly and the state stays as it is. */
  lemma StuckCacheStays(throws: string -> bool, st: RateControl.Ingest, ready: bool, cacheSize: int,
                        line: string, now: int)
    requires st.passthrough
    ensures Step(throws, st, ready, cacheSize, line, now) == RateControl.StepResult(st, [line])
  {
  }

  /** A flush that throws shows exactly the lines before the bad one, and the
      line that triggered it is lost. */
  lemma ThrowingFlush(throws: string -> bool, st: RateControl.Ingest, cacheSize: int, line: string,
                      now: int)
    requires !st.passthrough && st.lineLast > 0 && now - st.lineLast > RateControl.BurstGap
    requires ThrowIndex(throws, st.cache) < |st.cache|
    ensures var r := Step(throws, st, true, cacheSize, line, now);
      r.next == RateControl.Ingest(st.lineLast, true, st.cache)
      && r.handed == st.cache[..ThrowIndex(throws, st.cache)]
  {
  }

  // ------------------------------------------------------------ the reader

  class Reader {
    const showMin: int
    const showMax: int
    const cacheSize: int
    /** processLine's decision for one line, fixed by the range above: the text
        shown, and whether it throws. */
    const classify: string -> Option<string>
    const throws: string -> bool

    var lineLast: int
    var passthrough: bool
    var cache: seq<string>
    var ready: bool

    /** Every stdout line as handed to the listener's onLog. */
    var logged: seq<string>
    /** Every line handed to the listener's onLine (all in LineColor). */
    var delivered: seq<string>

    ghost predicate Valid()
      reads this
    {
      Settled(throws, State(), cacheSize)
    }

    function State(): RateControl.Ingest
      reads this
    {
      RateControl.Ingest(lineLast, passthrough, cache)
    }

    constructor (cacheSize: int, show: Option<string>)
      ensures Valid()
      ensures (showMin, showMax) == ParseShow(show) && this.cacheSize == cacheSize
      ensures forall line :: classify(line) == Forwarded(ProcessLine(showMin, showMax, line))
      ensures forall line :: throws(line) == ProcessLine(showMin, showMax, line).Thrown?
      ensures State() == RateControl.Initial && !ready && logged == [] && delivered == []
    {
      var range := ParseShow(show);
      showMin, showMax := range.0, range.1;
      classify := line => Forwarded(ProcessLine(range.0, range.1, line));
      throws := line => ProcessLine(range.0, range.1, line).Thrown?;
      this.cacheSize := cacheSize;
      lineLast, passthrough, cache, ready := 0, false, [], false;
      logged, delivered := [], [];
    }

    /** processLine on one line; a throw shows nothing. */
    method ProcessOne(line: string) returns (ok: bool)
      modifies this`delivered
      ensures ok == !throws(line)
      ensures delivered == old(delivered) + RateControl.Outputs(classify, [line])
    {
      assert [line][..0] == [];
      ok := !throws(line);
      var d := classify(line);
      if d.Some? {
        delivered := delivered + [d.value];
      }
    }

    /** processCache: the loop stops at the first line that throws, before
        mCache.clear(). */
    method ProcessCache() returns (ok: bool)
      modifies this`delivered, this`cache
      ensures var k := ThrowIndex(throws, old(cache));
        ok == (k == |old(cache)|)
        && delivered == old(delivered) + RateControl.Outputs(classify, old(cache)[..k])
        && cache == (if ok then [] else old(cache))
    {
      var i := 0;
      while i < |cache|
        invariant 0 <= i <= |cache| && cache == old(cache)
        invariant forall j :: 0 <= j < i ==> !throws(cache[j])
        invariant delivered == old(delivered) + RateControl.Outputs(classify, cache[..i])
      {
        if throws(cache[i]) {
          // the exception leaves processCache; nothing of this line is shown
          assert ThrowIndex(throws, cache) == i by {
            ThrowIndexAt(throws, cache, i);
          }
          return false;
        }
        assert cache[..i + 1][..i] == cache[..i];
        var _ := ProcessOne(cache[i]);
        RateControl.OutputsAppend(classify, cache[..i], [cache[i]]);
        assert cache[..i] + [cache[i]] == cache[..i + 1];
        i := i + 1;
      }
      assert cache[..i] == cache;
      ThrowIndexNone(throws, cache);
      cache := [];
      ok := true;
    }

    /** The stdout callback; now is SystemClock.uptimeMillis() at the time. */
    method OnStdoutLine(line: string, now: int)
      requires Valid()
      modifies this
      ensures Valid()
      ensures logged == old(logged) + [line] && ready == old(ready)
      ensures var r := Step(throws, old(State()), ready, cacheSize, line, now);
        State() == r.next && delivered == old(delivered) + RateControl.Outputs(classify, r.handed)
    {
      logged := logged + [line];
      StepSettled(throws, State(), ready, cacheSize, line, now);
      Admit(line, now);
    }

    /** The locked part of the callback; an exception escaping it is caught and
        logged by the callback. */
    method Admit(line: string, now: int)
      modifies this`lineLast, this`passthrough, this`cache, this`delivered
      ensures var r := Step(throws, old(State()), ready, cacheSize, line, now);
        State() == r.next && delivered == old(delivered) + RateControl.Outputs(classify, r.handed)
    {
      StepCases(throws, State(), ready, cacheSize, line, now);
      ghost var r := Step(throws, State(), ready, cacheSize, line, now);
      ghost var before := cache;
      var flushed, ok := Gate(now);
      if !ok {
        assert State() == r.next;
        return;
      }
      if passthrough {
        var _ := ProcessOne(line);
        if flushed {
          RateControl.OutputsAppend(classify, before, [line]);
          assert delivered == old(delivered) + (RateControl.Outputs(classify, before)
                                                + RateControl.Outputs(classify, [line]));
        }
        assert State() == r.next;
      } else {
        assert delivered == old(delivered) + RateControl.Outputs(classify, []);
        CacheLine(line);
      }
    }

    /** Queue a line while not in passthrough: drop the oldest when full.  On an
        empty cache with a non-positive size LinkedList.pop() throws, the callback
        catches it, and the line is lost. */
    method CacheLine(line: string)
      modifies this`cache
      ensures cache == RateControl.CachePush(old(cache), cacheSize, line)
    {
      if |cache| >= cacheSize {
        if |cache| == 0 {
          return;
        }
        cache := cache[1..];
      }
      cache := cache + [line];
    }

    /** The passthrough test at the top of the callback (processCache included);
        flushed tells whether processCache ran and ok whether it returned. */
    method Gate(now: int) returns (flushed: bool, ok: bool)
      modifies this`lineLast, this`passthrough, this`cache, this`delivered
      ensures var g := RateControl.Gate(old(lineLast), old(passthrough), ready, now);
        var k := ThrowIndex(throws, old(cache));
        flushed == g.flush && ok == !(g.flush && k < |old(cache)|)
        && (ok ==> lineLast == g.lineLast && passthrough == g.passthrough
                   && cache == (if g.flush then [] else old(cache))
                   && delivered == old(delivered) + (if g.flush then RateControl.Outputs(classify, old(cache)) else []))
        && (!ok ==> lineLast == old(lineLast) && passthrough && cache == old(cache)
                    && delivered == old(delivered) + RateControl.Outputs(classify, old(cache)[..k]))
    {
      flushed, ok := false, true;
      if !passthrough {
        if lineLast > 0 && now - lineLast > RateControl.BurstGap {
          if ready {
            passthrough := true;
            flushed := true;
            ok := ProcessCache();
            if !ok {
              return;
            }
            assert old(cache)[..|old(cache)|] == old(cache);
          }
          lineLast := RateControl.Sentinel;
        } else {
          lineLast := now;
        }
      }
    }

    /** setReady; ok is false when processCache threw (the exception reaches the
        caller). */
    method SetReady() returns (ok: bool)
      requires Valid()
      modifies this
      ensures Valid() && ready
      ensures ok == (ThrowIndex(throws, old(cache)) == |old(cache)|)
      ensures State() == Flush(throws, old(State())).next
      ensures delivered == old(delivered) + RateControl.Outputs(classify, Flush(throws, old(State())).handed)
      ensures logged == old(logged)
    {
      FlushSettled(throws, State(), cacheSize);
      ready := true;
      ok := ProcessCache();
      if ok {
        assert old(cache)[..|old(cache)|] == old(cache);
      }
    }
  }

  lemma ThrowIndexAt(throws: string -> bool, lines: seq<string>, i: nat)
    requires i < |lines| && throws(lines[i]) && forall j :: 0 <= j < i ==> !throws(lines[j])
    ensures ThrowIndex(throws, lines) == i
  {
  }

  lemma ThrowIndexNone(throws: string -> bool, lines: seq<string>)
    requires forall j :: 0 <= j < |lines| ==> !throws(lines[j])
    ensures ThrowIndex(throws, lines) == |lines|
  {
  }
}
