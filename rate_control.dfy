// The start-up rate controller that Logcat and Dmesg share, line for line, in
// their stdout callbacks: while the console is not in passthrough, arriving lines
// go into a bounded FIFO cache; a pause of more than 16ms after a burst marks the
// burst as over (mLineLast becomes the sentinel 1), and once the owner has said it
// is ready such a pause switches passthrough on for good, after which every line
// is processed straight away.  The two classes differ only in how a line is
// processed, so the gate, the cache push and the order in which raw lines reach
// processLine are stated once here.

module RateControl {
  import opened JavaText

  /** A line more than this many milliseconds after the previous one ends a burst. */
  const BurstGap: int := 16

  /** mLineLast value meaning "a gap has already been seen". */
  const Sentinel: int := 1

  datatype GateStep = GateStep(lineLast: int, passthrough: bool, flush: bool)

  /** The passthrough test at the top of the stdout callback: the new mLineLast,
      the new mLinePassthrough and whether processCache runs now. */
  function Gate(lineLast: int, passthrough: bool, ready: bool, now: int): GateStep
  {
    if passthrough then GateStep(lineLast, true, false)
    else if lineLast > 0 && now - lineLast > BurstGap then
      GateStep(Sentinel, ready, ready)
    else GateStep(now, false, false)
  }

  /** `if (mCache.size() >= mCacheSize) mCache.pop(); mCache.add(line);`.  Popping an
      empty LinkedList throws and the line is lost, which happens only when the
      cache size is below 1. */
  function CachePush(cache: seq<string>, cacheSize: int, line: string): seq<string>
  {
    if |cache| >= cacheSize then
      (if |cache| == 0 then [] else cache[1..] + [line])
    else cache + [line]
  }

  /** What the rate controller keeps between lines. */
  datatype Ingest = Ingest(lineLast: int, passthrough: bool, cache: seq<string>)

  /** The state after one stdout line and the raw lines handed to processLine
      during that callback, in the order they are processed. */
  datatype StepResult = StepResult(next: Ingest, handed: seq<string>)

  const Initial: Ingest := Ingest(0, false, [])

  function Step(st: Ingest, ready: bool, cacheSize: int, line: string, now: int): StepResult
  {
    var g := Gate(st.lineLast, st.passthrough, ready, now);
    var flushed := if g.flush then st.cache else [];
    var kept := if g.flush then [] else st.cache;
    if g.passthrough then StepResult(Ingest(g.lineLast, true, kept), flushed + [line])
    else StepResult(Ingest(g.lineLast, false, CachePush(kept, cacheSize, line)), [])
  }

  /** setReady's processCache: every cached line is handed over and the cache is emptied. */
  function Flush(st: Ingest): StepResult
  {
    StepResult(st.(cache := []), st.cache)
  }

  /** The invariant both ingestors keep: in passthrough the cache is empty, and the
      cache never outgrows its size (a size below 1 keeps it empty). */
  predicate Consistent(st: Ingest, cacheSize: int)
  {
    (st.passthrough ==> st.cache == [])
    && (if cacheSize >= 1 then |st.cache| <= cacheSize else st.cache == [])
  }

  // ------------------------------------------------------------------ gate

  lemma PassthroughIsSticky(lineLast: int, ready: bool, now: int)
    ensures Gate(lineLast, true, ready, now) == GateStep(lineLast, true, false)
  {
  }

  /** A pause after a positive mLineLast sets the sentinel whether or not the
      owner is ready, and opens passthrough exactly when it is. */
  lemma GapSetsSentinel(lineLast: int, ready: bool, now: int)
    requires lineLast > 0 && now - lineLast > BurstGap
    ensures Gate(lineLast, false, ready, now).lineLast == Sentinel
    ensures Gate(lineLast, false, ready, now).passthrough == ready
  {
  }

  lemma NoGapRecordsNow(lineLast: int, ready: bool, now: int)
    requires !(lineLast > 0 && now - lineLast > BurstGap)
    ensures Gate(lineLast, false, ready, now) == GateStep(now, false, false)
  {
  }

  /** processCache runs exactly when passthrough switches on, and only if ready. */
  lemma FlushExactlyOnSwitch(lineLast: int, passthrough: bool, ready: bool, now: int)
    ensures var g := Gate(lineLast, passthrough, ready, now);
      g.flush <==> (!passthrough && g.passthrough)
    ensures var g := Gate(lineLast, passthrough, ready, now);
      (!passthrough && g.passthrough) ==> ready
  {
  }

  // ----------------------------------------------------------------- cache

  /** With a positive size the cache stays bounded, the new line is kept, and only
      the oldest line is ever dropped. */
  lemma CachePushBounded(cache: seq<string>, cacheSize: int, line: string)
    requires cacheSize >= 1 && |cache| <= cacheSize
    ensures var r := CachePush(cache, cacheSize, line);
      1 <= |r| <= cacheSize && r[|r| - 1] == line
      && r == (cache + [line])[|cache| + 1 - |r|..]
      && (|cache| < cacheSize ==> r == cache + [line])
  {
    var r := CachePush(cache, cacheSize, line);
    if |cache| == cacheSize {
      assert r == (cache + [line])[1..];
    } else {
      assert r == (cache + [line])[0..];
    }
  }

  // ------------------------------------------------------------------ step

  /** Step keeps the ingestor's invariant. */
  lemma StepConsistent(st: Ingest, ready: bool, cacheSize: int, line: string, now: int)
    requires Consistent(st, cacheSize)
    ensures Consistent(Step(st, ready, cacheSize, line, now).next, cacheSize)
  {
    var g := Gate(st.lineLast, st.passthrough, ready, now);
    if !g.passthrough && cacheSize >= 1 {
      CachePushBounded(st.cache, cacheSize, line);
    }
  }

  /** Step read off the gate: either the line is handed over (after the cache, if
      the gate flushed it) or it is pushed onto the cache. */
  lemma StepByGate(st: Ingest, ready: bool, cacheSize: int, line: string, now: int)
    requires Consistent(st, cacheSize)
    ensures var g := Gate(st.lineLast, st.passthrough, ready, now);
      var r := Step(st, ready, cacheSize, line, now);
      if g.passthrough then
        r.next == Ingest(g.lineLast, true, []) && r.handed == (if g.flush then st.cache else []) + [line]
      else
        !g.flush && r.next == Ingest(g.lineLast, false, CachePush(st.cache, cacheSize, line)) && r.handed == []
  {
  }

  /** When passthrough switches on, the cached lines are handed over in arrival
      order, then the triggering line, and the cache ends up empty. */
  lemma SwitchFlushesCacheFirst(st: Ingest, ready: bool, cacheSize: int, line: string, now: int)
    requires !st.passthrough && Step(st, ready, cacheSize, line, now).next.passthrough
    ensures Step(st, ready, cacheSize, line, now).handed == st.cache + [line]
    ensures Step(st, ready, cacheSize, line, now).next.cache == []
    ensures Step(st, ready, cacheSize, line, now).next.lineLast == Sentinel
    ensures ready
  {
  }

  /** In passthrough every line is handed over at once and nothing is cached. */
  lemma PassthroughHandsLine(st: Ingest, ready: bool, cacheSize: int, line: string, now: int)
    requires Consistent(st, cacheSize) && st.passthrough
    ensures Step(st, ready, cacheSize, line, now) == StepResult(st, [line])
  {
  }

  /** Feeding a sequence of lines; times[i] is the arrival time of lines[i]. */
  function Run(st: Ingest, ready: bool, cacheSize: int, lines: seq<string>, times: seq<int>): StepResult
    requires |lines| == |times|
    decreases |lines|
  {
    if |lines| == 0 then StepResult(st, [])
    else
      var r := Step(st, ready, cacheSize, lines[0], times[0]);
      var rest := Run(r.next, ready, cacheSize, lines[1..], times[1..]);
      StepResult(rest.next, r.handed + rest.handed)
  }

  /** The lines a bounded cache keeps from a stream: the last cacheSize of them. */
  function Newest(s: seq<string>, cacheSize: nat): (r: seq<string>)
    ensures |r| <= |s| && r == s[|s| - |r|..]
  {
    if |s| <= cacheSize then s else s[|s| - cacheSize..]
  }

  /** Times no two of which are more than 16ms apart. */
  predicate Steady(times: seq<int>)
  {
    forall i :: 0 < i < |times| ==> times[i] - times[i - 1] <= BurstGap
  }

  lemma BufferedStep(st: Ingest, ready: bool, cacheSize: int, line: string, now: int)
    requires cacheSize >= 1 && !st.passthrough && |st.cache| <= cacheSize
    requires !(st.lineLast > 0 && now - st.lineLast > BurstGap)
    ensures Step(st, ready, cacheSize, line, now)
         == StepResult(Ingest(now, false, Newest(st.cache + [line], cacheSize)), [])
    ensures |Newest(st.cache + [line], cacheSize)| <= cacheSize
  {
    assert Gate(st.lineLast, false, ready, now) == GateStep(now, false, false);
    var s := st.cache + [line];
    if |st.cache| == cacheSize {
      assert CachePush(st.cache, cacheSize, line) == st.cache[1..] + [line] == s[1..];
      assert Newest(s, cacheSize) == s[1..];
    } else {
      assert CachePush(st.cache, cacheSize, line) == s == Newest(s, cacheSize);
    }
  }

  /** Steady arrivals, no two more than 16ms apart, never open passthrough, ready
      or not: nothing is processed and mLineLast follows the latest arrival time. */
  lemma {:induction false} BurstStaysBuffered(st: Ingest, ready: bool, cacheSize: int,
                                              lines: seq<string>, times: seq<int>)
    requires |lines| == |times|
    requires cacheSize >= 1 && !st.passthrough && |st.cache| <= cacheSize
    requires |times| > 0 ==> !(st.lineLast > 0 && times[0] - st.lineLast > BurstGap)
    requires Steady(times)
    ensures var r := Run(st, ready, cacheSize, lines, times);
      !r.next.passthrough && r.handed == []
      && (|times| > 0 ==> r.next.lineLast == times[|times| - 1])
    decreases |lines|
  {
    if |lines| > 0 {
      var next := Ingest(times[0], false, Newest(st.cache + [lines[0]], cacheSize));
      BufferedStep(st, ready, cacheSize, lines[0], times[0]);
      SteadyTail(times);
      BurstStaysBuffered(next, ready, cacheSize, lines[1..], times[1..]);
    }
  }

  /** During such a burst the cache holds the newest cacheSize lines. */
  lemma {:induction false} BurstKeepsNewest(st: Ingest, ready: bool, cacheSize: int,
                                            lines: seq<string>, times: seq<int>)
    requires |lines| == |times|
    requires cacheSize >= 1 && !st.passthrough && |st.cache| <= cacheSize
    requires |times| > 0 ==> !(st.lineLast > 0 && times[0] - st.lineLast > BurstGap)
    requires Steady(times)
    ensures Run(st, ready, cacheSize, lines, times).next.cache == Newest(st.cache + lines, cacheSize)
    decreases |lines|
  {
    if |lines| > 0 {
      var next := Ingest(times[0], false, Newest(st.cache + [lines[0]], cacheSize));
      BufferedStep(st, ready, cacheSize, lines[0], times[0]);
      SteadyTail(times);
      BurstKeepsNewest(next, ready, cacheSize, lines[1..], times[1..]);
      NewestCons(st.cache, lines, cacheSize);
    }
  }

  lemma NewestCons(cache: seq<string>, lines: seq<string>, n: nat)
    requires |lines| > 0 && n >= 1
    ensures Newest(Newest(cache + [lines[0]], n) + lines[1..], n) == Newest(cache + lines, n)
  {
    assert lines == [lines[0]] + lines[1..];
    AppendAssoc(cache, [lines[0]], lines[1..]);
    NewestOfNewest(cache + [lines[0]], lines[1..], n);
  }

  lemma SteadyTail(times: seq<int>)
    requires |times| > 0 && Steady(times)
    ensures Steady(times[1..])
    ensures |times| > 1 ==> times[1] - times[0] <= BurstGap
  {
    var tail := times[1..];
    forall i | 0 < i < |tail| ensures tail[i] - tail[i - 1] <= BurstGap {
      assert tail[i] == times[i + 1] && tail[i - 1] == times[i];
    }
  }

  lemma AppendAssoc(a: seq<string>, b: seq<string>, c: seq<string>)
    ensures a + (b + c) == (a + b) + c
  {
  }

  lemma NewestOfNewest(a: seq<string>, b: seq<string>, n: nat)
    requires n >= 1
    ensures Newest(Newest(a, n) + b, n) == Newest(a + b, n)
  {
    var a1 := Newest(a, n);
    var k := |a| - |a1|;
    assert a == a[..k] + a1;
    assert a + b == a[..k] + (a1 + b);
  }

  /** After a gap has been seen (mLineLast = 1) passthrough waits for readiness:
      the first line that arrives while ready opens it and flushes the cache. */
  lemma SentinelOpensOnceReady(cache: seq<string>, cacheSize: int, line: string, now: int)
    requires now > Sentinel + BurstGap
    ensures Step(Ingest(Sentinel, false, cache), true, cacheSize, line, now)
         == StepResult(Ingest(Sentinel, true, []), cache + [line])
    ensures Step(Ingest(Sentinel, false, cache), false, cacheSize, line, now).next
         == Ingest(Sentinel, false, CachePush(cache, cacheSize, line))
  {
  }

  // --------------------------------------------------------------- outputs

  /** What processLine emits for a run of raw lines, in order, when it emits
      f(line) for each line (None: nothing). */
  function Outputs<T>(f: string -> Option<T>, lines: seq<string>): seq<T>
  {
    if |lines| == 0 then []
    else
      var last := f(lines[|lines| - 1]);
      Outputs(f, lines[..|lines| - 1]) + (if last.Some? then [last.value] else [])
  }

  lemma {:induction false} OutputsAppend<T>(f: string -> Option<T>, a: seq<string>, b: seq<string>)
    ensures Outputs(f, a + b) == Outputs(f, a) + Outputs(f, b)
    decreases |b|
  {
    if |b| > 0 {
      assert (a + b)[..|a + b| - 1] == a + b[..|b| - 1];
      OutputsAppend(f, a, b[..|b| - 1]);
    } else {
      assert a + b == a;
    }
  }
}
