// The launch parameters Installer.getLaunchScript writes into the boot script
// are read back by Runner.onInit once the surface host has dropped the package
// path (its one reserved argument).  Every setting survives the trip.

module LaunchRoundTrip {
  import opened JavaText
  import opened Runner
  import opened Installer

  /** Parsing a list extended by at most one argument. */
  lemma ParseThen(o: Options, prefix: seq<string>, tail: seq<string>)
    requires |tail| <= 1
    ensures Parse(o, prefix + tail) == if tail == [] then Parse(o, prefix) else ApplyArg(Parse(o, prefix), tail[0])
  {
    if tail == [] {
      assert prefix + tail == prefix;
    } else {
      assert (prefix + tail)[..|prefix|] == prefix;
    }
  }

  /** One more parameter after the package path: onInit applies it last. */
  lemma ParseNext(o: Options, params: seq<string>, tail: seq<string>)
    requires |params| >= 1 && |tail| <= 1
    ensures Parse(o, (params + tail)[1..])
      == if tail == [] then Parse(o, params[1..]) else ApplyArg(Parse(o, params[1..]), tail[0])
  {
    assert (params + tail)[1..] == params[1..] + tail;
    ParseThen(o, params[1..], tail);
  }

  /** What onInit makes of the launch parameters: every setting as stored, with
      lines parsed by Integer.valueOf (the default 80 when it does not parse),
      the dmesg range the installer chose, save only on boot, test only on a
      test run, and the fallback size left at zero. */
  lemma LaunchParamsRoundTrip(s: Settings, codePath: string, boot: bool)
    ensures Parse(Defaults, LaunchParams(s, codePath, boot)[1..])
      == Options(!boot, s.transparent, s.wordWrap, s.saveLogs && boot, s.dark, s.colors,
                 ParseIntOr(s.lines, 80), 0, 0, Some(s.levels), Some(s.buffers), Some(s.format),
                 Some(DmesgRange(s, boot)))
  {
    var p1 := [codePath] + [if boot then "boot" else "test"];
    var p2 := p1 + (if s.transparent then ["transparent"] else []);
    var p3 := p2 + (if s.dark then ["dark"] else []);
    var o3 := Defaults.(test := !boot, transparent := s.transparent, dark := s.dark);
    FlagsParsed(s, boot, p1, p2, p3);
    assert Parse(Defaults, p3[1..]) == o3;
    ValuesParsed(s, boot, p3, o3);
  }

  /** The mode word, then the transparent and dark flags. */
  lemma FlagsParsed(s: Settings, boot: bool, p1: seq<string>, p2: seq<string>, p3: seq<string>)
    requires |p1| == 2 && p1[1] == (if boot then "boot" else "test")
    requires p2 == p1 + (if s.transparent then ["transparent"] else [])
    requires p3 == p2 + (if s.dark then ["dark"] else [])
    ensures Parse(Defaults, p3[1..]) == Defaults.(test := !boot, transparent := s.transparent, dark := s.dark)
  {
    assert p1[1..] == [] + [p1[1]];
    ParseThen(Defaults, [], [p1[1]]);
    var o1 := Defaults.(test := !boot);
    assert Parse(Defaults, p1[1..]) == o1;
    ParseNext(Defaults, p1, if s.transparent then ["transparent"] else []);
    ParseNext(Defaults, p2, if s.dark then ["dark"] else []);
  }

  /** The values, the colour flag and the trailing flags, in getLaunchScript's order. */
  lemma ValuesParsed(s: Settings, boot: bool, p3: seq<string>, o3: Options)
    requires |p3| >= 1 && Parse(Defaults, p3[1..]) == o3 && o3.lines == 80 && o3.logcatColor
    requires !o3.wordWrap && !o3.save
    ensures var params := p3 + ["logcatlevels=" + s.levels] + ["logcatbuffers=" + s.buffers] + ["logcatformat=" + s.format]
                          + (if s.colors then [] else ["logcatnocolors"]) + ["dmesg=" + DmesgRange(s, boot)]
                          + ["lines=" + s.lines] + (if s.wordWrap then ["wordwrap"] else [])
                          + (if s.saveLogs && boot then ["save"] else []);
      Parse(Defaults, params[1..])
        == o3.(levels := Some(s.levels), buffers := Some(s.buffers), format := Some(s.format),
               logcatColor := s.colors, dmesg := Some(DmesgRange(s, boot)), lines := ParseIntOr(s.lines, 80),
               wordWrap := s.wordWrap, save := s.saveLogs && boot)
  {
    var p4 := p3 + ["logcatlevels=" + s.levels];
    ParseNext(Defaults, p3, ["logcatlevels=" + s.levels]);
    LevelsArg(o3, s.levels);
    var o4 := o3.(levels := Some(s.levels));
    var p5 := p4 + ["logcatbuffers=" + s.buffers];
    ParseNext(Defaults, p4, ["logcatbuffers=" + s.buffers]);
    BuffersArg(o4, s.buffers);
    var o5 := o4.(buffers := Some(s.buffers));
    var p6 := p5 + ["logcatformat=" + s.format];
    ParseNext(Defaults, p5, ["logcatformat=" + s.format]);
    FormatArg(o5, s.format);
    var o6 := o5.(format := Some(s.format));
    assert Parse(Defaults, p6[1..]) == o6;
    TailParsed(s, boot, p6, o6);
  }

  lemma TailParsed(s: Settings, boot: bool, p6: seq<string>, o6: Options)
    requires |p6| >= 1 && Parse(Defaults, p6[1..]) == o6 && o6.logcatColor && !o6.wordWrap && !o6.save
    ensures var params := p6 + (if s.colors then [] else ["logcatnocolors"]) + ["dmesg=" + DmesgRange(s, boot)]
                          + ["lines=" + s.lines] + (if s.wordWrap then ["wordwrap"] else [])
                          + (if s.saveLogs && boot then ["save"] else []);
      Parse(Defaults, params[1..])
        == o6.(logcatColor := s.colors, dmesg := Some(DmesgRange(s, boot)), lines := ParseIntOr(s.lines, o6.lines),
               wordWrap := s.wordWrap, save := s.saveLogs && boot)
  {
    var p7 := p6 + (if s.colors then [] else ["logcatnocolors"]);
    ParseNext(Defaults, p6, if s.colors then [] else ["logcatnocolors"]);
    var o7 := o6.(logcatColor := s.colors);
    assert Parse(Defaults, p7[1..]) == o7;
    var p8 := p7 + ["dmesg=" + DmesgRange(s, boot)];
    ParseNext(Defaults, p7, ["dmesg=" + DmesgRange(s, boot)]);
    DmesgArg(o7, DmesgRange(s, boot));
    var o8 := o7.(dmesg := Some(DmesgRange(s, boot)));
    var p9 := p8 + ["lines=" + s.lines];
    ParseNext(Defaults, p8, ["lines=" + s.lines]);
    LinesArg(o8, s.lines);
    var o9 := o8.(lines := ParseIntOr(s.lines, o6.lines));
    var p10 := p9 + (if s.wordWrap then ["wordwrap"] else []);
    ParseNext(Defaults, p9, if s.wordWrap then ["wordwrap"] else []);
    var o10 := o9.(wordWrap := s.wordWrap);
    assert Parse(Defaults, p10[1..]) == o10;
    ParseNext(Defaults, p10, if s.saveLogs && boot then ["save"] else []);
  }

  /** Each value argument sets its one option. */
  lemma LevelsArg(o: Options, value: string)
    ensures ApplyArg(o, "logcatlevels=" + value) == o.(levels := Some(value))
  {
    assert "logcatlevels=" == "logcatlevels" + "=";
    assert '=' !in "logcatlevels" && "logcatlevels" !in Flags;
    ValueAfterFirstEquals(o, "logcatlevels", value);
  }

  lemma BuffersArg(o: Options, value: string)
    ensures ApplyArg(o, "logcatbuffers=" + value) == o.(buffers := Some(value))
  {
    assert "logcatbuffers=" == "logcatbuffers" + "=";
    assert '=' !in "logcatbuffers" && "logcatbuffers" !in Flags;
    ValueAfterFirstEquals(o, "logcatbuffers", value);
  }

  lemma FormatArg(o: Options, value: string)
    ensures ApplyArg(o, "logcatformat=" + value) == o.(format := Some(value))
  {
    assert "logcatformat=" == "logcatformat" + "=";
    assert '=' !in "logcatformat" && "logcatformat" !in Flags;
    ValueAfterFirstEquals(o, "logcatformat", value);
  }

  lemma DmesgArg(o: Options, value: string)
    ensures ApplyArg(o, "dmesg=" + value) == o.(dmesg := Some(value))
  {
    assert "dmesg=" == "dmesg" + "=";
    assert '=' !in "dmesg" && "dmesg" !in Flags;
    ValueAfterFirstEquals(o, "dmesg", value);
  }

  lemma LinesArg(o: Options, value: string)
    ensures ApplyArg(o, "lines=" + value) == o.(lines := ParseIntOr(value, o.lines))
  {
    assert "lines=" == "lines" + "=";
    assert '=' !in "lines" && "lines" !in Flags;
    ValueAfterFirstEquals(o, "lines", value);
  }

  /** A lines setting written by the app (a decimal int) comes back as that number. */
  lemma LinesRoundTrip(s: Settings, codePath: string, boot: bool, n: int)
    requires IsInt32(n) && s.lines == IntToString(n)
    ensures Parse(Defaults, LaunchParams(s, codePath, boot)[1..]).lines == n
  {
    LaunchParamsRoundTrip(s, codePath, boot);
    ParseIntToString(n);
  }
}
