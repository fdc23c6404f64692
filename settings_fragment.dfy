// SettingsFragment.java: the start-up decision (is root granted, which su is
// this, where should the boot script go, does the app run as pro, is an
// install needed), the encoding of the logcat level and buffer selections into
// their stored strings, and the summaries shown for those strings.  What the
// root shell printed, the billing answers and installNeeded are parameters; the
// summary's resource strings are the parameter `descriptions` and the Display
// datatype.

module SettingsFragment {
  import opened JavaText
  import opened Installer
  import Logcat

  // ---------------------------------------------------------------- su detection

  /** SuperSU: the version string ends in ":SUPERSU" (null is not SuperSU). */
  predicate IsSuperSu(verString: Option<string>)
  {
    verString.Some? && EndsWith(verString.value, ":SUPERSU")
  }

  /** Integer.valueOf(verInt, 10), with 0 when it throws (null included). */
  function VersionNumber(verInt: Option<string>): (n: int)
    ensures verInt.Some? && ParseInt(verInt.value).Some? ==> n == ParseInt(verInt.value).value
    ensures verInt.None? || ParseInt(verInt.value).None? ==> n == 0
  {
    match verInt
    case None => 0
    case Some(s) => ParseIntOr(s, 0)
  }

  /** SuperSU 2.40 or later, which runs /system/su.d scripts itself. */
  predicate IsSuperSu240(verString: Option<string>, verInt: Option<string>)
  {
    IsSuperSu(verString) && verInt.Some? && VersionNumber(verInt) >= 240
  }

  // ---------------------------------------------------------------- directory scan

  /** What the `ls -ld` of the candidate script directories showed. */
  datatype Dirs = Dirs(initd: bool, susud: bool, sbinsud: bool, magiskadb: bool, magiskcore: bool, kernelsu: bool)

  /** The scan's outcome: each flag is a substring test over all lines; susud and
      sbinsud come from the same test. */
  function DirsOf(ls: Option<seq<string>>): (d: Dirs)
    ensures d.susud == d.sbinsud
    ensures ls.None? ==> d == Dirs(false, false, false, false, false, false)
  {
    match ls
    case None => Dirs(false, false, false, false, false, false)
    case Some(lines) =>
      Dirs(AnyLineContains(lines, "init.d"), AnyLineContains(lines, "su.d"), AnyLineContains(lines, "su.d"),
           AnyLineContains(lines, "/adb/post-fs-data.d"), AnyLineContains(lines, "/.core/post-fs-data.d"),
           AnyLineContains(lines, "/adb/ksud"))
  }

  /** One line of the scan. */
  function ScanLine(d: Dirs, line: string): Dirs
  {
    Dirs(d.initd || Contains(line, "init.d"), d.susud || Contains(line, "su.d"), d.sbinsud || Contains(line, "su.d"),
         d.magiskadb || Contains(line, "/adb/post-fs-data.d"), d.magiskcore || Contains(line, "/.core/post-fs-data.d"),
         d.kernelsu || Contains(line, "/adb/ksud"))
  }

  lemma AnyLineContainsSnoc(lines: seq<string>, line: string, m: string)
    ensures AnyLineContains(lines + [line], m) == (AnyLineContains(lines, m) || Contains(line, m))
  {
    var all := lines + [line];
    if AnyLineContains(lines, m) {
      var k :| 0 <= k < |lines| && Contains(lines[k], m);
      assert all[k] == lines[k];
    }
    if Contains(line, m) {
      assert all[|lines|] == line;
    }
    if AnyLineContains(all, m) {
      var k :| 0 <= k < |all| && Contains(all[k], m);
      if k < |lines| {
        assert all[k] == lines[k];
      }
    }
  }

  /** One more line of the listing updates the flags as ScanLine does. */
  lemma ScanStep(prefix: seq<string>, line: string)
    ensures DirsOf(Some(prefix + [line])) == ScanLine(DirsOf(Some(prefix)), line)
  {
    AnyLineContainsSnoc(prefix, line, "init.d");
    AnyLineContainsSnoc(prefix, line, "su.d");
    AnyLineContainsSnoc(prefix, line, "/adb/post-fs-data.d");
    AnyLineContainsSnoc(prefix, line, "/.core/post-fs-data.d");
    AnyLineContainsSnoc(prefix, line, "/adb/ksud");
  }

  /** The scan loop over the `ls` output (None when su printed nothing). */
  method ScanDirs(ls: Option<seq<string>>) returns (d: Dirs)
    ensures d == DirsOf(ls)
  {
    d := Dirs(false, false, false, false, false, false);
    if ls.Some? {
      var lines := ls.value;
      var i := 0;
      while i < |lines|
        invariant 0 <= i <= |lines|
        invariant d == DirsOf(Some(lines[..i]))
      {
        var line := lines[i];
        assert lines[..i + 1] == lines[..i] + [line];
        ScanStep(lines[..i], line);
        d := ScanLine(d, line);
        i := i + 1;
      }
      assert lines[..i] == lines;
    }
  }

  // ---------------------------------------------------------------- decisions

  /** The install mode: Magisk's /data/adb, then Magisk core, then SuperSU's
      /sbin and /su su.d, then init.d unless SuperSU 2.40 handles /system/su.d,
      then KernelSU; SU_D otherwise. */
  function ModeFor(superSu240: bool, d: Dirs): (mode: Mode)
    ensures d.magiskadb ==> mode == MagiskAdb
    ensures !d.magiskadb && d.magiskcore ==> mode == MagiskCore
    ensures !d.magiskadb && !d.magiskcore && d.sbinsud ==> mode == SbinSuD
    ensures mode == InitD <==> !d.magiskadb && !d.magiskcore && !d.sbinsud && !d.susud && !superSu240 && d.initd
    ensures mode == SuD <==> (!d.magiskadb && !d.magiskcore && !d.sbinsud && !d.susud
                              && (superSu240 || !d.initd) && !d.kernelsu)
  {
    if d.magiskadb then MagiskAdb
    else if d.magiskcore then MagiskCore
    else if d.sbinsud then SbinSuD
    else if d.susud then SuSuD
    else if !superSu240 && d.initd then InitD
    else if d.kernelsu then KernelSu
    else SuD
  }

  /** SU_SU_D is never chosen from a scan: the su.d test that would pick it has
      already picked SBIN_SU_D. */
  lemma SuSuDUnreachable(superSu240: bool, ls: Option<seq<string>>)
    ensures ModeFor(superSu240, DirsOf(ls)) != SuSuD
  {
  }

  /** The billing service's answers: none at all, or whether it connected, how
      many active orders getOrders(null, false) gave, and whether the two older
      pro apps are installed. */
  datatype Billing = NoService | Service(connected: bool, activeOrders: nat, liveDmesg: bool, liveLogcat: bool)

  /** proReal, and whether HAVE_PRO_CACHED is set to true on the way. */
  datatype ProState = ProState(proReal: bool, cacheSet: bool)

  function ProFor(billing: Billing, cached: bool): (p: ProState)
    ensures billing.NoService? ==> p == ProState(true, false)
    ensures billing.Service? ==>
      var found := (billing.connected && billing.activeOrders > 0) || billing.liveDmesg || billing.liveLogcat;
      p.cacheSet == found && (p.proReal <==> found || cached)
  {
    match billing
    case NoService => ProState(true, false)
    case Service(connected, orders, dmesg, logcat) =>
      var r1 := connected && orders > 0;
      var r2 := r1 || dmesg;
      var r3 := r2 || logcat;
      if !r3 then ProState(cached, false) else ProState(true, true)
  }

  /** doInBackground's outcome: the return code, and the mode, proReal and pro
      fields (left at their initial values on an early return). */
  datatype Startup = Startup(code: int, mode: Mode, proReal: bool, pro: bool, cacheSet: bool)

  /** Startup.doInBackground after installData: 1 without root, 2 for an old
      SuperSU with no init.d, 3 without SuperSU and without any other place for
      the script, 4 when an install is needed, 0 otherwise. */
  function StartupFor(suGranted: bool, verString: Option<string>, verInt: Option<string>, d: Dirs,
                      billing: Billing, cached: bool, freeload: bool, installNeeded: Mode -> bool): (r: Startup)
    ensures r.code == 1 <==> !suGranted
    ensures r.code == 2 <==> suGranted && IsSuperSu(verString) && !IsSuperSu240(verString, verInt) && !d.initd
    ensures r.code == 3 <==> suGranted && !IsSuperSu(verString) && !d.initd && !d.magiskcore && !d.magiskadb && !d.kernelsu
    ensures r.code in {1, 2, 3} ==> r == Startup(r.code, SuD, false, false, false)
    ensures r.code !in {1, 2, 3} ==>
      r.mode == ModeFor(IsSuperSu240(verString, verInt), d) && (r.code == 4 <==> installNeeded(r.mode))
      && r.proReal == ProFor(billing, cached).proReal && r.cacheSet == ProFor(billing, cached).cacheSet
      && (r.pro <==> r.proReal || freeload)
    ensures r.code in {0, 1, 2, 3, 4}
  {
    if !suGranted then Startup(1, SuD, false, false, false)
    else
      var superSu := IsSuperSu(verString);
      var superSu240 := IsSuperSu240(verString, verInt);
      if superSu && !superSu240 && !d.initd then Startup(2, SuD, false, false, false)
      else if !superSu && !d.initd && !d.magiskcore && !d.magiskadb && !d.kernelsu then Startup(3, SuD, false, false, false)
      else
        var mode := ModeFor(superSu240, d);
        var p := ProFor(billing, cached);
        var pro := p.proReal || freeload;
        Startup(if installNeeded(mode) then 4 else 0, mode, p.proReal, pro, p.cacheSet)
  }

  /** Without SuperSU 2.40 the script never goes to /system/su.d: either there
      is another place for it or start-up stops with 2 or 3. */
  lemma OnlyNewSuperSuUsesSystemSuD(suGranted: bool, verString: Option<string>, verInt: Option<string>, d: Dirs,
                                    billing: Billing, cached: bool, freeload: bool, installNeeded: Mode -> bool)
    requires !IsSuperSu240(verString, verInt)
    ensures var r := StartupFor(suGranted, verString, verInt, d, billing, cached, freeload, installNeeded);
      r.code in {0, 4} ==> r.mode != SuD
  {
  }

  // ---------------------------------------------------------------- selection encoding

  /** The characters of chars whose one-letter strings are selected, in chars'
      order: the StringBuilder loop of onPreferenceChange. */
  function Encoded(chars: string, selected: set<string>): (r: string)
    ensures |r| <= |chars|
  {
    if chars == [] then []
    else
      var c := chars[|chars| - 1];
      Encoded(chars[..|chars| - 1], selected) + (if [c] in selected then [c] else [])
  }

  /** onPreferenceChange: encode the chosen set. */
  method Encode(chars: string, selected: set<string>) returns (r: string)
    ensures r == Encoded(chars, selected)
  {
    r := "";
    var i := 0;
    while i < |chars|
      invariant 0 <= i <= |chars|
      invariant r == Encoded(chars[..i], selected)
    {
      assert chars[..i + 1][..i] == chars[..i];
      if [chars[i]] in selected {
        r := r + [chars[i]];
      }
      i := i + 1;
    }
    assert chars[..i] == chars;
  }

  predicate Distinct(s: string)
  {
    forall i, j :: 0 <= i < j < |s| ==> s[i] != s[j]
  }

  /** Each character of r comes strictly later in chars than the one before it. */
  predicate InOrderOf(r: string, chars: string)
  {
    (forall i :: 0 <= i < |r| ==> r[i] in chars)
    && forall i, j :: 0 <= i < j < |r| ==> IndexOfChar(chars, r[i]) < IndexOfChar(chars, r[j])
  }

  lemma IndexOfCharExtend(a: string, b: string, x: char)
    requires x in a
    ensures IndexOfChar(a + b, x) == IndexOfChar(a, x)
  {
    var r, r' := IndexOfChar(a, x), IndexOfChar(a + b, x);
    assert (a + b)[r] == x;
    forall j | 0 <= j < r
      ensures (a + b)[j] != x
    {
      assert (a + b)[j] == a[..r][j];
    }
    assert r' >= r;
    assert forall j :: 0 <= j < r' ==> (a + b)[..r'][j] == (a + b)[j];
  }

  /** The stored string lists only selected characters of chars, and each
      character of chars exactly when it is selected. */
  lemma {:induction false} EncodedMembers(chars: string, selected: set<string>, c: char)
    ensures c in Encoded(chars, selected) <==> c in chars && [c] in selected
    decreases |chars|
  {
    if chars != [] {
      var init, last := chars[..|chars| - 1], chars[|chars| - 1];
      EncodedMembers(init, selected, c);
      assert chars == init + [last];
    }
  }

  /** With distinct characters the stored string follows chars' order, so no
      character appears twice. */
  lemma {:induction false} EncodedInOrder(chars: string, selected: set<string>)
    requires Distinct(chars)
    ensures InOrderOf(Encoded(chars, selected), chars)
    decreases |chars|
  {
    if chars != [] {
      var init, last := chars[..|chars| - 1], chars[|chars| - 1];
      assert chars == init + [last];
      assert Distinct(init);
      EncodedInOrder(init, selected);
      var e := Encoded(init, selected);
      forall i | 0 <= i < |e|
        ensures e[i] in init && IndexOfChar(chars, e[i]) == IndexOfChar(init, e[i]) < |init|
      {
        IndexOfCharExtend(init, [last], e[i]);
      }
      if [last] in selected {
        forall k | 0 <= k < |init|
          ensures init[k] != last
        {
          assert chars[k] == init[k];
        }
        assert last !in init;
        IndexOfCharAfter(init, last, []);
        assert init + [last] + [] == chars;
        var r := e + [last];
        forall i, j | 0 <= i < j < |r|
          ensures IndexOfChar(chars, r[i]) < IndexOfChar(chars, r[j])
        {
          if j < |e| {
            assert r[i] == e[i] && r[j] == e[j];
          }
        }
      }
    }
  }

  /** So each character is stored at most once. */
  lemma EncodedDistinct(chars: string, selected: set<string>)
    requires Distinct(chars)
    ensures Distinct(Encoded(chars, selected))
  {
    EncodedInOrder(chars, selected);
  }

  /** Every character is selected exactly when the stored string is as long as chars. */
  lemma {:induction false} EncodedFull(chars: string, selected: set<string>)
    ensures |Encoded(chars, selected)| == |chars| <==> forall k :: 0 <= k < |chars| ==> [chars[k]] in selected
    decreases |chars|
  {
    if chars != [] {
      var init := chars[..|chars| - 1];
      EncodedFull(init, selected);
      if forall k :: 0 <= k < |init| ==> [init[k]] in selected {
        if [chars[|chars| - 1]] in selected {
          forall k | 0 <= k < |chars|
            ensures [chars[k]] in selected
          {
            if k < |init| {
              assert chars[k] == init[k];
            }
          }
        }
      } else {
        var k :| 0 <= k < |init| && [init[k]] !in selected;
        assert chars[k] == init[k];
      }
    }
  }

  /** The preference's selection read back from a stored string: a level is
      checked when the string contains its character. */
  function SelectedIn(chars: string, stored: string): (s: set<string>)
    ensures forall c :: [c] in s <==> c in chars && c in stored
  {
    set c | c in chars && c in stored :: [c]
  }

  /** Two selections that agree on chars encode alike. */
  lemma {:induction false} EncodedAgree(chars: string, s1: set<string>, s2: set<string>)
    requires forall k :: 0 <= k < |chars| ==> ([chars[k]] in s1 <==> [chars[k]] in s2)
    ensures Encoded(chars, s1) == Encoded(chars, s2)
    decreases |chars|
  {
    if chars != [] {
      var init := chars[..|chars| - 1];
      forall k | 0 <= k < |init|
        ensures [init[k]] in s1 <==> [init[k]] in s2
      {
        assert init[k] == chars[k];
      }
      EncodedAgree(init, s1, s2);
    }
  }

  /** Showing a stored selection and saving it unchanged stores the same string. */
  lemma EncodedRoundTrip(chars: string, selected: set<string>)
    ensures Encoded(chars, SelectedIn(chars, Encoded(chars, selected))) == Encoded(chars, selected)
  {
    var e := Encoded(chars, selected);
    forall k | 0 <= k < |chars|
      ensures [chars[k]] in SelectedIn(chars, e) <==> [chars[k]] in selected
    {
      EncodedMembers(chars, selected, chars[k]);
    }
    EncodedAgree(chars, SelectedIn(chars, e), selected);
  }

  /** The level and buffer letters are distinct. */
  lemma TablesDistinct()
    ensures Distinct(Logcat.LevelChars) && Distinct(Logcat.BufferChars)
  {
  }

  // ---------------------------------------------------------------- summaries

  /** What updatePrefs shows: the generic "none" or "all", or the list. */
  datatype Display = NoneText | AllText | ListText(text: string)

  /** The description of every character the stored string contains, each
      followed by ", ". */
  function Parts(chars: string, descriptions: seq<string>, values: string): string
    requires |descriptions| == |chars|
  {
    if chars == [] then ""
    else
      var n := |chars| - 1;
      Parts(chars[..n], descriptions[..n], values) + (if chars[n] in values then descriptions[n] + ", " else "")
  }

  /** The summary as updatePrefs computes it: `allLength` is the length it takes
      for "all" (7 in both the level and the buffer branch).  None when cutting
      ", " off an empty list throws. The exception escapes updatePrefs and
      createPreferenceHierarchy; every showPreferences call runs inside the try
      of onPostExecute, which logs it, so the preference screen is never set. */
  function SummaryOf(chars: string, descriptions: seq<string>, values: string, allLength: int): (d: Option<Display>)
    requires |descriptions| == |chars|
    ensures |values| == 0 ==> d == Some(NoneText)
    ensures |values| != 0 && |values| == allLength ==> d == Some(AllText)
  {
    if |values| == 0 then Some(NoneText)
    else if |values| == allLength then Some(AllText)
    else
      var parts := Parts(chars, descriptions, values);
      if |parts| < 2 then None else Some(ListText(parts[..|parts| - 2]))
  }

  /** The level summary as written. */
  function LevelSummary(descriptions: seq<string>, values: string): (d: Option<Display>)
    requires |descriptions| == |Logcat.LevelChars|
    ensures values == Logcat.LevelChars ==> d == Some(AllText)
  {
    SummaryOf(Logcat.LevelChars, descriptions, values, 7)
  }

  /** The buffer summary as written: the same test for 7 characters, of which
      there are only 5. */
  function BufferSummaryAsWritten(descriptions: seq<string>, values: string): (d: Option<Display>)
    requires |descriptions| == |Logcat.BufferChars|
  {
    SummaryOf(Logcat.BufferChars, descriptions, values, 7)
  }

  /** The buffer summary as evidently intended: "all" when every buffer is selected. */
  function BufferSummary(descriptions: seq<string>, values: string): (d: Option<Display>)
    requires |descriptions| == |Logcat.BufferChars|
  {
    SummaryOf(Logcat.BufferChars, descriptions, values, |Logcat.BufferChars|)
  }

  /** A description list is at least as long as the ", " after one match. */
  lemma {:induction false} PartsNonEmpty(chars: string, descriptions: seq<string>, values: string, k: nat)
    requires |descriptions| == |chars| && k < |chars| && chars[k] in values
    ensures |Parts(chars, descriptions, values)| >= 2
    decreases |chars|
  {
    var n := |chars| - 1;
    if k < n {
      assert chars[..n][k] == chars[k];
      PartsNonEmpty(chars[..n], descriptions[..n], values, k);
    }
  }

  /** As written: no stored buffer selection, all five included, shows "all". */
  lemma BufferSummaryNeverAll(descriptions: seq<string>, selected: set<string>)
    requires |descriptions| == |Logcat.BufferChars|
    ensures BufferSummaryAsWritten(descriptions, Encoded(Logcat.BufferChars, selected)) != Some(AllText)
  {
  }

  /** Corrected: the summary says "all" exactly when every buffer is selected,
      "none" exactly when none is, and never throws on a stored selection. */
  lemma BufferSummaryAll(descriptions: seq<string>, selected: set<string>)
    requires |descriptions| == |Logcat.BufferChars|
    ensures var chars := Logcat.BufferChars;
      var d := BufferSummary(descriptions, Encoded(chars, selected));
      d.Some? && (d == Some(AllText) <==> forall k :: 0 <= k < |chars| ==> [chars[k]] in selected)
  {
    var chars := Logcat.BufferChars;
    var e := Encoded(chars, selected);
    EncodedFull(chars, selected);
    if |e| > 0 {
      EncodedMembers(chars, selected, e[0]);
      var k :| 0 <= k < |chars| && chars[k] == e[0];
      PartsNonEmpty(chars, descriptions, e, k);
    }
  }

  /** The same holds for the level summary as written, whose 7 is right. */
  lemma LevelSummaryAll(descriptions: seq<string>, selected: set<string>)
    requires |descriptions| == |Logcat.LevelChars|
    ensures var chars := Logcat.LevelChars;
      var d := LevelSummary(descriptions, Encoded(chars, selected));
      d.Some? && (d == Some(AllText) <==> forall k :: 0 <= k < |chars| ==> [chars[k]] in selected)
  {
    var chars := Logcat.LevelChars;
    var e := Encoded(chars, selected);
    EncodedFull(chars, selected);
    if |e| > 0 {
      EncodedMembers(chars, selected, e[0]);
      var k :| 0 <= k < |chars| && chars[k] == e[0];
      PartsNonEmpty(chars, descriptions, e, k);
    }
  }

  /** The StringBuilder loop of updatePrefs, then the cut of the last ", ". */
  method Summarize(chars: string, descriptions: seq<string>, values: string, allLength: int)
    returns (d: Option<Display>)
    requires |descriptions| == |chars|
    ensures d == SummaryOf(chars, descriptions, values, allLength)
  {
    if |values| == 0 {
      return Some(NoneText);
    }
    if |values| == allLength {
      return Some(AllText);
    }
    var parts := "";
    var i := 0;
    while i < |chars|
      invariant 0 <= i <= |chars|
      invariant parts == Parts(chars[..i], descriptions[..i], values)
    {
      assert chars[..i + 1][..i] == chars[..i] && descriptions[..i + 1][..i] == descriptions[..i];
      if chars[i] in values {
        parts := parts + descriptions[i] + ", ";
      }
      i := i + 1;
    }
    assert chars[..i] == chars && descriptions[..i] == descriptions;
    if |parts| < 2 {
      return None;
    }
    d := Some(ListText(parts[..|parts| - 2]));
  }
}
