// libsuperuser Toolbox.java: prefixes a shell command with "toybox " when toybox
// (Android 6.0 and later) has the applet, and with "toolbox " otherwise.  The
// applet list is read once from toybox's own output.  The SDK level and that
// output are parameters; the format strings the core passes carry no conversions,
// so String.format returns them unchanged.

module Toolbox {
  import opened JavaText

  /** Toolbox.TOYBOX_SDK: the first SDK level with toybox. */
  const ToyboxSdk := 23

  /** init's list: " " and then every trimmed output line followed by " ". */
  function AppletList(output: seq<string>): (list: string)
    ensures |list| > 0 && list[0] == ' ' && list[|list| - 1] == ' '
  {
    if output == [] then " " else AppletList(output[..|output| - 1]) + Trim(output[|output| - 1]) + " "
  }

  /** What s contains, s followed by more still contains. */
  lemma ContainsAppend(s: string, t: string, x: string, y: string)
    requires Contains(s, t)
    ensures Contains(s + x + y, t)
  {
    var i := IndexOf(s, t);
    assert (s + x + y)[i..i + |t|] == s[i..i + |t|];
    assert OccursAt(s + x + y, t, i);
  }

  /** A list ending in a space, extended by x and a space, holds x between spaces. */
  lemma ContainsLast(before: string, x: string)
    requires |before| > 0 && before[|before| - 1] == ' '
    ensures Contains(before + x + " ", " " + x + " ")
  {
    var a := before[..|before| - 1];
    var m := " " + x + " ";
    assert before + x + " " == a + m + "";
    ContainsAt(before + x + " ", a, m, "");
  }

  /** Every trimmed output line stands in the list between two spaces. */
  lemma {:induction false} AppletListed(output: seq<string>, k: nat)
    requires k < |output|
    ensures Contains(AppletList(output), " " + Trim(output[k]) + " ")
    decreases |output|
  {
    var init := output[..|output| - 1];
    var last := Trim(output[|output| - 1]);
    assert AppletList(output) == AppletList(init) + last + " ";
    if k == |output| - 1 {
      ContainsLast(AppletList(init), last);
    } else {
      assert init[k] == output[k];
      AppletListed(init, k);
      ContainsAppend(AppletList(init), " " + Trim(output[k]) + " ", last, " ");
    }
  }

  /** command's applet: the trimmed format up to its first space. */
  function Applet(format: string): (applet: string)
    ensures var f := Trim(format);
      |applet| <= |f| && applet == f[..|applet|] && ' ' !in applet
      && (|applet| == |f| || f[|applet|] == ' ')
  {
    var f := Trim(format);
    var p := IndexOfChar(f, ' ');
    if p >= 0 then f[..p] else f
  }

  /** The command for a format once the list is known. */
  function CommandWith(sdk: int, list: string, format: string): (command: string)
    ensures sdk < ToyboxSdk ==> command == "toolbox " + format
    ensures sdk >= ToyboxSdk ==>
      command == (if Contains(list, " " + Applet(format) + " ") then "toybox " else "toolbox ") + Trim(format)
  {
    if sdk < ToyboxSdk then "toolbox " + format
    else if Contains(list, " " + Applet(format) + " ") then "toybox " + Trim(format)
    else "toolbox " + Trim(format)
  }

  /** An applet toybox reported is run through toybox. */
  lemma ReportedAppletUsesToybox(sdk: int, output: seq<string>, k: nat, format: string)
    requires sdk >= ToyboxSdk && k < |output| && Trim(output[k]) == Applet(format)
    ensures CommandWith(sdk, AppletList(output), format) == "toybox " + Trim(format)
  {
    AppletListed(output, k);
  }

  /** With the empty list (no toybox, or no output from it) every command goes
      through toolbox. */
  lemma EmptyListUsesToolbox(sdk: int, format: string)
    ensures CommandWith(sdk, "", format) == "toolbox " + (if sdk < ToyboxSdk then format else Trim(format))
  {
    var m := " " + Applet(format) + " ";
    assert !OccursAt("", m, IndexOf("", m));
  }

  /** The static toybox field: None until init ran. */
  class Tools {
    var toybox: Option<string>

    constructor ()
      ensures toybox == None
    {
      toybox := None;
    }

    /** init, given the SDK level and what running "toybox" printed (None when
        the shell gave nothing). */
    method Init(sdk: int, output: Option<seq<string>>)
      modifies this
      ensures old(toybox).Some? ==> toybox == old(toybox)
      ensures old(toybox).None? && sdk < ToyboxSdk ==> toybox == Some("")
      ensures old(toybox).None? && sdk >= ToyboxSdk ==>
        toybox == Some(if output.None? then "" else AppletList(output.value))
    {
      if toybox.Some? {
        return;
      }
      if sdk < ToyboxSdk {
        toybox := Some("");
      } else {
        var list := "";
        if output.Some? {
          var lines := output.value;
          list := " ";
          var i := 0;
          while i < |lines|
            invariant 0 <= i <= |lines|
            invariant list == AppletList(lines[..i])
          {
            assert lines[..i + 1][..i] == lines[..i];
            list := list + Trim(lines[i]) + " ";
            i := i + 1;
          }
          assert lines[..i] == lines;
        }
        toybox := Some(list);
      }
    }

    /** command(format): below toybox's SDK level the list is never consulted;
        otherwise init runs first if it has not. */
    method Command(sdk: int, output: Option<seq<string>>, format: string) returns (command: string)
      modifies this
      ensures sdk < ToyboxSdk ==> command == "toolbox " + format && toybox == old(toybox)
      ensures sdk >= ToyboxSdk ==> toybox.Some? && command == CommandWith(sdk, toybox.value, format)
      ensures sdk >= ToyboxSdk && old(toybox).Some? ==> toybox == old(toybox)
      ensures sdk >= ToyboxSdk && old(toybox).None? ==>
        toybox == Some(if output.None? then "" else AppletList(output.value))
    {
      if sdk < ToyboxSdk {
        return "toolbox " + format;
      }
      if toybox.None? {
        Init(sdk, output);
      }
      var f := Trim(format);
      var applet;
      var p := IndexOfChar(f, ' ');
      if p >= 0 {
        applet := f[..p];
      } else {
        applet := f;
      }
      if Contains(toybox.value, " " + applet + " ") {
        command := "toybox " + f;
      } else {
        command := "toolbox " + f;
      }
    }
  }
}
