// gl/GLTextManager.java: the scrolling console.  Text is cut into lines that fit
// the width (Paint.breakText decides how many characters fit; it is a parameter
// here), lines are kept oldest first up to the number that fits the height, and a
// line's bitmap goes back to a pool for reuse when the line is evicted.  Bitmaps
// and pictures are identified by number: a Line holds the numbers of its bitmap
// and picture, and the logs recycled and destroyed record Bitmap.recycle and
// GLPicture.destroy in the order they happen.

module TextManager {
  import opened JavaText
  import Picture
  import TextRenderer
  import TextureManager

  /** A console line and the bitmap and picture drawn for it, when made. */
  datatype Line = Line(text: string, color: int, bitmap: Option<nat>, picture: Option<nat>)

  /** A piece of text cut off by add, and whether a '\n' was dropped after it. */
  datatype Piece = Piece(text: string, newline: bool)

  /** The model's assumption about Paint.breakText(text, true, width, null) for a
      non-empty text: the count of leading characters that fit the width is at
      least one and at most all of them. Android returns 0 for a width narrower
      than the first character, and add then never ends; that case is excluded. */
  ghost predicate Breaks(breakText: (string, int) -> int)
  {
    forall t: string, w: int :: |t| > 0 ==> 1 <= breakText(t, w) <= |t|
  }

  /** One pass of the loop of add, on the text left over from position start on:
      the piece cut off its front, where the text left after it starts, and whether
      the loop goes on (false when the break took all that was left). */
  datatype Cut = Cut(piece: Piece, next: nat, more: bool)

  /** The text holds no '\n'. */
  predicate OneRow(s: string)
  {
    '\n' !in s
  }

  lemma NoNewlineIn(text: string, from: int, to: int)
    requires 0 <= from <= to <= |text|
    requires forall j :: from <= j < to ==> text[j] != '\n'
    ensures OneRow(text[from..to])
  {
    assert forall k :: 0 <= k < to - from ==> text[from..to][k] == text[from + k];
  }

  /** The piece ends at the first '\n' when that comes before the break, which
      drops the '\n'; else it ends at the break.  text.indexOf('\n') on what is
      left is the scan of the whole text from start. */
  function CutOff(text: string, start: nat, breakText: (string, int) -> int, w: int): (c: Cut)
    requires Breaks(breakText) && start < |text|
    ensures start < c.next <= |text| && (!c.more ==> c.next == |text|)
    ensures OneRow(c.piece.text) && |c.piece.text| <= breakText(text[start..], w)
  {
    var max := breakText(text[start..], w);
    assert 1 <= max <= |text| - start;
    var lf := IndexOfCharFrom(text, '\n', start);
    if lf >= 0 && lf - start < max then
      NoNewlineIn(text, start, lf);
      Cut(Piece(text[start..lf], true), lf + 1, true)
    else
      NoNewlineIn(text, start, start + max);
      if |text| - start > max then Cut(Piece(text[start..start + max], false), start + max, true)
      else Cut(Piece(text[start..start + max], false), |text|, false)
  }

  /** The piece, the '\n' dropped after it (if any) and the text after it make up
      the text left over again: cutting loses nothing. */
  lemma CutOffRejoins(text: string, start: nat, breakText: (string, int) -> int, w: int)
    requires Breaks(breakText) && start < |text|
    ensures var c := CutOff(text, start, breakText, w);
      c.piece.text + (if c.piece.newline then "\n" else "") + text[c.next..] == text[start..]
  {
    var max := breakText(text[start..], w);
    var lf := IndexOfCharFrom(text, '\n', start);
    CutRejoins(text, start, max, lf);
  }

  /** CutOff's case split, for any break and any first '\n'. */
  lemma CutRejoins(text: string, start: nat, max: int, lf: int)
    requires start < |text| && 1 <= max <= |text| - start
    requires lf == -1 || (start <= lf < |text| && text[lf] == '\n')
    ensures lf >= 0 && lf - start < max ==> text[start..lf] + "\n" + text[lf + 1..] == text[start..]
    ensures !(lf >= 0 && lf - start < max) ==> text[start..start + max] + "" + text[start + max..] == text[start..]
  {
    if lf >= 0 && lf - start < max {
      Around(text, start, lf);
    } else {
      Apart(text, start, start + max);
    }
  }

  lemma Around(s: string, from: int, i: int)
    requires 0 <= from <= i < |s| && s[i] == '\n'
    ensures s[from..i] + "\n" + s[i + 1..] == s[from..]
  {
    assert s[from..] == s[from..i] + [s[i]] + s[i + 1..];
  }

  lemma Apart(s: string, from: int, mid: int)
    requires 0 <= from <= mid <= |s|
    ensures s[from..mid] + "" + s[mid..] == s[from..]
  {
    assert s[from..] == s[from..mid] + s[mid..];
  }

  /** The loop of add(text, color, wordWrap) on the text left from position start,
      as the pieces it cuts; without word wrap only the first piece is kept. */
  function Split(text: string, start: nat, breakText: (string, int) -> int, w: int, wordWrap: bool)
    : (pieces: seq<Piece>)
    requires Breaks(breakText) && start <= |text|
    ensures |pieces| > 0 <==> start < |text|
    ensures !wordWrap ==> |pieces| <= 1
    decreases |text| - start
  {
    if start == |text| then []
    else
      var c := CutOff(text, start, breakText, w);
      if wordWrap && c.more then [c.piece] + Split(text, c.next, breakText, w, wordWrap) else [c.piece]
  }

  /** The pieces put back together, with the '\n's that were dropped. */
  function Rejoin(pieces: seq<Piece>): string
  {
    if |pieces| == 0 then ""
    else pieces[0].text + (if pieces[0].newline then "\n" else "") + Rejoin(pieces[1..])
  }

  lemma RejoinCons(p: Piece, tail: seq<Piece>)
    ensures Rejoin([p] + tail) == p.text + (if p.newline then "\n" else "") + Rejoin(tail)
  {
    assert ([p] + tail)[1..] == tail;
  }

  /** With word wrap, nothing is lost: the pieces and the dropped '\n's are the text. */
  lemma {:induction false} SplitRejoins(text: string, start: nat, breakText: (string, int) -> int, w: int)
    requires Breaks(breakText) && start <= |text|
    ensures Rejoin(Split(text, start, breakText, w, true)) == text[start..]
    decreases |text| - start
  {
    if start < |text| {
      var c := CutOff(text, start, breakText, w);
      CutOffRejoins(text, start, breakText, w);
      if c.more {
        var tail := Split(text, c.next, breakText, w, true);
        SplitRejoins(text, c.next, breakText, w);
        RejoinCons(c.piece, tail);
      } else {
        RejoinCons(c.piece, []);
      }
    }
  }

  /** Every piece is one row of at most b characters. */
  predicate Fit(pieces: seq<Piece>, b: int)
  {
    |pieces| == 0 || (OneRow(pieces[0].text) && |pieces[0].text| <= b && Fit(pieces[1..], b))
  }

  /** No piece holds a '\n', and the first piece is no longer than breakText allows;
      when breakText never allows more than b characters, no piece is longer. */
  lemma {:induction false} SplitFits(text: string, start: nat, breakText: (string, int) -> int, w: int,
                                     wordWrap: bool, b: int)
    requires Breaks(breakText) && start <= |text|
    requires forall t: string :: |t| > 0 ==> breakText(t, w) <= b
    ensures start < |text| ==>
      |Split(text, start, breakText, w, wordWrap)[0].text| <= breakText(text[start..], w)
    ensures Fit(Split(text, start, breakText, w, wordWrap), b)
    decreases |text| - start
  {
    if start < |text| {
      var c := CutOff(text, start, breakText, w);
      assert breakText(text[start..], w) <= b;
      if wordWrap && c.more {
        var tail := Split(text, c.next, breakText, w, wordWrap);
        SplitFits(text, c.next, breakText, w, wordWrap, b);
        assert ([c.piece] + tail)[1..] == tail;
      }
    }
  }

  /** The pieces add appends for a non-null text: one empty line for "". */
  function Pieces(text: string, breakText: (string, int) -> int, w: int, wordWrap: bool): (pieces: seq<Piece>)
    requires Breaks(breakText)
    ensures |pieces| >= 1
  {
    if text == "" then [Piece("", false)] else Split(text, 0, breakText, w, wordWrap)
  }

  /** The lines add makes of the pieces, in order, with no bitmap or picture yet. */
  function LinesOf(pieces: seq<Piece>, color: int): (lines: seq<Line>)
    ensures |lines| == |pieces|
  {
    if |pieces| == 0 then []
    else LinesOf(pieces[..|pieces| - 1], color) + [Line(pieces[|pieces| - 1].text, color, None, None)]
  }

  function Held(o: Option<nat>): seq<nat>
  {
    if o.Some? then [o.value] else []
  }

  /** The bitmaps the lines hold, in line order. */
  function BitmapsOf(lines: seq<Line>): (bitmaps: seq<nat>)
    ensures |bitmaps| <= |lines|
  {
    if |lines| == 0 then [] else BitmapsOf(lines[..|lines| - 1]) + Held(lines[|lines| - 1].bitmap)
  }

  /** The pictures the lines hold, in line order. */
  function PicturesOf(lines: seq<Line>): (pictures: seq<nat>)
    ensures |pictures| <= |lines|
  {
    if |lines| == 0 then [] else PicturesOf(lines[..|lines| - 1]) + Held(lines[|lines| - 1].picture)
  }

  /** A line with its bitmap and picture let go, as Line.resize leaves it. */
  function Clear(line: Line): Line
  {
    Line(line.text, line.color, None, None)
  }

  /** Every line cleared. */
  function Cleared(lines: seq<Line>): (cleared: seq<Line>)
    ensures |cleared| == |lines|
  {
    if |lines| == 0 then [] else Cleared(lines[..|lines| - 1]) + [Clear(lines[|lines| - 1])]
  }

  /** The functions over a prefix of lines, extended by one more line. */
  lemma PrefixStep(ls: seq<Line>, i: nat)
    requires i < |ls|
    ensures BitmapsOf(ls[..i + 1]) == BitmapsOf(ls[..i]) + Held(ls[i].bitmap)
    ensures PicturesOf(ls[..i + 1]) == PicturesOf(ls[..i]) + Held(ls[i].picture)
    ensures Cleared(ls[..i + 1]) == Cleared(ls[..i]) + [Clear(ls[i])]
  {
    assert ls[..i + 1][..i] == ls[..i];
  }

  /** What one pass of the loop keeps: the pieces cut so far followed by the pieces
      of what is left are all the pieces of the text. */
  lemma SplitStep(done: seq<Piece>, text: string, start: nat, all: seq<Piece>, breakText: (string, int) -> int,
                  w: int, wordWrap: bool)
    requires Breaks(breakText) && start < |text|
    requires done + Split(text, start, breakText, w, wordWrap) == all
    ensures var c := CutOff(text, start, breakText, w);
      if wordWrap && c.more then (done + [c.piece]) + Split(text, c.next, breakText, w, wordWrap) == all
      else done + [c.piece] == all
  {
    var c := CutOff(text, start, breakText, w);
    if wordWrap && c.more {
      SnocAssoc(done, c.piece, Split(text, c.next, breakText, w, wordWrap), all);
    }
  }

  /** When nothing is left, the pieces cut so far are all of them. */
  lemma SplitEmpty(done: seq<Piece>, text: string, all: seq<Piece>, breakText: (string, int) -> int, w: int,
                   wordWrap: bool)
    requires Breaks(breakText)
    requires done + Split(text, |text|, breakText, w, wordWrap) == all
    ensures done == all
  {
    AppendNothing(done);
  }

  lemma AppendSnoc<T>(front: seq<T>, middle: seq<T>, x: T)
    ensures (front + middle) + [x] == front + (middle + [x])
  {
  }

  lemma AppendNothing<T>(s: seq<T>)
    ensures s + [] == s
  {
  }

  lemma SnocAssoc<T>(front: seq<T>, x: T, back: seq<T>, all: seq<T>)
    requires front + ([x] + back) == all
    ensures (front + [x]) + back == all
  {
  }

  lemma LinesOfSnoc(pieces: seq<Piece>, p: Piece, color: int)
    ensures LinesOf(pieces + [p], color) == LinesOf(pieces, color) + [Line(p.text, color, None, None)]
  {
    assert (pieces + [p])[..|pieces|] == pieces;
  }

  /** Line i holds the text of piece i and the colour, and neither a bitmap nor a
      picture. */
  lemma {:induction false} LinesOfAt(pieces: seq<Piece>, color: int, i: int)
    requires 0 <= i < |pieces|
    ensures LinesOf(pieces, color)[i] == Line(pieces[i].text, color, None, None)
    decreases |pieces|
  {
    if i < |pieces| - 1 {
      LinesOfAt(pieces[..|pieces| - 1], color, i);
    }
  }

  /** How many line heights it takes to cover a height. */
  function CeilDiv(height: nat, lineHeight: nat): (n: nat)
    requires lineHeight > 0
    decreases height
  {
    if height == 0 then 0 else if height <= lineHeight then 1 else 1 + CeilDiv(height - lineHeight, lineHeight)
  }

  /** mLineCount: ceil(height / lineHeight) in float arithmetic.  A zero line
      height gives +Infinity, which Math.round turns into Long.MAX_VALUE and the int
      cast into -1; 0 / 0 is NaN, which rounds to 0. */
  function LineCount(height: nat, lineHeight: nat): int
  {
    if lineHeight > 0 then CeilDiv(height, lineHeight)
    else if height > 0 then -1
    else 0
  }

  /** CeilDiv lines are the fewest that cover the height. */
  lemma {:induction false} CeilDivCovers(height: nat, lineHeight: nat)
    requires lineHeight > 0
    ensures CeilDiv(height, lineHeight) * lineHeight >= height
    ensures height == 0 || (CeilDiv(height, lineHeight) - 1) * lineHeight < height
    decreases height
  {
    if height > lineHeight {
      var n := CeilDiv(height - lineHeight, lineHeight);
      CeilDivCovers(height - lineHeight, lineHeight);
      assert (1 + n) * lineHeight == n * lineHeight + lineHeight;
      assert n * lineHeight == (n - 1) * lineHeight + lineHeight;
    }
  }

  /** A smaller factor gives a product smaller by at least d. */
  lemma MulStep(a: int, b: int, d: int)
    requires 0 <= a && 0 <= b && d > 0
    ensures a < b ==> a * d + d <= b * d
  {
    if a < b {
      Picture.MulLe(a + 1, b, d);
      assert (a + 1) * d == a * d + d;
    }
  }

  lemma DivUnique(n: int, d: int, q: int)
    requires n >= 0 && q >= 0 && d > 0 && q * d <= n < q * d + d
    ensures n / d == q
  {
    var r := n / d;
    assert r * d <= n < r * d + d;
    MulStep(q, r, d);
    MulStep(r, q, d);
  }

  /** For a positive line height, LineCount is ceil(height / lineHeight). */
  lemma LineCountIsCeiling(height: nat, lineHeight: nat)
    requires lineHeight > 0
    ensures LineCount(height, lineHeight) == (height + lineHeight - 1) / lineHeight
  {
    var c := CeilDiv(height, lineHeight);
    CeilDivCovers(height, lineHeight);
    assert c * lineHeight - lineHeight < height || height == 0 by {
      assert (c - 1) * lineHeight == c * lineHeight - lineHeight;
    }
    DivUnique(height + lineHeight - 1, lineHeight, c);
  }

  /** How many of n lines reduce removes from the front. */
  function Evicted(n: nat, lineCount: int): (k: nat)
    ensures k <= n
    ensures lineCount >= 0 ==> n - k <= lineCount && (k > 0 ==> n - k == lineCount)
    ensures lineCount < 0 ==> k == n
  {
    if lineCount < 0 then n else if n > lineCount then n - lineCount else 0
  }

  /** Where draw puts a picture. */
  datatype Placement = Placement(picture: nat, left: int, top: int, width: int, height: int)

  /** The top of the k-th newest line: the newest sits on the bottom edge. */
  function RowTop(top: int, height: int, lineHeight: int, k: nat): int
  {
    top + height - (k + 1) * lineHeight
  }

  lemma RowTopNext(top: int, height: int, lineHeight: int, k: nat)
    ensures RowTop(top, height, lineHeight, k + 1) == RowTop(top, height, lineHeight, k) - lineHeight
  {
  }

  /** The while loop of add for a non-empty text: one new line per piece, each
      pass cutting one piece off the front of what is left of the text (which is
      text[start..]). */
  method CutLines(text: string, color: int, wordWrap: bool, breakText: (string, int) -> int, w: int)
    returns (added: seq<Line>)
    requires Breaks(breakText) && |text| > 0
    ensures added == LinesOf(Split(text, 0, breakText, w, wordWrap), color)
  {
    ghost var all := Split(text, 0, breakText, w, wordWrap);
    ghost var done: seq<Piece> := [];
    added := [];
    var start := 0;
    while start < |text|
      invariant start <= |text|
      invariant done + Split(text, start, breakText, w, wordWrap) == all
      invariant added == LinesOf(done, color)
      decreases |text| - start
    {
      var c := CutOff(text, start, breakText, w);
      SplitStep(done, text, start, all, breakText, w, wordWrap);
      LinesOfSnoc(done, c.piece, color);
      added := added + [Line(c.piece.text, color, None, None)];
      done := done + [c.piece];
      if !c.more || !wordWrap {
        break;
      }
      start := c.next;
    }
    if start == |text| {
      SplitEmpty(done, text, all, breakText, w, wordWrap);
    }
  }

  /** The loop of Line.resize over every line: each line cleared, and the bitmaps
      and pictures it let go of, in line order. */
  method ReleaseLines(ls: seq<Line>) returns (cleared: seq<Line>, held: seq<nat>, gone: seq<nat>)
    ensures cleared == Cleared(ls) && held == BitmapsOf(ls) && gone == PicturesOf(ls)
  {
    var i := 0;
    cleared, held, gone := [], [], [];
    while i < |ls|
      invariant 0 <= i <= |ls|
      invariant cleared == Cleared(ls[..i])
      invariant held == BitmapsOf(ls[..i])
      invariant gone == PicturesOf(ls[..i])
    {
      var l := ls[i];
      PrefixStep(ls, i);
      held := held + Held(l.bitmap);
      gone := gone + Held(l.picture);
      cleared := cleared + [Clear(l)];
      i := i + 1;
    }
    assert ls[..i] == ls;
  }

  /** The loop of reduce: remove the oldest line while there are more than fit.
      With a negative line count the list runs empty and remove(0) throws, which
      is ok == false. */
  method EvictOldest(ls: seq<Line>, lineCount: int) returns (rest: seq<Line>, held: seq<nat>, gone: seq<nat>, ok: bool)
    ensures var n := Evicted(|ls|, lineCount);
      rest == ls[n..] && held == BitmapsOf(ls[..n]) && gone == PicturesOf(ls[..n])
    ensures ok == (lineCount >= 0)
    ensures ok ==> |rest| <= lineCount
  {
    rest, held, gone := ls, [], [];
    ghost var k := 0;
    while |rest| > lineCount && |rest| > 0
      invariant 0 <= k <= |ls| && rest == ls[k..]
      invariant k <= Evicted(|ls|, lineCount)
      invariant held == BitmapsOf(ls[..k])
      invariant gone == PicturesOf(ls[..k])
      decreases |rest|
    {
      var l := rest[0];
      PrefixStep(ls, k);
      rest := rest[1..];
      gone := gone + Held(l.picture);
      held := held + Held(l.bitmap);
      k := k + 1;
    }
    assert k == Evicted(|ls|, lineCount);
    ok := lineCount >= 0;
  }

  class Manager {
    /** The GLTextRendererBase part of the object. */
    const renderer: TextRenderer.Renderer
    /** Paint.breakText and Paint.getTextBounds for the console's font. */
    const breakText: (string, int) -> int
    const bounds: string -> Picture.Rect

    var left: int
    var top: int
    var width: int
    var height: nat
    var maxHeight: int
    var lineCount: int
    /** mLines, oldest first. */
    var lines: seq<Line>
    /** mBitmaps, the pool of bitmaps to reuse. */
    var bitmaps: seq<nat>
    var recycled: seq<nat>
    var destroyed: seq<nat>
    /** The numbers the next new bitmap and the next new picture get. */
    var nextBitmap: nat
    var nextPicture: nat

    ghost predicate Valid()
      reads this, renderer
    {
      renderer.Valid() && Breaks(breakText)
    }

    constructor (textureManager: TextureManager.Manager, maxTextureSize: int,
                 breakText: (string, int) -> int, bounds: string -> Picture.Rect,
                 left: int, top: int, width: int, height: int, maxHeight: int, lineHeight: int)
      requires Breaks(breakText)
      ensures Valid() && fresh(renderer) && lines == [] && bitmaps == []
      ensures this.left == (if left >= 0 then left else 0) && this.top == (if top >= 0 then top else 0)
      ensures this.width == (if width >= 0 then width else 0)
      ensures this.height == (if height >= 0 then height else 0)
      ensures lineCount == (if lineHeight >= 0 then LineCount(this.height, renderer.lineHeight) else 0)
    {
      renderer := new TextRenderer.Renderer(textureManager, maxTextureSize, lineHeight);
      this.breakText := breakText;
      this.bounds := bounds;
      this.left, this.top, this.width, this.height, this.maxHeight, lineCount := 0, 0, 0, 0, 0, 0;
      lines, bitmaps, recycled, destroyed := [], [], [], [];
      nextBitmap, nextPicture := 0, 0;
      new;
      Resize(left, top, width, height, maxHeight, lineHeight);
    }

    /** Line.resize (and Line.destroy) for every line, in order, then the pool
        recycled and cleared: each line's bitmap goes back to the pool (and so is
        recycled after the bitmaps already there) and each picture is destroyed. */
    method ReleaseAll()
      modifies this`lines, this`bitmaps, this`destroyed, this`recycled
      ensures lines == Cleared(old(lines)) && bitmaps == []
      ensures recycled == old(recycled) + (old(bitmaps) + BitmapsOf(old(lines)))
      ensures destroyed == old(destroyed) + PicturesOf(old(lines))
    {
      var cleared, held, gone := ReleaseLines(lines);
      lines, destroyed := cleared, destroyed + gone;
      recycled := recycled + (bitmaps + held);
      bitmaps := [];
    }

    /** resize: negative arguments keep their fields; no line is evicted, every line
        lets go of its bitmap and picture, and the pool is recycled and emptied. */
    method Resize(left: int, top: int, width: int, height: int, maxHeight: int, lineHeight: int)
      requires renderer.Valid()
      modifies renderer, this`left, this`top, this`width, this`height, this`maxHeight, this`lineCount
      modifies this`lines, this`bitmaps, this`recycled, this`destroyed
      ensures renderer.Valid()
      ensures renderer.lineHeight == if lineHeight >= 0 then lineHeight else old(renderer.lineHeight)
      ensures this.left == (if left >= 0 then left else old(this.left))
      ensures this.top == (if top >= 0 then top else old(this.top))
      ensures this.width == (if width >= 0 then width else old(this.width))
      ensures this.height == (if height >= 0 then height else old(this.height))
      ensures this.maxHeight == (if maxHeight >= 0 then maxHeight else old(this.maxHeight))
      ensures lineCount == if lineHeight >= 0 then LineCount(this.height, renderer.lineHeight) else old(lineCount)
      ensures lines == Cleared(old(lines)) && bitmaps == []
      ensures recycled == old(recycled) + (old(bitmaps) + BitmapsOf(old(lines)))
      ensures destroyed == old(destroyed) + PicturesOf(old(lines))
    {
      renderer.Resize(lineHeight);
      SetBounds(left, top, width, height, maxHeight, lineHeight >= 0);
      ReleaseAll();
    }

    /** The field updates of resize; the line count follows the renderer's line
        height when a new one was given. */
    method SetBounds(left: int, top: int, width: int, height: int, maxHeight: int, newLineHeight: bool)
      requires renderer.Valid()
      modifies this`left, this`top, this`width, this`height, this`maxHeight, this`lineCount
      ensures this.left == (if left >= 0 then left else old(this.left))
      ensures this.top == (if top >= 0 then top else old(this.top))
      ensures this.width == (if width >= 0 then width else old(this.width))
      ensures this.height == (if height >= 0 then height else old(this.height))
      ensures this.maxHeight == (if maxHeight >= 0 then maxHeight else old(this.maxHeight))
      ensures lineCount == if newLineHeight then LineCount(this.height, renderer.lineHeight) else old(lineCount)
    {
      this.left := if left >= 0 then left else this.left;
      this.top := if top >= 0 then top else this.top;
      this.width := if width >= 0 then width else this.width;
      this.height := if height >= 0 then height else this.height;
      this.maxHeight := if maxHeight >= 0 then maxHeight else this.maxHeight;
      lineCount := if newLineHeight then LineCount(this.height, renderer.lineHeight) else lineCount;
    }

    /** reduce: while there are more lines than fit, remove the oldest and destroy
        it.  With a negative line count the list runs empty and remove(0) throws,
        which is ok == false. */
    method Reduce() returns (ok: bool)
      modifies this`lines, this`bitmaps, this`destroyed
      ensures var n := Evicted(|old(lines)|, lineCount);
        lines == old(lines)[n..]
        && bitmaps == old(bitmaps) + BitmapsOf(old(lines)[..n])
        && destroyed == old(destroyed) + PicturesOf(old(lines)[..n])
      ensures ok == (lineCount >= 0)
      ensures ok ==> |lines| <= lineCount
    {
      var rest, held, gone;
      rest, held, gone, ok := EvictOldest(lines, lineCount);
      lines, bitmaps, destroyed := rest, bitmaps + held, destroyed + gone;
    }

    /** add(text, color, wordWrap): nothing for null; the pieces as new lines, then
        reduce. */
    method Add(text: Option<string>, color: int, wordWrap: bool) returns (ok: bool)
      requires Valid()
      modifies this`lines, this`bitmaps, this`destroyed
      ensures text.None? ==> ok && lines == old(lines) && bitmaps == old(bitmaps) && destroyed == old(destroyed)
      ensures text.Some? ==>
        var all := old(lines) + LinesOf(Pieces(text.value, breakText, width - renderer.horizontalPadding * 2,
                                               wordWrap), color);
        var n := Evicted(|all|, lineCount);
        lines == all[n..]
        && bitmaps == old(bitmaps) + BitmapsOf(all[..n])
        && destroyed == old(destroyed) + PicturesOf(all[..n])
        && ok == (lineCount >= 0)
        && (ok ==> |lines| <= lineCount)
    {
      if text.None? {
        return true;
      }
      var w := width - renderer.horizontalPadding * 2;
      ghost var pieces := Pieces(text.value, breakText, w, wordWrap);
      if text.value == "" {
        assert LinesOf(pieces, color) == [Line("", color, None, None)];
        lines := lines + [Line("", color, None, None)];
      } else {
        var added := CutLines(text.value, color, wordWrap, breakText, w);
        lines := lines + added;
      }
      ghost var all := lines;
      assert all == old(lines) + LinesOf(pieces, color);
      ok := Reduce();
    }

    /** removeLastLine: only the newest line goes, if there is one. */
    method RemoveLastLine()
      modifies this`lines, this`bitmaps, this`destroyed
      ensures |old(lines)| == 0 ==> lines == [] && bitmaps == old(bitmaps) && destroyed == old(destroyed)
      ensures |old(lines)| > 0 ==>
        var last := old(lines)[|old(lines)| - 1];
        lines == old(lines)[..|old(lines)| - 1]
        && bitmaps == old(bitmaps) + Held(last.bitmap) && destroyed == old(destroyed) + Held(last.picture)
    {
      if |lines| > 0 {
        var l := lines[|lines| - 1];
        lines := lines[..|lines| - 1];
        destroyed := destroyed + Held(l.picture);
        bitmaps := bitmaps + Held(l.bitmap);
      }
    }

    /** destroy: every line is destroyed and removed, and the pool is recycled. */
    method Destroy()
      modifies this`lines, this`bitmaps, this`destroyed, this`recycled
      ensures lines == [] && bitmaps == []
      ensures recycled == old(recycled) + (old(bitmaps) + BitmapsOf(old(lines)))
      ensures destroyed == old(destroyed) + PicturesOf(old(lines))
    {
      ReleaseAll();
      lines := [];
    }

    /** Line.getPicture for line i: a missing bitmap is taken from the front of the
        pool, or made new (which throws on a bitmap of no size: None); a missing
        picture is made from the bitmap.  A line that has both allocates nothing. */
    method LinePicture(i: int) returns (pic: Option<nat>)
      requires 0 <= i < |lines|
      modifies this`lines, this`bitmaps, this`nextBitmap, this`nextPicture
      ensures |lines| == |old(lines)|
      ensures forall j :: 0 <= j < |lines| && j != i ==> lines[j] == old(lines[j])
      ensures lines[i].text == old(lines[i]).text && lines[i].color == old(lines[i]).color
      ensures pic.Some? ==> lines[i].picture == pic && lines[i].bitmap.Some?
      ensures old(lines[i]).bitmap.Some? && old(lines[i]).picture.Some? ==>
        pic == old(lines[i]).picture && lines == old(lines) && bitmaps == old(bitmaps)
        && nextBitmap == old(nextBitmap) && nextPicture == old(nextPicture)
      ensures old(lines[i]).bitmap.None? && |old(bitmaps)| > 0 ==>
        pic.Some? && lines[i].bitmap == Some(old(bitmaps)[0]) && bitmaps == old(bitmaps)[1..]
        && nextBitmap == old(nextBitmap)
      ensures pic.None? <==>
        old(lines[i]).bitmap.None? && |old(bitmaps)| == 0
        && TextRenderer.GetBitmap(bounds(old(lines[i]).text), renderer.lineHeight, renderer.verticalPadding,
                                  renderer.horizontalPadding, old(lines[i]).text, old(lines[i]).color, width,
                                  TextRenderer.Left, None).None?
    {
      var l := lines[i];
      var b := l.bitmap;
      if b.None? {
        if |bitmaps| > 0 {
          b := Some(bitmaps[0]);
          bitmaps := bitmaps[1..];
        } else {
          var d := TextRenderer.GetBitmap(bounds(l.text), renderer.lineHeight, renderer.verticalPadding,
                                          renderer.horizontalPadding, l.text, l.color, width, TextRenderer.Left, None);
          if d.None? {
            return None;
          }
          b := Some(nextBitmap);
          nextBitmap := nextBitmap + 1;
        }
      }
      var p := l.picture;
      if p.None? {
        p := Some(nextPicture);
        nextPicture := nextPicture + 1;
      }
      if b != l.bitmap || p != l.picture {
        lines := lines[i := Line(l.text, l.color, b, p)];
      }
      pic := p;
    }

    /** The row loop of draw: from the newest line up, each line's picture one line
        height above the previous.  ok is false when getPicture threw. */
    method Draw() returns (ok: bool, placed: seq<Placement>)
      modifies this`lines, this`bitmaps, this`nextBitmap, this`nextPicture
      ensures |lines| == |old(lines)| && |placed| <= |lines|
      ensures forall j :: 0 <= j < |lines| ==> lines[j].text == old(lines[j]).text
      ensures forall k :: 0 <= k < |placed| ==>
        placed[k] == Placement(placed[k].picture, left, RowTop(top, height, renderer.lineHeight, k), width,
                               renderer.lineHeight)
        && lines[|lines| - 1 - k].picture == Some(placed[k].picture)
      ensures ok ==> |placed| == |lines| && forall j :: 0 <= j < |lines| ==> lines[j].picture.Some? && lines[j].bitmap.Some?
    {
      var lh := renderer.lineHeight;
      var t := top + height - lh;
      var i := |lines| - 1;
      placed := [];
      while i >= 0
        invariant -1 <= i < |lines| && |lines| == |old(lines)| && |placed| == |lines| - 1 - i
        invariant forall j :: 0 <= j < |lines| ==> lines[j].text == old(lines[j]).text
        invariant t == RowTop(top, height, lh, |placed|)
        invariant forall k :: 0 <= k < |placed| ==>
          placed[k] == Placement(placed[k].picture, left, RowTop(top, height, lh, k), width, lh)
          && lines[|lines| - 1 - k].picture == Some(placed[k].picture)
        invariant forall j :: i < j < |lines| ==> lines[j].picture.Some? && lines[j].bitmap.Some?
      {
        var pic := LinePicture(i);
        if pic.None? {
          return false, placed;
        }
        placed := placed + [Placement(pic.value, left, t, width, lh)];
        RowTopNext(top, height, lh, |placed| - 1);
        t := t - lh;
        i := i - 1;
      }
      ok := true;
    }
  }
}
