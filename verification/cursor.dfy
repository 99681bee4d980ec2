/** The cursor-threading helpers of the planner. Each takes the cursor,
    returns the requests it appends and the advanced cursor, and keeps the
    discipline of `DocModel.Contiguous`: what it inserts starts at the
    cursor and the cursor moves past exactly what was inserted.
 */
module Cursor {
  import opened Wrappers
  import opened Requests
  import opened DocModel

  /** The string `AddText` inserts: the text, newline-terminated on request. */
  function Line(text: string, addNewLine: bool): string {
    if addNewLine then text + "\n" else text
  }

  /** AddText. With `updateIndex` the source bumps the cursor by one as it
      reads the insert location and then by the inserted length minus one;
      the style range is computed back from the bumped cursor. Without it the
      cursor is only read. */
  function AddText(text: string, index: int, style: Option<TextStyle>, addNewLine: bool, updateIndex: bool): (e: Emit)
    ensures |e.reqs| == (if style.Some? then 2 else 1)
    ensures e.reqs[0] == InsertText(index, Line(text, addNewLine))
    ensures e.next == (if updateIndex then index + |Line(text, addNewLine)| else index)
    ensures style.Some? ==>
              e.reqs[1] == UpdateTextStyle(index, index + |Line(text, addNewLine)|, style.value)
  {
    var t := Line(text, addNewLine);
    var loc := index;
    var bumped := if updateIndex then index + 1 else index;
    var next := if updateIndex then bumped + |t| - 1 else bumped;
    var insert := [InsertText(loc, t)];
    var styled :=
      if style.None? then []
      else if updateIndex then [UpdateTextStyle(next - |t|, next, style.value)]
      else [UpdateTextStyle(next, next + |t|, style.value)];
    Emit(insert + styled, next)
  }

  /** What AddText puts into the body is its line; with the cursor update it
      keeps the cursor discipline. */
  lemma AddTextSplices(text: string, index: int, style: Option<TextStyle>, addNewLine: bool, updateIndex: bool)
    ensures var e := AddText(text, index, style, addNewLine, updateIndex);
            && (updateIndex ==> Contiguous(e.reqs, index, e.next))
            && Inserted(e.reqs) == Line(text, addNewLine)
  {
    var e := AddText(text, index, style, addNewLine, updateIndex);
    var t := Line(text, addNewLine);
    NoInsertions(e.reqs[1..], index + |t|);
  }

  /** `new string(c, n)`: the character `c`, `n` times. */
  function Repeat(c: char, n: nat): (s: string)
    ensures |s| == n && forall k :: 0 <= k < n ==> s[k] == c
  {
    seq(n, _ => c)
  }

  function Newlines(n: nat): string {
    Repeat('\n', n)
  }

  /** AddLineBreak: `count` newline insertions at consecutive positions
      (none when `count` is not positive). */
  function AddLineBreak(index: int, count: int): (e: Emit)
    ensures |e.reqs| == (if count > 0 then count else 0)
    ensures e.next == index + |e.reqs|
    ensures forall k :: 0 <= k < |e.reqs| ==> e.reqs[k] == InsertText(index + k, "\n")
    decreases count
  {
    if count <= 0 then Emit([], index)
    else
      var rest := AddLineBreak(index + 1, count - 1);
      var reqs := [InsertText(index, "\n")] + rest.reqs;
      assert forall k :: 1 <= k < |reqs| ==> reqs[k] == rest.reqs[k - 1];
      Emit(reqs, rest.next)
  }

  /** The line breaks keep the cursor discipline and insert only newlines. */
  lemma {:induction false} AddLineBreakSplices(index: int, count: int)
    ensures var e := AddLineBreak(index, count);
            Contiguous(e.reqs, index, e.next) && Inserted(e.reqs) == Newlines(|e.reqs|)
    decreases count
  {
    if count > 0 {
      var e := AddLineBreak(index, count);
      var rest := AddLineBreak(index + 1, count - 1);
      AddLineBreakSplices(index + 1, count - 1);
      assert e.reqs[1..] == rest.reqs;
      assert "\n" + Newlines(|rest.reqs|) == Newlines(|e.reqs|);
    }
  }

  /** AddPageBreak: one page break at the cursor, which advances by one. */
  function AddPageBreak(index: int): (e: Emit)
    ensures e.reqs == [InsertPageBreak(index)]
    ensures Contiguous(e.reqs, index, e.next) && Inserted(e.reqs) == [PageBreakMark]
  {
    Emit([InsertPageBreak(index)], index + 1)
  }

  /** AddInlineImage: one image at the cursor, which advances by one. */
  function AddInlineImage(uri: string, index: int): (e: Emit)
    ensures e.reqs == [InsertInlineImage(index, uri)]
    ensures Contiguous(e.reqs, index, e.next) && Inserted(e.reqs) == [ImageMark]
  {
    Emit([InsertInlineImage(index, uri)], index + 1)
  }

  /** AddHeading: the title text without a newline, centred in TITLE style
      over exactly the inserted range. */
  function AddHeading(heading: string, index: int): (e: Emit)
    ensures |e.reqs| == 2
    ensures e.reqs[0] == InsertText(index, heading)
    ensures e.reqs[1] == UpdateParagraphStyle(index, e.next, TitleCentered)
    ensures Contiguous(e.reqs, index, e.next) && Inserted(e.reqs) == heading
  {
    var reqs := [InsertText(index, heading),
                 UpdateParagraphStyle(index, index + |heading|, TitleCentered)];
    NoInsertions(reqs[1..], index + |heading|);
    Emit(reqs, index + |heading|)
  }

  /** One emission followed by the next, which ran from the first's cursor. */
  function Seq(e1: Emit, e2: Emit): Emit {
    Emit(e1.reqs + e2.reqs, e2.next)
  }

  /** Threading a sequence of helpers: when each emission is contiguous and
      starts where the previous one ended, so is their concatenation. */
  lemma Then(e1: Emit, e2: Emit, index: int)
    requires Contiguous(e1.reqs, index, e1.next)
    requires Contiguous(e2.reqs, e1.next, e2.next)
    ensures Contiguous(Seq(e1, e2).reqs, index, Seq(e1, e2).next)
    ensures Inserted(Seq(e1, e2).reqs) == Inserted(e1.reqs) + Inserted(e2.reqs)
  {
    ContiguousAppend(e1.reqs, e2.reqs, index, e1.next, e2.next);
    InsertedAppend(e1.reqs, e2.reqs);
  }

  /** Three helpers threaded one after another. */
  lemma Then3(e1: Emit, e2: Emit, e3: Emit, index: int)
    requires Contiguous(e1.reqs, index, e1.next)
    requires Contiguous(e2.reqs, e1.next, e2.next)
    requires Contiguous(e3.reqs, e2.next, e3.next)
    ensures var e := Seq(Seq(e1, e2), e3);
            && Contiguous(e.reqs, index, e.next)
            && Inserted(e.reqs) == Inserted(e1.reqs) + Inserted(e2.reqs) + Inserted(e3.reqs)
  {
    Then(e1, e2, index);
    Then(Seq(e1, e2), e3, index);
  }

  /** Four helpers threaded one after another. */
  lemma Then4(e1: Emit, e2: Emit, e3: Emit, e4: Emit, index: int)
    requires Contiguous(e1.reqs, index, e1.next)
    requires Contiguous(e2.reqs, e1.next, e2.next)
    requires Contiguous(e3.reqs, e2.next, e3.next)
    requires Contiguous(e4.reqs, e3.next, e4.next)
    ensures var e := Seq(Seq(Seq(e1, e2), e3), e4);
            && Contiguous(e.reqs, index, e.next)
            && Inserted(e.reqs) == Inserted(e1.reqs) + Inserted(e2.reqs) + Inserted(e3.reqs) + Inserted(e4.reqs)
  {
    Then3(e1, e2, e3, index);
    Then(Seq(Seq(e1, e2), e3), e4, index);
  }

  /** Five helpers threaded one after another. */
  lemma Then5(e1: Emit, e2: Emit, e3: Emit, e4: Emit, e5: Emit, index: int)
    requires Contiguous(e1.reqs, index, e1.next)
    requires Contiguous(e2.reqs, e1.next, e2.next)
    requires Contiguous(e3.reqs, e2.next, e3.next)
    requires Contiguous(e4.reqs, e3.next, e4.next)
    requires Contiguous(e5.reqs, e4.next, e5.next)
    ensures var e := Seq(Seq(Seq(Seq(e1, e2), e3), e4), e5);
            && Contiguous(e.reqs, index, e.next)
            && Inserted(e.reqs) == Inserted(e1.reqs) + Inserted(e2.reqs) + Inserted(e3.reqs) + Inserted(e4.reqs) + Inserted(e5.reqs)
  {
    Then4(e1, e2, e3, e4, index);
    Then(Seq(Seq(Seq(e1, e2), e3), e4), e5, index);
  }
}
