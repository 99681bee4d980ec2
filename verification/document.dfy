/** A text-level model of the document body the requests edit: a flat
    character sequence addressed by absolute position. Page breaks and
    inline images occupy one position each (a marker character). Style,
    paragraph, bullet and cell-background requests leave the characters
    alone; table insertion is structural and outside this model.

    `Contiguous` is the cursor discipline every helper keeps: each insertion
    lands exactly where the previous one ended, so the final cursor is the
    start plus everything inserted.
 */
module DocModel {
  import opened Wrappers
  import opened Requests

  const PageBreakMark: char := '\U{000C}'
  const ImageMark: char := '\U{FFFC}'

  predicate IsInsertion(r: Request) {
    r.InsertText? || r.InsertPageBreak? || r.InsertInlineImage?
  }

  /** The characters an insertion request puts into the body. */
  function Content(r: Request): string
    requires IsInsertion(r)
  {
    match r
    case InsertText(_, t) => t
    case InsertPageBreak(_) => [PageBreakMark]
    case InsertInlineImage(_, _) => [ImageMark]
  }

  /** Requests that restyle what is there and change no character. */
  predicate IsStyling(r: Request) {
    r.UpdateTextStyle? || r.UpdateParagraphStyle? || r.UpdateTableCellBackground? || r.CreateParagraphBullets?
  }

  /** The effect of one request on the body; None when a position is out of
      range, and for a table insertion, whose structure this model does not
      describe. */
  function Apply(doc: string, r: Request): Option<string> {
    if r.InsertTable? then None
    else if IsInsertion(r) then
      if 0 <= r.loc <= |doc| then Some(doc[..r.loc] + Content(r) + doc[r.loc..]) else None
    else if r.DeleteContentRange? then
      if 0 <= r.start <= r.end <= |doc| then Some(doc[..r.start] + doc[r.end..]) else None
    else
      Some(doc)
  }

  /** Applying a batch in submission order, as the batch executor does. */
  function ApplyAll(doc: string, reqs: seq<Request>): Option<string>
    decreases |reqs|
  {
    if reqs == [] then Some(doc)
    else
      match Apply(doc, reqs[0])
      case None => None
      case Some(d) => ApplyAll(d, reqs[1..])
  }

  /** The insertions of `reqs`, in order, sit back to back from `from` to
      `to`, and every other request only restyles. */
  predicate Contiguous(reqs: seq<Request>, from: int, to: int) {
    if reqs == [] then from == to
    else if IsInsertion(reqs[0]) then
      reqs[0].loc == from && Contiguous(reqs[1..], from + |Content(reqs[0])|, to)
    else
      IsStyling(reqs[0]) && Contiguous(reqs[1..], from, to)
  }

  /** Everything the insertions of `reqs` put into the body, in order. */
  function Inserted(reqs: seq<Request>): string {
    if reqs == [] then []
    else (if IsInsertion(reqs[0]) then Content(reqs[0]) else []) + Inserted(reqs[1..])
  }

  lemma {:induction false} InsertedAppend(r1: seq<Request>, r2: seq<Request>)
    ensures Inserted(r1 + r2) == Inserted(r1) + Inserted(r2)
  {
    if r1 == [] {
      assert r1 + r2 == r2;
    } else {
      assert (r1 + r2)[0] == r1[0];
      assert (r1 + r2)[1..] == r1[1..] + r2;
      InsertedAppend(r1[1..], r2);
    }
  }

  /** Requests that insert nothing leave the cursor where it is. */
  lemma {:induction false} NoInsertions(reqs: seq<Request>, a: int)
    requires forall k :: 0 <= k < |reqs| ==> IsStyling(reqs[k])
    ensures Contiguous(reqs, a, a) && Inserted(reqs) == []
  {
    if reqs != [] {
      NoInsertions(reqs[1..], a);
    }
  }

  /** Two contiguous batches where the second starts at the first's end form one. */
  lemma {:induction false} ContiguousAppend(r1: seq<Request>, r2: seq<Request>, a: int, b: int, c: int)
    requires Contiguous(r1, a, b) && Contiguous(r2, b, c)
    ensures Contiguous(r1 + r2, a, c)
  {
    if r1 == [] {
      assert r1 + r2 == r2;
    } else {
      assert (r1 + r2)[1..] == r1[1..] + r2;
      if IsInsertion(r1[0]) {
        ContiguousAppend(r1[1..], r2, a + |Content(r1[0])|, b, c);
      } else {
        ContiguousAppend(r1[1..], r2, a, b, c);
      }
    }
  }

  /** The cursor lands exactly at the start plus the inserted length. */
  lemma {:induction false} ContiguousAdvance(reqs: seq<Request>, a: int, b: int)
    requires Contiguous(reqs, a, b)
    ensures b == a + |Inserted(reqs)|
  {
    if reqs != [] {
      if IsInsertion(reqs[0]) {
        ContiguousAdvance(reqs[1..], a + |Content(reqs[0])|, b);
      } else {
        ContiguousAdvance(reqs[1..], a, b);
      }
    }
  }

  /** Splicing `c` at `a` and then `ins` right after it is splicing `c + ins` at `a`. */
  lemma SpliceTwice(doc: string, a: int, c: string, ins: string)
    requires 0 <= a <= |doc|
    ensures var d := doc[..a] + c + doc[a..];
            d[..a + |c|] + ins + d[a + |c|..] == doc[..a] + (c + ins) + doc[a..]
  {
    var d := doc[..a] + c + doc[a..];
    assert d[..a + |c|] == doc[..a] + c;
    assert d[a + |c|..] == doc[a..];
  }

  /** A contiguous batch started at a position inside the body splices
      everything it inserts, in order, at that position. */
  lemma {:induction false} ApplyContiguous(doc: string, reqs: seq<Request>, a: int, b: int)
    requires Contiguous(reqs, a, b) && 0 <= a <= |doc|
    ensures ApplyAll(doc, reqs) == Some(doc[..a] + Inserted(reqs) + doc[a..])
    decreases |reqs|
  {
    if reqs == [] {
      assert doc[..a] + Inserted(reqs) + doc[a..] == doc;
    } else {
      var r := reqs[0];
      if IsInsertion(r) {
        var c := Content(r);
        var d := doc[..a] + c + doc[a..];
        assert Apply(doc, r) == Some(d);
        assert ApplyAll(doc, reqs) == ApplyAll(d, reqs[1..]);
        ApplyContiguous(d, reqs[1..], a + |c|, b);
        assert Inserted(reqs) == c + Inserted(reqs[1..]);
        SpliceTwice(doc, a, c, Inserted(reqs[1..]));
      } else {
        assert Apply(doc, r) == Some(doc);
        assert ApplyAll(doc, reqs) == ApplyAll(doc, reqs[1..]);
        ApplyContiguous(doc, reqs[1..], a, b);
        assert Inserted(reqs) == Inserted(reqs[1..]);
      }
    }
  }
}
