/** Emission of the claim forest as newline-terminated lines, each prefixed
    by as many tab characters as its level's ordinal (L1 none, L2 one, L3
    two); the numbered-list nesting the document shows comes only from those
    tabs.
 */
module ClaimList {
  import opened Wrappers
  import opened Records
  import opened Requests
  import opened DocModel
  import opened Cursor
  import opened SeqFacts

  function Tabs(n: nat): string {
    Repeat('\t', n)
  }

  /** `new string('\t', (int)claim.Level) + claim.Content`. */
  function ClaimLine(c: Claim): string {
    Tabs(Ordinal(c.level)) + c.content
  }

  /** The claims in pre-order: each claim, then its children, then its siblings. */
  function Preorder(claims: seq<Claim>): seq<Claim>
    decreases claims
  {
    if claims == [] then []
    else [claims[0]] + Preorder(claims[0].children) + Preorder(claims[1..])
  }

  /** The text of the claims list, one line per claim in pre-order. */
  function Lines(claims: seq<Claim>): (ls: seq<string>)
    ensures |ls| == |Preorder(claims)|
    ensures forall k :: 0 <= k < |ls| ==> ls[k] == ClaimLine(Preorder(claims)[k])
    decreases claims
  {
    if claims == [] then []
    else
      var kids := Lines(claims[0].children);
      var rest := Lines(claims[1..]);
      var ls := [ClaimLine(claims[0])] + kids + rest;
      assert forall k :: 1 <= k <= |kids| ==> ls[k] == kids[k - 1];
      assert forall k :: 1 + |kids| <= k < |ls| ==> ls[k] == rest[k - 1 - |kids|];
      ls
  }

  /** The lines joined, each followed by a newline. */
  function Joined(ls: seq<string>): string {
    if ls == [] then [] else ls[0] + "\n" + Joined(ls[1..])
  }

  lemma {:induction false} JoinedAppend(a: seq<string>, b: seq<string>)
    ensures Joined(a + b) == Joined(a) + Joined(b)
  {
    if a == [] {
      assert a + b == b;
    } else {
      assert (a + b)[1..] == a[1..] + b;
      JoinedAppend(a[1..], b);
    }
  }

  /** AddClaims: every claim through AddText with a trailing newline, then
      its children, then the next sibling. What it inserts is exactly the
      pre-order lines, back to back from the cursor. */
  function AddClaims(claims: seq<Claim>, index: int, style: Option<TextStyle>): (e: Emit)
    decreases claims
  {
    if claims == [] then Emit([], index)
    else
      var head := AddText(ClaimLine(claims[0]), index, style, true, true);
      var kids := AddClaims(claims[0].children, head.next, style);
      var rest := AddClaims(claims[1..], kids.next, style);
      Emit(head.reqs + kids.reqs + rest.reqs, rest.next)
  }

  /** What AddClaims inserts is exactly the pre-order lines, back to back
      from the cursor. */
  lemma {:induction false} AddClaimsSplices(claims: seq<Claim>, index: int, style: Option<TextStyle>)
    ensures var e := AddClaims(claims, index, style);
            Contiguous(e.reqs, index, e.next) && Inserted(e.reqs) == Joined(Lines(claims))
    decreases claims
  {
    if claims != [] {
      var head := AddText(ClaimLine(claims[0]), index, style, true, true);
      var kids := AddClaims(claims[0].children, head.next, style);
      var rest := AddClaims(claims[1..], kids.next, style);
      AddTextSplices(ClaimLine(claims[0]), index, style, true, true);
      AddClaimsSplices(claims[0].children, head.next, style);
      AddClaimsSplices(claims[1..], kids.next, style);
      Then3(head, kids, rest, index);
      JoinedAppend([ClaimLine(claims[0])], Lines(claims[0].children));
      JoinedAppend([ClaimLine(claims[0])] + Lines(claims[0].children), Lines(claims[1..]));
    }
  }

  /** The flat reference: one AddText per line, in order. */
  function AddLines(ls: seq<string>, index: int, style: Option<TextStyle>): Emit {
    if ls == [] then Emit([], index)
    else
      var head := AddText(ls[0], index, style, true, true);
      var rest := AddLines(ls[1..], head.next, style);
      Emit(head.reqs + rest.reqs, rest.next)
  }

  /** Writing `a + b` is writing `a` and then `b` from where `a` ended. */
  lemma AddLinesAppend(a: seq<string>, b: seq<string>, index: int, style: Option<TextStyle>)
    ensures AddLines(a + b, index, style)
         == Emit(AddLines(a, index, style).reqs + AddLines(b, AddLines(a, index, style).next, style).reqs,
                 AddLines(b, AddLines(a, index, style).next, style).next)
  {
    AddLinesAppendReqs(a, b, index, style);
    AddLinesAppendNext(a, b, index, style);
  }

  lemma {:induction false} AddLinesAppendReqs(a: seq<string>, b: seq<string>, index: int, style: Option<TextStyle>)
    ensures AddLines(a + b, index, style).reqs
         == AddLines(a, index, style).reqs + AddLines(b, AddLines(a, index, style).next, style).reqs
  {
    if a == [] {
      assert a + b == b;
    } else {
      var head := AddText(a[0], index, style, true, true);
      var tail := AddLines(a[1..], head.next, style);
      var after := AddLines(b, tail.next, style);
      AddLinesUnfold(a + b, index, style);
      assert (a + b)[0] == a[0] && (a + b)[1..] == a[1..] + b;
      AddLinesAppendReqs(a[1..], b, head.next, style);
      ConcatAssoc(head.reqs, tail.reqs, after.reqs);
    }
  }

  /** One step of AddLines: the first line, then the rest from where it ended. */
  lemma AddLinesUnfold(ls: seq<string>, index: int, style: Option<TextStyle>)
    requires ls != []
    ensures var head := AddText(ls[0], index, style, true, true);
            var rest := AddLines(ls[1..], head.next, style);
            AddLines(ls, index, style) == Emit(head.reqs + rest.reqs, rest.next)
  {
  }

  lemma {:induction false} AddLinesAppendNext(a: seq<string>, b: seq<string>, index: int, style: Option<TextStyle>)
    ensures AddLines(a + b, index, style).next == AddLines(b, AddLines(a, index, style).next, style).next
  {
    if a == [] {
      assert a + b == b;
    } else {
      var head := AddText(a[0], index, style, true, true);
      assert AddLines(a + b, index, style).next == AddLines(a[1..] + b, head.next, style).next by {
        assert (a + b)[0] == a[0] && (a + b)[1..] == a[1..] + b;
      }
      AddLinesAppendNext(a[1..], b, head.next, style);
    }
  }

  /** The recursive walk of the forest emits exactly what one AddText per
      pre-order line emits: claims come out parent first, then children. */
  lemma {:induction false} AddClaimsIsPreorder(claims: seq<Claim>, index: int, style: Option<TextStyle>)
    ensures AddClaims(claims, index, style) == AddLines(Lines(claims), index, style)
    decreases claims
  {
    if claims != [] {
      var head := AddText(ClaimLine(claims[0]), index, style, true, true);
      var kids := AddClaims(claims[0].children, head.next, style);
      AddClaimsIsPreorder(claims[0].children, head.next, style);
      AddClaimsIsPreorder(claims[1..], kids.next, style);
      var first := [ClaimLine(claims[0])];
      assert AddLines(first, index, style) == Emit(head.reqs, head.next) by {
        assert first[1..] == [];
      }
      AddLinesAppend(first, Lines(claims[0].children), index, style);
      AddLinesAppend(first + Lines(claims[0].children), Lines(claims[1..]), index, style);
      assert Lines(claims) == first + Lines(claims[0].children) + Lines(claims[1..]);
    }
  }

  /** The claims list advances the cursor by the sum over all claims of
      tabs + content + newline. */
  function LinesLength(claims: seq<Claim>): nat
    decreases claims
  {
    if claims == [] then 0
    else Ordinal(claims[0].level) + |claims[0].content| + 1
         + LinesLength(claims[0].children) + LinesLength(claims[1..])
  }

  lemma {:induction false} AddClaimsAdvance(claims: seq<Claim>, index: int, style: Option<TextStyle>)
    ensures AddClaims(claims, index, style).next == index + LinesLength(claims)
  {
    var e := AddClaims(claims, index, style);
    AddClaimsSplices(claims, index, style);
    ContiguousAdvance(e.reqs, index, e.next);
    JoinedLength(claims);
  }

  lemma {:induction false} JoinedLength(claims: seq<Claim>)
    ensures |Joined(Lines(claims))| == LinesLength(claims)
    decreases claims
  {
    if claims != [] {
      var first := [ClaimLine(claims[0])];
      assert Lines(claims) == first + Lines(claims[0].children) + Lines(claims[1..]);
      JoinedAppend(first, Lines(claims[0].children));
      JoinedAppend(first + Lines(claims[0].children), Lines(claims[1..]));
      assert first[1..] == [];
      JoinedLength(claims[0].children);
      JoinedLength(claims[1..]);
    }
  }

  /** The strict three-level shape the sheet encodes: top-level claims are
      L1, their children L2, grandchildren L3, and nothing deeper. */
  predicate WellLeveled(claims: seq<Claim>, level: IndentLevel)
    decreases claims
  {
    forall k :: 0 <= k < |claims| ==> Leveled(claims[k], level)
  }

  /** One claim at `level` whose subtree keeps the shape. */
  predicate Leveled(c: Claim, level: IndentLevel)
    decreases c
  {
    && c.level == level
    && match level
       case L1 => WellLeveled(c.children, L2)
       case L2 => WellLeveled(c.children, L3)
       case L3 => c.children == []
  }

  lemma LeveledAppend(claims: seq<Claim>, level: IndentLevel, c: Claim)
    requires WellLeveled(claims, level) && Leveled(c, level)
    ensures WellLeveled(claims + [c], level)
  {
    assert forall k :: 0 <= k < |claims| ==> (claims + [c])[k] == claims[k];
  }

  lemma LeveledUpdate(claims: seq<Claim>, level: IndentLevel, a: int, c: Claim)
    requires WellLeveled(claims, level) && 0 <= a < |claims| && Leveled(c, level)
    ensures WellLeveled(claims[a := c], level)
  {
  }

  /** The pre-order position of every line's claim and its depth below the
      top level: in a well-levelled forest the tab prefix equals the depth. */
  function Depths(claims: seq<Claim>, depth: nat): (ds: seq<nat>)
    ensures |ds| == |Preorder(claims)|
    decreases claims
  {
    if claims == [] then []
    else [depth] + Depths(claims[0].children, depth + 1) + Depths(claims[1..], depth)
  }

  lemma {:induction false} TabsMatchDepth(claims: seq<Claim>, level: IndentLevel)
    requires WellLeveled(claims, level)
    ensures forall k :: 0 <= k < |Preorder(claims)| ==>
              Ordinal(Preorder(claims)[k].level) == Depths(claims, Ordinal(level))[k]
    decreases claims
  {
    if claims != [] {
      var c := claims[0];
      var p := Preorder(claims);
      var d := Depths(claims, Ordinal(level));
      var pk := Preorder(c.children);
      var dk := Depths(c.children, Ordinal(level) + 1);
      var pr := Preorder(claims[1..]);
      var dr := Depths(claims[1..], Ordinal(level));
      assert WellLeveled(claims[1..], level) by {
        forall k | 0 <= k < |claims[1..]| ensures claims[1..][k] == claims[k + 1] { }
      }
      TabsMatchDepth(claims[1..], level);
      if level == L3 {
        assert c.children == [];
      } else {
        var next := if level == L1 then L2 else L3;
        assert WellLeveled(c.children, next);
        TabsMatchDepth(c.children, next);
        assert Ordinal(next) == Ordinal(level) + 1;
      }
      assert forall k :: 1 <= k <= |pk| ==> p[k] == pk[k - 1] && d[k] == dk[k - 1];
      assert forall k :: 1 + |pk| <= k < |p| ==> p[k] == pr[k - 1 - |pk|] && d[k] == dr[k - 1 - |pk|];
    }
  }
}
