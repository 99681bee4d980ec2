/** Identifier extraction: the first match of the pattern `[-\w]{25,}` in
    free-form input, as a backtracking regular-expression engine finds it.
    Start positions are tried left to right; at each the quantifier takes
    as many identifier characters as it can and the attempt succeeds when
    that is at least 25. No match gives the empty string.
 */
module IdExtraction {
  import opened Wrappers

  /** The shortest run the pattern accepts. */
  const MinIdLength := 25

  /** The class `[-\w]`, with `\w` read as ASCII letters, digits and '_'. */
  predicate IsIdChar(c: char) {
    ('a' <= c <= 'z') || ('A' <= c <= 'Z') || ('0' <= c <= '9') || c == '_' || c == '-'
  }

  predicate AllIdChars(s: string) {
    forall i :: 0 <= i < |s| ==> IsIdChar(s[i])
  }

  /** A run the pattern accepts starts at `p`: 25 identifier characters follow it. */
  predicate RunAt(s: string, p: int) {
    0 <= p && p + MinIdLength <= |s| && forall i :: p <= i < p + MinIdLength ==> IsIdChar(s[i])
  }

  /** How many identifier characters follow `p`: the greedy quantifier's reach. */
  function RunLength(s: string, p: nat): (n: nat)
    requires p <= |s|
    ensures p + n <= |s|
    ensures forall i :: p <= i < p + n ==> IsIdChar(s[i])
    ensures p + n == |s| || !IsIdChar(s[p + n])
    decreases |s| - p
  {
    if p < |s| && IsIdChar(s[p]) then 1 + RunLength(s, p + 1) else 0
  }

  /** The greedy reach from `p` is at least 25 exactly when a run starts there. */
  lemma RunLengthAccepts(s: string, p: nat)
    requires p <= |s|
    ensures RunLength(s, p) >= MinIdLength <==> RunAt(s, p)
  {
    var n := RunLength(s, p);
    if n < MinIdLength && p + n < |s| {
      assert !IsIdChar(s[p + n]);
    }
  }

  /** Where a match starts and how long it is. */
  datatype IdMatch = IdMatch(start: nat, length: nat)

  /** The engine's scan from position `p`: the first start at or after `p`
      where a run is accepted, with its greedy length. */
  function Scan(s: string, p: nat): (m: Option<IdMatch>)
    requires p <= |s|
    ensures m.None? <==> forall q :: p <= q <= |s| ==> !RunAt(s, q)
    ensures m.Some? ==>
              && p <= m.value.start
              && RunAt(s, m.value.start)
              && m.value.length == RunLength(s, m.value.start)
              && forall q :: p <= q < m.value.start ==> !RunAt(s, q)
    decreases |s| - p
  {
    RunLengthAccepts(s, p);
    if RunLength(s, p) >= MinIdLength then Some(IdMatch(p, RunLength(s, p)))
    else if p == |s| then None
    else Scan(s, p + 1)
  }

  /** `Regex.Match(input, "[-\w]{25,}").Value`. */
  function ExtractId(s: string): (id: string)
    ensures id == [] <==> forall q :: 0 <= q <= |s| ==> !RunAt(s, q)
    ensures id != [] ==> |id| >= MinIdLength && AllIdChars(id)
  {
    match Scan(s, 0)
    case None => []
    case Some(m) => s[m.start .. m.start + m.length]
  }

  /** A non-empty result is the leftmost accepted run, taken whole: it is a
      substring of the input, no run starts earlier, and the character just
      after it is not an identifier character (ScanLeftBoundary gives the
      one just before it). */
  lemma ExtractIdLeftmostMaximal(s: string)
    requires ExtractId(s) != []
    ensures Scan(s, 0).Some?
    ensures var m := Scan(s, 0).value;
            && ExtractId(s) == s[m.start .. m.start + m.length]
            && (forall q :: 0 <= q < m.start ==> !RunAt(s, q))
            && (m.start + m.length == |s| || !IsIdChar(s[m.start + m.length]))
  {
    ScanMatchText(s);
    ScanRightBoundary(s);
  }

  lemma ScanMatchText(s: string)
    requires Scan(s, 0).Some?
    ensures var m := Scan(s, 0).value; ExtractId(s) == s[m.start .. m.start + m.length]
  {
  }

  lemma ScanRightBoundary(s: string)
    requires Scan(s, 0).Some?
    ensures var m := Scan(s, 0).value; m.start + m.length == |s| || !IsIdChar(s[m.start + m.length])
  {
  }

  /** The leftmost run is preceded by the start of the input or a separator. */
  lemma ScanLeftBoundary(s: string)
    requires Scan(s, 0).Some?
    ensures var p := Scan(s, 0).value.start; p == 0 || !IsIdChar(s[p - 1])
  {
    var p := Scan(s, 0).value.start;
    if p > 0 {
      assert RunAt(s, p) && !RunAt(s, p - 1);
      LeftBoundary(s, p);
    }
  }

  /** A run that starts at `p` but not one place earlier has a separator just before it. */
  lemma LeftBoundary(s: string, p: int)
    requires 0 < p && RunAt(s, p) && !RunAt(s, p - 1)
    ensures !IsIdChar(s[p - 1])
  {
  }

  /** A bare identifier passes through unchanged. */
  lemma ExtractIdOfId(t: string)
    requires |t| >= MinIdLength && AllIdChars(t)
    ensures ExtractId(t) == t
  {
    assert RunAt(t, 0);
    RunLengthAll(t, 0);
  }

  lemma {:induction false} RunLengthAll(t: string, p: nat)
    requires p <= |t| && AllIdChars(t)
    ensures RunLength(t, p) == |t| - p
    decreases |t| - p
  {
    if p < |t| {
      RunLengthAll(t, p + 1);
    }
  }

  /** Extraction is idempotent: extracting again from an extracted id gives it back. */
  lemma ExtractIdIdempotent(s: string)
    ensures ExtractId(ExtractId(s)) == ExtractId(s)
  {
    var id := ExtractId(s);
    if id != [] {
      ExtractIdOfId(id);
    } else {
      assert !RunAt(id, 0);
    }
  }

  /** An identifier pasted inside a link: when the text before it holds no
      accepted run and ends in a separator, and the text after it is empty
      or starts with one, the identifier is what comes out. */
  lemma ExtractIdFromLink(prefix: string, t: string, suffix: string)
    requires |t| >= MinIdLength && AllIdChars(t)
    requires forall q :: 0 <= q <= |prefix| ==> !RunAt(prefix, q)
    requires prefix == [] || !IsIdChar(prefix[|prefix| - 1])
    requires suffix == [] || !IsIdChar(suffix[0])
    ensures ExtractId(prefix + t + suffix) == t
  {
    var s := prefix + t + suffix;
    forall q | 0 <= q < |prefix|
      ensures !RunAt(s, q)
    {
      if q + MinIdLength <= |prefix| {
        assert forall i :: q <= i < q + MinIdLength ==> prefix[i] == s[i];
        assert !RunAt(prefix, q);
      } else {
        assert s[|prefix| - 1] == prefix[|prefix| - 1];
      }
    }
    assert RunAt(s, |prefix|);
    var m := Scan(s, 0).value;
    assert m.start == |prefix|;
    RunLengthAll(t, 0);
    RunLengthShift(prefix, t, suffix, 0);
  }

  /** Inside `t`, the greedy reach is the same with or without the text around it. */
  lemma {:induction false} RunLengthShift(prefix: string, t: string, suffix: string, p: nat)
    requires p <= |t| && AllIdChars(t)
    requires suffix == [] || !IsIdChar(suffix[0])
    ensures RunLength(prefix + t + suffix, |prefix| + p) == |t| - p
    decreases |t| - p
  {
    var s := prefix + t + suffix;
    if p < |t| {
      assert s[|prefix| + p] == t[p];
      RunLengthShift(prefix, t, suffix, p + 1);
    } else if suffix != [] {
      assert s[|prefix| + p] == suffix[0];
    }
  }
}
