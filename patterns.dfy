/** The two regular expressions the question handlers apply to the question
    text, as the leftmost match Python's `re.search` finds:

    - the column name, `value in the ["']?([^"']*)["']? column`, searched
      case-sensitively, with "answer" when it does not match;
    - the code block, ```` ```python\s*(.*?)\s*``` ```` with `re.DOTALL`. */
module Patterns {
  import opened Wrappers
  import opened Text

  predicate IsQuote(c: char) {
    c == '"' || c == '\''
  }

  predicate NoQuotes(s: string) {
    forall i :: 0 <= i < |s| ==> !IsQuote(s[i])
  }

  const ColumnLead: string := "value in the "
  const ColumnTail: string := " column"
  const DefaultColumn: string := "answer"

  // ---------------------------------------------------------------------
  // Column name
  // ---------------------------------------------------------------------

  /** The regex's own language: `c` is captured by a match that begins at
      `p`. After the lead an optional quote, then `c` (no quote in it), then
      an optional quote, then " column". */
  predicate ColumnAt(q: string, p: nat, c: string) {
    OccursAt(q, ColumnLead, p)
    && var a := p + |ColumnLead|;
       (CapturedAt(q, c, a) || (a < |q| && IsQuote(q[a]) && CapturedAt(q, c, a + 1)))
  }

  /** `c` stands at `a`, is quote-free, and is followed by an optional quote
      and " column". */
  predicate CapturedAt(q: string, c: string, a: nat) {
    OccursAt(q, c, a) && NoQuotes(c)
    && var e := a + |c|;
       (OccursAt(q, ColumnTail, e) || (e < |q| && IsQuote(q[e]) && OccursAt(q, ColumnTail, e + 1)))
  }

  /** Where `[^"']*` stops when it starts at `a`: the first quote at or after
      `a`, or the end of the text. */
  function QuoteFreeEnd(s: string, a: nat): (b: nat)
    requires a <= |s|
    ensures a <= b <= |s|
    ensures forall i :: a <= i < b ==> !IsQuote(s[i])
    ensures b < |s| ==> IsQuote(s[b])
    decreases |s| - a
  {
    if a == |s| || IsQuote(s[a]) then a else QuoteFreeEnd(s, a + 1)
  }

  /** The last index `j` with `a <= j < e` where `sub` occurs. */
  function LastOccurrence(s: string, sub: string, a: nat, e: nat): (r: Option<nat>)
    ensures r.Some? ==> a <= r.value < e && OccursAt(s, sub, r.value)
    ensures r.Some? ==> forall j :: r.value < j < e ==> !OccursAt(s, sub, j)
    ensures r.None? ==> forall j :: a <= j < e ==> !OccursAt(s, sub, j)
    decreases e
  {
    if e <= a then None
    else if OccursAt(s, sub, e - 1) then Some(e - 1)
    else LastOccurrence(s, sub, a, e - 1)
  }

  /** The regex tried at the one start `p`, with its backtracking: the
      optional quote is taken when present, the group first runs to the next
      quote `b` and tries the closing quote and " column" there, and
      otherwise gives back characters until " column" follows it. What it
      captures is the longest capture the pattern allows at `p`. */
  function ColumnMatchAt(q: string, p: nat): (r: Option<string>)
    requires OccursAt(q, ColumnLead, p)
    ensures r.Some? ==> ColumnAt(q, p, r.value)
    ensures r.Some? ==> forall c :: ColumnAt(q, p, c) ==> |c| <= |r.value|
    ensures r.None? ==> forall c :: !ColumnAt(q, p, c)
  {
    var a0 := p + |ColumnLead|;
    var a := if a0 < |q| && IsQuote(q[a0]) then a0 + 1 else a0;
    var b := QuoteFreeEnd(q, a);
    if b < |q| && OccursAt(q, ColumnTail, b + 1) then
      CapturedInRun(q, p, a, b);
      assert forall c :: ColumnAt(q, p, c) ==> |c| <= b - a by {
        forall c | ColumnAt(q, p, c) ensures |c| <= b - a {
          CaptureBound(q, p, c, a, b);
        }
      }
      Some(q[a..b])
    else
      match LastOccurrence(q, ColumnTail, a, b)
      case Some(e) =>
        CapturedInRun(q, p, a, e);
        assert forall c :: ColumnAt(q, p, c) ==> |c| <= e - a by {
          forall c | ColumnAt(q, p, c) ensures |c| <= e - a {
            CaptureBound(q, p, c, a, b);
          }
        }
        Some(q[a..e])
      case None =>
        assert forall c :: !ColumnAt(q, p, c) by {
          forall c | ColumnAt(q, p, c) ensures false {
            CaptureBound(q, p, c, a, b);
          }
        }
        None
  }

  /** A slice of the quote-free run from the group start `a`, followed by
      an optional quote and " column", is what a match at `p` captures. */
  lemma CapturedInRun(q: string, p: nat, a: nat, e: nat)
    requires OccursAt(q, ColumnLead, p)
    requires a == (if p + |ColumnLead| < |q| && IsQuote(q[p + |ColumnLead|]) then p + |ColumnLead| + 1 else p + |ColumnLead|)
    requires a <= e <= QuoteFreeEnd(q, a)
    requires OccursAt(q, ColumnTail, e) || (e < |q| && IsQuote(q[e]) && OccursAt(q, ColumnTail, e + 1))
    ensures ColumnAt(q, p, q[a..e])
  {
    var c := q[a..e];
    forall i | 0 <= i < |c| ensures !IsQuote(c[i]) {
      assert c[i] == q[a + i];
    }
    assert CapturedAt(q, c, a);
  }

  /** Every capture the pattern allows at `p` ends within the quote-free
      run `[a, b)` from the group start, or at its closing quote `b`; when
      " column" does not follow that quote, it ends where " column" starts,
      before `b`. */
  lemma CaptureBound(q: string, p: nat, c: string, a: nat, b: nat)
    requires ColumnAt(q, p, c)
    requires a == (if p + |ColumnLead| < |q| && IsQuote(q[p + |ColumnLead|]) then p + |ColumnLead| + 1 else p + |ColumnLead|)
    requires b == QuoteFreeEnd(q, a)
    ensures a + |c| <= b
    ensures !(b < |q| && OccursAt(q, ColumnTail, b + 1)) ==> a + |c| < b && OccursAt(q, ColumnTail, a + |c|)
  {
    var a0 := p + |ColumnLead|;
    if a == a0 + 1 && CapturedAt(q, c, a0) {
      CaptureOnOpeningQuote(q, c, a0, b);
    } else {
      CaptureAtGroupStart(q, c, a, b);
    }
  }

  /** A group that started on the opening quote at `a0` is empty and was
      closed by that quote, so " column" starts right after it. */
  lemma CaptureOnOpeningQuote(q: string, c: string, a0: nat, b: nat)
    requires a0 < |q| && IsQuote(q[a0]) && CapturedAt(q, c, a0)
    requires b == QuoteFreeEnd(q, a0 + 1)
    ensures c == [] && a0 + 1 < b && OccursAt(q, ColumnTail, a0 + 1)
  {
    QuoteFreeWithin(q, c, a0, QuoteFreeEnd(q, a0));
    assert q[a0] != ColumnTail[0];
    assert OccursAt(q, ColumnTail, a0 + 1);
    QuoteFreeAcross(q, ColumnTail, a0 + 1, b);
  }

  /** A group that starts at `a` ends within the quote-free run, either
      where " column" starts or on the quote `b` that ends the run. */
  lemma CaptureAtGroupStart(q: string, c: string, a: nat, b: nat)
    requires a <= |q| && CapturedAt(q, c, a) && b == QuoteFreeEnd(q, a)
    ensures a + |c| <= b
    ensures !(b < |q| && OccursAt(q, ColumnTail, b + 1)) ==> a + |c| < b && OccursAt(q, ColumnTail, a + |c|)
  {
    var e := a + |c|;
    QuoteFreeWithin(q, c, a, b);
    if OccursAt(q, ColumnTail, e) {
      QuoteFreeAcross(q, ColumnTail, e, b);
    }
  }

  /** A quote-free occurrence at `a` lies within the quote-free run from `a`. */
  lemma QuoteFreeWithin(q: string, c: string, a: nat, b: nat)
    requires a <= |q| && OccursAt(q, c, a) && NoQuotes(c) && b == QuoteFreeEnd(q, a)
    ensures a + |c| <= b
  {
    forall i | a <= i < a + |c| ensures !IsQuote(q[i]) {
      assert q[i] == c[i - a];
    }
  }

  /** " column" found at `e` (at or after `a`) lies before the first quote. */
  lemma QuoteFreeAcross(q: string, sub: string, e: nat, b: nat)
    requires OccursAt(q, sub, e) && NoQuotes(sub) && sub != []
    requires b <= |q| && (b < |q| ==> IsQuote(q[b]))
    requires e <= b
    ensures e < b
  {
    assert q[e] == sub[0];
  }

  /** The leftmost start at or after `p` where the regex matches, and what
      the match there captures. */
  function ColumnSearch(q: string, p: nat): (r: Option<string>)
    ensures r.Some? ==> exists p' :: p <= p' && OccursAt(q, ColumnLead, p') && ColumnMatchAt(q, p') == r
                                     && forall p'', c :: p <= p'' < p' ==> !ColumnAt(q, p'', c)
    ensures r.None? ==> forall p', c :: p <= p' ==> !ColumnAt(q, p', c)
    decreases |q| - p
  {
    if p + |ColumnLead| > |q| then None
    else if OccursAt(q, ColumnLead, p) && ColumnMatchAt(q, p).Some? then ColumnMatchAt(q, p)
    else ColumnSearch(q, p + 1)
  }

  /** The column name the archive handler reads: what `re.search` captures,
      that is the longest capture at the leftmost start where the pattern
      matches, or "answer" when the question has no match. The name never
      holds a quote, and the lead must appear in lower case. */
  function ColumnName(q: string): (r: string)
    ensures NoQuotes(r)
    ensures (forall p, c :: !ColumnAt(q, p, c)) ==> r == DefaultColumn
  {
    match ColumnSearch(q, 0)
    case Some(c) => c
    case None => DefaultColumn
  }

  /** When the pattern matches somewhere, the column name is the longest
      capture at the leftmost start where it matches. */
  lemma ColumnNameLeftmostLongest(q: string)
    requires exists p, c :: ColumnAt(q, p, c)
    ensures exists p :: ColumnAt(q, p, ColumnName(q))
                        && (forall c :: ColumnAt(q, p, c) ==> |c| <= |ColumnName(q)|)
                        && (forall p', c :: p' < p ==> !ColumnAt(q, p', c))
  {
    var p0, c0 :| ColumnAt(q, p0, c0);
    assert ColumnSearch(q, 0).Some?;
    var p :| 0 <= p && OccursAt(q, ColumnLead, p) && ColumnMatchAt(q, p) == ColumnSearch(q, 0)
             && forall p'', c :: 0 <= p'' < p ==> !ColumnAt(q, p'', c);
    assert ColumnAt(q, p, ColumnName(q));
  }

  /** A question without the lower-case lead "value in the " asks for the
      default column, however the lead is capitalised elsewhere. */
  lemma {:induction false} NoLeadDefaultColumn(q: string)
    requires !Contains(q, ColumnLead)
    ensures ColumnName(q) == DefaultColumn
  {
    ContainsIff(q, ColumnLead);
  }

  /** A quoted column name is captured without its quotes: a question
      that starts with `value in the "name" column` asks for `name`. */
  lemma QuotedColumnName(name: string, rest: string)
    requires NoQuotes(name)
    ensures ColumnName(ColumnLead + "\"" + name + "\"" + ColumnTail + rest) == name
  {
    var q := ColumnLead + "\"" + name + "\"" + ColumnTail + rest;
    var a := |ColumnLead| + 1;
    var b := a + |name|;
    assert q[..|ColumnLead|] == ColumnLead;
    assert IsQuote(q[|ColumnLead|]);
    assert q[a..b] == name;
    QuoteFreeEndAt(q, a, b);
    assert q[b + 1..b + 1 + |ColumnTail|] == ColumnTail;
    assert ColumnMatchAt(q, 0) == Some(name);
  }

  /** `QuoteFreeEnd` stops at the first quote. */
  lemma {:induction false} QuoteFreeEndAt(s: string, a: nat, e: nat)
    requires a <= e < |s| && IsQuote(s[e])
    requires NoQuotes(s[a..e])
    ensures QuoteFreeEnd(s, a) == e
    decreases e - a
  {
    if a < e {
      assert s[a] == s[a..e][0];
      assert s[a + 1..e] == s[a..e][1..];
      QuoteFreeEndAt(s, a + 1, e);
    }
  }

  // ---------------------------------------------------------------------
  // Fenced code block
  // ---------------------------------------------------------------------

  const FenceOpen: string := "```python"
  const FenceClose: string := "```"

  /** Where a greedy `\s*` starting at `i` stops. */
  function SkipSpaces(s: string, i: nat): (j: nat)
    requires i <= |s|
    ensures i <= j <= |s|
    ensures forall k :: i <= k < j ==> IsSpace(s[k])
    ensures j < |s| ==> !IsSpace(s[j])
    decreases |s| - i
  {
    if i < |s| && IsSpace(s[i]) then SkipSpaces(s, i + 1) else i
  }

  /** `\s*```` matches at `e`. Giving back whitespace cannot help the
      backticks match, so trying the greedy run is enough. */
  predicate ClosesAt(s: string, e: nat)
    requires e <= |s|
  {
    OccursAt(s, FenceClose, SkipSpaces(s, e))
  }

  /** The lazy group `(.*?)` stops at the first `e >= i` where the closing
      part matches. */
  function FirstClose(s: string, i: nat): (r: Option<nat>)
    requires i <= |s|
    ensures r.Some? ==> i <= r.value <= |s| && ClosesAt(s, r.value)
    ensures r.Some? ==> forall e :: i <= e < r.value ==> !ClosesAt(s, e)
    ensures r.None? ==> forall e :: i <= e <= |s| ==> !ClosesAt(s, e)
    decreases |s| - i
  {
    if ClosesAt(s, i) then Some(i)
    else if i == |s| then None
    else FirstClose(s, i + 1)
  }

  /** The code of the first fenced Python block: the text from the end of
      the whitespace after the leftmost "```python" to where the lazy group
      stops. The search can stop at the first opener: when it has no
      closing fence, no later opener has one either. */
  function FenceBlock(q: string): (r: Option<string>)
    ensures r.Some? ==> exists i: nat :: OccursAt(q, FenceOpen, i) && (forall j: nat :: j < i ==> !OccursAt(q, FenceOpen, j))
                                    && FenceMatchAt(q, i) == r
    ensures r.None? ==> forall i: nat :: OccursAt(q, FenceOpen, i) ==> FenceMatchAt(q, i).None?
  {
    match IndexOf(q, FenceOpen, 0)
    case None => None
    case Some(i) =>
      var s := SkipSpaces(q, i + |FenceOpen|);
      match FirstClose(q, s)
      case None =>
        LaterOpenersFail(q, i);
        None
      case Some(e) => Some(q[s..e])
  }

  /** The pattern tried at an opener at `i`: the greedy `\s*`, then the
      lazy group up to the first closing `\s*```. */
  function FenceMatchAt(q: string, i: nat): Option<string>
    requires OccursAt(q, FenceOpen, i)
  {
    var s := SkipSpaces(q, i + |FenceOpen|);
    match FirstClose(q, s)
    case None => None
    case Some(e) => Some(q[s..e])
  }

  /** When the leftmost opener has no closing fence, no opener has one. */
  lemma LaterOpenersFail(q: string, i: nat)
    requires IndexOf(q, FenceOpen, 0) == Some(i)
    requires FirstClose(q, SkipSpaces(q, i + |FenceOpen|)).None?
    ensures forall i': nat :: OccursAt(q, FenceOpen, i') ==> FenceMatchAt(q, i').None?
  {
    forall i': nat | OccursAt(q, FenceOpen, i') ensures FenceMatchAt(q, i').None? {
      SkipSpacesMonotone(q, i + |FenceOpen|, i' + |FenceOpen|);
      NoCloseFrom(q, SkipSpaces(q, i + |FenceOpen|), SkipSpaces(q, i' + |FenceOpen|));
    }
  }

  /** `\s*` from a later position never stops earlier. */
  lemma {:induction false} SkipSpacesMonotone(s: string, x: nat, y: nat)
    requires x <= y <= |s|
    ensures SkipSpaces(s, x) <= SkipSpaces(s, y)
    decreases y - x
  {
    if x < y && IsSpace(s[x]) {
      SkipSpacesMonotone(s, x + 1, y);
    }
  }

  /** No closing fence from `s` means none from any later `s'`. */
  lemma NoCloseFrom(q: string, s: nat, s': nat)
    requires s <= s' <= |q| && FirstClose(q, s).None?
    ensures FirstClose(q, s').None?
  {
  }

  /** One step of `\s*`: whitespace at `e` is skipped, anything else stops
      it. */
  lemma SkipSpacesStep(s: string, e: nat)
    requires e < |s|
    ensures IsSpace(s[e]) ==> SkipSpaces(s, e) == SkipSpaces(s, e + 1)
    ensures !IsSpace(s[e]) ==> SkipSpaces(s, e) == e
  {
  }

  /** The extracted code is already trimmed: the leading `\s*` took the
      whitespace before it, and the lazy group stops before whitespace that
      precedes the closing fence. */
  lemma {:induction false} FenceBlockTrimmed(q: string)
    requires FenceBlock(q).Some?
    ensures Strip(FenceBlock(q).value) == FenceBlock(q).value
  {
    var i := IndexOf(q, FenceOpen, 0).value;
    var s := SkipSpaces(q, i + |FenceOpen|);
    var e := FirstClose(q, s).value;
    var c := q[s..e];
    assert c == FenceBlock(q).value;
    if s < e {
      GroupEndNotSpace(q, s, e);
    }
    TrimmedSlice(q, s, e);
  }

  /** The character before the end of the lazy group is not whitespace:
      it would have been taken by the closing `\s*` one step earlier. */
  lemma GroupEndNotSpace(q: string, s: nat, e: nat)
    requires s < e <= |q| && FirstClose(q, s) == Some(e)
    ensures !IsSpace(q[e - 1])
  {
    assert !ClosesAt(q, e - 1);
    SkipSpacesStep(q, e - 1);
  }

  /** A slice whose first and last characters are not whitespace is its
      own `strip()`. */
  lemma TrimmedSlice(q: string, s: nat, e: nat)
    requires s <= e <= |q|
    requires s < |q| ==> !IsSpace(q[s])
    requires s < e ==> !IsSpace(q[e - 1])
    ensures Strip(q[s..e]) == q[s..e]
  {
    var c := q[s..e];
    if c != [] {
      assert c[0] == q[s];
      assert c[|c| - 1] == q[e - 1];
    }
    StripTrimmed(c);
  }

  /** The extracted code never contains the closing fence "```". */
  lemma {:induction false} FenceBlockUnfenced(q: string)
    requires FenceBlock(q).Some?
    ensures !Contains(FenceBlock(q).value, FenceClose)
  {
    var i := IndexOf(q, FenceOpen, 0).value;
    var s := SkipSpaces(q, i + |FenceOpen|);
    var e := FirstClose(q, s).value;
    var c := q[s..e];
    assert c == FenceBlock(q).value;
    forall k: nat | k + |FenceClose| <= |c| ensures !OccursAt(c, FenceClose, k) {
      NoCloseInside(q, s, e, k);
    }
    ContainsIff(c, FenceClose);
  }

  /** A fence inside the group would have ended the lazy group earlier. */
  lemma NoCloseInside(q: string, s: nat, e: nat, k: nat)
    requires s <= |q| && FirstClose(q, s) == Some(e) && s + k + |FenceClose| <= e
    ensures !OccursAt(q[s..e], FenceClose, k)
  {
    var j := s + k;
    assert !ClosesAt(q, j);
    SkipSpacesStep(q, j);
    OccursInSlice(q, FenceClose, s, e, k);
    assert !IsSpace('`');
  }

  /** An occurrence inside the slice `q[s..e]` is one in `q`, shifted. */
  lemma OccursInSlice(q: string, sub: string, s: nat, e: nat, k: nat)
    requires s <= e <= |q| && sub != []
    ensures OccursAt(q[s..e], sub, k) ==> OccursAt(q, sub, s + k) && q[s + k] == sub[0]
  {
    if OccursAt(q[s..e], sub, k) {
      var c := q[s..e];
      forall i | 0 <= i < |sub| ensures q[s + k + i] == sub[i] {
        assert c[k..k + |sub|][i] == sub[i];
        assert c[k..k + |sub|][i] == c[k + i] == q[s + k + i];
      }
      assert q[s + k..s + k + |sub|] == sub;
    }
  }
}
