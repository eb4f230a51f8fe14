/** Layered detection of PII spans (`pii/detector.py`) and their back-to-front
    replacement (`pii/redactor.py`). What each pattern matches is an input: a
    list of candidate spans per pattern, patterns in priority order. */
module Pii {
  datatype Entity = AADHAAR | PAN | PHONE | ACCOUNT_NUMBER | UPI_ID | NAME | AMOUNT

  datatype Span = Span(start: nat, end: nat, entity: Entity)

  // The detector's test.
  predicate Overlap(a: Span, b: Span) {
    a.start < b.end && b.start < a.end
  }

  // Some position of the text lies in both spans.
  ghost predicate Share(a: Span, b: Span) {
    exists x: nat :: Covers(a, x) && Covers(b, x)
  }

  predicate Covers(s: Span, x: nat) {
    s.start <= x < s.end
  }

  // A regular expression match: in bounds and never empty.
  predicate Match(s: Span, length: nat) {
    s.start < s.end <= length
  }

  // Of two matches the test is right.
  lemma OverlapIffShare(a: Span, b: Span, length: nat)
    requires Match(a, length) && Match(b, length)
    ensures Overlap(a, b) <==> Share(a, b)
  {
    if Overlap(a, b) {
      var x := if a.start < b.start then b.start else a.start;
      assert Covers(a, x) && Covers(b, x);
    }
  }

  function Flatten(lists: seq<seq<Span>>): seq<Span> {
    if lists == [] then [] else Flatten(lists[..|lists| - 1]) + lists[|lists| - 1]
  }

  // ------------------------------------------------------------------
  // Which candidates are claimed
  // ------------------------------------------------------------------

  // Candidate k shares no position with a claimed candidate of higher priority, that is, one before it.
  ghost predicate Unopposed(cands: seq<Span>, claimed: set<nat>, k: nat)
    requires k < |cands|
  {
    forall j :: j in claimed && j < k ==> !Share(cands[j], cands[k])
  }

  /** The claims are by priority when a candidate is claimed exactly if it is
      unopposed: what is rejected shares a position with a claim made before it. */
  ghost predicate ByPriority(cands: seq<Span>, claimed: set<nat>) {
    && (forall k :: k in claimed ==> k < |cands|)
    && forall k :: 0 <= k < |cands| ==> (k in claimed <==> Unopposed(cands, claimed, k))
  }

  /** The positions claimed by going through the candidates in order. */
  ghost function Chosen(cands: seq<Span>): set<nat> {
    if cands == [] then {}
    else
      var n := |cands| - 1;
      var before := Chosen(cands[..n]);
      if Unopposed(cands, before, n) then before + {n} else before
  }

  lemma {:induction false} ChosenByPriority(cands: seq<Span>)
    ensures ByPriority(cands, Chosen(cands))
  {
    if cands != [] {
      var n := |cands| - 1;
      ChosenByPriority(cands[..n]);
      var before := Chosen(cands[..n]);
      forall k | 0 <= k < n
        ensures Unopposed(cands, Chosen(cands), k) <==> Unopposed(cands[..n], before, k)
      {
      }
      assert Unopposed(cands, Chosen(cands), n) <==> Unopposed(cands, before, n);
    }
  }

  /** Priority decides everything: only one set of claims is by priority. */
  lemma {:induction false} PriorityDecides(cands: seq<Span>, a: set<nat>, b: set<nat>, k: nat)
    requires ByPriority(cands, a) && ByPriority(cands, b) && k <= |cands|
    ensures forall j :: 0 <= j < k ==> (j in a <==> j in b)
  {
    if k > 0 {
      PriorityDecides(cands, a, b, k - 1);
      assert Unopposed(cands, a, k - 1) <==> Unopposed(cands, b, k - 1);
    }
  }

  ghost predicate IsClaimed(cands: seq<Span>, s: Span) {
    exists k :: k in Chosen(cands) && k < |cands| && cands[k] == s
  }

  // r holds exactly the claimed candidates.
  ghost predicate Holds(cands: seq<Span>, r: seq<Span>) {
    forall s :: s in r <==> IsClaimed(cands, s)
  }

  predicate ClearOf(r: seq<Span>, c: Span) {
    forall i :: 0 <= i < |r| ==> !Overlap(r[i], c)
  }

  lemma ClearMeansUnopposed(cands: seq<Span>, c: Span, r: seq<Span>, length: nat)
    requires Holds(cands, r) && AllMatch(r, length) && Match(c, length)
    ensures Unopposed(cands + [c], Chosen(cands), |cands|) <==> ClearOf(r, c)
  {
    var n, grown := |cands|, cands + [c];
    if ClearOf(r, c) {
      forall j | j in Chosen(cands) && j < n
        ensures !Share(grown[j], grown[n])
      {
        assert IsClaimed(cands, cands[j]);
        assert cands[j] in r;
        OverlapIffShare(cands[j], c, length);
      }
    } else {
      var i :| 0 <= i < |r| && Overlap(r[i], c);
      assert r[i] in r && IsClaimed(cands, r[i]);
      var k :| k in Chosen(cands) && k < n && cands[k] == r[i];
      OverlapIffShare(r[i], c, length);
      assert Share(grown[k], grown[n]);
    }
  }

  lemma ChosenGrows(cands: seq<Span>, c: Span, r: seq<Span>, length: nat)
    requires Holds(cands, r) && AllMatch(r, length) && Match(c, length)
    ensures Chosen(cands + [c]) == if ClearOf(r, c) then Chosen(cands) + {|cands|} else Chosen(cands)
  {
    assert (cands + [c])[..|cands|] == cands;
    ClearMeansUnopposed(cands, c, r, length);
  }

  lemma ClaimStep(cands: seq<Span>, c: Span, r: seq<Span>, length: nat)
    requires Holds(cands, r) && AllMatch(r, length) && Match(c, length)
    ensures Holds(cands + [c], if ClearOf(r, c) then r + [c] else r)
  {
    var n, grown := |cands|, cands + [c];
    ChosenGrows(cands, c, r, length);
    ChosenByPriority(cands);
    forall s
      ensures IsClaimed(grown, s) <==> IsClaimed(cands, s) || (ClearOf(r, c) && s == c)
    {
      if IsClaimed(cands, s) {
        var k :| k in Chosen(cands) && k < n && cands[k] == s;
        assert grown[k] == s;
      }
      if IsClaimed(grown, s) {
        var k :| k in Chosen(grown) && k < |grown| && grown[k] == s;
        assert k < n ==> cands[k] == s;
      }
      if ClearOf(r, c) && s == c {
        assert n in Chosen(grown) && grown[n] == c;
      }
    }
  }

  // ------------------------------------------------------------------
  // Sorting the claimed spans by start
  // ------------------------------------------------------------------

  // Non-empty spans in text order, none reaching into the next, all in [from, to].
  predicate LaidOut(spans: seq<Span>, from: nat, to: nat) {
    if spans == [] then from <= to
    else from <= spans[0].start < spans[0].end && LaidOut(spans[1..], spans[0].end, to)
  }

  function Place(s: Span, r: seq<Span>): seq<Span> {
    if r == [] || s.start < r[0].start then [s] + r else [r[0]] + Place(s, r[1..])
  }

  // spans.sort(key=start)
  function SortByStart(spans: seq<Span>): seq<Span> {
    if spans == [] then [] else Place(spans[|spans| - 1], SortByStart(spans[..|spans| - 1]))
  }

  // Each span is clear of every one before it.
  predicate Apart(spans: seq<Span>) {
    spans == [] || (Apart(spans[..|spans| - 1]) && ClearOf(spans[..|spans| - 1], spans[|spans| - 1]))
  }

  predicate AllMatch(spans: seq<Span>, length: nat) {
    forall i :: 0 <= i < |spans| ==> Match(spans[i], length)
  }

  lemma {:induction false} PlaceHolds(s: Span, r: seq<Span>, x: Span)
    ensures x in Place(s, r) <==> x == s || x in r
  {
    if r != [] && r[0].start <= s.start {
      PlaceHolds(s, r[1..], x);
      assert r == [r[0]] + r[1..];
    }
  }

  lemma {:induction false} PlaceLaysOut(s: Span, r: seq<Span>, from: nat, to: nat)
    requires LaidOut(r, from, to) && from <= s.start && Match(s, to) && ClearOf(r, s)
    ensures LaidOut(Place(s, r), from, to)
  {
    if r != [] {
      assert !Overlap(r[0], s);
      if s.start < r[0].start {
        assert ([s] + r)[1..] == r;
      } else {
        forall i | 0 <= i < |r[1..]| ensures !Overlap(r[1..][i], s) { assert r[1..][i] == r[i + 1]; }
        PlaceLaysOut(s, r[1..], r[0].end, to);
        assert ([r[0]] + Place(s, r[1..]))[1..] == Place(s, r[1..]);
      }
    }
  }

  lemma {:induction false} SortHolds(spans: seq<Span>, x: Span)
    ensures x in SortByStart(spans) <==> x in spans
  {
    if spans != [] {
      var n := |spans| - 1;
      SortHolds(spans[..n], x);
      PlaceHolds(spans[n], SortByStart(spans[..n]), x);
      assert spans == spans[..n] + [spans[n]];
    }
  }

  lemma {:induction false} SortLaysOut(spans: seq<Span>, to: nat)
    requires Apart(spans) && AllMatch(spans, to)
    ensures LaidOut(SortByStart(spans), 0, to)
  {
    if spans != [] {
      var n := |spans| - 1;
      var r := SortByStart(spans[..n]);
      SortLaysOut(spans[..n], to);
      forall i | 0 <= i < |r|
        ensures !Overlap(r[i], spans[n])
      {
        SortHolds(spans[..n], r[i]);
      }
      PlaceLaysOut(spans[n], r, 0, to);
    }
  }

  // What was claimed is in the result; what was not shares a position with an earlier claim, which is.
  lemma RejectedShares(cands: seq<Span>, spans: seq<Span>, k: nat)
    requires Holds(cands, spans) && k < |cands| && cands[k] !in spans
    ensures exists j :: 0 <= j < k && cands[j] in spans && Share(cands[j], cands[k])
  {
    ChosenByPriority(cands);
    assert IsClaimed(cands, cands[k]) <==> cands[k] in spans;
    assert !Unopposed(cands, Chosen(cands), k);
    var j :| j in Chosen(cands) && j < k && Share(cands[j], cands[k]);
    assert IsClaimed(cands, cands[j]);
  }

  /** The detector. Its result holds exactly the spans claimed by priority, in
      text order and pairwise disjoint, and every candidate it leaves out shares a
      text position with one of higher priority that it returns. */
  method Detect(length: nat, lists: seq<seq<Span>>) returns (spans: seq<Span>)
    requires forall p :: 0 <= p < |lists| ==> AllMatch(lists[p], length)
    ensures Holds(Flatten(lists), spans) && LaidOut(spans, 0, length)
    ensures var cands := Flatten(lists);
            forall k :: 0 <= k < |cands| && cands[k] !in spans ==>
                          exists j :: 0 <= j < k && cands[j] in spans && Share(cands[j], cands[k])
  {
    var claimed: seq<Span> := [];
    for p := 0 to |lists|
      invariant Holds(Flatten(lists[..p]), claimed)
      invariant Apart(claimed) && AllMatch(claimed, length)
    {
      ghost var done := Flatten(lists[..p]);
      assert done + lists[p][..0] == done;
      for m := 0 to |lists[p]|
        invariant Holds(done + lists[p][..m], claimed)
        invariant Apart(claimed) && AllMatch(claimed, length)
      {
        var c := lists[p][m];
        assert done + lists[p][..m + 1] == done + lists[p][..m] + [c];
        ClaimStep(done + lists[p][..m], c, claimed, length);
        if exists i :: 0 <= i < |claimed| && Overlap(claimed[i], c) {
          continue;
        }
        assert (claimed + [c])[..|claimed|] == claimed;
        claimed := claimed + [c];
      }
      assert lists[p][..|lists[p]|] == lists[p];
      assert lists[..p + 1][..p] == lists[..p];
    }
    assert lists[..|lists|] == lists;
    spans := SortByStart(claimed);
    SortLaysOut(claimed, length);
    forall s
      ensures s in SortByStart(claimed) <==> s in claimed
    {
      SortHolds(claimed, s);
    }
    forall k | 0 <= k < |Flatten(lists)| && Flatten(lists)[k] !in spans
      ensures exists j :: 0 <= j < k && Flatten(lists)[j] in spans && Share(Flatten(lists)[j], Flatten(lists)[k])
    {
      RejectedShares(Flatten(lists), spans, k);
    }
  }

  // ------------------------------------------------------------------
  // Redaction
  // ------------------------------------------------------------------

  function Name(e: Entity): string {
    match e
    case AADHAAR => "AADHAAR"
    case PAN => "PAN"
    case PHONE => "PHONE"
    case ACCOUNT_NUMBER => "ACCOUNT_NUMBER"
    case UPI_ID => "UPI_ID"
    case NAME => "NAME"
    case AMOUNT => "AMOUNT"
  }

  function Placeholder(e: Entity): string { "[" + Name(e) + "]" }

  lemma NamesDiffer(e: Entity, f: Entity)
    ensures Name(e) == Name(f) <==> e == f
  {
    assert e.UPI_ID? ==> Name(e)[0] == 'U';
    assert f.UPI_ID? ==> Name(f)[0] == 'U';
  }

  /** A placeholder is bracketed and tells which kind of entity stood there. */
  lemma PlaceholdersTell(e: Entity, f: Entity)
    ensures Placeholder(e) == Placeholder(f) <==> e == f
    ensures var p := Placeholder(e); 2 <= |p| && p[0] == '[' && p[|p| - 1] == ']'
  {
    assert Placeholder(e)[1..|Placeholder(e)| - 1] == Name(e);
    assert Placeholder(f)[1..|Placeholder(f)| - 1] == Name(f);
    NamesDiffer(e, f);
  }

  /** Left to right: the text between spans untouched, a placeholder for each
      span, and the text after the last. */
  function Weave(text: string, from: nat, spans: seq<Span>): string
    requires LaidOut(spans, from, |text|)
    decreases |spans|
  {
    if spans == [] then text[from..]
    else
      LaidOutFits(spans[1..], spans[0].end, |text|);
      text[from..spans[0].start] + (Placeholder(spans[0].entity) + Weave(text, spans[0].end, spans[1..]))
  }

  lemma {:induction false} LaidOutFits(spans: seq<Span>, from: nat, to: nat)
    requires LaidOut(spans, from, to)
    ensures from <= to
    decreases |spans|
  {
    if spans != [] {
      LaidOutFits(spans[1..], spans[0].end, to);
    }
  }

  // Starting earlier only keeps more of the text in front.
  lemma WeaveEarlier(text: string, from: nat, at: nat, spans: seq<Span>)
    requires from <= at && LaidOut(spans, at, |text|)
    ensures LaidOut(spans, from, |text|) && at <= |text|
    ensures Weave(text, from, spans) == text[from..at] + Weave(text, at, spans)
  {
    LaidOutFits(spans, at, |text|);
    if spans == [] {
      assert text[from..] == text[from..at] + text[at..];
    } else {
      LaidOutFits(spans[1..], spans[0].end, |text|);
      var s := spans[0];
      var rest := Placeholder(s.entity) + Weave(text, s.end, spans[1..]);
      assert text[from..s.start] == text[from..at] + text[at..s.start];
      Regroup(text[from..at], text[at..s.start], rest);
    }
  }

  lemma Regroup(a: string, b: string, c: string)
    ensures (a + b) + c == a + (b + c)
  {
  }

  // The spans from position i on are laid out after the end of span i - 1.
  lemma {:induction false} LaidOutFrom(spans: seq<Span>, from: nat, to: nat, i: nat)
    requires LaidOut(spans, from, to) && i <= |spans|
    ensures LaidOut(spans[i..], if i == 0 then from else spans[i - 1].end, to)
    ensures i < |spans| ==> from <= spans[i].start
    decreases i
  {
    if i > 0 {
      LaidOutFrom(spans[1..], spans[0].end, to, i - 1);
      assert spans[1..][i - 1..] == spans[i..];
    }
  }

  // One splice at the front span turns the weave of the later spans into the weave of all.
  lemma SpliceWeaves(text: string, spans: seq<Span>, from: nat)
    requires spans != [] && LaidOut(spans, from, |text|)
    ensures LaidOut(spans, 0, |text|) && LaidOut(spans[1..], 0, |text|)
    ensures var later := Weave(text, 0, spans[1..]);
            && spans[0].end <= |later|
            && Weave(text, 0, spans) ==
               later[..spans[0].start] + Placeholder(spans[0].entity) + later[spans[0].end..]
  {
    var s := spans[0];
    WeaveEarlier(text, 0, s.end, spans[1..]);
    Regroup(text[0..s.start], Placeholder(s.entity), Weave(text, s.end, spans[1..]));
    var later := Weave(text, 0, spans[1..]);
    assert later[..s.start] == text[0..s.start];
    assert later[s.end..] == Weave(text, s.end, spans[1..]);
  }

  /** Replacing spans from the back, each in the text as changed so far, gives
      the left-to-right result: earlier offsets are never disturbed. */
  method Redact(text: string, spans: seq<Span>) returns (redacted: string)
    requires LaidOut(spans, 0, |text|)
    ensures redacted == Weave(text, 0, spans)
  {
    redacted := text;
    var i := |spans|;
    while 0 < i
      invariant 0 <= i <= |spans|
      invariant LaidOut(spans[i..], 0, |text|) && redacted == Weave(text, 0, spans[i..])
    {
      i := i - 1;
      var s := spans[i];
      LaidOutFrom(spans, 0, |text|, i);
      assert spans[i..][1..] == spans[i + 1..];
      SpliceWeaves(text, spans[i..], if i == 0 then 0 else spans[i - 1].end);
      redacted := redacted[..s.start] + Placeholder(s.entity) + redacted[s.end..];
    }
    assert spans[0..] == spans;
  }

  // A span inside a layout starts no earlier than where the layout begins.
  lemma {:induction false} LaidOutAfter(spans: seq<Span>, from: nat, to: nat, s: Span)
    requires LaidOut(spans, from, to) && s in spans
    ensures from <= s.start < s.end
  {
    if s != spans[0] {
      assert spans == [spans[0]] + spans[1..];
      LaidOutAfter(spans[1..], spans[0].end, to, s);
    }
  }

  // The front span of one layout is the front span of any other of the same spans.
  lemma SameFront(a: seq<Span>, b: seq<Span>, from: nat, to: nat)
    requires LaidOut(a, from, to) && LaidOut(b, from, to) && a != [] && b != []
    requires a[0] in b && b[0] in a
    ensures a[0] == b[0]
  {
    assert a == [a[0]] + a[1..] && b == [b[0]] + b[1..];
    if a[0] != b[0] {
      LaidOutAfter(a[1..], a[0].end, to, b[0]);
      LaidOutAfter(b[1..], b[0].end, to, a[0]);
    }
  }

  lemma AfterFront(a: seq<Span>, from: nat, to: nat, s: Span)
    requires a != [] && LaidOut(a, from, to)
    ensures s in a[1..] <==> s in a && s != a[0]
  {
    assert a == [a[0]] + a[1..];
    if s in a[1..] {
      LaidOutAfter(a[1..], a[0].end, to, s);
    }
  }

  /** Spans can be laid out in one way only, so the detector's contract leaves
      one possible result. */
  lemma {:induction false} OneLayout(a: seq<Span>, b: seq<Span>, from: nat, to: nat)
    requires LaidOut(a, from, to) && LaidOut(b, from, to) && forall s :: s in a <==> s in b
    ensures a == b
  {
    assert a != [] ==> a[0] in b;
    assert b != [] ==> b[0] in a;
    if a != [] {
      SameFront(a, b, from, to);
      forall s
        ensures s in a[1..] <==> s in b[1..]
      {
        AfterFront(a, from, to, s);
        AfterFront(b, from, to, s);
      }
      OneLayout(a[1..], b[1..], a[0].end, to);
      assert a == [a[0]] + a[1..] && b == [b[0]] + b[1..];
    }
  }

  // The text with the spans claimed by priority replaced by their placeholders.
  ghost predicate IsRedaction(text: string, cands: seq<Span>, redacted: string) {
    exists spans :: Holds(cands, spans) && LaidOut(spans, 0, |text|) && redacted == Weave(text, 0, spans)
  }

  /** There is one redaction of a text. */
  lemma OneRedaction(text: string, cands: seq<Span>, a: string, b: string)
    requires IsRedaction(text, cands, a) && IsRedaction(text, cands, b)
    ensures a == b
  {
    var x :| Holds(cands, x) && LaidOut(x, 0, |text|) && a == Weave(text, 0, x);
    var y :| Holds(cands, y) && LaidOut(y, 0, |text|) && b == Weave(text, 0, y);
    OneLayout(x, y, 0, |text|);
  }

  /** PIIRedactor.redact */
  method RedactText(text: string, lists: seq<seq<Span>>) returns (redacted: string)
    requires forall p :: 0 <= p < |lists| ==> AllMatch(lists[p], |text|)
    ensures IsRedaction(text, Flatten(lists), redacted)
  {
    var spans := Detect(|text|, lists);
    redacted := Redact(text, spans);
  }
}
