/** Removing secrets from diagnostic text: finding them in every decoded view,
    mapping each match back to the original text, and cutting the union out. */
module Scrubber {
  import opened Journal
  import opened PercentText

  const MAX_INPUT_LENGTH: nat := 65_536
  const MAX_OUTPUT_LENGTH: nat := 4_096
  const MAX_PERCENT_DECODE_PASSES: nat := 2

  datatype Range = Range(start: nat, end: nat)

  // Finding

  predicate OccursAt(text: Text, secret: Text, at: nat) {
    at + |secret| <= |text| && text[at..at + |secret|] == secret
  }

  /** The next occurrence at or after `from`. */
  method IndexOf(text: Text, secret: Text, from: nat) returns (r: Option<nat>)
    ensures r.Some? ==> r.value >= from && OccursAt(text, secret, r.value)
    ensures r.Some? ==> forall k :: from <= k < r.value ==> !OccursAt(text, secret, k)
    ensures r.None? ==> forall k :: from <= k ==> !OccursAt(text, secret, k)
  {
    var at := from;
    while at + |secret| <= |text|
      invariant from <= at && forall k :: from <= k < at ==> !OccursAt(text, secret, k)
      decreases |text| - at
    {
      if text[at..at + |secret|] == secret { return Some(at); }
      at := at + 1;
    }
    return None;
  }

  /** Adds exactly the occurrences of the secret, overlapping ones included. */
  method CollectLiteralRanges(text: Text, secret: Text, ranges: seq<Range>) returns (r: seq<Range>)
    ensures |secret| == 0 ==> r == ranges
    ensures |secret| > 0 ==> forall q :: q in r <==> q in ranges || (q.end == q.start + |secret| && OccursAt(text, secret, q.start))
  {
    r := ranges;
    if |secret| == 0 { return; }
    var start := IndexOf(text, secret, 0);
    while start.Some?
      invariant start.Some? ==> OccursAt(text, secret, start.value)
      invariant forall q :: q in r <==> q in ranges || (q.end == q.start + |secret| && OccursAt(text, secret, q.start)
                                                       && (start.Some? ==> q.start < start.value))
      decreases if start.Some? then |text| - start.value + 1 else 0
    {
      var before, at := r, start.value;
      r := r + [Range(at, at + |secret|)];
      start := IndexOf(text, secret, at + 1);
    }
  }

  // Redacting

  const REDACTED: Text := [0x5B, 0x52, 0x45, 0x44, 0x41, 0x43, 0x54, 0x45, 0x44, 0x5D]

  /** Some range removes the unit at `p`. */
  ghost predicate Covered(ranges: seq<Range>, p: int) {
    exists q :: q in ranges && q.start <= p < q.end
  }

  /** Some range starts, ends or continues at the boundary before unit `p`. */
  ghost predicate Touched(ranges: seq<Range>, p: int) {
    exists q :: q in ranges && q.start <= p <= q.end
  }

  /** The redacted text, position by position and whatever the order of the ranges: a
      unit stays exactly when no range covers it, and each run of touching ranges
      leaves one mark where it begins. */
  ghost function Render(text: Text, ranges: seq<Range>, p: nat): Text
    requires p <= |text|
    decreases |text| - p
  {
    (if Touched(ranges, p) && !Covered(ranges, p - 1) then REDACTED else []) + RenderUnit(text, ranges, p)
  }

  ghost function RenderUnit(text: Text, ranges: seq<Range>, p: nat): Text
    requires p <= |text|
    decreases |text| - p, 0
  {
    if p == |text| then [] else (if Covered(ranges, p) then [] else [text[p]]) + Render(text, ranges, p + 1)
  }

  predicate Within(ranges: seq<Range>, n: nat) {
    forall k :: 0 <= k < |ranges| ==> ranges[k].start <= ranges[k].end <= n
  }

  predicate SortedByStart(ranges: seq<Range>) {
    forall i, j :: 0 <= i < j < |ranges| ==> ranges[i].start <= ranges[j].start
  }

  /** Sorted, and each range ends before the next one starts. */
  predicate Apart(ranges: seq<Range>) {
    forall i, j :: 0 <= i < j < |ranges| ==> ranges[i].end < ranges[j].start
  }

  ghost predicate SameRanges(a: seq<Range>, b: seq<Range>) {
    forall q :: q in a <==> q in b
  }

  ghost predicate SameCover(a: seq<Range>, b: seq<Range>) {
    forall p: int :: (Covered(a, p) <==> Covered(b, p)) && (Touched(a, p) <==> Touched(b, p))
  }

  lemma InsertedInOrder(sorted: seq<Range>, at: nat, q: Range)
    requires SortedByStart(sorted) && at <= |sorted|
    requires at > 0 ==> sorted[at - 1].start <= q.start
    requires at < |sorted| ==> q.start <= sorted[at].start
    ensures SortedByStart(sorted[..at] + [q] + sorted[at..])
  {
    var r := sorted[..at] + [q] + sorted[at..];
    forall i, j | 0 <= i < j < |r| ensures r[i].start <= r[j].start {
      assert r[i] == if i < at then sorted[i] else if i == at then q else sorted[i - 1];
      assert r[j] == if j < at then sorted[j] else if j == at then q else sorted[j - 1];
    }
  }

  lemma InsertedMembers(sorted: seq<Range>, at: nat, q: Range)
    requires at <= |sorted|
    ensures forall x :: x in sorted[..at] + [q] + sorted[at..] <==> x in sorted || x == q
  {
    assert sorted == sorted[..at] + sorted[at..];
  }

  /** Inserts into an already sorted list. */
  method InsertByStart(sorted: seq<Range>, q: Range) returns (r: seq<Range>)
    requires SortedByStart(sorted)
    ensures SortedByStart(r) && forall x :: x in r <==> x in sorted || x == q
  {
    var at := |sorted|;
    while at > 0 && sorted[at - 1].start > q.start
      invariant 0 <= at <= |sorted| && (at < |sorted| ==> q.start <= sorted[at].start)
    {
      at := at - 1;
    }
    hide SortedByStart;
    InsertedInOrder(sorted, at, q);
    InsertedMembers(sorted, at, q);
    r := sorted[..at] + [q] + sorted[at..];
  }

  method SortByStart(ranges: seq<Range>) returns (r: seq<Range>)
    ensures SortedByStart(r) && SameRanges(r, ranges)
  {
    r := [];
    for i := 0 to |ranges|
      invariant SortedByStart(r) && SameRanges(r, ranges[..i])
    {
      assert ranges[..i + 1] == ranges[..i] + [ranges[i]];
      r := InsertByStart(r, ranges[i]);
    }
    assert ranges[..|ranges|] == ranges;
  }

  lemma SameRangesCover(a: seq<Range>, b: seq<Range>)
    requires SameRanges(a, b)
    ensures SameCover(a, b)
  {
  }

  lemma CoverTransitive(a: seq<Range>, b: seq<Range>, c: seq<Range>)
    requires SameCover(a, b) && SameCover(b, c)
    ensures SameCover(a, c)
  {
  }

  function Max(a: nat, b: nat): nat { if a < b then b else a }

  /** Joining the next range to the last merged one, or putting it after. */
  function MergeNext(merged: seq<Range>, q: Range): seq<Range> {
    if |merged| > 0 && q.start <= merged[|merged| - 1].end then
      var last := merged[|merged| - 1];
      merged[|merged| - 1 := Range(last.start, Max(last.end, q.end))]
    else merged + [q]
  }

  lemma MergeKeepsCover(merged: seq<Range>, q: Range)
    requires q.start <= q.end && forall k :: 0 <= k < |merged| ==> merged[k].start <= q.start && merged[k].start <= merged[k].end
    ensures SameCover(MergeNext(merged, q), merged + [q])
  {
    var r := MergeNext(merged, q);
    var all := merged + [q];
    if |merged| > 0 && q.start <= merged[|merged| - 1].end {
      var last := merged[|merged| - 1];
      var joined := Range(last.start, Max(last.end, q.end));
      assert forall x :: x in r ==> x == joined || x in merged[..|merged| - 1];
      assert r[|merged| - 1] == joined && forall k :: 0 <= k < |merged| - 1 ==> r[k] == merged[k];
      assert all[|merged|] == q && forall k :: 0 <= k < |merged| ==> all[k] == merged[k];
      forall x | x in all ensures x in r || x == last || x == q {
        var k :| 0 <= k < |all| && all[k] == x;
        if k < |merged| - 1 { assert r[k] == x; }
      }
      forall x | x in merged[..|merged| - 1] ensures x in all {
        var k :| 0 <= k < |merged| - 1 && merged[..|merged| - 1][k] == x;
        assert all[k] == x;
      }
      assert last in all && q in all && joined in r;
    }
  }

  /** What merging has achieved after a prefix of the sorted ranges. */
  ghost predicate MergedSoFar(merged: seq<Range>, done: seq<Range>, n: nat) {
    && Apart(merged) && Within(merged, n) && SameCover(merged, done)
    && forall k :: 0 <= k < |merged| ==> exists j :: 0 <= j < |done| && merged[k].start == done[j].start
  }

  lemma MergedNext(merged: seq<Range>, done: seq<Range>, q: Range, n: nat)
    requires MergedSoFar(merged, done, n) && q.start <= q.end <= n
    requires forall j :: 0 <= j < |done| ==> done[j].start <= q.start
    ensures MergedSoFar(MergeNext(merged, q), done + [q], n)
  {
    var r, all := MergeNext(merged, q), done + [q];
    assert SameCover(r, all) by {
      MergeKeepsCover(merged, q);
      CoverAppends(merged, done, q);
      CoverTransitive(r, merged + [q], all);
    }
    hide SameCover;
    assert all[|done|] == q && forall j :: 0 <= j < |done| ==> all[j] == done[j];
    forall k | 0 <= k < |r| ensures exists j :: 0 <= j < |all| && r[k].start == all[j].start {
      if k < |merged| {
        var j :| 0 <= j < |done| && merged[k].start == done[j].start;
        assert r[k].start == all[j].start;
      } else {
        assert r[k].start == all[|done|].start;
      }
    }
  }

  /** Merging sorted ranges leaves disjoint runs that cover and touch the same places. */
  method MergeRanges(sorted: seq<Range>, ghost n: nat) returns (merged: seq<Range>)
    requires SortedByStart(sorted) && Within(sorted, n)
    ensures Apart(merged) && Within(merged, n) && SameCover(merged, sorted)
  {
    merged := [];
    for i := 0 to |sorted|
      invariant MergedSoFar(merged, sorted[..i], n)
    {
      var q := sorted[i];
      assert sorted[..i + 1] == sorted[..i] + [q];
      MergedNext(merged, sorted[..i], q, n);
      hide MergedSoFar;
      if |merged| > 0 && q.start <= merged[|merged| - 1].end {
        var last := merged[|merged| - 1];
        merged := merged[|merged| - 1 := Range(last.start, Max(last.end, q.end))];
      } else {
        merged := merged + [q];
      }
    }
    assert sorted[..|sorted|] == sorted;
  }

  lemma CoverAppends(a: seq<Range>, b: seq<Range>, q: Range)
    requires SameCover(a, b)
    ensures SameCover(a + [q], b + [q])
  {
    CoverOfAppend(a, q);
    CoverOfAppend(b, q);
  }

  lemma CoverOfAppend(a: seq<Range>, q: Range)
    ensures forall p: int :: Covered(a + [q], p) <==> Covered(a, p) || q.start <= p < q.end
    ensures forall p: int :: Touched(a + [q], p) <==> Touched(a, p) || q.start <= p <= q.end
  {
    assert q in a + [q];
    assert forall x :: x in a + [q] <==> x in a || x == q;
  }

  lemma {:induction false} SameCoverRenders(text: Text, a: seq<Range>, b: seq<Range>, p: nat)
    requires p <= |text| && SameCover(a, b)
    ensures Render(text, a, p) == Render(text, b, p) && RenderUnit(text, a, p) == RenderUnit(text, b, p)
    decreases |text| - p
  {
    assert (Covered(a, p) <==> Covered(b, p)) && (Touched(a, p) <==> Touched(b, p));
    assert Covered(a, p - 1) <==> Covered(b, p - 1);
    if p < |text| { SameCoverRenders(text, a, b, p + 1); }
  }

  lemma KeptUnit(text: Text, ranges: seq<Range>, p: nat)
    requires p < |text| && !Covered(ranges, p)
    ensures RenderUnit(text, ranges, p) == [text[p]] + Render(text, ranges, p + 1)
  {
  }

  lemma NoMark(text: Text, ranges: seq<Range>, p: nat)
    requires p <= |text| && !Touched(ranges, p)
    ensures Render(text, ranges, p) == RenderUnit(text, ranges, p)
  {
  }

  /** Units that no range covers or touches stay as they are. */
  lemma {:induction false} RenderKeeps(text: Text, ranges: seq<Range>, p: nat, e: nat)
    requires p <= e <= |text|
    requires forall i: int :: p <= i < e ==> !Covered(ranges, i)
    requires forall i: int :: p < i < e ==> !Touched(ranges, i)
    ensures RenderUnit(text, ranges, p) == if p == e then RenderUnit(text, ranges, p) else text[p..e] + Render(text, ranges, e)
    decreases e - p
  {
    hide *;
    if p < e {
      KeptUnit(text, ranges, p);
      assert text[p..e] == [text[p]] + text[p + 1..e];
      if p + 1 < e {
        NoMark(text, ranges, p + 1);
        RenderKeeps(text, ranges, p + 1, e);
      }
    }
  }

  /** Covered units leave nothing. */
  lemma {:induction false} RenderCuts(text: Text, ranges: seq<Range>, p: nat, e: nat)
    requires p <= e <= |text|
    requires forall i: int :: p <= i < e ==> Covered(ranges, i)
    ensures RenderUnit(text, ranges, p) == RenderUnit(text, ranges, e)
    decreases e - p
  {
    if p < e {
      assert Covered(ranges, p);
      RenderCuts(text, ranges, p + 1, e);
    }
  }

  /** Where copying resumes after the first `k` runs, and where the next one starts. */
  function Cursor(merged: seq<Range>, k: nat): nat
    requires k <= |merged|
  {
    if k == 0 then 0 else merged[k - 1].end
  }

  function NextStart(merged: seq<Range>, k: nat, n: nat): nat
    requires k <= |merged|
  {
    if k == |merged| then n else merged[k].start
  }

  /** Between two runs nothing is covered, and nothing is touched strictly inside. */
  lemma BetweenRuns(merged: seq<Range>, k: nat, n: nat, p: int)
    requires Apart(merged) && Within(merged, n) && k <= |merged|
    requires Cursor(merged, k) <= p
    ensures p < NextStart(merged, k, n) ==> !Covered(merged, p)
    ensures (k == 0 || Cursor(merged, k) < p) && p < NextStart(merged, k, n) ==> !Touched(merged, p)
    ensures k == |merged| && (k == 0 || Cursor(merged, k) < p) ==> !Touched(merged, p)
    ensures k < |merged| && p < merged[k].start ==> !Covered(merged, p)
  {
    forall q | q in merged
      ensures q.end <= Cursor(merged, k) || (k < |merged| && q.start >= NextStart(merged, k, n)) || (k < |merged| && q == merged[k])
    {
      var j :| 0 <= j < |merged| && merged[j] == q;
      if j < k && j < k - 1 { assert merged[j].end < merged[k - 1].start; }
      if k < j { assert merged[k].end < merged[j].start; }
    }
  }

  /** What remains to be emitted once `k` runs were written. */
  ghost function Remaining(text: Text, merged: seq<Range>, k: nat): Text
    requires Within(merged, |text|) && k <= |merged|
  {
    if k == 0 then Render(text, merged, 0) else RenderUnit(text, merged, merged[k - 1].end)
  }

  lemma GapRenders(text: Text, merged: seq<Range>, k: nat)
    requires Apart(merged) && Within(merged, |text|) && k <= |merged|
    ensures Cursor(merged, k) <= NextStart(merged, k, |text|)
    ensures var c, e := Cursor(merged, k), NextStart(merged, k, |text|);
      Remaining(text, merged, k) == text[c..e] + if k < |merged| then Render(text, merged, e) else []
  {
    var c, e := Cursor(merged, k), NextStart(merged, k, |text|);
    assert k > 0 && k < |merged| ==> merged[k - 1].end < merged[k].start;
    forall i: int | c <= i < e ensures !Covered(merged, i) { BetweenRuns(merged, k, |text|, i); }
    forall i: int | c < i < e ensures !Touched(merged, i) { BetweenRuns(merged, k, |text|, i); }
    if k == 0 && 0 < e { BetweenRuns(merged, k, |text|, 0); }
    if k == |merged| && c < e { BetweenRuns(merged, k, |text|, |text|); }
    if k == 0 && k == |merged| { BetweenRuns(merged, k, |text|, 0); }
    if c < e { RenderKeeps(text, merged, c, e); }
  }

  lemma RunRenders(text: Text, merged: seq<Range>, k: nat)
    requires Apart(merged) && Within(merged, |text|) && k < |merged|
    ensures Render(text, merged, merged[k].start) == REDACTED + Remaining(text, merged, k + 1)
  {
    var q := merged[k];
    assert q in merged && Touched(merged, q.start);
    assert k > 0 ==> merged[k - 1].end < merged[k].start;
    if Cursor(merged, k) <= q.start - 1 { BetweenRuns(merged, k, |text|, q.start - 1); }
    assert !Covered(merged, q.start - 1) by {
      if q.start == 0 { assert forall x :: x in merged ==> !(x.start <= -1 < x.end); }
    }
    forall i: int | q.start <= i < q.end ensures Covered(merged, i) { assert q in merged; }
    RenderCuts(text, merged, q.start, q.end);
  }

  /** Copies what lies between the runs and leaves one mark for each run. */
  method EmitParts(text: Text, merged: seq<Range>) returns (r: Text)
    requires Apart(merged) && Within(merged, |text|)
    ensures r == Render(text, merged, 0)
  {
    r := [];
    var cursor := 0;
    assert Remaining(text, merged, 0) == Render(text, merged, 0);
    for k := 0 to |merged|
      invariant cursor == Cursor(merged, k) <= |text|
      invariant r + Remaining(text, merged, k) == Render(text, merged, 0)
    {
      PartRenders(text, merged, k, r);
      hide *;
      r := r + text[cursor..merged[k].start] + REDACTED;
      cursor := merged[k].end;
    }
    GapRenders(text, merged, |merged|);
    hide Render;
    hide RenderUnit;
    r := r + text[cursor..];
  }

  lemma PartRenders(text: Text, merged: seq<Range>, k: nat, before: Text)
    requires Apart(merged) && Within(merged, |text|) && k < |merged|
    ensures Cursor(merged, k) <= merged[k].start <= |text| && merged[k].end == Cursor(merged, k + 1) <= |text|
    ensures (before + text[Cursor(merged, k)..merged[k].start] + REDACTED) + Remaining(text, merged, k + 1)
      == before + Remaining(text, merged, k)
  {
    GapRenders(text, merged, k);
    RunRenders(text, merged, k);
    hide Remaining;
    hide Render;
    hide Apart;
  }

  /** Cuts every range out of the text, whatever their order and overlaps. */
  method RedactRanges(text: Text, ranges: seq<Range>) returns (r: Text)
    requires Within(ranges, |text|)
    ensures r == Render(text, ranges, 0)
  {
    hide *;
    var sorted := SortByStart(ranges);
    SortedWithin(ranges, sorted, |text|);
    var merged := MergeRanges(sorted, |text|);
    SameRangesCover(sorted, ranges);
    CoverTransitive(merged, sorted, ranges);
    SameCoverRenders(text, merged, ranges, 0);
    r := EmitParts(text, merged);
  }

  lemma SortedWithin(ranges: seq<Range>, sorted: seq<Range>, n: nat)
    requires Within(ranges, n) && SameRanges(sorted, ranges)
    ensures Within(sorted, n)
  {
    forall k | 0 <= k < |sorted| ensures sorted[k].start <= sorted[k].end <= n {
      assert sorted[k] in ranges;
    }
  }

  // Scrubbing

  /** The whole text is replaced by a fixed notice beyond the two limits. */
  datatype Scrubbed = InputLimit | EncodingLimit | Scrubbed(text: Text, removed: bool)

  const TRUNCATED: Text := [0x20, 0x5B, 0x74, 0x72, 0x75, 0x6E, 0x63, 0x61, 0x74, 0x65, 0x64, 0x5D]

  predicate Unsafe(u: Unit) {
    u <= 8 || 0xB <= u <= 0x1F || 0x7F <= u <= 0x9F || 0x2028 <= u <= 0x202E || 0x2066 <= u <= 0x2069
  }

  function LowerHex(v: nat): (u: Unit)
    requires v < 16
    ensures !Unsafe(u)
  {
    if v < 10 then 0x30 + v else 0x61 + v - 10
  }

  function EscapeControl(u: Unit): (r: Text)
    ensures forall k :: 0 <= k < |r| ==> !Unsafe(r[k])
  {
    if Unsafe(u) then [0x5C, 0x75, LowerHex(u / 4096), LowerHex(u / 256 % 16), LowerHex(u / 16 % 16), LowerHex(u % 16)] else [u]
  }

  function EscapedText(text: Text): (r: Text)
    ensures forall k :: 0 <= k < |r| ==> !Unsafe(r[k])
  {
    if text == [] then [] else EscapedText(text[..|text| - 1]) + EscapeControl(text[|text| - 1])
  }

  method EscapeControls(text: Text) returns (r: Text)
    ensures r == EscapedText(text)
  {
    r := [];
    for i := 0 to |text|
      invariant r == EscapedText(text[..i])
    {
      assert text[..i + 1][..i] == text[..i];
      r := r + EscapeControl(text[i]);
    }
    assert text[..|text|] == text;
  }

  /** A match that mapping back can handle: it starts on a unit and ends after one. */
  predicate Mappable(q: Range, n: nat) { q.start < n && q.start <= q.end <= n && q.end > 0 }

  predicate AllMappable(ranges: seq<Range>, n: nat) {
    forall k :: 0 <= k < |ranges| ==> Mappable(ranges[k], n)
  }

  /** What is looked for: literal secrets, some of them whatever their case, and what a
      recognizer of URLs, authorization headers and tokens marks in a text. */
  datatype Known = Known(exact: seq<Text>, folded: seq<Text>, recognize: Text -> seq<Range>)

  ghost predicate Recognizes(known: Known) {
    forall text :: AllMappable(known.recognize(text), |text|)
  }

  /** The range is where one of the secrets stands. */
  ghost predicate IsOccurrence(text: Text, secrets: seq<Text>, q: Range) {
    exists s :: s in secrets && |s| > 0 && q.end == q.start + |s| && OccursAt(text, s, q.start)
  }

  /** Adds exactly the occurrences of the secrets. */
  method CollectAll(text: Text, secrets: seq<Text>, ranges: seq<Range>) returns (r: seq<Range>)
    ensures forall q :: q in r <==> q in ranges || IsOccurrence(text, secrets, q)
  {
    r := ranges;
    for i := 0 to |secrets|
      invariant forall q :: q in r <==> q in ranges || IsOccurrence(text, secrets[..i], q)
    {
      ghost var before := r;
      r := CollectLiteralRanges(text, secrets[i], r);
      forall q ensures q in r <==> q in ranges || IsOccurrence(text, secrets[..i + 1], q) {
        OneMoreSecret(text, secrets, i, q);
      }
    }
    assert secrets[..|secrets|] == secrets;
  }

  lemma OneMoreSecret(text: Text, secrets: seq<Text>, i: nat, q: Range)
    requires i < |secrets|
    ensures IsOccurrence(text, secrets[..i + 1], q) <==>
      IsOccurrence(text, secrets[..i], q) || (|secrets[i]| > 0 && q.end == q.start + |secrets[i]| && OccursAt(text, secrets[i], q.start))
  {
    hide OccursAt;
    assert secrets[..i + 1] == secrets[..i] + [secrets[i]];
  }

  /** Where a match of the view stands in the original text. */
  function Original(v: View, m: Range): Range
    requires |v.starts| == |v.ends| == |v.text| && Mappable(m, |v.text|)
  {
    Range(v.starts[m.start], v.ends[m.end - 1])
  }

  lemma MappedWithin(v: View, n: nat, q: Range)
    requires Tiles(v, n) && Mappable(q, |v.text|)
    ensures v.starts[q.start] <= v.ends[q.end - 1] <= n
  {
    LinkedOrder(v, q.end - 1, |v.text| - 1);
    if q.end > q.start {
      LinkedOrder(v, q.start, q.end - 1);
    } else {
      assert Meet(v, q.start - 1);
    }
  }

  /** Adds exactly the original ranges of the matches. */
  method MapMatches(v: View, n: nat, matches: seq<Range>, ranges: seq<Range>) returns (r: seq<Range>)
    requires Tiles(v, n) && AllMappable(matches, |v.text|) && Within(ranges, n)
    ensures Within(r, n)
    ensures forall q :: q in r <==> q in ranges || exists k :: 0 <= k < |matches| && q == Original(v, matches[k])
  {
    r := ranges;
    for i := 0 to |matches|
      invariant Within(r, n)
      invariant forall q :: q in r <==> q in ranges || exists k :: 0 <= k < i && q == Original(v, matches[k])
    {
      MappedWithin(v, n, matches[i]);
      r := r + [Original(v, matches[i])];
    }
  }

  ghost function Folded(text: Text): (r: Text)
    ensures |r| == |text|
  {
    seq(|text|, k requires 0 <= k < |text| => Lower(text[k]))
  }

  /** A recognized span of this view, or an occurrence of a secret in its normal form,
      for the case-insensitive ones folded. */
  ghost predicate IsMatch(v: View, known: Known, m: Range) {
    || m in known.recognize(v.text) || IsOccurrence(NormalizedFrom(v.text, 0), known.exact, m)
    || IsOccurrence(Folded(NormalizedFrom(v.text, 0)), known.folded, m)
  }

  /** The range is the original place of a match in this view. */
  ghost predicate FromMatch(v: View, known: Known, q: Range) {
    && |v.starts| == |v.ends| == |v.text|
    && exists m :: Mappable(m, |v.text|) && IsMatch(v, known, m) && q == Original(v, m)
  }

  /** Adds exactly the original places of this view's matches. */
  method SearchView(v: View, n: nat, known: Known, ranges: seq<Range>) returns (r: seq<Range>)
    requires Tiles(v, n) && Within(ranges, n) && Recognizes(known)
    ensures Within(r, n)
    ensures forall q :: q in r <==> q in ranges || FromMatch(v, known, q)
  {
    var normalized := NormalizePercentEscapes(v.text);
    var matches := CollectAll(normalized, known.exact, []);
    var lower := LowercaseAscii(normalized);
    assert lower == Folded(normalized);
    matches := CollectAll(lower, known.folded, matches);
    matches := matches + known.recognize(v.text);
    assert forall m :: m in matches <==> IsMatch(v, known, m);
    MatchesMap(v, known, matches);
    hide IsMatch;
    hide Tiles;
    r := MapMatches(v, n, matches, ranges);
    forall q ensures q in r <==> q in ranges || FromMatch(v, known, q) {
      if FromMatch(v, known, q) {
        var m :| Mappable(m, |v.text|) && IsMatch(v, known, m) && q == Original(v, m);
        var k :| 0 <= k < |matches| && matches[k] == m;
      }
      if k :| 0 <= k < |matches| && q == Original(v, matches[k]) {
        assert matches[k] in matches;
      }
    }
  }

  lemma MatchesMap(v: View, known: Known, matches: seq<Range>)
    requires Recognizes(known) && forall m :: m in matches ==> IsMatch(v, known, m)
    ensures AllMappable(matches, |v.text|)
  {
    hide NormalizedFrom;
    forall k | 0 <= k < |matches| ensures Mappable(matches[k], |v.text|) {
      var m := matches[k];
      assert IsMatch(v, known, m);
      if m in known.recognize(v.text) {
        var j :| 0 <= j < |known.recognize(v.text)| && known.recognize(v.text)[j] == m;
        assert AllMappable(known.recognize(v.text), |v.text|);
      }
    }
  }

  /** Successive views of one text: the text itself, then decoded once more each time. */
  ghost predicate Views(text: Text, views: seq<View>) {
    && |views| > 0 && views[0] == WholeView(text)
    && (forall k :: 0 <= k < |views| ==> Tiles(views[k], |text|))
    && forall k :: 0 < k < |views| ==> views[k].text == DecodedFrom(views[k - 1].text, 0)
  }

  ghost predicate FromSome(views: seq<View>, known: Known, q: Range) {
    exists k :: 0 <= k < |views| && FromMatch(views[k], known, q)
  }

  /** The ranges are the matches of the views, all of them and nothing else. */
  ghost predicate CutsMatches(views: seq<View>, known: Known, ranges: seq<Range>) {
    forall q :: q in ranges <==> FromSome(views, known, q)
  }

  lemma CutsGrow(views: seq<View>, v: View, known: Known, ranges: seq<Range>, found: seq<Range>)
    requires CutsMatches(views, known, ranges)
    requires forall q :: q in found <==> q in ranges || FromMatch(v, known, q)
    ensures CutsMatches(views + [v], known, found)
  {
    hide FromMatch;
    var all := views + [v];
    forall q ensures q in found <==> FromSome(all, known, q) {
      if q in ranges {
        var k :| 0 <= k < |views| && FromMatch(views[k], known, q);
        assert FromMatch(all[k], known, q);
      } else if FromMatch(v, known, q) {
        assert FromMatch(all[|views|], known, q);
      }
      if k :| 0 <= k < |all| && FromMatch(all[k], known, q) {
        if k < |views| { assert FromMatch(views[k], known, q); }
      }
    }
  }

  /** The unit at `p` of the original contributes to a match in some view. */
  ghost predicate Contributes(views: seq<View>, known: Known, p: nat) {
    exists k, m, i :: 0 <= k < |views| && ContributesAt(views[k], known, m, i, p)
  }

  ghost predicate ContributesAt(v: View, known: Known, m: Range, i: nat, p: nat) {
    && |v.starts| == |v.ends| == |v.text| && Mappable(m, |v.text|) && IsMatch(v, known, m)
    && i < |v.text| && Marks(v, m, i) && v.starts[i] <= p < v.ends[i]
  }

  /** The match holds the unit. An empty one, which only a recognizer can mark, holds a
      character when it stands between the two halves of its surrogate pair. */
  ghost predicate Marks(v: View, m: Range, i: nat)
    requires |v.starts| == |v.ends| == |v.text| && i < |v.text|
  {
    m.start <= i < m.end || (m.start == m.end == i && i > 0 && v.starts[i] < v.ends[i - 1])
  }

  /** A mapped match covers exactly the original positions of the units it holds. */
  lemma OriginalCovers(v: View, n: nat, m: Range, p: nat)
    requires Tiles(v, n) && Mappable(m, |v.text|)
    ensures Original(v, m).start <= p < Original(v, m).end <==> exists i :: 0 <= i < |v.text| && Marks(v, m, i) && v.starts[i] <= p < v.ends[i]
  {
    var q := Original(v, m);
    if m.start < m.end {
      RunCoversExactly(v, m.start, m.end, p);
      if q.start <= p < q.end {
        var i :| m.start <= i < m.end && v.starts[i] <= p < v.ends[i];
        assert Marks(v, m, i);
      }
    } else {
      assert Meet(v, m.start - 1);
      assert q.start < q.end ==> Marks(v, m, m.start);
    }
  }

  lemma MatchContributes(v: View, n: nat, known: Known, q: Range, p: nat)
    requires Tiles(v, n) && FromMatch(v, known, q) && q.start <= p < q.end
    ensures exists m, i :: ContributesAt(v, known, m, i, p)
  {
    hide IsMatch;
    var m :| Mappable(m, |v.text|) && IsMatch(v, known, m) && q == Original(v, m);
    OriginalCovers(v, n, m, p);
    var i :| 0 <= i < |v.text| && Marks(v, m, i) && v.starts[i] <= p < v.ends[i];
    assert ContributesAt(v, known, m, i, p);
  }

  lemma ContributorIsCut(v: View, n: nat, known: Known, m: Range, i: nat, p: nat)
    requires Tiles(v, n) && ContributesAt(v, known, m, i, p)
    ensures FromMatch(v, known, Original(v, m)) && Original(v, m).start <= p < Original(v, m).end
  {
    hide IsMatch;
    OriginalCovers(v, n, m, p);
  }

  /** Exactly the positions that contribute to a match in some view are cut out. */
  lemma MatchesAreCovered(text: Text, views: seq<View>, known: Known, ranges: seq<Range>, p: nat)
    requires Views(text, views) && CutsMatches(views, known, ranges)
    ensures Covered(ranges, p) <==> Contributes(views, known, p)
  {
    if Contributes(views, known, p) {
      var k, m, i :| 0 <= k < |views| && ContributesAt(views[k], known, m, i, p);
      ContributorIsCut(views[k], |text|, known, m, i, p);
      hide *;
      CutCovers(views, known, ranges, k, Original(views[k], m), p);
    }
    if Covered(ranges, p) { CutContributes(text, views, known, ranges, p); }
  }

  lemma CutContributes(text: Text, views: seq<View>, known: Known, ranges: seq<Range>, p: nat)
    requires Views(text, views) && CutsMatches(views, known, ranges) && Covered(ranges, p)
    ensures Contributes(views, known, p)
  {
    var q :| q in ranges && q.start <= p < q.end;
    assert FromSome(views, known, q);
    var k :| 0 <= k < |views| && FromMatch(views[k], known, q);
    MatchContributes(views[k], |text|, known, q, p);
  }

  lemma CutCovers(views: seq<View>, known: Known, ranges: seq<Range>, k: nat, q: Range, p: nat)
    requires CutsMatches(views, known, ranges) && k < |views| && FromMatch(views[k], known, q) && q.start <= p < q.end
    ensures Covered(ranges, p)
  {
    hide FromMatch;
    assert FromSome(views, known, q);
  }

  /** Searches the text and up to two decoded views of it. */
  method SearchViews(text: Text, known: Known)
    returns (ok: bool, ranges: seq<Range>, ghost views: seq<View>)
    requires Recognizes(known)
    ensures Within(ranges, |text|)
    ensures Views(text, views) && |views| <= MAX_PERCENT_DECODE_PASSES + 1
    ensures CutsMatches(views, known, ranges)
    ensures ok <==> DecodedFrom(views[|views| - 1].text, 0) == views[|views| - 1].text
    ensures !ok ==> |views| == MAX_PERCENT_DECODE_PASSES + 1
  {
    var view := WholeView(text);
    WholeViewTiles(text);
    hide *;
    ranges, views := [], [view];
    assert Within(ranges, |text|) by { NothingWithin(|text|); }
    assert Views(text, views) by { OneView(text); }
    var pass := 0;
    NothingFound(views, known);
    while true
      invariant 0 <= pass <= MAX_PERCENT_DECODE_PASSES && |views| == pass + 1 && view == views[pass]
      invariant Within(ranges, |text|) && Views(text, views) && Tiles(view, |text|)
      invariant CutsMatches(views[..pass], known, ranges)
      decreases MAX_PERCENT_DECODE_PASSES - pass
    {
      var found := SearchView(view, |text|, known, ranges);
      CutsGrow(views[..pass], view, known, ranges, found);
      assert views[..pass] + [view] == views;
      ranges := found;
      var decoded := DecodePercentView(view, |text|);
      if decoded.text == view.text { return true, ranges, views; }
      if pass == MAX_PERCENT_DECODE_PASSES { return false, ranges, views; }
      NextView(text, views, decoded);
      assert (views + [decoded])[..pass + 1] == views[..pass + 1] == views;
      views, view := views + [decoded], decoded;
      pass := pass + 1;
    }
  }

  lemma NothingWithin(n: nat)
    ensures Within([], n)
  {
  }

  lemma OneView(text: Text)
    ensures Views(text, [WholeView(text)])
  {
    WholeViewTiles(text);
  }

  lemma NothingFound(views: seq<View>, known: Known)
    requires |views| > 0
    ensures CutsMatches(views[..0], known, [])
  {
  }

  lemma NextView(text: Text, views: seq<View>, decoded: View)
    requires Views(text, views) && Tiles(decoded, |text|) && decoded.text == DecodedFrom(views[|views| - 1].text, 0)
    ensures Views(text, views + [decoded])
  {
    hide Tiles;
    hide DecodedFrom;
    hide WholeView;
  }

  /** The published form of redacted text. */
  ghost function Published(redacted: Text): (r: Text)
    ensures |r| <= MAX_OUTPUT_LENGTH && forall k :: 0 <= k < |r| ==> !Unsafe(r[k])
  {
    var escaped := EscapedText(redacted);
    if |escaped| > MAX_OUTPUT_LENGTH then escaped[..MAX_OUTPUT_LENGTH - |TRUNCATED|] + TRUNCATED else escaped
  }

  /** Cuts, escapes control characters and only then truncates, so that a cut cannot
      expose the beginning of a secret. */
  method Publish(text: Text, ranges: seq<Range>) returns (r: Text, removed: bool)
    requires Within(ranges, |text|)
    ensures r == Published(Render(text, ranges, 0))
    ensures !removed ==> r == text && ranges == []
  {
    r := RedactRanges(text, ranges);
    hide Render;
    r := EscapeControls(r);
    removed := |ranges| > 0 || r != text;
    if |r| > MAX_OUTPUT_LENGTH {
      r := r[..MAX_OUTPUT_LENGTH - |TRUNCATED|] + TRUNCATED;
      removed := true;
    }
  }

  /** What is published is the text with the matches of every decoded view cut out, all
      of them and nothing else. */
  method Scrub(text: Text, known: Known) returns (r: Scrubbed, ghost views: seq<View>, ghost ranges: seq<Range>)
    requires Recognizes(known)
    ensures r.InputLimit? <==> |text| > MAX_INPUT_LENGTH
    ensures r.Scrubbed? ==> Views(text, views) && CutsMatches(views, known, ranges)
    ensures r.Scrubbed? ==> Within(ranges, |text|) && r.text == Published(Render(text, ranges, 0))
    ensures r.Scrubbed? ==> DecodedFrom(views[|views| - 1].text, 0) == views[|views| - 1].text
    ensures r.EncodingLimit? ==> Views(text, views) && |views| == MAX_PERCENT_DECODE_PASSES + 1
    ensures r.EncodingLimit? ==> DecodedFrom(views[|views| - 1].text, 0) != views[|views| - 1].text
    ensures r.Scrubbed? && !r.removed ==> r.text == text && ranges == []
  {
    hide *;
    views, ranges := [], [];
    if |text| > MAX_INPUT_LENGTH { return InputLimit, views, ranges; }
    var ok, cut, seen := SearchViews(text, known);
    if !ok { return EncodingLimit, seen, ranges; }
    var output, removed := Publish(text, cut);
    return Scrubbed(output, removed), seen, cut;
  }

  /** Whatever stands after redaction, other than the mark, stood in the text at a
      position that no range covers. */
  lemma {:induction false} RenderedUnits(text: Text, ranges: seq<Range>, p: nat, u: Unit)
    requires p <= |text| && u in RenderUnit(text, ranges, p) && u !in REDACTED
    ensures exists i :: p <= i < |text| && text[i] == u && !Covered(ranges, i)
    decreases |text| - p
  {
    if p < |text| && !(text[p] == u && !Covered(ranges, p)) {
      assert u in Render(text, ranges, p + 1);
      RenderedUnits(text, ranges, p + 1, u);
    }
  }
}
