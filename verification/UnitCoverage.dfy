/** Range arithmetic on coverage lists, and the withdrawal of affected extraction units. */
module UnitCoverage {
  import opened Wrappers
  import opened Ranges

  datatype CoverageError = InvalidRange | CoverageUnavailable

  predicate ValidSpan(x: Range) {
    1 <= x.0 <= x.1
  }

  ghost predicate ValidSpans(spans: seq<Range>) {
    forall i :: 0 <= i < |spans| ==> ValidSpan(spans[i])
  }

  ghost predicate Merges(result: seq<Range>, ascending: seq<Range>, n: nat)
    requires n <= |ascending|
  {
    && ValidSpans(ascending[..n]) && Normal(result) && ValidSpans(result)
    && (result != [] ==> n > 0 && result[|result| - 1].0 <= ascending[n - 1].0)
    && (forall k :: Covered(result, k) <==> Covered(ascending[..n], k))
  }

  lemma MergeStep(result: seq<Range>, ascending: seq<Range>, n: nat)
    requires n < |ascending| && Merges(result, ascending, n) && Ascending(ascending) && ValidSpan(ascending[n])
    ensures Merges(Extend(result, ascending[n]), ascending, n + 1)
  {
    var x := ascending[n];
    assert n > 0 ==> Before(ascending[n - 1], x);
    ExtendNormal(result, x);
    assert ascending[..n + 1] == ascending[..n] + [x];
    forall k ensures Covered(ascending[..n + 1], k) <==> Covered(ascending[..n], k) || x.0 <= k <= x.1 {
      CoveredAppend(ascending[..n], x, k);
    }
  }

  /** Sorts, checks and joins; one bad span refuses the whole list. */
  method Merge(spans: seq<Range>) returns (r: Result<seq<Range>, CoverageError>)
    ensures r.Ok? <==> ValidSpans(spans)
    ensures r.Ok? ==> Normal(r.value) && ValidSpans(r.value)
    ensures r.Ok? ==> forall k :: Covered(r.value, k) <==> Covered(spans, k)
  {
    var ascending := Sorted(spans);
    SortedCovers(spans);
    var result := [];
    for n := 0 to |ascending|
      invariant Merges(result, ascending, n)
    {
      var x := ascending[n];
      assert x in spans;
      if !ValidSpan(x) { return Err(InvalidRange); }
      MergeStep(result, ascending, n);
      result := Extend(result, x);
    }
    assert ascending[..|ascending|] == ascending;
    forall i | 0 <= i < |spans| ensures ValidSpan(spans[i]) { assert spans[i] in ascending; }
    return Ok(result);
  }

  /** Ids below `edge` that are retained and not cut. */
  ghost predicate CutBelow(result: seq<Range>, retained: seq<Range>, cuts: seq<Range>, edge: int) {
    && Normal(result)
    && (forall k :: Covered(result, k) <==> k < edge && Covered(retained, k) && !Covered(cuts, k))
  }

  ghost predicate AllCovered(spans: seq<Range>, a: int, b: int) {
    forall k :: a <= k <= b ==> Covered(spans, k)
  }

  ghost predicate NoneCovered(spans: seq<Range>, a: int, b: int) {
    forall k :: a <= k <= b ==> !Covered(spans, k)
  }

  /** Appending [lo, hi], all of it retained and none of it cut, moves the edge past `hi`. */
  lemma CutMore(result: seq<Range>, retained: seq<Range>, cuts: seq<Range>, lo: int, hi: int)
    requires CutBelow(result, retained, cuts, lo) && lo <= hi
    requires result != [] ==> result[|result| - 1].1 + 1 < lo
    requires AllCovered(retained, lo, hi) && NoneCovered(cuts, lo, hi)
    ensures CutBelow(result + [(lo, hi)], retained, cuts, hi + 1)
  {
    var more := result + [(lo, hi)];
    forall k ensures Covered(more, k) <==> k < hi + 1 && Covered(retained, k) && !Covered(cuts, k) {
      CoveredAppend(result, (lo, hi), k);
    }
    forall i, j | 0 <= i < j < |more| ensures more[i].1 + 1 < more[j].0 {
      if j == |result| { assert i == |result| - 1 || result[i].1 + 1 < result[|result| - 1].0; }
    }
  }

  /** Ids that are all cut, or none of them retained: the edge may move over them. */
  lemma CutSkip(result: seq<Range>, retained: seq<Range>, cuts: seq<Range>, lo: int, hi: int)
    requires CutBelow(result, retained, cuts, lo) && lo <= hi + 1
    requires AllCovered(cuts, lo, hi) || NoneCovered(retained, lo, hi)
    ensures CutBelow(result, retained, cuts, hi + 1)
  {
  }

  /** No range with an index below `current` reaches `a`, and none from `current` on starts at `b` or before. */
  lemma Between(spans: seq<Range>, current: nat, a: int, b: int)
    requires Normal(spans) && current <= |spans|
    requires current > 0 ==> spans[current - 1].1 < a
    requires current < |spans| ==> b < spans[current].0
    ensures NoneCovered(spans, a, b)
  {
    forall k | a <= k <= b ensures !Covered(spans, k) {
      forall c | 0 <= c < |spans| ensures !(spans[c].0 <= k <= spans[c].1) {
        if c < current { assert c == current - 1 || spans[c].1 + 1 < spans[current - 1].0; }
        else { assert c == current || spans[current].1 + 1 < spans[c].0; }
      }
    }
  }

  /** Where the inner loop stands before cut number `current` of a retained range. */
  ghost predicate Cutting(result: seq<Range>, retained: seq<Range>, cuts: seq<Range>, current: nat, position: int) {
    && Normal(cuts) && current <= |cuts|
    && CutBelow(result, retained, cuts, position)
    && (result != [] ==> result[|result| - 1].1 + 1 < position)
    && (current > 0 ==> cuts[current - 1].1 < position)
    && (current < |cuts| ==> position <= cuts[current].1)
  }

  /** What lies before the next cut is kept. */
  lemma CutKeep(result: seq<Range>, retained: seq<Range>, cuts: seq<Range>, current: nat, position: int, hi: int)
    requires Cutting(result, retained, cuts, current, position) && current < |cuts|
    requires position < cuts[current].0 <= hi && AllCovered(retained, position, hi)
    ensures CutBelow(result + [(position, cuts[current].0 - 1)], retained, cuts, cuts[current].0)
  {
    Between(cuts, current, position, cuts[current].0 - 1);
    CutMore(result, retained, cuts, position, cuts[current].0 - 1);
  }

  /** The cut itself is stepped over. */
  lemma CutOver(result: seq<Range>, retained: seq<Range>, cuts: seq<Range>, current: nat, edge: int, hi: int)
    requires Normal(cuts) && current < |cuts| && CutBelow(result, retained, cuts, edge)
    requires cuts[current].0 <= edge <= cuts[current].1
    requires edge <= hi
    ensures CutBelow(result, retained, cuts, (if hi < cuts[current].1 then hi else cuts[current].1) + 1)
    ensures current + 1 < |cuts| ==> cuts[current].1 + 1 < cuts[current + 1].0
  {
    CutSkip(result, retained, cuts, edge, if hi < cuts[current].1 then hi else cuts[current].1);
  }

  lemma CoveredFrom(spans: seq<Range>, a: int, b: int, from: int)
    requires AllCovered(spans, a, b) && a <= from
    ensures AllCovered(spans, from, b)
  {}

  /** The inner loop: cut retained range number `n`, starting at cut number `start`. */
  method SubtractOne(before: seq<Range>, retained: seq<Range>, cuts: seq<Range>, lo: int, hi: int, start: nat)
    returns (result: seq<Range>, current: nat)
    requires AllCovered(retained, lo, hi) && lo <= hi
    requires Cutting(before, retained, cuts, start, lo)
    ensures start <= current <= |cuts| && CutBelow(result, retained, cuts, hi + 1)
    ensures result != [] ==> result[|result| - 1].1 <= hi
    ensures current > 0 ==> cuts[current - 1].1 <= hi
  {
    hide CutBelow, AllCovered, NoneCovered, Covered;
    var position := lo;
    result, current := before, start;
    while current < |cuts| && cuts[current].0 <= hi
      invariant start <= current && lo <= position <= hi
      invariant Cutting(result, retained, cuts, current, position)
    {
      var first, last := cuts[current].0, cuts[current].1;
      CoveredFrom(retained, lo, hi, position);
      if position < first {
        CutKeep(result, retained, cuts, current, position, hi);
        result := result + [(position, first - 1)];
      }
      CutOver(result, retained, cuts, current, if position < first then first else position, hi);
      position := if position < last + 1 then last + 1 else position;
      if hi < position {
        return;
      }
      current := current + 1;
    }
    CoveredFrom(retained, lo, hi, position);
    Between(cuts, current, position, hi);
    CutMore(result, retained, cuts, position, hi);
    result := result + [(position, hi)];
  }

  lemma RangeCovered(spans: seq<Range>, n: nat)
    requires n < |spans|
    ensures AllCovered(spans, spans[n].0, spans[n].1)
  {
  }

  /** The first id after the first `n` retained ranges. */
  function Edge(retained: seq<Range>, n: nat): int
    requires n <= |retained|
  {
    if n == 0 then 0 else retained[n - 1].1 + 1
  }

  /** Where the outer loop stands before retained range number `n`. */
  ghost predicate Subtracted(result: seq<Range>, retained: seq<Range>, cuts: seq<Range>, n: nat, index: nat) {
    && Normal(retained) && ValidSpans(retained) && Normal(cuts) && n <= |retained| && index <= |cuts|
    && CutBelow(result, retained, cuts, Edge(retained, n))
    && (result != [] ==> n > 0 && result[|result| - 1].1 < Edge(retained, n))
    && (index > 0 ==> n > 0 && cuts[index - 1].1 < Edge(retained, n))
  }

  lemma StartSubtract(retained: seq<Range>, cuts: seq<Range>)
    requires Normal(retained) && ValidSpans(retained) && Normal(cuts)
    ensures Subtracted([], retained, cuts, 0, 0)
  {
  }

  lemma StartsAfter(result: seq<Range>, retained: seq<Range>, cuts: seq<Range>, n: nat, index: nat)
    requires Subtracted(result, retained, cuts, n, index) && n < |retained|
    ensures Edge(retained, n) <= retained[n].0
  {
  }

  /** The cuts before the next retained range are passed over. */
  lemma NextRetained(result: seq<Range>, retained: seq<Range>, cuts: seq<Range>, n: nat, index: nat, current: nat)
    requires Subtracted(result, retained, cuts, n, index) && n < |retained| && current <= |cuts|
    requires current > 0 ==> cuts[current - 1].1 < retained[n].0
    requires current < |cuts| ==> retained[n].0 <= cuts[current].1
    ensures Cutting(result, retained, cuts, current, retained[n].0) && AllCovered(retained, retained[n].0, retained[n].1)
    ensures retained[n].0 <= retained[n].1
  {
    var edge, lo := Edge(retained, n), retained[n].0;
    assert edge <= lo && (n > 0 ==> edge < lo);
    Between(retained, n, edge, lo - 1);
    RangeCovered(retained, n);
    hide Covered, Normal;
    CutSkip(result, retained, cuts, edge, lo - 1);
  }

  lemma AllSubtracted(result: seq<Range>, retained: seq<Range>, cuts: seq<Range>, index: nat)
    requires Subtracted(result, retained, cuts, |retained|, index)
    ensures Normal(result) && ValidSpans(result)
    ensures forall k :: Covered(result, k) <==> Covered(retained, k) && !Covered(cuts, k)
  {
    forall k | Covered(retained, k) ensures k < Edge(retained, |retained|) {
      var i :| 0 <= i < |retained| && retained[i].0 <= k <= retained[i].1;
      assert i == |retained| - 1 || retained[i].1 + 1 < retained[|retained| - 1].0;
    }
    ResultPositive(result, retained);
  }

  /** The retained ids without the removed ones, as a normal list. */
  method Subtract(spans: seq<Range>, removed: seq<Range>) returns (r: Result<seq<Range>, CoverageError>)
    ensures r.Ok? <==> ValidSpans(spans) && ValidSpans(removed)
    ensures r.Ok? ==> Normal(r.value) && ValidSpans(r.value)
    ensures r.Ok? ==> forall k :: Covered(r.value, k) <==> Covered(spans, k) && !Covered(removed, k)
  {
    var merged := Merge(spans);
    if merged.Err? { return Err(merged.error); }
    var merged' := Merge(removed);
    if merged'.Err? { return Err(merged'.error); }
    var retained, cuts := merged.value, merged'.value;
    var result, index := [], 0;
    StartSubtract(retained, cuts);
    hide Normal, Covered, ValidSpans, CutBelow, Cutting, AllCovered;
    for n := 0 to |retained|
      invariant Subtracted(result, retained, cuts, n, index)
    {
      var lo := retained[n].0;
      ghost var start := index;
      StartsAfter(result, retained, cuts, n, index);
      while index < |cuts| && cuts[index].1 < lo
        invariant start <= index <= |cuts|
        invariant index > 0 ==> cuts[index - 1].1 < lo
      {
        index := index + 1;
      }
      NextRetained(result, retained, cuts, n, start, index);
      result, index := SubtractOne(result, retained, cuts, lo, retained[n].1, index);
    }
    AllSubtracted(result, retained, cuts, index);
    return Ok(result);
  }

  lemma ResultPositive(result: seq<Range>, spans: seq<Range>)
    requires Normal(result) && ValidSpans(spans)
    requires forall k :: Covered(result, k) ==> Covered(spans, k)
    ensures ValidSpans(result)
  {
    forall i | 0 <= i < |result| ensures ValidSpan(result[i]) {
      assert Covered(result, result[i].0);
    }
  }

  // ---- Withdrawn units ----

  /** Coverage taken back from the affected units, with the projection epoch it was read at. */
  datatype UnitWithdrawal = UnitWithdrawal(records: seq<Range>, observations: seq<Range>, epoch: nat)

  /** What of the prior capture coverage is kept; refused unless the withdrawn ids lie inside it. */
  method Retained(withdrawal: UnitWithdrawal, records: seq<Range>, observations: seq<Range>)
    returns (r: Result<(seq<Range>, seq<Range>), CoverageError>)
    ensures r.Ok? <==>
      && ValidSpans(withdrawal.records) && ValidSpans(withdrawal.observations)
      && ValidSpans(records) && ValidSpans(observations)
      && (forall k :: Covered(withdrawal.records, k) ==> Covered(records, k))
      && (forall k :: Covered(withdrawal.observations, k) ==> Covered(observations, k))
    ensures r.Ok? ==> Kept(r.value.0, records, withdrawal.records) && Kept(r.value.1, observations, withdrawal.observations)
  {
    var outsideRecords := Subtract(withdrawal.records, records);
    if outsideRecords.Err? { return Err(outsideRecords.error); }
    var outsideObservations := Subtract(withdrawal.observations, observations);
    if outsideObservations.Err? { return Err(outsideObservations.error); }
    EmptyCoversNothing(outsideRecords.value);
    EmptyCoversNothing(outsideObservations.value);
    if outsideRecords.value != [] || outsideObservations.value != [] {
      return Err(CoverageUnavailable);
    }
    var keptRecords := Subtract(records, withdrawal.records);
    var keptObservations := Subtract(observations, withdrawal.observations);
    return Ok((keptRecords.value, keptObservations.value));
  }

  ghost predicate Kept(kept: seq<Range>, prior: seq<Range>, withdrawn: seq<Range>) {
    && Normal(kept) && ValidSpans(kept)
    && (forall k :: Covered(kept, k) <==> Covered(prior, k) && !Covered(withdrawn, k))
  }

  lemma EmptyCoversNothing(spans: seq<Range>)
    requires Normal(spans)
    ensures spans == [] <==> forall k :: !Covered(spans, k)
  {
    if spans != [] { assert Covered(spans, spans[0].0); }
  }
}
