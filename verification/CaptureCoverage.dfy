/**
 Durable coverage attempts for one source and scope. An attempt withdraws part of the prior
 coverage (everything, when full), stages what the capture sighted, and finishes only when no
 other writer touched the projection meanwhile.
 */
module CaptureCoverage {
  import opened Wrappers
  import opened Ranges
  import opened UnitCoverage

  datatype Point = Point(token: string, epoch: nat, records: seq<Range>, observations: seq<Range>)

  datatype Attempt = Attempt(
    token: string, binding: string, parent: Option<string>, full: bool, epoch: nat,
    withdrawnObservations: seq<Range>, retainedRecords: seq<Range>, retainedObservations: seq<Range>,
    stagedRecords: seq<Range>, stagedObservations: seq<Range>)

  datatype Finished = Finished(records: seq<Range>, observations: seq<Range>, absent: seq<Range>)

  /** The ids as maximal runs; ids are positive. */
  method IdRanges(ids: set<int>) returns (r: seq<Range>)
    requires forall k :: k in ids ==> 1 <= k
    ensures Normal(r) && ValidSpans(r)
    ensures forall k :: Covered(r, k) <==> k in ids
  {
    r := [];
    var left := ids;
    assert Runs(r, ids, left);
    hide Runs;
    while left != {}
      invariant left <= ids && Runs(r, ids, left)
      decreases |left|
    {
      var n := Least(left);
      NextId(r, n, ids, left);
      r := Extend(r, (n, n));
      left := left - {n};
    }
    AllRuns(r, ids);
  }

  /** The runs of the ids that are not `left`; what is left lies beyond them. */
  ghost predicate Runs(r: seq<Range>, ids: set<int>, left: set<int>) {
    && Normal(r) && ValidSpans(r) && (forall k :: Covered(r, k) <==> k in ids && k !in left)
    && (r != [] ==> forall k :: k in left ==> r[|r| - 1].1 < k)
  }

  lemma AllRuns(r: seq<Range>, ids: set<int>)
    requires Runs(r, ids, {})
    ensures Normal(r) && ValidSpans(r) && forall k :: Covered(r, k) <==> k in ids
  {
  }

  lemma NextId(r: seq<Range>, n: int, ids: set<int>, left: set<int>)
    requires Runs(r, ids, left) && left <= ids && n in left && 1 <= n && forall k :: k in left ==> n <= k
    ensures Runs(Extend(r, (n, n)), ids, left - {n})
  {
    var more := Extend(r, (n, n));
    ExtendNormal(r, (n, n));
    assert forall i :: 0 <= i < |more| ==> ValidSpan(more[i]) by {
      forall i | 0 <= i < |more| ensures ValidSpan(more[i]) {
        if i < |r| - 1 { assert ValidSpan(r[i]); }
        if i == |r| - 1 { assert ValidSpan(r[i]); }
      }
    }
    hide Extend, ValidSpans;
    LastIs(more, n, ids - (left - {n}));
  }

  lemma LastIs(r: seq<Range>, n: int, taken: set<int>)
    requires Normal(r) && r != [] && n in taken && forall k :: k in taken ==> k <= n
    requires forall k :: Covered(r, k) <==> k in taken
    ensures r[|r| - 1].1 == n
  {
    assert Covered(r, r[|r| - 1].1) && Covered(r, n);
    var i :| 0 <= i < |r| && r[i].0 <= n <= r[i].1;
    assert r[i].1 <= r[|r| - 1].1;
  }

  /** The withdrawal was read at this point and epoch and lies inside the point's coverage. */
  ghost predicate CanWithdraw(point: Point, parent: Option<string>, epoch: nat, withdrawal: UnitWithdrawal) {
    && parent == Some(point.token) && point.epoch == epoch && withdrawal.epoch == epoch
    && ValidSpans(withdrawal.records) && ValidSpans(withdrawal.observations)
    && (forall k :: Covered(withdrawal.records, k) ==> Covered(point.records, k))
    && (forall k :: Covered(withdrawal.observations, k) ==> Covered(point.observations, k))
  }

  /** Retained and withdrawn ids are exactly the prior coverage. */
  ghost predicate Splits(a: Attempt, prior: seq<Range>) {
    && Kept(a.retainedObservations, prior, a.withdrawnObservations)
    && forall k :: Covered(a.withdrawnObservations, k) ==> Covered(prior, k)
  }

  class CoverageStore {
    var epoch: nat            // the source's semantic generation
    var present: set<int>     // observation ids marked present
    var point: Option<Point>
    var attempt: Option<Attempt>
    ghost var outside: nat    // semantic writes since the attempt began, outside its writing() blocks
    ghost var started: set<int>  // the observations present when the attempt began

    ghost predicate Valid()
      reads this
    {
      && (forall k :: k in present ==> 1 <= k)
      && (point.Some? ==> ValidSpans(point.value.records) && ValidSpans(point.value.observations) && point.value.epoch <= epoch)
      && (attempt.Some? ==>
           && attempt.value.epoch + outside == epoch
           && ValidSpans(attempt.value.withdrawnObservations)
           && ValidSpans(attempt.value.retainedRecords) && ValidSpans(attempt.value.retainedObservations)
           && ValidSpans(attempt.value.stagedRecords) && ValidSpans(attempt.value.stagedObservations)
           && (if attempt.value.full then
                 && attempt.value.retainedRecords == [] && attempt.value.retainedObservations == []
                 && forall k :: Covered(attempt.value.withdrawnObservations, k) <==> k in started
               else point.Some? && Splits(attempt.value, point.value.observations)))
    }

    /** The observations that the attempt answers for: all present at its start, or the prior point's coverage. */
    ghost predicate Prior(k: int)
      reads this
    {
      attempt.Some? && if attempt.value.full then k in started else point.Some? && Covered(point.value.observations, k)
    }

    predicate Owned(token: string, binding: string)
      reads this
    {
      attempt.Some? && attempt.value.token == token && attempt.value.binding == binding
    }

    /** The guard of every attempt operation: the attempt exists and no unrelated write moved the epoch. */
    predicate Check(token: string, binding: string)
      reads this
    {
      Owned(token, binding) && attempt.value.epoch == epoch
    }

    method Begin(token: string, binding: string, parent: Option<string>, full: bool, withdrawal: Option<UnitWithdrawal>)
      returns (r: Result<(), CoverageError>)
      requires Valid()
      modifies this
      ensures Valid() && epoch == old(epoch) && present == old(present) && point == old(point)
      ensures r.Ok? <==>
        if old(attempt).Some? then old(Check(token, binding)) && old(attempt).value.parent == parent
        else full || (point.Some? && withdrawal.Some? && CanWithdraw(point.value, parent, epoch, withdrawal.value))
      ensures r.Err? || old(attempt).Some? ==> attempt == old(attempt) && outside == old(outside) && started == old(started)
      ensures r.Ok? ==> Check(token, binding) && outside == 0 && attempt.value.parent == parent
      ensures r.Ok? && old(attempt).None? ==>
        attempt.value.full == full && attempt.value.stagedRecords == [] && attempt.value.stagedObservations == []
      ensures r.Ok? && old(attempt).None? && full ==> started == present
      ensures r.Ok? && old(attempt).None? && !full ==>
        && attempt.value.withdrawnObservations == withdrawal.value.observations
        && Kept(attempt.value.retainedObservations, point.value.observations, withdrawal.value.observations)
        && Kept(attempt.value.retainedRecords, point.value.records, withdrawal.value.records)
    {
      if attempt.Some? {
        if !Check(token, binding) || attempt.value.parent != parent { return Err(CoverageUnavailable); }
        return Ok(());
      }
      var withdrawn, records, observations := [], [], [];
      if full {
        withdrawn := IdRanges(present);
      } else {
        if point.None? || Some(point.value.token) != parent || point.value.epoch != epoch { return Err(CoverageUnavailable); }
        if withdrawal.None? || withdrawal.value.epoch != epoch { return Err(CoverageUnavailable); }
        var kept := Retained(withdrawal.value, point.value.records, point.value.observations);
        if kept.Err? { return Err(kept.error); }
        records, observations := kept.value.0, kept.value.1;
        withdrawn := withdrawal.value.observations;
      }
      attempt := Some(Attempt(token, binding, parent, full, epoch, withdrawn, records, observations, [], []));
      outside, started := 0, present;
      return Ok(());
    }

    method RestartFull(token: string, binding: string, parent: Option<string>) returns (r: Result<(), CoverageError>)
      requires Valid()
      modifies this
      ensures Valid() && epoch == old(epoch) && present == old(present) && point == old(point)
      ensures r.Ok? <==> (old(attempt).Some? ==>
        old(Owned(token, binding)) && old(attempt).value.parent == parent)
      ensures r.Err? ==> attempt == old(attempt) && outside == old(outside)
      ensures r.Ok? ==> Check(token, binding) && attempt.value.full && started == present && outside == 0
                        && attempt.value.stagedObservations == []
    {
      if attempt.Some? {
        if !Owned(token, binding) || attempt.value.parent != parent { return Err(CoverageUnavailable); }
        attempt := None;
      }
      r := Begin(token, binding, parent, true, None);
    }

    /** Another writer commits `changes` semantic changes and leaves `now` present. */
    method WriteOutside(changes: nat, now: set<int>)
      requires Valid() && forall k :: k in now ==> 1 <= k
      requires now != present ==> 0 < changes
      modifies this
      ensures Valid() && present == now && point == old(point) && attempt == old(attempt)
      ensures epoch == old(epoch) + changes && outside == old(outside) + changes && started == old(started)
    {
      epoch, outside, present := epoch + changes, outside + changes, now;
    }

    /** The attempt's own transaction: writing() re-reads the epoch after the body. */
    method Writing(token: string, binding: string, changes: nat, now: set<int>) returns (r: Result<(), CoverageError>)
      requires Valid() && forall k :: k in now ==> 1 <= k
      modifies this
      ensures Valid() && point == old(point) && outside == old(outside) && started == old(started)
      ensures r.Ok? <==> old(Check(token, binding))
      ensures r.Err? ==> attempt == old(attempt) && present == old(present) && epoch == old(epoch)
      ensures r.Ok? ==> epoch == old(epoch) + changes && present == now
                        && attempt == Some(old(attempt).value.(epoch := epoch))
    {
      if !Check(token, binding) { return Err(CoverageUnavailable); }
      epoch, present := epoch + changes, now;
      attempt := Some(attempt.value.(epoch := epoch));
      return Ok(());
    }

    method Stage(token: string, binding: string, records: seq<Range>, observations: seq<Range>)
      returns (r: Result<(), CoverageError>)
      requires Valid()
      modifies this
      ensures Valid() && point == old(point) && outside == old(outside) && started == old(started)
      ensures epoch == old(epoch) && present == old(present)
      ensures r.Ok? <==> old(Owned(token, binding)) && ValidSpans(records) && ValidSpans(observations)
      ensures r.Err? ==> attempt == old(attempt)
      ensures r.Ok? ==>
        && attempt.Some? && attempt == Some(old(attempt).value.(stagedRecords := attempt.value.stagedRecords,
                                               stagedObservations := attempt.value.stagedObservations))
        && (forall k :: Covered(attempt.value.stagedRecords, k) <==>
             Covered(old(attempt).value.stagedRecords, k) || Covered(records, k))
        && (forall k :: Covered(attempt.value.stagedObservations, k) <==>
             Covered(old(attempt).value.stagedObservations, k) || Covered(observations, k))
    {
      if !Owned(token, binding) { return Err(CoverageUnavailable); }
      var moreRecords := Union(attempt.value.stagedRecords, records);
      if moreRecords.Err? { return Err(moreRecords.error); }
      var moreObservations := Union(attempt.value.stagedObservations, observations);
      if moreObservations.Err? { return Err(moreObservations.error); }
      attempt := Some(attempt.value.(stagedRecords := moreRecords.value, stagedObservations := moreObservations.value));
      return Ok(());
    }

    /**
     Publishes the new point. Success means that nobody else wrote since the attempt began, and conserves coverage:
     prior and staged ids, and no others, end up covered or marked absent, never both.
     */
    method Finish(token: string, binding: string) returns (r: Result<Finished, CoverageError>)
      requires Valid()
      modifies this
      ensures Valid()
      ensures r.Ok? <==> old(Owned(token, binding)) && old(outside) == 0
      ensures r.Err? ==> attempt == old(attempt) && point == old(point) && present == old(present) && epoch == old(epoch)
      ensures r.Ok? ==> attempt.None? && point == Some(Point(token, epoch, r.value.records, r.value.observations))
      ensures r.Ok? ==> Conserved(old(attempt).value, r.value)
      ensures r.Ok? ==> forall k :: Covered(r.value.observations, k) || Covered(r.value.absent, k)
                                    <==> old(Prior(k)) || Covered(old(attempt).value.stagedObservations, k)
      ensures r.Ok? ==> forall k :: Covered(r.value.absent, k) ==> old(Prior(k)) && !Covered(old(attempt).value.stagedObservations, k)
      ensures r.Ok? ==> present == set k | k in old(present) && !Covered(r.value.absent, k)
      ensures r.Ok? && old(attempt).value.full ==>
        forall k :: k in old(started) ==>
          Covered(old(attempt).value.stagedObservations, k) || (Covered(r.value.absent, k) && k !in present)
    {
      if !Check(token, binding) { return Err(CoverageUnavailable); }
      var a := attempt.value;
      ghost var prior := if a.full then [] else point.value.observations;
      var records := Union(a.retainedRecords, a.stagedRecords);
      var observations := Union(a.retainedObservations, a.stagedObservations);
      var absent := Subtract(a.withdrawnObservations, observations.value);
      ghost var gone := set k | k in present && Covered(absent.value, k);
      var left, count := Mark(present, absent.value);
      present := left;
      epoch := epoch + count;
      point := Some(Point(token, epoch, records.value, observations.value));
      attempt := None;
      r := Ok(Finished(records.value, observations.value, absent.value));
      if !a.full { PriorConserved(prior, a, r.value); }
    }
  }

  ghost predicate Conserved(a: Attempt, f: Finished) {
    && (forall k :: Covered(f.observations, k) || Covered(f.absent, k) <==>
         Covered(a.retainedObservations, k) || Covered(a.withdrawnObservations, k) || Covered(a.stagedObservations, k))
    && (forall k :: !(Covered(f.observations, k) && Covered(f.absent, k)))
    && (forall k :: Covered(a.retainedObservations, k) || Covered(a.stagedObservations, k) ==> Covered(f.observations, k))
    && (forall k :: Covered(f.records, k) <==> Covered(a.retainedRecords, k) || Covered(a.stagedRecords, k))
    && Normal(f.records) && Normal(f.observations) && Normal(f.absent)
  }

  /** Prior coverage plus what was staged is exactly what ends up covered or absent. */
  lemma PriorConserved(prior: seq<Range>, a: Attempt, f: Finished)
    requires Splits(a, prior) && Conserved(a, f)
    ensures forall k :: Covered(f.observations, k) || Covered(f.absent, k) <==> Covered(prior, k) || Covered(a.stagedObservations, k)
    ensures forall k :: Covered(f.absent, k) ==> Covered(prior, k) && !Covered(a.stagedObservations, k)
  {
    forall k
      ensures Covered(f.observations, k) || Covered(f.absent, k) <==> Covered(prior, k) || Covered(a.stagedObservations, k)
      ensures Covered(f.absent, k) ==> Covered(prior, k) && !Covered(a.stagedObservations, k)
    {
      assert Covered(a.retainedObservations, k) <==> Covered(prior, k) && !Covered(a.withdrawnObservations, k);
    }
  }

  /** `merge([*a, *b])`. */
  method Union(a: seq<Range>, b: seq<Range>) returns (r: Result<seq<Range>, CoverageError>)
    ensures r.Ok? <==> ValidSpans(a) && ValidSpans(b)
    ensures r.Ok? ==> Normal(r.value) && ValidSpans(r.value)
    ensures r.Ok? ==> forall k :: Covered(r.value, k) <==> Covered(a, k) || Covered(b, k)
  {
    r := Merge(a + b);
    ConcatCovers(a, b);
  }

  lemma ConcatCovers(a: seq<Range>, b: seq<Range>)
    ensures ValidSpans(a + b) <==> ValidSpans(a) && ValidSpans(b)
    ensures forall k :: Covered(a + b, k) <==> Covered(a, k) || Covered(b, k)
  {
    var c := a + b;
    assert forall i :: 0 <= i < |a| ==> c[i] == a[i];
    assert forall i :: 0 <= i < |b| ==> c[|a| + i] == b[i];
    forall k ensures Covered(c, k) <==> Covered(a, k) || Covered(b, k) {
      if Covered(c, k) {
        var i :| 0 <= i < |c| && c[i].0 <= k <= c[i].1;
        if i < |a| { assert a[i] == c[i]; } else { assert b[i - |a|] == c[i]; }
      }
    }
  }

  /** The UPDATE over the absent ranges: every present id in them is marked, one epoch step per row. */
  method Mark(present: set<int>, absent: seq<Range>) returns (left: set<int>, count: nat)
    ensures left == set k | k in present && !Covered(absent, k)
    ensures count == |present| - |left|
  {
    left, count := present, 0;
    for n := 0 to |absent|
      invariant left == set k | k in present && !Covered(absent[..n], k)
      invariant count == |present| - |left|
    {
      var hit := set k | k in left && absent[n].0 <= k <= absent[n].1;
      assert absent[..n + 1] == absent[..n] + [absent[n]];
      forall k ensures Covered(absent[..n + 1], k) <==> Covered(absent[..n], k) || absent[n].0 <= k <= absent[n].1 {
        CoveredAppend(absent[..n], absent[n], k);
      }
      left, count := left - hit, count + |hit|;
    }
    assert absent[..|absent|] == absent;
  }
}
