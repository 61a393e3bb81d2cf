/** The touched-only sweep against the simple one that re-matches every queued row. */
module SweepRefinement {
  import opened Models
  import opened Scoring
  import opened Matching
  import opened Registry
  import opened Identity
  import opened QueueLaws
  import opened Runs

  /** The rows with ids in `ids`, in the order of `rows`. */
  function Restrict(rows: seq<QueueRow>, ids: set<QueueId>): seq<QueueRow> {
    if rows == [] then []
    else
      var n := |rows| - 1;
      Restrict(rows[..n], ids) + (if rows[n].id in ids then [rows[n]] else [])
  }

  /** The same places with the same external refs, and the same rows still queued. */
  ghost predicate SameButAttempts(a: State, b: State) {
    && a.places == b.places && a.nextPlace == b.nextPlace && a.nextQueue == b.nextQueue
    && a.queue.Keys == b.queue.Keys
    && forall q :: q in a.queue ==> RecordOf(a.queue[q]) == RecordOf(b.queue[q])
  }

  lemma {:induction false} RestrictEnumerates(s: State, rows: seq<QueueRow>, ids: set<QueueId>)
    requires forall i, j :: 0 <= i < j < |rows| ==> rows[i].id != rows[j].id
    ensures var near := Restrict(rows, ids);
            && (forall row :: row in near <==> row in rows && row.id in ids)
            && (forall i, j :: 0 <= i < j < |near| ==> near[i].id != near[j].id)
  {
    if rows != [] {
      var n := |rows| - 1;
      RestrictEnumerates(s, rows[..n], ids);
      var before, near := Restrict(rows[..n], ids), Restrict(rows, ids);
      assert rows == rows[..n] + [rows[n]];
      forall i, j | 0 <= i < j < |near|
        ensures near[i].id != near[j].id
      {
        assert before[i] in before;
        var k :| 0 <= k < n && rows[k] == before[i];
      }
    }
  }

  lemma EffectKeepsAgreement(a: State, b: State, e: Effect)
    requires SameButAttempts(a, b) && (e.Attached? || e.Bumped? || e.Removed?)
    ensures SameButAttempts(Apply(a, e), Apply(b, e))
    ensures e.Bumped? ==> SameButAttempts(Apply(a, e), b)
  {
  }

  lemma {:induction false} EffectsKeepAgreement(a: State, b: State, es: seq<Effect>)
    requires SameButAttempts(a, b) && forall e :: e in es ==> e.Attached? || e.Bumped? || e.Removed?
    ensures SameButAttempts(ApplyAll(a, es), ApplyAll(b, es))
    ensures (forall e :: e in es ==> e.Bumped?) ==> SameButAttempts(ApplyAll(a, es), b)
    decreases |es|
  {
    if es != [] {
      var n := |es| - 1;
      assert es[n] in es;
      EffectsKeepAgreement(a, b, es[..n]);
      EffectKeepsAgreement(ApplyAll(a, es[..n]), ApplyAll(b, es[..n]), es[n]);
      if forall e :: e in es ==> e.Bumped? {
        EffectKeepsAgreement(ApplyAll(a, es[..n]), b, es[n]);
      }
    }
  }

  /** A row that nothing near was touched cannot match: the sweep may skip it. */
  lemma UntouchedRowsStayUnmatched(w: World, s: State, touched: seq<PlaceId>, q: QueueId, reach: real)
    requires w.Valid() && Reaches(w, reach)
    requires QuietExcept(w, s, set id | id in touched)
    requires q in s.queue && q !in NearTouched(w, s, touched, RADIUS_M)
    ensures Silent(w, SpotsOf(s), RecordOf(s.queue[q]))
    ensures Verdict(w, SpotsOf(s), RecordOf(s.queue[q])) == NoMatch
  {
    var m, r := SpotsOf(s), RecordOf(s.queue[q]);
    assert WeakExcept(w, m, r, set id | id in touched);
    forall id | Eligible(m, r, id)
      ensures Score(w, r, m[id]) < LOW_CONFIDENCE_THRESHOLD
    {
      if id in touched {
        FarIsWeak(w, m, r, id, reach);
      }
      assert Weak(w, m, r, id);
    }
    var cs := FindCandidates(w, m, r);
    NoMatchMeans(w, m, r, cs);
  }

  /** The incremental sweep is the full sweep: whichever row order, clock and failures, sweeping
      only the rows near touched places attaches the same refs, drains the same rows and counts
      the same matches as sweeping the whole queue in that order. */
  lemma IncrementalSweepIsFullSweep(w: World, s: State, touched: seq<PlaceId>, all: seq<QueueRow>, fates: QueueId -> Fate, reach: real)
    requires w.Valid() && Reaches(w, reach) && Valid(s)
    requires QuietExcept(w, s, set id | id in touched)
    requires Enumerates(s, s.queue.Keys, all)
    ensures var near := Restrict(all, NearTouched(w, s, touched, RADIUS_M));
            var judge := Matcher(w, SpotsOf(s));
            var part, whole := Tally(|near|, judge, near, fates), Tally(|all|, judge, all, fates);
            && Enumerates(s, NearTouched(w, s, touched, RADIUS_M), near)
            && SameButAttempts(ApplyAll(s, SweepEffects(judge, all, fates)), ApplyAll(s, SweepEffects(judge, near, fates)))
            && part.confident == whole.confident && part.lowConfidence == whole.lowConfidence
  {
    var ids, judge := NearTouched(w, s, touched, RADIUS_M), Matcher(w, SpotsOf(s));
    EnumeratesRows(s, s.queue.Keys, all);
    RestrictEnumerates(s, all, ids);
    forall q | q in s.queue && q !in ids
      ensures judge(RecordOf(s.queue[q])) == NoMatch
    {
      UntouchedRowsStayUnmatched(w, s, touched, q, reach);
    }
    PrefixAgrees(s, judge, all, ids, fates, |all|);
    assert all[..|all|] == all;
    SameCounters(|all|, |Restrict(all, ids)|, judge, all, Restrict(all, ids), fates, s, ids, |all|);
  }

  lemma {:induction false} PrefixAgrees(s: State, judge: Judge, all: seq<QueueRow>, ids: set<QueueId>, fates: QueueId -> Fate, n: nat)
    requires n <= |all| && RowsOf(s, all)
    requires forall q :: q in s.queue && q !in ids ==> judge(RecordOf(s.queue[q])) == NoMatch
    ensures SameButAttempts(ApplyAll(s, SweepEffects(judge, all[..n], fates)),
                            ApplyAll(s, SweepEffects(judge, Restrict(all[..n], ids), fates)))
  {
    if n > 0 {
      var row, before := all[n - 1], all[..n - 1];
      assert all[..n][..n - 1] == before;
      var d := judge(RecordOf(row));
      var es := RowEffects(d, row, fates(row.id));
      PrefixAgrees(s, judge, all, ids, fates, n - 1);
      var a, b := ApplyAll(s, SweepEffects(judge, before, fates)), ApplyAll(s, SweepEffects(judge, Restrict(before, ids), fates));
      ApplyAllSplits(s, SweepEffects(judge, before, fates), es);
      EffectsKeepAgreement(a, b, es);
      if row.id in ids {
        var near := Restrict(before, ids);
        assert (near + [row])[..|near|] == near;
        ApplyAllSplits(s, SweepEffects(judge, near, fates), es);
      } else {
        assert s.queue[row.id] == row;
        assert Restrict(before, ids) + [] == Restrict(before, ids);
      }
    }
  }

  lemma {:induction false} SameCounters(c: nat, c': nat, judge: Judge, all: seq<QueueRow>, near: seq<QueueRow>, fates: QueueId -> Fate,
                                        s: State, ids: set<QueueId>, n: nat)
    requires n <= |all| && RowsOf(s, all) && near == Restrict(all[..n], ids)
    requires forall q :: q in s.queue && q !in ids ==> judge(RecordOf(s.queue[q])) == NoMatch
    ensures Tally(c, judge, all[..n], fates).confident == Tally(c', judge, near, fates).confident
    ensures Tally(c, judge, all[..n], fates).lowConfidence == Tally(c', judge, near, fates).lowConfidence
    decreases n
  {
    if n > 0 {
      var row, before := all[n - 1], all[..n - 1];
      assert all[..n][..n - 1] == before;
      var part := Restrict(before, ids);
      SameCounters(c, c', judge, all, part, fates, s, ids, n - 1);
      if row.id in ids {
        assert (part + [row])[..|part|] == part;
      } else {
        assert s.queue[row.id] == row;
        assert part + [] == part;
      }
    }
  }
}
