/** Runs of the ingestion pipelines: external records resolved, batches of places written, and
    sweeps of the rows near the places an import touched, in any interleaving. */
module Runs {
  import opened Models
  import opened Scoring
  import opened Matching
  import opened Registry
  import opened Identity
  import opened QueueLaws

  datatype Event =
    | ResolveRecord(r: Record, fate: Fate)
    | WriteBatch(ps: seq<NewPlace>, now: Time)
    | SweepNear(touched: seq<PlaceId>, rows: seq<QueueRow>, fates: QueueId -> Fate)

  ghost function EffectsOf(w: World, s: State, e: Event): seq<Effect> {
    match e
    case ResolveRecord(r, fate) => ResolveEffects(Matcher(w, SpotsOf(s))(r), r, fate)
    case WriteBatch(ps, now) => Upserts(s, ps, now)
    case SweepNear(_, rows, fates) => SweepEffects(Matcher(w, SpotsOf(s)), rows, fates)
  }

  ghost function After(w: World, s: State, e: Event): State {
    ApplyAll(s, EffectsOf(w, s, e))
  }

  /** Batches that the database accepts, and sweeps over what the queue query returns. */
  ghost predicate Possible(w: World, s: State, e: Event) {
    match e
    case ResolveRecord(_, _) => true
    case WriteBatch(ps, _) => NoRepeatedKey(ps)
    case SweepNear(touched, rows, _) => Enumerates(s, NearTouched(w, s, touched, RADIUS_M), rows)
  }

  ghost function StateAfter(w: World, s: State, run: seq<Event>): State {
    if run == [] then s else After(w, StateAfter(w, s, run[..|run| - 1]), run[|run| - 1])
  }

  ghost predicate PossibleRun(w: World, s: State, run: seq<Event>) {
    run == [] || (PossibleRun(w, s, run[..|run| - 1]) && Possible(w, StateAfter(w, s, run[..|run| - 1]), run[|run| - 1]))
  }

  lemma EventKeepsValid(w: World, s: State, e: Event)
    requires Valid(s)
    ensures Valid(After(w, s, e))
    ensures !e.WriteBatch? ==> SpotsOf(After(w, s, e)) == SpotsOf(s)
  {
    match e
    case ResolveRecord(_, _) => SpotsAreKeptAll(s, EffectsOf(w, s, e));
    case WriteBatch(ps, now) => UpsertsKeepValid(s, ps, now);
    case SweepNear(_, rows, fates) =>
      SweepKeepsSpots(Matcher(w, SpotsOf(s)), rows, fates);
      SpotsAreKeptAll(s, EffectsOf(w, s, e));
  }

  lemma {:induction false} RunKeepsValid(w: World, s: State, run: seq<Event>)
    requires Valid(s)
    ensures Valid(StateAfter(w, s, run))
  {
    if run != [] {
      RunKeepsValid(w, s, run[..|run| - 1]);
      EventKeepsValid(w, StateAfter(w, s, run[..|run| - 1]), run[|run| - 1]);
    }
  }

  // ---------------------------------------------------------------- quiet queues

  ghost predicate Weak(w: World, m: Spots, r: Record, id: PlaceId) {
    Eligible(m, r, id) ==> Score(w, r, m[id]) < LOW_CONFIDENCE_THRESHOLD
  }

  ghost predicate WeakExcept(w: World, m: Spots, r: Record, pending: set<PlaceId>) {
    forall id :: id in m && id !in pending ==> Weak(w, m, r, id)
  }

  /** No queued record matches any place, save perhaps the places written since they were last swept. */
  ghost predicate QuietExcept(w: World, s: State, pending: set<PlaceId>) {
    forall q :: q in s.queue ==> WeakExcept(w, SpotsOf(s), RecordOf(s.queue[q]), pending)
  }

  /** No queued record matches any place of the table. */
  ghost predicate Quiet(w: World, s: State) {
    forall q :: q in s.queue ==> Silent(w, SpotsOf(s), RecordOf(s.queue[q]))
  }

  ghost predicate Roomy(w: World, m: Spots, r: Record, reach: real) {
    |Within(w, m, r, reach)| <= LIMIT
  }

  ghost function Pending(w: World, s: State, e: Event, pending: set<PlaceId>): set<PlaceId> {
    match e
    case ResolveRecord(_, _) => pending
    case WriteBatch(ps, now) => pending + set id | id in PlaceIds(Upserts(s, ps, now))
    case SweepNear(touched, _, _) => pending - set id | id in touched
  }

  ghost function PendingAfter(w: World, s: State, run: seq<Event>): set<PlaceId> {
    if run == [] then {}
    else
      var n := |run| - 1;
      Pending(w, StateAfter(w, s, run[..n]), run[n], PendingAfter(w, s, run[..n]))
  }

  /** The sweep reports no errors, and every record matched has at most 32 eligible places within `reach`. */
  ghost predicate Clean(w: World, s: State, e: Event, reach: real) {
    match e
    case ResolveRecord(r, _) => Roomy(w, SpotsOf(s), r, reach)
    case WriteBatch(_, _) => true
    case SweepNear(_, rows, fates) =>
      && Tally(|rows|, Matcher(w, SpotsOf(s)), rows, fates).errors == 0
      && forall row :: row in rows ==> Roomy(w, SpotsOf(s), RecordOf(row), reach)
  }

  ghost predicate CleanRun(w: World, s: State, run: seq<Event>, reach: real) {
    run == [] || (CleanRun(w, s, run[..|run| - 1], reach) && Clean(w, StateAfter(w, s, run[..|run| - 1]), run[|run| - 1], reach))
  }

  lemma NoMatchIsSilent(w: World, m: Spots, r: Record, reach: real)
    requires w.Valid() && Reaches(w, reach) && Roomy(w, m, r, reach)
    requires Verdict(w, m, r) == NoMatch
    ensures Silent(w, m, r)
  {
    QueryLosesNothing(w, m, r, FindCandidates(w, m, r), reach);
  }

  lemma FarIsWeak(w: World, m: Spots, r: Record, id: PlaceId, reach: real)
    requires w.Valid() && Reaches(w, reach) && id in m
    requires w.geography(r.at, m[id].at) > RADIUS_M
    ensures Weak(w, m, r, id)
  {
    BandMeaning(w, r, m[id]);
  }

  // ---------------------------------------------------------------- each kind of event

  lemma {:induction false} UpsertsFrame(s: State, ps: seq<NewPlace>, now: Time)
    ensures var es := Upserts(s, ps, now); var t := ApplyAll(s, es);
            && t.queue == s.queue && t.nextQueue == s.nextQueue
            && s.places.Keys <= t.places.Keys
            && forall id :: id in t.places && id !in PlaceIds(es) ==> id in s.places && t.places[id] == s.places[id]
    decreases |ps|
  {
    if ps != [] {
      var n := |ps| - 1;
      UpsertsFrame(s, ps[..n], now);
      UpsertsStep(s, ps, n, now);
      assert ps[..n + 1] == ps;
      var es, before := Upserts(s, ps, now), Upserts(s, ps[..n], now);
      assert PlaceIds(es) == PlaceIds(before) + [es[n].place];
      forall id | id in ApplyAll(s, es).places && id !in PlaceIds(es)
        ensures id in s.places && ApplyAll(s, es).places[id] == s.places[id]
      {
        assert es[n].place in PlaceIds(es);
        assert forall i :: i in PlaceIds(before) ==> i in PlaceIds(es);
      }
    }
  }

  lemma WriteKeepsQuiet(w: World, s: State, ps: seq<NewPlace>, now: Time, pending: set<PlaceId>)
    requires QuietExcept(w, s, pending)
    ensures var e := WriteBatch(ps, now); QuietExcept(w, After(w, s, e), Pending(w, s, e, pending))
  {
    var e := WriteBatch(ps, now);
    var t, pend := After(w, s, e), Pending(w, s, e, pending);
    UpsertsFrame(s, ps, now);
    forall q, id | q in t.queue && id in t.places && id !in pend
      ensures Weak(w, SpotsOf(t), RecordOf(t.queue[q]), id)
    {
      assert WeakExcept(w, SpotsOf(s), RecordOf(s.queue[q]), pending);
      assert id in s.places && t.places[id] == s.places[id];
      assert Weak(w, SpotsOf(s), RecordOf(s.queue[q]), id);
    }
  }

  lemma ResolveKeepsQuiet(w: World, s: State, r: Record, fate: Fate, pending: set<PlaceId>, reach: real)
    requires w.Valid() && Reaches(w, reach) && Valid(s)
    requires QuietExcept(w, s, pending) && Roomy(w, SpotsOf(s), r, reach)
    ensures QuietExcept(w, After(w, s, ResolveRecord(r, fate)), pending)
  {
    var m, d := SpotsOf(s), Matcher(w, SpotsOf(s))(r);
    var es := ResolveEffects(d, r, fate);
    EventKeepsValid(w, s, ResolveRecord(r, fate));
    if es != [] {
      ApplyOne(s, es[0]);
      var t := Apply(s, es[0]);
      if d == NoMatch {
        NoMatchIsSilent(w, m, r, reach);
        var slot := Slot(s, r.source, r.sourceId);
        forall q | q in t.queue
          ensures WeakExcept(w, m, RecordOf(t.queue[q]), pending)
        {
          if q == slot {
            SilenceIgnoresOrigin(w, m, r, RecordOf(t.queue[q]));
          } else {
            assert t.queue[q] == s.queue[q];
          }
        }
      }
    }
  }

  lemma SilenceIgnoresOrigin(w: World, m: Spots, r: Record, t: Record)
    requires t == r.(source := t.source, sourceId := t.sourceId, payload := t.payload)
    requires Silent(w, m, r)
    ensures Silent(w, m, t)
  {
    forall id | Eligible(m, t, id)
      ensures Score(w, t, m[id]) < LOW_CONFIDENCE_THRESHOLD
    {
      assert Eligible(m, r, id);
    }
  }

  /** A row that an error-free sweep leaves behind was decided NoMatch, if it was considered at all. */
  lemma LeftBehind(w: World, s: State, e: Event, q: QueueId)
    requires Valid(s) && e.SweepNear? && Possible(w, s, e)
    requires Tally(|e.rows|, Matcher(w, SpotsOf(s)), e.rows, e.fates).errors == 0
    requires q in After(w, s, e).queue
    ensures q in s.queue && RecordOf(After(w, s, e).queue[q]) == RecordOf(s.queue[q])
    ensures q in NearTouched(w, s, e.touched, RADIUS_M) ==> Verdict(w, SpotsOf(s), RecordOf(s.queue[q])) == NoMatch
  {
    var judge, ids := Matcher(w, SpotsOf(s)), NearTouched(w, s, e.touched, RADIUS_M);
    EnumeratesRows(s, ids, e.rows);
    SweptQueue(s, judge, e.rows, e.fates);
    SweptTally(|e.rows|, s, judge, e.rows, e.fates);
    if q in ids {
      var failed := With(s.queue, judge, Ids(e.rows), e.fates, Failed);
      assert failed == {};
      assert q !in failed;
    }
  }

  lemma SweepSettles(w: World, s: State, e: Event, pending: set<PlaceId>, reach: real)
    requires w.Valid() && Reaches(w, reach) && Valid(s)
    requires e.SweepNear? && Possible(w, s, e) && Clean(w, s, e, reach)
    requires QuietExcept(w, s, pending)
    ensures QuietExcept(w, After(w, s, e), Pending(w, s, e, pending))
  {
    var t, m, pend := After(w, s, e), SpotsOf(s), Pending(w, s, e, pending);
    EventKeepsValid(w, s, e);
    forall q | q in t.queue
      ensures WeakExcept(w, m, RecordOf(t.queue[q]), pend)
    {
      LeftBehind(w, s, e, q);
      var r := RecordOf(s.queue[q]);
      assert WeakExcept(w, m, r, pending);
      if q in NearTouched(w, s, e.touched, RADIUS_M) {
        assert s.queue[q] in e.rows;
        NoMatchIsSilent(w, m, r, reach);
      } else {
        forall id | id in m && id in e.touched
          ensures Weak(w, m, r, id)
        {
          FarIsWeak(w, m, r, id, reach);
        }
      }
    }
  }

  /** In every run of error-free sweeps, a queued record can match only a place written since it
      was last swept; once every import has run its sweep, no queued record matches any place,
      although each sweep looked only at the rows near the places it touched. */
  lemma {:induction false} QueueStaysQuiet(w: World, s: State, run: seq<Event>, reach: real)
    requires w.Valid() && Reaches(w, reach) && Valid(s) && Quiet(w, s)
    requires PossibleRun(w, s, run) && CleanRun(w, s, run, reach)
    ensures QuietExcept(w, StateAfter(w, s, run), PendingAfter(w, s, run))
    ensures PendingAfter(w, s, run) == {} ==> Quiet(w, StateAfter(w, s, run))
  {
    if run == [] {
      assert forall q :: q in s.queue ==> Silent(w, SpotsOf(s), RecordOf(s.queue[q]));
    } else {
      var n := |run| - 1;
      var s1, pending, e := StateAfter(w, s, run[..n]), PendingAfter(w, s, run[..n]), run[n];
      QueueStaysQuiet(w, s, run[..n], reach);
      RunKeepsValid(w, s, run[..n]);
      match e {
        case ResolveRecord(r, fate) => ResolveKeepsQuiet(w, s1, r, fate, pending, reach);
        case WriteBatch(ps, now) => WriteKeepsQuiet(w, s1, ps, now, pending);
        case SweepNear(_, _, _) => SweepSettles(w, s1, e, pending, reach);
      }
    }
    QuietExceptNothing(w, StateAfter(w, s, run));
  }

  lemma QuietExceptNothing(w: World, s: State)
    ensures QuietExcept(w, s, {}) <==> Quiet(w, s)
  {
    forall q | q in s.queue
      ensures WeakExcept(w, SpotsOf(s), RecordOf(s.queue[q]), {}) <==> Silent(w, SpotsOf(s), RecordOf(s.queue[q]))
    {
      var m, r := SpotsOf(s), RecordOf(s.queue[q]);
      if WeakExcept(w, m, r, {}) {
        assert forall id :: Eligible(m, r, id) ==> Weak(w, m, r, id);
      }
    }
  }
}
