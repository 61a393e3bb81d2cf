/** Nothing that was resolved is lost silently, and what a place's external ref is. */
module Ledger {
  import opened Models
  import opened Scoring
  import opened Matching
  import opened Registry
  import opened Identity
  import opened QueueLaws
  import opened Runs

  ghost function Trace(w: World, s: State, run: seq<Event>): seq<Effect> {
    if run == [] then []
    else
      var n := |run| - 1;
      Trace(w, s, run[..n]) + EffectsOf(w, StateAfter(w, s, run[..n]), run[n])
  }

  lemma {:induction false} TraceLeadsToState(w: World, s: State, run: seq<Event>)
    ensures ApplyAll(s, Trace(w, s, run)) == StateAfter(w, s, run)
  {
    if run != [] {
      var n := |run| - 1;
      TraceLeadsToState(w, s, run[..n]);
      ApplyAllSplits(s, Trace(w, s, run[..n]), EffectsOf(w, StateAfter(w, s, run[..n]), run[n]));
    }
  }

  ghost predicate Queued(s: State, source: string, sourceId: string) {
    exists q :: q in s.queue && s.queue[q].source == source && s.queue[q].sourceId == sourceId
  }

  ghost predicate AttachedIn(es: seq<Effect>, source: string, sourceId: string) {
    exists e :: e in es && e.Attached? && e.source == source && e.ref.id == sourceId
  }

  /** In the queue or in the history of attaches. Both may hold at once. */
  ghost predicate Accounted(s: State, es: seq<Effect>, source: string, sourceId: string) {
    Queued(s, source, sourceId) || AttachedIn(es, source, sourceId)
  }

  // ---------------------------------------------------------------- rows leave only by being attached

  lemma {:induction false} DrainedRowsWereAttached(judge: Judge, rows: seq<QueueRow>, fates: QueueId -> Fate, row: QueueRow)
    requires row in rows && OutcomeOf(judge(RecordOf(row)), fates(row.id)).Drained?
    ensures AttachedIn(SweepEffects(judge, rows, fates), row.source, row.sourceId)
  {
    var n := |rows| - 1;
    var last := RowEffects(judge(RecordOf(rows[n])), rows[n], fates(rows[n].id));
    if row == rows[n] {
      assert last[0] in SweepEffects(judge, rows, fates);
    } else {
      assert row in rows[..n];
      DrainedRowsWereAttached(judge, rows[..n], fates, row);
    }
  }

  /** Effect `i` removes a queue row, and effect `i - 1` attached the very record in that row. */
  ghost predicate RemovesWhatWasAttached(s: State, es: seq<Effect>, i: nat)
    requires i < |es| && es[i].Removed?
  {
    && i > 0 && es[i - 1].Attached?
    && Holds(ApplyAll(s, es[..i]), es[i].queueId, es[i - 1].source, es[i - 1].ref.id)
  }

  ghost predicate Holds(s: State, q: QueueId, source: string, sourceId: string) {
    q in s.queue && s.queue[q].source == source && s.queue[q].sourceId == sourceId
  }

  /** Within a sweep every removal comes straight after the attach of the record in that row. */
  lemma {:induction false} RemovalFollowsAttach(s: State, judge: Judge, rows: seq<QueueRow>, fates: QueueId -> Fate, i: nat)
    requires RowsOf(s, rows)
    requires var es := SweepEffects(judge, rows, fates); i < |es| && es[i].Removed?
    ensures RemovesWhatWasAttached(s, SweepEffects(judge, rows, fates), i)
  {
    var n := |rows| - 1;
    var before, es := SweepEffects(judge, rows[..n], fates), SweepEffects(judge, rows, fates);
    if i < |before| {
      RemovalFollowsAttach(s, judge, rows[..n], fates, i);
      assert es[..i] == before[..i];
    } else {
      LastRowIsAttachedFirst(s, judge, rows, fates, i);
    }
  }

  lemma LastRowIsAttachedFirst(s: State, judge: Judge, rows: seq<QueueRow>, fates: QueueId -> Fate, i: nat)
    requires RowsOf(s, rows) && rows != []
    requires var es := SweepEffects(judge, rows, fates);
             |SweepEffects(judge, rows[..|rows| - 1], fates)| <= i < |es| && es[i].Removed?
    ensures RemovesWhatWasAttached(s, SweepEffects(judge, rows, fates), i)
  {
    var n := |rows| - 1;
    var before, es := SweepEffects(judge, rows[..n], fates), SweepEffects(judge, rows, fates);
    var last := RowEffects(judge(RecordOf(rows[n])), rows[n], fates(rows[n].id));
    assert es == before + last;
    assert last[i - |before|].Removed? && i == |before| + 1;
    assert es[..i] == before + [last[0]];
    ApplyAllSplits(s, before, [last[0]]);
    ApplyOne(ApplyAll(s, before), last[0]);
    SweptQueue(s, judge, rows[..n], fates);
    IdsStep(rows);
  }

  /** Every removal among the effects comes straight after the attach of the record in that row. */
  ghost predicate RemovesOnlyAttached(s: State, es: seq<Effect>) {
    forall i: nat :: i < |es| && es[i].Removed? ==> RemovesWhatWasAttached(s, es, i)
  }

  lemma EventRemovesOnlyAttached(w: World, s: State, e: Event)
    requires Valid(s) && Possible(w, s, e)
    ensures RemovesOnlyAttached(s, EffectsOf(w, s, e))
  {
    var es := EffectsOf(w, s, e);
    if e.SweepNear? {
      EnumeratesRows(s, NearTouched(w, s, e.touched, RADIUS_M), e.rows);
      forall i: nat | i < |es| && es[i].Removed?
        ensures RemovesWhatWasAttached(s, es, i)
      {
        RemovalFollowsAttach(s, Matcher(w, SpotsOf(s)), e.rows, e.fates, i);
      }
    }
  }

  lemma RemovalsCompose(s: State, a: seq<Effect>, t: State, b: seq<Effect>)
    requires t == ApplyAll(s, a) && RemovesOnlyAttached(s, a) && RemovesOnlyAttached(t, b)
    ensures RemovesOnlyAttached(s, a + b)
  {
    forall i: nat | i < |a + b| && (a + b)[i].Removed?
      ensures RemovesWhatWasAttached(s, a + b, i)
    {
      if i < |a| {
        RemovalEarlierOn(s, a, b, i);
      } else {
        RemovalLaterOn(s, a, t, b, i - |a|);
      }
    }
  }

  lemma RemovalEarlierOn(s: State, es: seq<Effect>, more: seq<Effect>, i: nat)
    requires i < |es| && es[i].Removed? && RemovesWhatWasAttached(s, es, i)
    ensures RemovesWhatWasAttached(s, es + more, i)
  {
    assert (es + more)[..i] == es[..i];
  }

  lemma RemovalLaterOn(s: State, past: seq<Effect>, t: State, es: seq<Effect>, i: nat)
    requires t == ApplyAll(s, past)
    requires i < |es| && es[i].Removed? && RemovesWhatWasAttached(t, es, i)
    ensures RemovesWhatWasAttached(s, past + es, |past| + i)
  {
    assert (past + es)[..|past| + i] == past + es[..i];
    ApplyAllSplits(s, past, es[..i]);
  }

  /** The same for the whole history of a run: no other event removes a row. */
  lemma {:induction false} EveryRemovalFollowsItsAttach(w: World, s: State, run: seq<Event>)
    requires Valid(s) && PossibleRun(w, s, run)
    ensures RemovesOnlyAttached(s, Trace(w, s, run))
  {
    if run != [] {
      var n := |run| - 1;
      RunStep(w, s, run);
      EveryRemovalFollowsItsAttach(w, s, run[..n]);
      RunKeepsValid(w, s, run[..n]);
      EventRemovesOnlyAttached(w, StateAfter(w, s, run[..n]), run[n]);
      TraceLeadsToState(w, s, run[..n]);
      RemovalsCompose(s, Trace(w, s, run[..n]), StateAfter(w, s, run[..n]), EffectsOf(w, StateAfter(w, s, run[..n]), run[n]));
    }
  }

  // ---------------------------------------------------------------- the ledger

  lemma EventKeepsAccount(w: World, s: State, e: Event, source: string, sourceId: string)
    requires Valid(s) && Possible(w, s, e) && Queued(s, source, sourceId)
    ensures Accounted(After(w, s, e), EffectsOf(w, s, e), source, sourceId)
  {
    match e
    case ResolveRecord(r, fate) =>
      var es := EffectsOf(w, s, e);
      if es != [] {
        ApplyOne(s, es[0]);
        EffectKeepsQueued(s, es[0], source, sourceId);
      }
    case WriteBatch(ps, now) =>
      UpsertsFrame(s, ps, now);
    case SweepNear(touched, rows, fates) =>
      SweepKeepsAccount(Matcher(w, SpotsOf(s)), s, NearTouched(w, s, touched, RADIUS_M), rows, fates, source, sourceId);
  }

  lemma EffectKeepsQueued(s: State, e: Effect, source: string, sourceId: string)
    requires Valid(s) && Queued(s, source, sourceId) && (e.Enqueued? || e.Attached?)
    ensures Queued(Apply(s, e), source, sourceId)
  {
    var q :| q in s.queue && s.queue[q].source == source && s.queue[q].sourceId == sourceId;
    var t := Apply(s, e);
    assert q in t.queue && t.queue[q].source == source && t.queue[q].sourceId == sourceId;
  }

  lemma SweepKeepsAccount(judge: Judge, s: State, ids: set<QueueId>, rows: seq<QueueRow>, fates: QueueId -> Fate,
                          source: string, sourceId: string)
    requires Valid(s) && Enumerates(s, ids, rows) && Queued(s, source, sourceId)
    ensures var es := SweepEffects(judge, rows, fates); Accounted(ApplyAll(s, es), es, source, sourceId)
  {
    var t := ApplyAll(s, SweepEffects(judge, rows, fates));
    var q :| q in s.queue && s.queue[q].source == source && s.queue[q].sourceId == sourceId;
    EnumeratesRows(s, ids, rows);
    SweptQueue(s, judge, rows, fates);
    if q in t.queue {
      assert t.queue[q].source == source && t.queue[q].sourceId == sourceId;
    } else {
      DrainedRowsWereAttached(judge, rows, fates, s.queue[q]);
    }
  }

  /** A record resolved without error is queued or attached at once. */
  lemma ResolvedIsAccounted(w: World, s: State, r: Record, fate: Fate)
    requires EffectsOf(w, s, ResolveRecord(r, fate)) != []
    ensures Accounted(After(w, s, ResolveRecord(r, fate)), EffectsOf(w, s, ResolveRecord(r, fate)), r.source, r.sourceId)
  {
    var es := EffectsOf(w, s, ResolveRecord(r, fate));
    ApplyOne(s, es[0]);
    if es[0].Enqueued? {
      var q := Slot(s, r.source, r.sourceId);
      var t := Apply(s, es[0]);
      assert q in t.queue && t.queue[q].source == r.source && t.queue[q].sourceId == r.sourceId;
    } else {
      assert es[0] in es;
    }
  }

  /** In every run, with any failures: each record whose resolve succeeded is still queued at the
      end, or has been attached since, by its resolve or by a sweep. */
  lemma ResolvedRecordsAreNeverLost(w: World, s: State, run: seq<Event>, i: nat)
    requires Valid(s) && PossibleRun(w, s, run)
    requires i < |run| && run[i].ResolveRecord?
    requires EffectsOf(w, StateAfter(w, s, run[..i]), run[i]) != []
    ensures Accounted(StateAfter(w, s, run), TraceSince(w, s, run, i), run[i].r.source, run[i].r.sourceId)
  {
    var now := run[..i + 1];
    assert now[..i] == run[..i];
    PossiblePrefix(w, s, run, i + 1);
    RunStep(w, s, now);
    JustAccounted(w, StateAfter(w, s, run[..i]), run[i], []);
    assert TraceSince(w, s, now, i) == EffectsOf(w, StateAfter(w, s, run[..i]), run[i]) by {
      assert TraceSince(w, s, now[..i], i) == [];
    }
    AccountsAreKept(w, s, run, i, i + 1, run[i].r.source, run[i].r.sourceId);
  }

  /** The effects of the events from the `i`th on. */
  ghost function TraceSince(w: World, s: State, run: seq<Event>, i: nat): seq<Effect> {
    if |run| <= i then []
    else
      var n := |run| - 1;
      TraceSince(w, s, run[..n], i) + EffectsOf(w, StateAfter(w, s, run[..n]), run[n])
  }

  lemma Chained<T>(a: seq<T>, b: seq<T>, c: seq<T>)
    ensures a + b + c == a + (b + c)
  {
  }

  lemma {:induction false} TraceSinceIsASuffix(w: World, s: State, run: seq<Event>, i: nat)
    requires i <= |run|
    ensures Trace(w, s, run) == Trace(w, s, run[..i]) + TraceSince(w, s, run, i)
    decreases |run|
  {
    if i == |run| {
      assert run[..i] == run;
    } else {
      var n := |run| - 1;
      assert run[..n][..i] == run[..i];
      TraceSinceIsASuffix(w, s, run[..n], i);
      Chained(Trace(w, s, run[..i]), TraceSince(w, s, run[..n], i), EffectsOf(w, StateAfter(w, s, run[..n]), run[n]));
    }
  }

  lemma {:induction false} PossiblePrefix(w: World, s: State, run: seq<Event>, i: nat)
    requires PossibleRun(w, s, run) && i <= |run|
    ensures PossibleRun(w, s, run[..i])
  {
    if i < |run| {
      assert run[..|run| - 1][..i] == run[..i];
      PossiblePrefix(w, s, run[..|run| - 1], i);
    } else {
      assert run[..i] == run;
    }
  }

  /** What is accounted for by the events `i..j` still is at the end. */
  lemma {:induction false} AccountsAreKept(w: World, s: State, run: seq<Event>, i: nat, j: nat, source: string, sourceId: string)
    requires Valid(s) && PossibleRun(w, s, run) && i <= j <= |run|
    requires Accounted(StateAfter(w, s, run[..j]), TraceSince(w, s, run[..j], i), source, sourceId)
    ensures Accounted(StateAfter(w, s, run), TraceSince(w, s, run, i), source, sourceId)
    decreases |run|
  {
    if j == |run| {
      assert run[..j] == run;
    } else {
      var n := |run| - 1;
      assert run[..n][..j] == run[..j];
      RunStep(w, s, run);
      RunKeepsValid(w, s, run[..n]);
      AccountsAreKept(w, s, run[..n], i, j, source, sourceId);
      StillAccounted(w, StateAfter(w, s, run[..n]), run[n], TraceSince(w, s, run[..n], i), source, sourceId);
    }
  }

  lemma RunStep(w: World, s: State, run: seq<Event>)
    requires run != [] && PossibleRun(w, s, run)
    ensures var n := |run| - 1; var t := StateAfter(w, s, run[..n]);
            && PossibleRun(w, s, run[..n]) && Possible(w, t, run[n])
            && StateAfter(w, s, run) == After(w, t, run[n])
            && Trace(w, s, run) == Trace(w, s, run[..n]) + EffectsOf(w, t, run[n])
  {
  }

  lemma JustAccounted(w: World, s: State, e: Event, past: seq<Effect>)
    requires e.ResolveRecord? && EffectsOf(w, s, e) != []
    ensures Accounted(After(w, s, e), past + EffectsOf(w, s, e), e.r.source, e.r.sourceId)
  {
    ResolvedIsAccounted(w, s, e.r, e.fate);
    AttachedInLonger(past, EffectsOf(w, s, e), e.r.source, e.r.sourceId);
  }

  lemma StillAccounted(w: World, s: State, e: Event, past: seq<Effect>, source: string, sourceId: string)
    requires Valid(s) && Possible(w, s, e) && Accounted(s, past, source, sourceId)
    ensures Accounted(After(w, s, e), past + EffectsOf(w, s, e), source, sourceId)
  {
    if Queued(s, source, sourceId) {
      EventKeepsAccount(w, s, e, source, sourceId);
    }
    AttachedInLonger(past, EffectsOf(w, s, e), source, sourceId);
  }

  lemma AttachedInLonger(a: seq<Effect>, b: seq<Effect>, source: string, sourceId: string)
    ensures AttachedIn(a, source, sourceId) || AttachedIn(b, source, sourceId) ==> AttachedIn(a + b, source, sourceId)
  {
    if AttachedIn(a, source, sourceId) {
      var e :| e in a && e.Attached? && e.source == source && e.ref.id == sourceId;
      assert e in a + b;
    } else if AttachedIn(b, source, sourceId) {
      var e :| e in b && e.Attached? && e.source == source && e.ref.id == sourceId;
      assert e in a + b;
    }
  }

  // ---------------------------------------------------------------- external refs

  function Lookup(refs: map<string, ExternalRef>, source: string): Option<ExternalRef> {
    if source in refs then Some(refs[source]) else None
  }

  function RefsOf(s: State, place: PlaceId): map<string, ExternalRef> {
    if place in s.places then s.places[place].refs else map[]
  }

  predicate Overwrites(e: Effect, place: PlaceId, source: string) {
    (e.Attached? && e.place == place && e.source == source) || (e.Upserted? && e.place == place)
  }

  /** What an effect that overwrites the ref leaves of it. */
  function Written(e: Effect, source: string): Option<ExternalRef>
    requires e.Attached? || e.Upserted?
  {
    if e.Attached? then Some(e.ref) else Lookup(e.incoming.refs, source)
  }

  /** The ref a place carries, read off the history from its end: the latest attach from that
      source, or the value of the latest upsert of the place, whichever is later. */
  function LatestRef(initial: Option<ExternalRef>, es: seq<Effect>, place: PlaceId, source: string): Option<ExternalRef> {
    if es == [] then initial
    else
      var e := es[|es| - 1];
      if Overwrites(e, place, source) then Written(e, source) else LatestRef(initial, es[..|es| - 1], place, source)
  }

  lemma {:induction false} LatestRefSplits(x: Option<ExternalRef>, a: seq<Effect>, b: seq<Effect>, place: PlaceId, source: string)
    ensures LatestRef(x, a + b, place, source) == LatestRef(LatestRef(x, a, place, source), b, place, source)
    decreases |b|
  {
    if b == [] {
      assert a + b == a;
    } else {
      assert (a + b)[..|a + b| - 1] == a + b[..|b| - 1];
      LatestRefSplits(x, a, b[..|b| - 1], place, source);
    }
  }

  /** Attaches go to places that are there. */
  ghost predicate AttachesLand(s: State, es: seq<Effect>) {
    forall e :: e in es && e.Attached? ==> e.place in s.places
  }

  lemma {:induction false} RefIsTheLatest(s: State, es: seq<Effect>, place: PlaceId, source: string)
    requires AttachesLand(s, es)
    ensures s.places.Keys <= ApplyAll(s, es).places.Keys
    ensures Lookup(RefsOf(ApplyAll(s, es), place), source) == LatestRef(Lookup(RefsOf(s, place), source), es, place, source)
    decreases |es|
  {
    if es != [] {
      var n := |es| - 1;
      assert es[n] in es && forall e :: e in es[..n] ==> e in es;
      RefIsTheLatest(s, es[..n], place, source);
    }
  }

  lemma {:induction false} SweepAttachesLand(judge: Judge, rows: seq<QueueRow>, fates: QueueId -> Fate, s: State)
    requires forall r :: judge(r).Matched? ==> judge(r).place in s.places
    ensures AttachesLand(s, SweepEffects(judge, rows, fates))
  {
    if rows != [] {
      SweepAttachesLand(judge, rows[..|rows| - 1], fates, s);
    }
  }

  lemma EventAttachesLand(w: World, s: State, e: Event)
    ensures AttachesLand(s, EffectsOf(w, s, e))
  {
    match e
    case ResolveRecord(_, _) =>
    case WriteBatch(ps, now) =>
    case SweepNear(_, rows, fates) =>
      assert forall r :: Matcher(w, SpotsOf(s))(r) == Verdict(w, SpotsOf(s), r);
      SweepAttachesLand(Matcher(w, SpotsOf(s)), rows, fates, s);
  }

  /** After every run, for every place, present at the start or inserted on the way: its ref for a
      source is the latest attach from that source or the latest upsert's value, whichever is later. */
  lemma {:induction false} RefInEveryRun(w: World, s: State, run: seq<Event>, place: PlaceId, source: string)
    ensures Lookup(RefsOf(StateAfter(w, s, run), place), source)
         == LatestRef(Lookup(RefsOf(s, place), source), Trace(w, s, run), place, source)
  {
    if run != [] {
      var n := |run| - 1;
      var s1 := StateAfter(w, s, run[..n]);
      RefInEveryRun(w, s, run[..n], place, source);
      EventAttachesLand(w, s1, run[n]);
      RefIsTheLatest(s1, EffectsOf(w, s1, run[n]), place, source);
      LatestRefSplits(Lookup(RefsOf(s, place), source), Trace(w, s, run[..n]), EffectsOf(w, s1, run[n]), place, source);
    }
  }

  // ---------------------------------------------------------------- where a resolved record is now

  predicate IsRefTo(ref: Option<ExternalRef>, sourceId: string) {
    ref.Some? && ref.value.id == sourceId
  }

  /** Effect `k` wrote the record's ref to the place, and nothing has overwritten it since. */
  ghost predicate Stands(es: seq<Effect>, k: nat, place: PlaceId, source: string, sourceId: string) {
    && k < |es| && Overwrites(es[k], place, source) && IsRefTo(Written(es[k], source), sourceId)
    && forall l :: k < l < |es| ==> !Overwrites(es[l], place, source)
  }

  ghost predicate StandsNow(es: seq<Effect>, place: PlaceId, source: string, sourceId: string) {
    exists k :: Stands(es, k, place, source, sourceId)
  }

  ghost predicate OnAPlace(s: State, source: string, sourceId: string) {
    exists place :: Carries(s, place, source, sourceId)
  }

  ghost predicate Carries(s: State, place: PlaceId, source: string, sourceId: string) {
    IsRefTo(Lookup(RefsOf(s, place), source), sourceId)
  }

  lemma {:induction false} LatestRefStands(x: Option<ExternalRef>, es: seq<Effect>, place: PlaceId, source: string, sourceId: string)
    ensures IsRefTo(LatestRef(x, es, place, source), sourceId) <==>
              || StandsNow(es, place, source, sourceId)
              || (IsRefTo(x, sourceId) && forall l :: 0 <= l < |es| ==> !Overwrites(es[l], place, source))
    decreases |es|
  {
    if es != [] {
      var n := |es| - 1;
      if Overwrites(es[n], place, source) {
        if IsRefTo(Written(es[n], source), sourceId) {
          assert Stands(es, n, place, source, sourceId);
        }
      } else {
        LatestRefStands(x, es[..n], place, source, sourceId);
        StandsLonger(es[..n], es[n], place, source, sourceId);
        assert es == es[..n] + [es[n]];
      }
    }
  }

  lemma StandsLonger(es: seq<Effect>, e: Effect, place: PlaceId, source: string, sourceId: string)
    requires !Overwrites(e, place, source)
    ensures StandsNow(es + [e], place, source, sourceId) <==> StandsNow(es, place, source, sourceId)
  {
    if k :| Stands(es + [e], k, place, source, sourceId) {
      assert forall l :: 0 <= l < |es| ==> es[l] == (es + [e])[l];
      assert Stands(es, k, place, source, sourceId);
    }
    if k :| Stands(es, k, place, source, sourceId) {
      assert Stands(es + [e], k, place, source, sourceId);
    }
  }

  /** A resolved record is in the registry now, queued or as a ref on some place, exactly when it is
      queued or one of the writes of its ref stands: the run's, or one from before the run. If it is
      in neither, it has been attached since and that attach was overwritten, by a later attach from
      the same source or by a re-import of the place. */
  lemma ResolvedRecordIsHereIff(w: World, s: State, run: seq<Event>, i: nat)
    requires Valid(s) && PossibleRun(w, s, run)
    requires i < |run| && run[i].ResolveRecord?
    requires EffectsOf(w, StateAfter(w, s, run[..i]), run[i]) != []
    ensures var source, sourceId := run[i].r.source, run[i].r.sourceId;
            var t, es, since := StateAfter(w, s, run), Trace(w, s, run), |Trace(w, s, run[..i])|;
            && (OnAPlace(t, source, sourceId) <==> StillWritten(s, es, source, sourceId))
            && (!Queued(t, source, sourceId) && !OnAPlace(t, source, sourceId) ==> LostSince(es, since, source, sourceId))
  {
    var source, sourceId := run[i].r.source, run[i].r.sourceId;
    RefsNow(w, s, run, source, sourceId);
    ResolvedRecordsAreNeverLost(w, s, run, i);
    TraceSinceIsASuffix(w, s, run, i);
    if !Queued(StateAfter(w, s, run), source, sourceId) && !OnAPlace(StateAfter(w, s, run), source, sourceId) {
      LostByOverwriting(Trace(w, s, run[..i]), TraceSince(w, s, run, i), source, sourceId);
    }
  }

  lemma LostByOverwriting(past: seq<Effect>, es: seq<Effect>, source: string, sourceId: string)
    requires AttachedIn(es, source, sourceId) && forall place :: !StandsNow(past + es, place, source, sourceId)
    ensures LostSince(past + es, |past|, source, sourceId)
  {
    var e :| e in es && e.Attached? && e.source == source && e.ref.id == sourceId;
    var k :| 0 <= k < |es| && es[k] == e;
    assert (past + es)[|past| + k] == e && !StandsNow(past + es, e.place, source, sourceId);
    assert !Stands(past + es, |past| + k, e.place, source, sourceId);
  }

  /** An attach of the record, effect `since` or later, was overwritten. */
  ghost predicate LostSince(es: seq<Effect>, since: nat, source: string, sourceId: string) {
    exists k, l :: since <= k < l < |es| && es[k].Attached? && es[k].source == source && es[k].ref.id == sourceId
                   && Overwrites(es[l], es[k].place, source)
  }

  /** The place carried the ref before the effects, and none of them has overwritten it. */
  ghost predicate Untouched(s: State, es: seq<Effect>, place: PlaceId, source: string, sourceId: string) {
    Carries(s, place, source, sourceId) && forall l :: 0 <= l < |es| ==> !Overwrites(es[l], place, source)
  }

  /** Some place's ref to the record was written by one of the effects, or before them, and stands. */
  ghost predicate StillWritten(s: State, es: seq<Effect>, source: string, sourceId: string) {
    || (exists place :: StandsNow(es, place, source, sourceId))
    || (exists place :: Untouched(s, es, place, source, sourceId))
  }

  lemma RefsNow(w: World, s: State, run: seq<Event>, source: string, sourceId: string)
    ensures OnAPlace(StateAfter(w, s, run), source, sourceId) <==> StillWritten(s, Trace(w, s, run), source, sourceId)
  {
    var t, es := StateAfter(w, s, run), Trace(w, s, run);
    forall place
      ensures Carries(t, place, source, sourceId) <==> StandsNow(es, place, source, sourceId) || Untouched(s, es, place, source, sourceId)
    {
      RefInEveryRun(w, s, run, place, source);
      CarriedIff(s, t, es, place, source, sourceId);
    }
    Somewhere(t, s, es, source, sourceId);
  }

  lemma CarriedIff(s: State, t: State, es: seq<Effect>, place: PlaceId, source: string, sourceId: string)
    requires Lookup(RefsOf(t, place), source) == LatestRef(Lookup(RefsOf(s, place), source), es, place, source)
    ensures Carries(t, place, source, sourceId) <==> StandsNow(es, place, source, sourceId) || Untouched(s, es, place, source, sourceId)
  {
    LatestRefStands(Lookup(RefsOf(s, place), source), es, place, source, sourceId);
  }

  lemma Somewhere(t: State, s: State, es: seq<Effect>, source: string, sourceId: string)
    requires forall place :: Carries(t, place, source, sourceId) <==>
                               StandsNow(es, place, source, sourceId) || Untouched(s, es, place, source, sourceId)
    ensures OnAPlace(t, source, sourceId) <==> StillWritten(s, es, source, sourceId)
  {
    if OnAPlace(t, source, sourceId) {
      var place :| Carries(t, place, source, sourceId);
      assert StandsNow(es, place, source, sourceId) || Untouched(s, es, place, source, sourceId);
    } else {
      forall place
        ensures !StandsNow(es, place, source, sourceId) && !Untouched(s, es, place, source, sourceId)
      {
        assert !Carries(t, place, source, sourceId);
      }
    }
  }

  /** Re-importing a place overwrites its refs: one attached before survives exactly when the
      import itself carries it. */
  lemma AttachedRefSurvivesReimportIff(s: State, place: PlaceId, source: string, ref: ExternalRef, p: NewPlace, t0: Time, t1: Time)
    requires Valid(s) && place in s.places && SameOsmKey(s.places[place], p)
    ensures var attached := Apply(s, Attached(place, source, ref, t0));
            var reimported := ApplyAll(attached, Upserts(attached, [p], t1));
            && Lookup(attached.places[place].refs, source) == Some(ref)
            && place in reimported.places
            && (Lookup(reimported.places[place].refs, source) == Some(ref) <==> Lookup(p.refs, source) == Some(ref))
  {
    var attached := Apply(s, Attached(place, source, ref, t0));
    assert SameOsmKey(attached.places[place], p);
    assert Valid(attached);
    var id := Target(attached, p);
    assert id == place by {
      assert OsmKeyClash(attached.places[id], attached.places[place]);
    }
    assert [p][..0] == [];
    UpsertsStep(attached, [p], 0, t1);
    assert [p][..1] == [p];
  }
}
