/** Attach-or-enqueue and the retry sweep (internal/identity/resolve.go, sweep.go). */
module Identity {
  import opened Models
  import opened Scoring
  import opened Matching
  import opened Registry

  /** Which repository call fails for a row or record, and the clock reading it gets. */
  datatype Fault = NoFault | MatchFails | AttachFails | DeleteFails | BumpFails | EnqueueFails
  datatype Fate = Fate(fault: Fault, now: Time)

  function Verdict(w: World, m: Spots, r: Record): (d: Decision)
    ensures d.Matched? ==> d.place in m
  {
    Decide(w, m, r, FindCandidates(w, m, r))
  }

  /** None is an error of the candidate query. */
  method Match(w: World, db: Database, r: Record, fails: bool) returns (d: Option<Decision>)
    requires w.Valid()
    ensures d == if fails then None else Some(Verdict(w, SpotsOf(db.S()), r))
    ensures d.Some? ==> IsBanded(w, SpotsOf(db.S()), r, d.value)
  {
    var cs := db.Candidates(w, r, fails);
    if cs.None? { return None; }
    var spots := map id | id in db.places :: db.places[id].spot;
    var decision := DecideAmong(w, spots, r, cs.value);
    assert spots == SpotsOf(db.S());
    return Some(decision);
  }

  /** What the verdict on a record tells of the place it names; no verdict names a closed place. */
  lemma VerdictMeans(w: World, m: Spots, r: Record)
    requires w.Valid()
    ensures var d := Verdict(w, m, r);
            && IsBanded(w, m, r, d)
            && (d.Matched? ==>
                  && IsOpen(m, r, d.place) && w.geography(r.at, m[d.place].at) <= 50.0
                  && w.haversine(r.at, m[d.place].at) <= (if d.band == Confident then 20.0 else 45.0)
                  && (d.band == Confident ==> Tokens(w.text, r.name) * Tokens(w.text, m[d.place].name) != {}))
  {
    MatchesMean(w, m, r, FindCandidates(w, m, r));
  }

  /** The matcher over one table of spots, as a function of the record. */
  type Judge = Record -> Decision

  function Matcher(w: World, m: Spots): Judge {
    (r: Record) => Verdict(w, m, r)
  }

  function Link(d: Decision, source: string, sourceId: string, now: Time): Effect
    requires d.Matched?
  {
    Attached(d.place, source, ExternalRef(sourceId, d.confidence, now), now)
  }

  // ---------------------------------------------------------------- Resolve

  function RowOf(r: Record, now: Time): QueueRow {
    QueueRow(0, r.source, r.sourceId, r.name, r.category, r.street, r.houseNumber, r.at,
             if r.payload.None? then "{}" else r.payload.value, now, 1)
  }

  function RecordOf(row: QueueRow): Record {
    Record(row.source, row.sourceId, row.name, row.at, row.category, row.street, row.houseNumber, Some(row.payload))
  }

  function ResolveEffects(d: Decision, r: Record, fate: Fate): seq<Effect> {
    if fate.fault == MatchFails then []
    else if d == NoMatch then if fate.fault == EnqueueFails then [] else [Enqueued(RowOf(r, fate.now))]
    else if fate.fault == AttachFails then [] else [Link(d, r.source, r.sourceId, fate.now)]
  }

  /** The places `t` are the places `s` with one ref of one place set, at the moment the ref names. */
  ghost predicate RefSet(s: State, t: State, place: PlaceId, source: string, ref: ExternalRef) {
    && place in s.places && t.places.Keys == s.places.Keys && t.nextPlace == s.nextPlace
    && t.places[place].refs == s.places[place].refs[source := ref]
    && (forall id :: id in s.places && id != place ==> t.places[id] == s.places[id])
    && t.places[place] == s.places[place].(refs := t.places[place].refs, updatedAt := ref.matchedAt)
  }

  /** The queue `t` is the queue `s` with the record's own row inserted or renewed. */
  ghost predicate RecordQueued(s: State, t: State, r: Record, now: Time) {
    exists q :: q in t.queue && QueuedAs(s, t, r, now, q)
  }

  ghost predicate QueuedAs(s: State, t: State, r: Record, now: Time, q: QueueId)
    requires q in t.queue
  {
    && t.queue[q].source == r.source && t.queue[q].sourceId == r.sourceId && t.queue[q].name == r.name
    && t.queue[q].category == r.category && t.queue[q].street == r.street && t.queue[q].houseNumber == r.houseNumber
    && t.queue[q].at == r.at && t.queue[q].payload == (if r.payload == None then "{}" else r.payload.value)
    && t.queue[q].lastAttempted == now
    && t.queue[q].attempts == (if q in s.queue then s.queue[q].attempts + 1 else 1)
    && (q in s.queue ==> s.queue[q].source == r.source && s.queue[q].sourceId == r.sourceId)
    && (forall p :: p in s.queue && p != q ==> p in t.queue && t.queue[p] == s.queue[p] && !SourceKeyClash(s.queue[p], t.queue[q]))
    && (forall p :: p in t.queue && p != q ==> p in s.queue)
  }

  /** A resolve with decision `d`, told in terms of the tables: it errs exactly when a statement on its
      path fails, and then changes nothing; a match of either band sets the ref of the place and no
      more; without a match the record is queued and no more. */
  ghost predicate ResolvedAs(s: State, t: State, d: Decision, r: Record, fate: Fate, out: Option<Decision>) {
    && (out.None? <==>
          || fate.fault == MatchFails || (d.Matched? && fate.fault == AttachFails) || (!d.Matched? && fate.fault == EnqueueFails))
    && (out.None? ==> t == s)
    && (out.Some? ==> out.value == d)
    && (out.Some? && d.Matched? ==>
          RefSet(s, t, d.place, r.source, ExternalRef(r.sourceId, d.confidence, fate.now)) && t.queue == s.queue && t.nextQueue == s.nextQueue)
    && (out.Some? && !d.Matched? ==> t.places == s.places && t.nextPlace == s.nextPlace && RecordQueued(s, t, r, fate.now))
  }

  lemma ResolveMeans(s: State, d: Decision, r: Record, fate: Fate)
    requires Valid(s) && (d.Matched? ==> d.place in s.places)
    ensures var es := ResolveEffects(d, r, fate);
            ResolvedAs(s, ApplyAll(s, es), d, r, fate, if es == [] then None else Some(d))
  {
    var es := ResolveEffects(d, r, fate);
    if es != [] {
      ApplyOne(s, es[0]);
      if !d.Matched? {
        QueuedMeans(s, r, fate.now);
      }
    }
  }

  lemma QueuedMeans(s: State, r: Record, now: Time)
    requires Valid(s)
    ensures RecordQueued(s, Apply(s, Enqueued(RowOf(r, now))), r, now)
  {
    var t, q := Apply(s, Enqueued(RowOf(r, now))), Slot(s, r.source, r.sourceId);
    forall p | p in s.queue && p != q
      ensures !SourceKeyClash(s.queue[p], t.queue[q])
    {
      if q in s.queue {
        assert SourceKeyClash(s.queue[p], s.queue[q]) ==> p == q;
      }
    }
    assert QueuedAs(s, t, r, now, q);
  }

  /** None is an error; nothing was written then. */
  method Resolve(w: World, db: Database, r: Record, fate: Fate) returns (out: Option<Decision>)
    requires w.Valid() && Valid(db.S())
    modifies db
    ensures Valid(db.S())
    ensures var d := Verdict(w, SpotsOf(old(db.S())), r);
            && db.S() == ApplyAll(old(db.S()), ResolveEffects(d, r, fate))
            && out == if ResolveEffects(d, r, fate) == [] then None else Some(d)
    ensures ResolvedAs(old(db.S()), db.S(), Verdict(w, SpotsOf(old(db.S())), r), r, fate, out)
  {
    ghost var s0 := db.S();
    ResolveMeans(s0, Verdict(w, SpotsOf(s0), r), r, fate);
    ghost var es := ResolveEffects(Verdict(w, SpotsOf(s0), r), r, fate);
    SpotsAreKeptAll(s0, es);
    var found := Match(w, db, r, fate.fault == MatchFails);
    if found.None? { return None; }
    var d := found.value;
    if d == NoMatch {
      ApplyOne(s0, Enqueued(RowOf(r, fate.now)));
      var ok := db.Enqueue(RowOf(r, fate.now), fate.fault == EnqueueFails);
      if !ok { return None; }
    } else {
      var ref := ExternalRef(r.sourceId, d.confidence, fate.now);
      ApplyOne(s0, Attached(d.place, r.source, ref, fate.now));
      var ok := db.AttachExternalRef(d.place, r.source, ref, fate.now, fate.fault == AttachFails);
      if !ok { return None; }
    }
    return Some(d);
  }

  // ---------------------------------------------------------------- Sweep

  datatype Outcome = Drained(band: Band) | StillUnmatched | Failed
  datatype SweepResult = SweepResult(considered: nat, confident: nat, lowConfidence: nat, noMatch: nat, errors: nat)

  function RowEffects(d: Decision, row: QueueRow, fate: Fate): seq<Effect> {
    if fate.fault == MatchFails then []
    else if d == NoMatch then if fate.fault == BumpFails then [] else [Bumped(row.id, fate.now)]
    else if fate.fault == AttachFails then []
    else
      var link := Link(d, row.source, row.sourceId, fate.now);
      if fate.fault == DeleteFails then [link] else [link, Removed(row.id)]
  }

  function OutcomeOf(d: Decision, fate: Fate): Outcome {
    if fate.fault == MatchFails then Failed
    else if d == NoMatch then if fate.fault == BumpFails then Failed else StillUnmatched
    else if fate.fault == AttachFails || fate.fault == DeleteFails then Failed
    else Drained(d.band)
  }

  function SweepEffects(judge: Judge, rows: seq<QueueRow>, fates: QueueId -> Fate): seq<Effect> {
    if rows == [] then []
    else
      var n := |rows| - 1;
      SweepEffects(judge, rows[..n], fates) + RowEffects(judge(RecordOf(rows[n])), rows[n], fates(rows[n].id))
  }

  function Add(res: SweepResult, o: Outcome): SweepResult {
    match o
    case Drained(Confident) => res.(confident := res.confident + 1)
    case Drained(LowConfidence) => res.(lowConfidence := res.lowConfidence + 1)
    case StillUnmatched => res.(noMatch := res.noMatch + 1)
    case Failed => res.(errors := res.errors + 1)
  }

  function Tally(considered: nat, judge: Judge, rows: seq<QueueRow>, fates: QueueId -> Fate): SweepResult {
    if rows == [] then SweepResult(considered, 0, 0, 0, 0)
    else
      var n := |rows| - 1;
      Add(Tally(considered, judge, rows[..n], fates), OutcomeOf(judge(RecordOf(rows[n])), fates(rows[n].id)))
  }

  lemma {:induction false} SweepKeepsSpots(judge: Judge, rows: seq<QueueRow>, fates: QueueId -> Fate)
    ensures forall e :: e in SweepEffects(judge, rows, fates) ==> KeepsSpots(e)
  {
    if rows != [] {
      SweepKeepsSpots(judge, rows[..|rows| - 1], fates);
    }
  }

  /** What became of a row, told in terms of the tables. */
  ghost predicate SweptAs(s: State, t: State, d: Decision, row: QueueRow, fate: Fate, o: Outcome) {
    && (o == Failed <==>
          || fate.fault == MatchFails || (d.Matched? && fate.fault in {AttachFails, DeleteFails}) || (!d.Matched? && fate.fault == BumpFails))
    && (o.Drained? <==> d.Matched? && o != Failed) && (o.Drained? ==> o.band == d.band)
    && (if d.Matched? && fate.fault != MatchFails && fate.fault != AttachFails
        then RefSet(s, t, d.place, row.source, ExternalRef(row.sourceId, d.confidence, fate.now))
        else t.places == s.places && t.nextPlace == s.nextPlace)
    && t.nextQueue == s.nextQueue
    && (forall q :: q in t.queue <==> q in s.queue && !(o.Drained? && q == row.id))
    && (forall q :: q in t.queue && !(o == StillUnmatched && q == row.id) ==> t.queue[q] == s.queue[q])
    && (o == StillUnmatched && row.id in s.queue ==>
          t.queue[row.id] == s.queue[row.id].(attempts := s.queue[row.id].attempts + 1, lastAttempted := fate.now))
  }

  lemma SweepRowMeans(s: State, d: Decision, row: QueueRow, fate: Fate)
    requires d.Matched? ==> d.place in s.places
    ensures SweptAs(s, ApplyAll(s, RowEffects(d, row, fate)), d, row, fate, OutcomeOf(d, fate))
  {
    var es := RowEffects(d, row, fate);
    if |es| == 1 {
      ApplyOne(s, es[0]);
    } else if |es| == 2 {
      assert es == [es[0]] + [es[1]];
      ApplyAllSplits(s, [es[0]], [es[1]]);
      ApplyOne(s, es[0]);
      ApplyOne(Apply(s, es[0]), es[1]);
    }
  }

  /** One row: match, attach, then delete; or match, then bump. */
  method SweepRow(w: World, db: Database, row: QueueRow, fate: Fate) returns (o: Outcome)
    requires w.Valid() && row.id in db.queue
    modifies db
    ensures var d := Matcher(w, SpotsOf(old(db.S())))(RecordOf(row));
            db.S() == ApplyAll(old(db.S()), RowEffects(d, row, fate)) && o == OutcomeOf(d, fate)
    ensures SweptAs(old(db.S()), db.S(), Verdict(w, SpotsOf(old(db.S())), RecordOf(row)), row, fate, o)
  {
    SweepRowMeans(db.S(), Verdict(w, SpotsOf(db.S()), RecordOf(row)), row, fate);
    var d := Match(w, db, RecordOf(row), fate.fault == MatchFails);
    if d.None? { return Failed; }
    o := ApplyDecision(db, d.value, row, fate);
  }

  method ApplyDecision(db: Database, d: Decision, row: QueueRow, fate: Fate) returns (o: Outcome)
    requires row.id in db.queue && fate.fault != MatchFails && (d.Matched? ==> d.place in db.places)
    modifies db
    ensures db.S() == ApplyAll(old(db.S()), RowEffects(d, row, fate))
    ensures o == OutcomeOf(d, fate)
  {
    ghost var s0 := db.S();
    if d == NoMatch {
      ApplyOne(s0, Bumped(row.id, fate.now));
      var ok := db.BumpAttempts(row.id, fate.now, fate.fault == BumpFails);
      return if ok then StillUnmatched else Failed;
    }
    var ref := ExternalRef(row.sourceId, d.confidence, fate.now);
    ghost var link := Attached(d.place, row.source, ref, fate.now);
    ApplyOne(s0, link);
    var ok := db.AttachExternalRef(d.place, row.source, ref, fate.now, fate.fault == AttachFails);
    if !ok { return Failed; }
    ghost var s1 := db.S();
    ok := db.Delete(row.id, fate.fault == DeleteFails);
    if !ok { return Failed; }
    ApplyAllSplits(s0, [link], [Removed(row.id)]);
    ApplyOne(s1, Removed(row.id));
    assert [link, Removed(row.id)] == [link] + [Removed(row.id)];
    return Drained(d.band);
  }

  /** A row's effects leave every other queue row in place. */
  lemma RowEffectsAreLocal(d: Decision, s: State, row: QueueRow, fate: Fate)
    ensures var t := ApplyAll(s, RowEffects(d, row, fate));
            && t.queue == QueueAfterRow(s.queue, row.id, OutcomeOf(d, fate), fate.now)
            && t.nextQueue == s.nextQueue && t.nextPlace == s.nextPlace
  {
    var es := RowEffects(d, row, fate);
    if |es| == 1 {
      ApplyOne(s, es[0]);
    } else if |es| == 2 {
      assert es == [es[0]] + [es[1]];
      ApplyAllSplits(s, [es[0]], [es[1]]);
      ApplyOne(s, es[0]);
      ApplyOne(Apply(s, es[0]), es[1]);
    }
  }

  function QueueAfterRow(queue: map<QueueId, QueueRow>, id: QueueId, o: Outcome, now: Time): map<QueueId, QueueRow> {
    if o.Drained? then queue - {id}
    else if o.StillUnmatched? && id in queue then
      queue[id := queue[id].(attempts := queue[id].attempts + 1, lastAttempted := now)]
    else queue
  }

  /** The loop over the rows the query returned; `rows` is the order it returned them in. */
  method Sweep(w: World, db: Database, touched: seq<PlaceId>, fates: QueueId -> Fate, findFails: bool)
    returns (res: Option<SweepResult>, ghost rows: seq<QueueRow>)
    requires w.Valid() && Valid(db.S())
    modifies db
    ensures Valid(db.S())
    ensures res.None? <==> findFails && touched != []
    ensures res.None? ==> db.S() == old(db.S())
    ensures Enumerates(old(db.S()), if res.None? then {} else NearTouched(w, old(db.S()), touched, RADIUS_M), rows)
    ensures res.Some? ==>
              var judge := Matcher(w, SpotsOf(old(db.S())));
              && db.S() == ApplyAll(old(db.S()), SweepEffects(judge, rows, fates))
              && res.value == Tally(|rows|, judge, rows, fates)
  {
    if |touched| == 0 {
      return Some(SweepResult(0, 0, 0, 0, 0)), [];
    }
    var found := db.FindCandidatesNearTouched(w, touched, RADIUS_M, findFails);
    if found.None? { return None, []; }
    var r := SweepRows(w, db, found.value, fates);
    return Some(r), found.value;
  }

  /** What one iteration of the loop keeps. */
  lemma SweepStep(s0: State, judge: Judge, rows: seq<QueueRow>, i: nat, fates: QueueId -> Fate)
    requires Valid(s0) && i < |rows|
    ensures var s := ApplyAll(s0, SweepEffects(judge, rows[..i], fates));
            var t := ApplyAll(s0, SweepEffects(judge, rows[..i + 1], fates));
            && t == ApplyAll(s, RowEffects(judge(RecordOf(rows[i])), rows[i], fates(rows[i].id)))
            && SpotsOf(t) == SpotsOf(s0) && Valid(t)
            && forall q :: q in s.queue && q != rows[i].id ==> q in t.queue
  {
    var s, d, fate := ApplyAll(s0, SweepEffects(judge, rows[..i], fates)), judge(RecordOf(rows[i])), fates(rows[i].id);
    assert rows[..i + 1][..i] == rows[..i];
    RowEffectsAreLocal(d, s, rows[i], fate);
    ApplyAllSplits(s0, SweepEffects(judge, rows[..i], fates), RowEffects(d, rows[i], fate));
    SweepKeepsSpots(judge, rows[..i + 1], fates);
    SpotsAreKeptAll(s0, SweepEffects(judge, rows[..i + 1], fates));
  }

  method SweepRows(w: World, db: Database, rows: seq<QueueRow>, fates: QueueId -> Fate) returns (res: SweepResult)
    requires w.Valid() && Valid(db.S())
    requires forall i, j :: 0 <= i < j < |rows| ==> rows[i].id != rows[j].id
    requires forall i :: 0 <= i < |rows| ==> rows[i].id in db.queue
    modifies db
    ensures Valid(db.S())
    ensures var judge := Matcher(w, SpotsOf(old(db.S())));
            && db.S() == ApplyAll(old(db.S()), SweepEffects(judge, rows, fates))
            && res == Tally(|rows|, judge, rows, fates)
  {
    ghost var s0, m := db.S(), SpotsOf(db.S());
    ghost var judge := Matcher(w, m);
    res := SweepResult(|rows|, 0, 0, 0, 0);
    for i := 0 to |rows|
      invariant Valid(db.S()) && SpotsOf(db.S()) == m
      invariant db.S() == ApplyAll(s0, SweepEffects(judge, rows[..i], fates))
      invariant forall j :: i <= j < |rows| ==> rows[j].id in db.queue
      invariant res == Tally(|rows|, judge, rows[..i], fates)
    {
      SweepStep(s0, judge, rows, i, fates);
      TallyStep(|rows|, judge, rows, i, fates);
      var o := SweepRow(w, db, rows[i], fates(rows[i].id));
      res := Add(res, o);
    }
    assert rows[..|rows|] == rows;
  }

  lemma TallyStep(considered: nat, judge: Judge, rows: seq<QueueRow>, i: nat, fates: QueueId -> Fate)
    requires i < |rows|
    ensures Tally(considered, judge, rows[..i + 1], fates)
         == Add(Tally(considered, judge, rows[..i], fates), OutcomeOf(judge(RecordOf(rows[i])), fates(rows[i].id)))
  {
    assert rows[..i + 1][..i] == rows[..i];
  }
}
