/** What a sweep and a resolve do to the queue, whatever order rows come in and whatever fails. */
module QueueLaws {
  import opened Models
  import opened Scoring
  import opened Matching
  import opened Registry
  import opened Identity

  function Fated(queue: map<QueueId, QueueRow>, judge: Judge, fates: QueueId -> Fate, q: QueueId): Outcome
    requires q in queue
  {
    OutcomeOf(judge(RecordOf(queue[q])), fates(q))
  }

  function With(queue: map<QueueId, QueueRow>, judge: Judge, ids: set<QueueId>, fates: QueueId -> Fate, o: Outcome): set<QueueId> {
    set q | q in ids && q in queue && Fated(queue, judge, fates, q) == o
  }

  function Attempted(row: QueueRow, now: Time): QueueRow {
    row.(attempts := row.attempts + 1, lastAttempted := now)
  }

  /** The queue after a sweep of the rows `ids`, with no mention of an order. */
  function QueueAfter(queue: map<QueueId, QueueRow>, judge: Judge, ids: set<QueueId>, fates: QueueId -> Fate): map<QueueId, QueueRow> {
    map q | q in queue && !(q in ids && Fated(queue, judge, fates, q).Drained?) ::
      if q in ids && Fated(queue, judge, fates, q).StillUnmatched? then Attempted(queue[q], fates(q).now) else queue[q]
  }

  function TallyAfter(considered: nat, queue: map<QueueId, QueueRow>, judge: Judge, ids: set<QueueId>, fates: QueueId -> Fate): SweepResult {
    SweepResult(considered,
                |With(queue, judge, ids, fates, Drained(Confident))|,
                |With(queue, judge, ids, fates, Drained(LowConfidence))|,
                |With(queue, judge, ids, fates, StillUnmatched)|,
                |With(queue, judge, ids, fates, Failed)|)
  }

  function Ids(rows: seq<QueueRow>): set<QueueId> {
    set row | row in rows :: row.id
  }

  ghost predicate RowsOf(s: State, rows: seq<QueueRow>) {
    && (forall i, j :: 0 <= i < j < |rows| ==> rows[i].id != rows[j].id)
    && (forall i :: 0 <= i < |rows| ==> rows[i].id in s.queue && s.queue[rows[i].id] == rows[i])
  }

  lemma {:induction false} SweptQueue(s: State, judge: Judge, rows: seq<QueueRow>, fates: QueueId -> Fate)
    requires RowsOf(s, rows)
    ensures ApplyAll(s, SweepEffects(judge, rows, fates)).queue == QueueAfter(s.queue, judge, Ids(rows), fates)
    decreases |rows|
  {
    if rows == [] {
      assert QueueAfter(s.queue, judge, {}, fates) == s.queue;
    } else {
      var n := |rows| - 1;
      SweptQueue(s, judge, rows[..n], fates);
      IdsStep(rows);
      SweptRow(s, judge, rows, fates);
      QueueStep(s.queue, judge, Ids(rows[..n]), fates, rows[n].id);
    }
  }

  lemma SweptRow(s: State, judge: Judge, rows: seq<QueueRow>, fates: QueueId -> Fate)
    requires rows != []
    ensures var row, before := rows[|rows| - 1], ApplyAll(s, SweepEffects(judge, rows[..|rows| - 1], fates)).queue;
            var o := OutcomeOf(judge(RecordOf(row)), fates(row.id));
            ApplyAll(s, SweepEffects(judge, rows, fates)).queue == QueueAfterRow(before, row.id, o, fates(row.id).now)
  {
    var n := |rows| - 1;
    var d, fate := judge(RecordOf(rows[n])), fates(rows[n].id);
    ApplyAllSplits(s, SweepEffects(judge, rows[..n], fates), RowEffects(d, rows[n], fate));
    RowEffectsAreLocal(d, ApplyAll(s, SweepEffects(judge, rows[..n], fates)), rows[n], fate);
  }

  lemma IdsStep(rows: seq<QueueRow>)
    requires rows != [] && forall i, j :: 0 <= i < j < |rows| ==> rows[i].id != rows[j].id
    ensures var n := |rows| - 1; Ids(rows) == Ids(rows[..n]) + {rows[n].id} && rows[n].id !in Ids(rows[..n])
  {
    var n := |rows| - 1;
    assert rows == rows[..n] + [rows[n]];
  }

  lemma QueueStep(queue: map<QueueId, QueueRow>, judge: Judge, ids: set<QueueId>, fates: QueueId -> Fate, q: QueueId)
    requires q in queue && q !in ids
    ensures QueueAfterRow(QueueAfter(queue, judge, ids, fates), q, Fated(queue, judge, fates, q), fates(q).now)
         == QueueAfter(queue, judge, ids + {q}, fates)
  {
    var a := QueueAfterRow(QueueAfter(queue, judge, ids, fates), q, Fated(queue, judge, fates, q), fates(q).now);
    var b := QueueAfter(queue, judge, ids + {q}, fates);
    assert a.Keys == b.Keys;
    assert forall p :: p in a ==> a[p] == b[p];
  }

  lemma {:induction false} SizeOfIds(rows: seq<QueueRow>)
    requires forall i, j :: 0 <= i < j < |rows| ==> rows[i].id != rows[j].id
    ensures |Ids(rows)| == |rows|
    decreases |rows|
  {
    if rows != [] {
      SizeOfIds(rows[..|rows| - 1]);
      IdsStep(rows);
    }
  }

  lemma {:induction false} SweptTally(considered: nat, s: State, judge: Judge, rows: seq<QueueRow>, fates: QueueId -> Fate)
    requires RowsOf(s, rows)
    ensures Tally(considered, judge, rows, fates) == TallyAfter(considered, s.queue, judge, Ids(rows), fates)
    decreases |rows|
  {
    if rows != [] {
      var n := |rows| - 1;
      SweptTally(considered, s, judge, rows[..n], fates);
      IdsStep(rows);
      TallyAfterStep(considered, s.queue, judge, Ids(rows[..n]), fates, rows[n].id);
    }
  }

  lemma TallyAfterStep(considered: nat, queue: map<QueueId, QueueRow>, judge: Judge, ids: set<QueueId>, fates: QueueId -> Fate, q: QueueId)
    requires q in queue && q !in ids
    ensures TallyAfter(considered, queue, judge, ids + {q}, fates)
         == Add(TallyAfter(considered, queue, judge, ids, fates), Fated(queue, judge, fates, q))
  {
    WithStep(queue, judge, ids, fates, q, Drained(Confident));
    WithStep(queue, judge, ids, fates, q, Drained(LowConfidence));
    WithStep(queue, judge, ids, fates, q, StillUnmatched);
    WithStep(queue, judge, ids, fates, q, Failed);
  }

  lemma WithStep(queue: map<QueueId, QueueRow>, judge: Judge, ids: set<QueueId>, fates: QueueId -> Fate, q: QueueId, o: Outcome)
    requires q in queue && q !in ids
    ensures |With(queue, judge, ids + {q}, fates, o)|
         == |With(queue, judge, ids, fates, o)| + (if Fated(queue, judge, fates, q) == o then 1 else 0)
  {
    var a, b := With(queue, judge, ids, fates, o), With(queue, judge, ids + {q}, fates, o);
    assert b == if Fated(queue, judge, fates, q) == o then a + {q} else a;
  }

  lemma EnumeratesRows(s: State, ids: set<QueueId>, rows: seq<QueueRow>)
    requires Enumerates(s, ids, rows) && Valid(s)
    ensures RowsOf(s, rows) && Ids(rows) == set q | q in ids && q in s.queue
  {
    forall i | 0 <= i < |rows|
      ensures rows[i].id in s.queue && s.queue[rows[i].id] == rows[i]
    {
      assert rows[i] in rows;
    }
    forall q | q in ids && q in s.queue
      ensures q in Ids(rows)
    {
      assert s.queue[q] in rows && s.queue[q].id == q;
    }
  }

  /** The order in which the rows come back changes neither the counters nor the final queue. */
  lemma SweepIsOrderIndependent(s: State, judge: Judge, ids: set<QueueId>, rows: seq<QueueRow>, rows': seq<QueueRow>, fates: QueueId -> Fate)
    requires Valid(s) && Enumerates(s, ids, rows) && Enumerates(s, ids, rows')
    ensures Tally(|rows|, judge, rows, fates) == Tally(|rows'|, judge, rows', fates)
    ensures ApplyAll(s, SweepEffects(judge, rows, fates)).queue == ApplyAll(s, SweepEffects(judge, rows', fates)).queue
  {
    EnumeratesRows(s, ids, rows);
    EnumeratesRows(s, ids, rows');
    SweptQueue(s, judge, rows, fates);
    SweptQueue(s, judge, rows', fates);
    SweptTally(|rows|, s, judge, rows, fates);
    SweptTally(|rows'|, s, judge, rows', fates);
    SizeOfIds(rows);
    SizeOfIds(rows');
  }

  /** Every row considered is counted once, the queue loses exactly the drained rows, each row still
      unmatched gains exactly one attempt, and every other row is untouched. */
  lemma SweepConserves(s: State, judge: Judge, ids: set<QueueId>, rows: seq<QueueRow>, fates: QueueId -> Fate)
    requires Valid(s) && Enumerates(s, ids, rows)
    ensures var res := Tally(|rows|, judge, rows, fates);
            var after := ApplyAll(s, SweepEffects(judge, rows, fates)).queue;
            && res.considered == res.confident + res.lowConfidence + res.noMatch + res.errors
            && |after| == |s.queue| - res.confident - res.lowConfidence
            && (forall q :: q in after ==> q in s.queue && after[q] == RowAfter(s.queue, judge, ids, fates, q))
  {
    EnumeratesRows(s, ids, rows);
    SweptQueue(s, judge, rows, fates);
    SweptTally(|rows|, s, judge, rows, fates);
    SizeOfIds(rows);
    Partition(s.queue, judge, Ids(rows), fates);
  }

  /** The row was matched, to a place that scores at least `low` and below `high`, and nothing failed. */
  predicate MatchedWithin(w: World, m: Spots, row: QueueRow, fate: Fate, low: real, high: real) {
    var d := Verdict(w, m, RecordOf(row));
    && fate.fault != MatchFails && fate.fault != AttachFails && fate.fault != DeleteFails
    && d.Matched? && low <= Score(w, RecordOf(row), m[d.place]) < high
  }

  predicate MatchedByNone(w: World, m: Spots, row: QueueRow, fate: Fate) {
    Verdict(w, m, RecordOf(row)) == NoMatch && fate.fault != MatchFails && fate.fault != BumpFails
  }

  lemma OutcomeMeans(w: World, m: Spots, row: QueueRow, fate: Fate)
    requires w.Valid()
    ensures var o := OutcomeOf(Verdict(w, m, RecordOf(row)), fate);
            && (o == Drained(Confident) <==> MatchedWithin(w, m, row, fate, 0.80, 2.0))
            && (o == Drained(LowConfidence) <==> MatchedWithin(w, m, row, fate, 0.55, 0.80))
            && (o == StillUnmatched <==> MatchedByNone(w, m, row, fate))
  {
    var d := Verdict(w, m, RecordOf(row));
    VerdictMeans(w, m, RecordOf(row));
    if d.Matched? {
      ScoreIsAFraction(w, RecordOf(row), m[d.place]);
    }
  }

  /** The counters by what they count: rows matched to a place that scores 0.80 or more, rows matched to
      one that scores from 0.55 to below 0.80, and rows for which no place scores enough. */
  lemma CountersMean(w: World, s: State, ids: set<QueueId>, rows: seq<QueueRow>, fates: QueueId -> Fate)
    requires w.Valid() && Valid(s) && Enumerates(s, ids, rows)
    ensures var m, q := SpotsOf(s), s.queue; var res := Tally(|rows|, Matcher(w, m), rows, fates);
            && res.confident == |set id | id in ids && id in q && MatchedWithin(w, m, q[id], fates(id), 0.80, 2.0)|
            && res.lowConfidence == |set id | id in ids && id in q && MatchedWithin(w, m, q[id], fates(id), 0.55, 0.80)|
            && res.noMatch == |set id | id in ids && id in q && MatchedByNone(w, m, q[id], fates(id))|
  {
    var m, q := SpotsOf(s), s.queue;
    EnumeratesRows(s, ids, rows);
    SweptTally(|rows|, s, Matcher(w, m), rows, fates);
    ThoseWith(w, m, q, ids, Ids(rows), fates);
  }

  lemma ThoseWith(w: World, m: Spots, q: map<QueueId, QueueRow>, ids: set<QueueId>, listed: set<QueueId>, fates: QueueId -> Fate)
    requires w.Valid() && listed == set id | id in ids && id in q
    ensures With(q, Matcher(w, m), listed, fates, Drained(Confident))
         == set id | id in ids && id in q && MatchedWithin(w, m, q[id], fates(id), 0.80, 2.0)
    ensures With(q, Matcher(w, m), listed, fates, Drained(LowConfidence))
         == set id | id in ids && id in q && MatchedWithin(w, m, q[id], fates(id), 0.55, 0.80)
    ensures With(q, Matcher(w, m), listed, fates, StillUnmatched) == set id | id in ids && id in q && MatchedByNone(w, m, q[id], fates(id))
  {
    forall id | id in q
      ensures var o := Fated(q, Matcher(w, m), fates, id);
              && (o == Drained(Confident) <==> MatchedWithin(w, m, q[id], fates(id), 0.80, 2.0))
              && (o == Drained(LowConfidence) <==> MatchedWithin(w, m, q[id], fates(id), 0.55, 0.80))
              && (o == StillUnmatched <==> MatchedByNone(w, m, q[id], fates(id)))
    {
      OutcomeMeans(w, m, q[id], fates(id));
    }
  }

  function RowAfter(queue: map<QueueId, QueueRow>, judge: Judge, ids: set<QueueId>, fates: QueueId -> Fate, q: QueueId): QueueRow
    requires q in queue
  {
    if q in ids && Fated(queue, judge, fates, q).StillUnmatched? then Attempted(queue[q], fates(q).now) else queue[q]
  }

  lemma Partition(queue: map<QueueId, QueueRow>, judge: Judge, ids: set<QueueId>, fates: QueueId -> Fate)
    requires ids <= queue.Keys
    ensures var res := TallyAfter(|ids|, queue, judge, ids, fates);
            && |ids| == res.confident + res.lowConfidence + res.noMatch + res.errors
            && |QueueAfter(queue, judge, ids, fates)| == |queue| - res.confident - res.lowConfidence
  {
    var c, l := With(queue, judge, ids, fates, Drained(Confident)), With(queue, judge, ids, fates, Drained(LowConfidence));
    var n, f := With(queue, judge, ids, fates, StillUnmatched), With(queue, judge, ids, fates, Failed);
    FourKinds(queue, judge, ids, fates);
    Kept(queue, judge, ids, fates, c + l);
  }

  lemma FourKinds(queue: map<QueueId, QueueRow>, judge: Judge, ids: set<QueueId>, fates: QueueId -> Fate)
    requires ids <= queue.Keys
    ensures var c, l := With(queue, judge, ids, fates, Drained(Confident)), With(queue, judge, ids, fates, Drained(LowConfidence));
            var n, f := With(queue, judge, ids, fates, StillUnmatched), With(queue, judge, ids, fates, Failed);
            ids == c + l + (n + f) && c !! l && (c + l) !! (n + f) && n !! f
  {
    forall q | q in ids
      ensures Fated(queue, judge, fates, q) in {Drained(Confident), Drained(LowConfidence), StillUnmatched, Failed}
    {
      OutcomeIsOneOfFour(Fated(queue, judge, fates, q));
    }
  }

  lemma OutcomeIsOneOfFour(o: Outcome)
    ensures o in {Drained(Confident), Drained(LowConfidence), StillUnmatched, Failed}
  {
    match o
    case Drained(Confident) =>
    case Drained(LowConfidence) =>
    case StillUnmatched =>
    case Failed =>
  }

  lemma Kept(queue: map<QueueId, QueueRow>, judge: Judge, ids: set<QueueId>, fates: QueueId -> Fate, gone: set<QueueId>)
    requires ids <= queue.Keys
    requires gone == set q | q in ids && Fated(queue, judge, fates, q).Drained?
    ensures |QueueAfter(queue, judge, ids, fates)| == |queue| - |gone|
  {
    var after := QueueAfter(queue, judge, ids, fates);
    assert after.Keys == queue.Keys - gone;
    assert |after| == |after.Keys| && |queue| == |queue.Keys|;
  }

  // ---------------------------------------------------------------- the row carries the record

  /** Matching reads neither the source nor the payload. */
  lemma {:induction false} ScoresIgnoreOrigin(w: World, m: Spots, r: Record, t: Record, cs: seq<PlaceId>)
    requires t == r.(source := t.source, sourceId := t.sourceId, payload := t.payload)
    requires forall c :: c in cs ==> c in m
    ensures Scores(w, m, r, cs) == Scores(w, m, t, cs)
  {
    if cs != [] {
      var n := |cs| - 1;
      assert cs[n] in cs;
      ScoresIgnoreOrigin(w, m, r, t, cs[..n]);
    }
  }

  lemma VerdictIgnoresOrigin(w: World, m: Spots, r: Record, t: Record)
    requires t == r.(source := t.source, sourceId := t.sourceId, payload := t.payload)
    ensures Verdict(w, m, r) == Verdict(w, m, t)
  {
    assert Within(w, m, r, RADIUS_M) == Within(w, m, t, RADIUS_M);
    ScoresIgnoreOrigin(w, m, r, t, FindCandidates(w, m, r));
  }

  /** Queueing a record keeps one row for its key, which carries all that matching reads:
      over any table, the record rebuilt from the row gets the record's own decision. */
  lemma QueueKeepsTheSignal(w: World, s: State, r: Record, now: Time, m: Spots)
    requires Valid(s)
    ensures var t := Apply(s, Enqueued(RowOf(r, now)));
            var q := Slot(s, r.source, r.sourceId);
            && Valid(t)
            && q in t.queue
            && t.queue[q] == QueueRow(q, r.source, r.sourceId, r.name, r.category, r.street, r.houseNumber, r.at,
                                      if r.payload == None then "{}" else r.payload.value, now,
                                      if q in s.queue then s.queue[q].attempts + 1 else 1)
            && (forall p :: p in t.queue && t.queue[p].source == r.source && t.queue[p].sourceId == r.sourceId ==> p == q)
            && (forall p :: p in s.queue && p != q ==> p in t.queue && t.queue[p] == s.queue[p])
            && Verdict(w, m, RecordOf(t.queue[q])) == Verdict(w, m, r)
  {
    var t := Apply(s, Enqueued(RowOf(r, now)));
    var q := Slot(s, r.source, r.sourceId);
    ApplyKeepsValid(s, Enqueued(RowOf(r, now)));
    VerdictIgnoresOrigin(w, m, r, RecordOf(t.queue[q]));
  }
}
