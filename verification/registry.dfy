/** The places and unmatched_external tables and the statements that change them
    (internal/place/repository.go, internal/unmatched/repository.go). */
module Registry {
  import opened Models
  import opened Scoring
  import opened Matching

  /** A place as a source hands it over. */
  datatype NewPlace = NewPlace(osmId: int, osmType: string, spot: Spot, rank: int,
                               refs: map<string, ExternalRef>, source: string)

  datatype PlaceRow = PlaceRow(osmId: int, osmType: string, spot: Spot, rank: int,
                               refs: map<string, ExternalRef>, updatedAt: Time,
                               source: string, createdAt: Time)

  datatype QueueRow = QueueRow(id: QueueId, source: string, sourceId: string, name: string, category: string,
                               street: string, houseNumber: string, at: Point, payload: string,
                               lastAttempted: Time, attempts: nat)

  /** The ids still to come stand for gen_random_uuid() and the BIGSERIAL sequence. */
  datatype State = State(places: map<PlaceId, PlaceRow>, nextPlace: PlaceId,
                         queue: map<QueueId, QueueRow>, nextQueue: QueueId)

  function SpotsOf(s: State): (m: Spots)
    ensures m.Keys == s.places.Keys
  {
    map id | id in s.places :: s.places[id].spot
  }

  predicate SameOsmKey(a: PlaceRow, p: NewPlace) {
    p.osmId != 0 && a.osmId == p.osmId && a.osmType == p.osmType
  }

  predicate OsmKeyClash(a: PlaceRow, b: PlaceRow) {
    a.osmId != 0 && a.osmId == b.osmId && a.osmType == b.osmType
  }

  predicate SourceKeyClash(a: QueueRow, b: QueueRow) {
    a.source == b.source && a.sourceId == b.sourceId
  }

  /** The unique constraints, and ids that were handed out already. */
  ghost predicate Valid(s: State) {
    && (forall id :: id in s.places ==> id < s.nextPlace)
    && (forall a, b :: a in s.places && b in s.places && OsmKeyClash(s.places[a], s.places[b]) ==> a == b)
    && (forall q :: q in s.queue ==> q < s.nextQueue && s.queue[q].id == q)
    && (forall a, b :: a in s.queue && b in s.queue && SourceKeyClash(s.queue[a], s.queue[b]) ==> a == b)
  }

  // ---------------------------------------------------------------- statements as effects

  datatype Effect =
    | Upserted(place: PlaceId, incoming: NewPlace, now: Time)
    | Attached(place: PlaceId, source: string, ref: ExternalRef, now: Time)
    | Enqueued(row: QueueRow)
    | Bumped(queueId: QueueId, now: Time)
    | Removed(queueId: QueueId)

  /** The row an insert of `p` conflicts with, else a fresh id. */
  ghost function Target(s: State, p: NewPlace): PlaceId {
    if exists id :: id in s.places && SameOsmKey(s.places[id], p)
    then var id :| id in s.places && SameOsmKey(s.places[id], p); id
    else s.nextPlace
  }

  /** The queue row with the natural key (source, source_id), else a fresh id. */
  ghost function Slot(s: State, source: string, sourceId: string): QueueId {
    if exists q :: q in s.queue && s.queue[q].source == source && s.queue[q].sourceId == sourceId
    then var q :| q in s.queue && s.queue[q].source == source && s.queue[q].sourceId == sourceId; q
    else s.nextQueue
  }

  function Inserted(p: NewPlace, now: Time): PlaceRow {
    PlaceRow(p.osmId, p.osmType, p.spot, p.rank, p.refs, now, p.source, now)
  }

  /** ON CONFLICT DO UPDATE: external_ids is among the overwritten columns. */
  function Overwritten(old_: PlaceRow, p: NewPlace, now: Time): PlaceRow {
    old_.(spot := p.spot, rank := p.rank, refs := p.refs, updatedAt := now)
  }

  ghost function Apply(s: State, e: Effect): State {
    match e
    case Upserted(id, p, now) =>
      s.(places := s.places[id := if id in s.places then Overwritten(s.places[id], p, now) else Inserted(p, now)],
         nextPlace := if id < s.nextPlace then s.nextPlace else id + 1)
    case Attached(id, source, ref, now) =>
      if id !in s.places then s
      else s.(places := s.places[id := s.places[id].(refs := s.places[id].refs[source := ref], updatedAt := now)])
    case Enqueued(u) =>
      var q := Slot(s, u.source, u.sourceId);
      s.(queue := s.queue[q := u.(id := q, attempts := if q in s.queue then s.queue[q].attempts + 1 else u.attempts)],
         nextQueue := s.nextQueue + 1)
    case Bumped(q, now) =>
      if q !in s.queue then s
      else s.(queue := s.queue[q := s.queue[q].(attempts := s.queue[q].attempts + 1, lastAttempted := now)])
    case Removed(q) => s.(queue := s.queue - {q})
  }

  ghost function ApplyAll(s: State, es: seq<Effect>): State
    decreases |es|
  {
    if es == [] then s else Apply(ApplyAll(s, es[..|es| - 1]), es[|es| - 1])
  }

  lemma {:induction false} ApplyAllSplits(s: State, a: seq<Effect>, b: seq<Effect>)
    ensures ApplyAll(s, a + b) == ApplyAll(ApplyAll(s, a), b)
    decreases |b|
  {
    if b == [] {
      assert a + b == a;
    } else {
      var n := |b| - 1;
      assert (a + b)[..|a + b| - 1] == a + b[..n];
      ApplyAllSplits(s, a, b[..n]);
    }
  }

  lemma ApplyOne(s: State, e: Effect)
    ensures ApplyAll(s, [e]) == Apply(s, e)
  {
    assert [e][..0] == [];
  }

  predicate KeepsSpots(e: Effect) { !e.Upserted? }

  /** An effect the statements can have: upserts go to the row they conflict with. */
  ghost predicate Legal(s: State, e: Effect) {
    e.Upserted? ==> e.place == Target(s, e.incoming)
  }

  lemma ApplyKeepsValid(s: State, e: Effect)
    requires Valid(s) && Legal(s, e)
    ensures Valid(Apply(s, e))
  {
    match e
    case Upserted(id, p, now) =>
      if id in s.places {
        assert SameOsmKey(s.places[id], p);
      } else {
        assert forall a :: a in s.places ==> !SameOsmKey(s.places[a], p);
      }
    case Attached(_, _, _, _) =>
    case Enqueued(u) =>
    case Bumped(_, _) =>
    case Removed(_) =>
  }

  /** Attaching, queueing, bumping and removing change nothing that matching reads. */
  lemma SpotsAreKept(s: State, e: Effect)
    requires KeepsSpots(e)
    ensures SpotsOf(Apply(s, e)) == SpotsOf(s)
  {
  }

  lemma {:induction false} SpotsAreKeptAll(s: State, es: seq<Effect>)
    requires forall e :: e in es ==> KeepsSpots(e)
    requires Valid(s)
    ensures SpotsOf(ApplyAll(s, es)) == SpotsOf(s)
    ensures Valid(ApplyAll(s, es))
    decreases |es|
  {
    if es != [] {
      var n := |es| - 1;
      SpotsAreKeptAll(s, es[..n]);
      SpotsAreKept(ApplyAll(s, es[..n]), es[n]);
      ApplyKeepsValid(ApplyAll(s, es[..n]), es[n]);
    }
  }

  // ---------------------------------------------------------------- the batch upsert

  /** One statement upserts each row once: a key repeated in the statement is an error. */
  predicate NoRepeatedKey(ps: seq<NewPlace>) {
    forall i, j :: 0 <= i < j < |ps| && ps[i].osmId != 0 && ps[i].osmId == ps[j].osmId ==> ps[i].osmType != ps[j].osmType
  }

  /** The upserts of `ps` in order, with the id each row gets. */
  ghost function Upserts(s: State, ps: seq<NewPlace>, now: Time): (es: seq<Effect>)
    ensures |es| == |ps|
    ensures forall i :: 0 <= i < |ps| ==> es[i].Upserted? && es[i].incoming == ps[i] && es[i].now == now
    decreases |ps|
  {
    if ps == [] then []
    else
      var n := |ps| - 1;
      var before := Upserts(s, ps[..n], now);
      before + [Upserted(Target(ApplyAll(s, before), ps[n]), ps[n], now)]
  }

  lemma {:induction false} UpsertsKeepValid(s: State, ps: seq<NewPlace>, now: Time)
    requires Valid(s)
    ensures Valid(ApplyAll(s, Upserts(s, ps, now)))
    decreases |ps|
  {
    if ps != [] {
      var n := |ps| - 1;
      var before := Upserts(s, ps[..n], now);
      UpsertsKeepValid(s, ps[..n], now);
      assert Upserts(s, ps, now)[..n] == before;
      ApplyKeepsValid(ApplyAll(s, before), Upserts(s, ps, now)[n]);
    }
  }

  function PlaceIds(es: seq<Effect>): (ids: seq<PlaceId>)
    requires forall e :: e in es ==> e.Upserted?
    ensures |ids| == |es| && forall i :: 0 <= i < |es| ==> es[i].Upserted? && ids[i] == es[i].place
  {
    if es == [] then []
    else
      var n := |es| - 1;
      assert es[n] in es;
      PlaceIds(es[..n]) + [es[n].place]
  }

  // ---------------------------------------------------------------- the tables

  class Database {
    var places: map<PlaceId, PlaceRow>
    var nextPlace: PlaceId
    var queue: map<QueueId, QueueRow>
    var nextQueue: QueueId

    ghost function S(): State
      reads this
    {
      State(places, nextPlace, queue, nextQueue)
    }

    constructor ()
      ensures Valid(S()) && places == map[] && queue == map[]
    {
      places, nextPlace, queue, nextQueue := map[], 0, map[], 0;
    }

    /** All rows or none; returns the ids of the rows written. `fails` is any other database error. */
    method UpsertBatch(ps: seq<NewPlace>, now: Time, fails: bool) returns (ids: Option<seq<PlaceId>>)
      requires Valid(S())
      modifies this`places, this`nextPlace
      ensures Valid(S())
      ensures ids.Some? <==> ps == [] || (!fails && NoRepeatedKey(ps))
      ensures ids.Some? ==> S() == ApplyAll(old(S()), Upserts(old(S()), ps, now))
                            && ids.value == PlaceIds(Upserts(old(S()), ps, now))
      ensures ids.None? ==> S() == old(S())
    {
      if |ps| == 0 {
        return Some([]);
      }
      if fails || !NoRepeatedKey(ps) {
        return None;
      }
      var written: seq<PlaceId> := [];
      ghost var s0, done := S(), [];
      for i := 0 to |ps|
        invariant Valid(S())
        invariant done == Upserts(s0, ps[..i], now) && S() == ApplyAll(s0, done)
        invariant written == PlaceIds(done)
      {
        var id := UpsertOne(ps[i], now);
        UpsertsStep(s0, ps, i, now);
        done := done + [Upserted(id, ps[i], now)];
        written := written + [id];
      }
      assert ps[..|ps|] == ps;
      ids := Some(written);
    }

    method UpsertOne(p: NewPlace, now: Time) returns (id: PlaceId)
      requires Valid(S())
      modifies this`places, this`nextPlace
      ensures Valid(S())
      ensures id == Target(old(S()), p) && S() == Apply(old(S()), Upserted(id, p, now))
    {
      ApplyKeepsValid(S(), Upserted(Target(S(), p), p, now));
      if id' :| id' in places && SameOsmKey(places[id'], p) {
        id := id';
        places := places[id := Overwritten(places[id], p, now)];
      } else {
        id := nextPlace;
        places := places[id := Inserted(p, now)];
        nextPlace := nextPlace + 1;
      }
    }

    method Candidates(w: World, r: Record, fails: bool) returns (cs: Option<seq<PlaceId>>)
      ensures cs == if fails then None else Some(FindCandidates(w, SpotsOf(S()), r))
    {
      if fails { return None; }
      var spots := map id | id in places :: places[id].spot;
      return Some(FindCandidates(w, spots, r));
    }

    method AttachExternalRef(id: PlaceId, source: string, ref: ExternalRef, now: Time, fails: bool) returns (ok: bool)
      modifies this`places
      ensures ok <==> !fails && id in old(places)
      ensures S() == if ok then Apply(old(S()), Attached(id, source, ref, now)) else old(S())
    {
      if fails || id !in places { return false; }
      places := places[id := places[id].(refs := places[id].refs[source := ref], updatedAt := now)];
      return true;
    }

    /** One row per (source, source_id): a conflict refreshes the row and counts an attempt. */
    method Enqueue(u: QueueRow, fails: bool) returns (ok: bool)
      requires Valid(S())
      modifies this`queue, this`nextQueue
      ensures ok == !fails
      ensures S() == if ok then Apply(old(S()), Enqueued(u)) else old(S())
    {
      if fails { return false; }
      var q := nextQueue;
      var attempts := u.attempts;
      if q' :| q' in queue && queue[q'].source == u.source && queue[q'].sourceId == u.sourceId {
        q := q';
        attempts := queue[q'].attempts + 1;
      }
      queue := queue[q := u.(id := q, attempts := attempts)];
      nextQueue := nextQueue + 1;
      return true;
    }

    method BumpAttempts(q: QueueId, now: Time, fails: bool) returns (ok: bool)
      modifies this`queue
      ensures ok <==> !fails && q in old(queue)
      ensures S() == if ok then Apply(old(S()), Bumped(q, now)) else old(S())
    {
      if fails || q !in queue { return false; }
      queue := queue[q := queue[q].(attempts := queue[q].attempts + 1, lastAttempted := now)];
      return true;
    }

    method Delete(q: QueueId, fails: bool) returns (ok: bool)
      modifies this`queue
      ensures ok <==> !fails && q in old(queue)
      ensures S() == if ok then Apply(old(S()), Removed(q)) else old(S())
    {
      if fails || q !in queue { return false; }
      queue := queue - {q};
      return true;
    }

    /** The rows within `metres` of a touched place, each once, in any order. */
    method FindCandidatesNearTouched(w: World, touched: seq<PlaceId>, metres: real, fails: bool)
      returns (rows: Option<seq<QueueRow>>)
      requires Valid(S())
      ensures rows.None? <==> fails && touched != []
      ensures rows.Some? ==> Enumerates(S(), NearTouched(w, S(), touched, metres), rows.value)
      ensures rows.Some? ==> forall q :: q in queue ==>
                (queue[q] in rows.value <==> exists id :: id in touched && id in places && w.geography(queue[q].at, places[id].spot.at) <= metres)
    {
      if |touched| == 0 { return Some([]); }
      if fails { return None; }
      var todo := set q | q in queue && IsNearAny(w, places, queue[q].at, touched, metres);
      ghost var near := todo;
      assert near == NearTouched(w, S(), touched, metres);
      var out: seq<QueueRow> := [];
      while todo != {}
        invariant todo <= near
        invariant Enumerates(S(), near - todo, out)
      {
        var q :| q in todo;
        ListedOneMore(S(), near - todo, out, q);
        out := out + [queue[q]];
        assert near - (todo - {q}) == (near - todo) + {q};
        todo := todo - {q};
      }
      assert near - {} == near;
      ListedIffNear(w, S(), touched, metres, out);
      return Some(out);
    }
  }

  lemma UpsertsStep(s: State, ps: seq<NewPlace>, i: nat, now: Time)
    requires i < |ps|
    ensures var before := Upserts(s, ps[..i], now);
            var e := Upserted(Target(ApplyAll(s, before), ps[i]), ps[i], now);
            && Upserts(s, ps[..i + 1], now) == before + [e]
            && ApplyAll(s, before + [e]) == Apply(ApplyAll(s, before), e)
            && PlaceIds(before + [e]) == PlaceIds(before) + [e.place]
  {
    assert ps[..i + 1][..i] == ps[..i];
    var before := Upserts(s, ps[..i], now);
    var e := Upserted(Target(ApplyAll(s, before), ps[i]), ps[i], now);
    assert (before + [e])[..|before|] == before;
  }

  ghost function NearTouched(w: World, s: State, touched: seq<PlaceId>, metres: real): set<QueueId> {
    set q | q in s.queue && IsNearAny(w, s.places, s.queue[q].at, touched, metres)
  }

  predicate IsNearAny(w: World, places: map<PlaceId, PlaceRow>, at: Point, touched: seq<PlaceId>, metres: real) {
    exists id :: id in touched && id in places && w.geography(at, places[id].spot.at) <= metres
  }

  /** `rows` lists the queue rows with ids `ids`, each once. */
  ghost predicate Enumerates(s: State, ids: set<QueueId>, rows: seq<QueueRow>) {
    && (forall i, j :: 0 <= i < j < |rows| ==> rows[i].id != rows[j].id)
    && (forall row :: row in rows ==> row.id in ids && row.id in s.queue && s.queue[row.id] == row)
    && (forall q :: q in ids && q in s.queue ==> s.queue[q] in rows)
  }

  lemma ListedIffNear(w: World, s: State, touched: seq<PlaceId>, metres: real, rows: seq<QueueRow>)
    requires Valid(s) && Enumerates(s, NearTouched(w, s, touched, metres), rows)
    ensures forall q :: q in s.queue ==>
              (s.queue[q] in rows <==> exists id :: id in touched && id in s.places && w.geography(s.queue[q].at, s.places[id].spot.at) <= metres)
  {
    forall q | q in s.queue
      ensures s.queue[q] in rows <==> exists id :: id in touched && id in s.places && w.geography(s.queue[q].at, s.places[id].spot.at) <= metres
    {
      assert q in NearTouched(w, s, touched, metres) <==> IsNearAny(w, s.places, s.queue[q].at, touched, metres);
    }
  }

  /** An upsert told column by column: a conflict replaces the imported columns of the row with that OSM
      id and keeps the others; without one a row with a new id holds the item. Other rows stay. */
  lemma UpsertMeans(s: State, p: NewPlace, now: Time)
    requires Valid(s)
    ensures var id := Target(s, p); var t := Apply(s, Upserted(id, p, now));
            && id in t.places && t.places.Keys == s.places.Keys + {id} && t.queue == s.queue && t.nextQueue == s.nextQueue
            && (forall o :: o in s.places && o != id ==> t.places[o] == s.places[o])
            && var row := t.places[id];
            && row.spot == p.spot && row.rank == p.rank && row.refs == p.refs && row.updatedAt == now
            && (id in s.places <==> p.osmId != 0 && exists o :: o in s.places && s.places[o].osmId == p.osmId && s.places[o].osmType == p.osmType)
            && row.osmId == p.osmId && row.osmType == p.osmType
            && row.source == (if id in s.places then s.places[id].source else p.source)
            && row.createdAt == (if id in s.places then s.places[id].createdAt else now)
  {
    if o :| o in s.places && SameOsmKey(s.places[o], p) {
      assert SameOsmKey(s.places[Target(s, p)], p);
    }
  }

  lemma ListedOneMore(s: State, ids: set<QueueId>, rows: seq<QueueRow>, q: QueueId)
    requires Valid(s) && Enumerates(s, ids, rows) && q in s.queue && q !in ids
    ensures Enumerates(s, ids + {q}, rows + [s.queue[q]])
  {
    var all := rows + [s.queue[q]];
    forall p | p in ids + {q} && p in s.queue
      ensures s.queue[p] in all
    {
      assert p in ids || s.queue[p] == all[|rows|];
    }
    assert forall i :: 0 <= i < |rows| ==> rows[i] in rows;
  }
}
