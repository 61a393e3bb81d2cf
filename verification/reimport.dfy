/** Imports compared up to timestamps (internal/place/repository.go, UpsertBatch). */
module Reimport {
  import opened Models
  import opened Registry

  /** The tables without updated_at, which every upsert refreshes, and created_at, which an insert sets. */
  function Timeless(s: State): State {
    s.(places := map id | id in s.places :: s.places[id].(updatedAt := 0, createdAt := 0))
  }

  /** The places upserted one at a time. */
  ghost function Imported(s: State, ps: seq<NewPlace>, now: Time): State {
    ApplyAll(s, Upserts(s, ps, now))
  }

  ghost function ImportedIds(s: State, ps: seq<NewPlace>, now: Time): seq<PlaceId> {
    PlaceIds(Upserts(s, ps, now))
  }

  lemma TimelessIsValid(s: State)
    requires Valid(s)
    ensures Valid(Timeless(s)) && Timeless(Timeless(s)) == Timeless(s)
  {
    var t := Timeless(s);
    assert Timeless(t).places == t.places;
    forall a, b | a in t.places && b in t.places && OsmKeyClash(t.places[a], t.places[b])
      ensures a == b
    {
      assert OsmKeyClash(s.places[a], s.places[b]);
    }
  }

  lemma TargetIgnoresTimes(s: State, p: NewPlace)
    requires Valid(s)
    ensures Target(Timeless(s), p) == Target(s, p)
  {
    var t := Timeless(s);
    assert forall id :: id in s.places ==> (SameOsmKey(s.places[id], p) <==> SameOsmKey(t.places[id], p));
    if a :| a in s.places && SameOsmKey(s.places[a], p) {
      forall b | b in s.places && SameOsmKey(s.places[b], p)
        ensures b == a
      {
        assert OsmKeyClash(s.places[a], s.places[b]);
      }
    }
  }

  lemma TimelessUpsert(s: State, id: PlaceId, p: NewPlace, now: Time)
    ensures Timeless(Apply(s, Upserted(id, p, now))) == Apply(Timeless(s), Upserted(id, p, 0))
  {
    var a, b := Timeless(Apply(s, Upserted(id, p, now))), Apply(Timeless(s), Upserted(id, p, 0));
    assert a.places == b.places;
  }

  lemma ImportStep(s: State, ps: seq<NewPlace>, now: Time)
    requires ps != []
    ensures var n := |ps| - 1; var before := Imported(s, ps[..n], now); var id := Target(before, ps[n]);
            && Imported(s, ps, now) == Apply(before, Upserted(id, ps[n], now))
            && ImportedIds(s, ps, now) == ImportedIds(s, ps[..n], now) + [id]
  {
    UpsertsStep(s, ps, |ps| - 1, now);
    assert ps[..|ps|] == ps;
  }

  /** When an import happens changes timestamps only: same rows, same ids in the same order. */
  lemma {:induction false} TimesDoNotMatter(s: State, ps: seq<NewPlace>, now: Time)
    requires Valid(s)
    ensures Timeless(Imported(s, ps, now)) == Imported(Timeless(s), ps, 0)
    ensures ImportedIds(s, ps, now) == ImportedIds(Timeless(s), ps, 0)
    decreases |ps|
  {
    if ps != [] {
      var n := |ps| - 1;
      TimesDoNotMatter(s, ps[..n], now);
      ImportStep(s, ps, now);
      ImportStep(Timeless(s), ps, 0);
      UpsertsKeepValid(s, ps[..n], now);
      TargetIgnoresTimes(Imported(s, ps[..n], now), ps[n]);
      TimelessUpsert(Imported(s, ps[..n], now), Target(Imported(s, ps[..n], now), ps[n]), ps[n], now);
    }
  }

  lemma Associative<T>(a: seq<T>, b: seq<T>, c: seq<T>)
    ensures a + b + c == a + (b + c)
  {
  }

  lemma {:induction false} ImportsCompose(s: State, a: seq<NewPlace>, b: seq<NewPlace>, now: Time)
    ensures Imported(s, a + b, now) == Imported(Imported(s, a, now), b, now)
    ensures ImportedIds(s, a + b, now) == ImportedIds(s, a, now) + ImportedIds(Imported(s, a, now), b, now)
    decreases |b|
  {
    if b == [] {
      assert a + b == a;
    } else {
      var n := |b| - 1;
      assert (a + b)[..|a + b| - 1] == a + b[..n];
      ImportsCompose(s, a, b[..n], now);
      ImportStep(s, a + b, now);
      ImportStep(Imported(s, a, now), b, now);
      var mid := Imported(s, a, now);
      Associative(ImportedIds(s, a, now), ImportedIds(mid, b[..n], now), [Target(Imported(mid, b[..n], now), b[n])]);
    }
  }

  // ---------------------------------------------------------------- repeating an import

  /** The last item with the key, if any. */
  function LastOf(ps: seq<NewPlace>, osmId: int, osmType: string): Option<NewPlace> {
    if ps == [] then None
    else
      var p := ps[|ps| - 1];
      if p.osmId == osmId && p.osmType == osmType then Some(p) else LastOf(ps[..|ps| - 1], osmId, osmType)
  }

  predicate Shows(row: PlaceRow, p: NewPlace) {
    row.spot == p.spot && row.rank == p.rank && row.refs == p.refs
  }

  /** After an import each keyed item has its row, and a keyed row shows the last item with its key. */
  lemma {:induction false} RowsShowTheLastItem(s: State, ps: seq<NewPlace>, now: Time)
    requires Valid(s)
    ensures var t := Imported(s, ps, now);
            && Valid(t) && s.places.Keys <= t.places.Keys
            && ShowsLast(t, ps)
            && (forall p :: p in ps && p.osmId != 0 ==> exists id :: id in t.places && SameOsmKey(t.places[id], p))
    decreases |ps|
  {
    UpsertsKeepValid(s, ps, now);
    if ps != [] {
      var n := |ps| - 1;
      RowsShowTheLastItem(s, ps[..n], now);
      UpsertsKeepValid(s, ps[..n], now);
      ImportStep(s, ps, now);
      UpsertShows(Imported(s, ps[..n], now), ps[..n], ps[n], now);
      assert ps == ps[..n] + [ps[n]];
    }
  }

  lemma UpsertShows(s: State, ps: seq<NewPlace>, p: NewPlace, now: Time)
    requires Valid(s)
    requires ShowsLast(s, ps)
    requires forall q :: q in ps && q.osmId != 0 ==> exists id :: id in s.places && SameOsmKey(s.places[id], q)
    ensures var t := Apply(s, Upserted(Target(s, p), p, now));
            && s.places.Keys <= t.places.Keys
            && ShowsLast(t, ps + [p])
            && (forall q :: q in ps + [p] && q.osmId != 0 ==> exists id :: id in t.places && SameOsmKey(t.places[id], q))
  {
    var x, t := Target(s, p), Apply(s, Upserted(Target(s, p), p, now));
    assert (ps + [p])[..|ps|] == ps;
    assert p.osmId != 0 ==> SameOsmKey(t.places[x], p);
    forall q | q in ps && q.osmId != 0
      ensures exists id :: id in t.places && SameOsmKey(t.places[id], q)
    {
      var id :| id in s.places && SameOsmKey(s.places[id], q);
      assert SameOsmKey(t.places[id], q);
    }
    forall id | id in s.places && SameOsmKey(s.places[id], p)
      ensures id == x
    {
      assert OsmKeyClash(s.places[id], s.places[x]);
    }
  }

  /** `u` is `t` with the imported columns of the items `ps` written over it. */
  ghost predicate Rewritten(t: State, u: State, ps: seq<NewPlace>) {
    && u.places.Keys == t.places.Keys && u.nextPlace == t.nextPlace && u.queue == t.queue && u.nextQueue == t.nextQueue
    && forall id :: id in t.places ==> u.places[id] == RewrittenRow(t.places[id], ps)
  }

  function RewrittenRow(row: PlaceRow, ps: seq<NewPlace>): PlaceRow {
    var last := LastOf(ps, row.osmId, row.osmType);
    if last.None? then row else row.(spot := last.value.spot, rank := last.value.rank, refs := last.value.refs)
  }

  ghost predicate AllKnown(t: State, ps: seq<NewPlace>) {
    forall p :: p in ps ==> exists id :: id in t.places && SameOsmKey(t.places[id], p)
  }

  lemma {:induction false} KnownItemsRewrite(t: State, ps: seq<NewPlace>)
    requires Valid(t) && Timeless(t) == t && AllKnown(t, ps)
    ensures Rewritten(t, Imported(t, ps, 0), ps)
    decreases |ps|
  {
    if ps == [] {
      assert Imported(t, ps, 0) == t;
    } else {
      var n := |ps| - 1;
      assert ps == ps[..n] + [ps[n]];
      assert AllKnown(t, ps[..n]) by {
        assert forall p :: p in ps[..n] ==> p in ps;
      }
      assert exists id :: id in t.places && SameOsmKey(t.places[id], ps[n]) by {
        assert ps[n] in ps;
      }
      KnownItemsRewrite(t, ps[..n]);
      ImportStep(t, ps, 0);
      UpsertsKeepValid(t, ps[..n], 0);
      RewriteStep(t, Imported(t, ps[..n], 0), ps[..n], ps[n]);
    }
  }

  lemma RewriteStep(t: State, u: State, ps: seq<NewPlace>, p: NewPlace)
    requires Valid(u) && Timeless(t) == t && Rewritten(t, u, ps)
    requires exists id :: id in t.places && SameOsmKey(t.places[id], p)
    ensures Rewritten(t, Apply(u, Upserted(Target(u, p), p, 0)), ps + [p])
  {
    var x :| x in t.places && SameOsmKey(t.places[x], p);
    TargetIs(u, p, x);
    var v := Apply(u, Upserted(x, p, 0));
    assert v.places.Keys == u.places.Keys && v.nextPlace == u.nextPlace;
    forall id | id in t.places
      ensures v.places[id] == RewrittenRow(t.places[id], ps + [p])
    {
      assert Timeless(t).places[id] == t.places[id];
      assert id != x ==> !SameOsmKey(u.places[id], p);
      RowRewritten(t.places[id], ps, p);
    }
  }

  lemma TargetIs(u: State, p: NewPlace, x: PlaceId)
    requires Valid(u) && x in u.places && SameOsmKey(u.places[x], p)
    ensures Target(u, p) == x
    ensures forall id :: id in u.places && SameOsmKey(u.places[id], p) ==> id == x
  {
    forall id | id in u.places && SameOsmKey(u.places[id], p)
      ensures id == x
    {
      assert OsmKeyClash(u.places[id], u.places[x]);
    }
  }

  lemma RowRewritten(row: PlaceRow, ps: seq<NewPlace>, p: NewPlace)
    requires row.updatedAt == 0 && p.osmId != 0
    ensures RewrittenRow(row, ps + [p]) == if SameOsmKey(row, p) then Overwritten(RewrittenRow(row, ps), p, 0) else RewrittenRow(row, ps)
  {
    assert (ps + [p])[..|ps|] == ps;
  }

  lemma {:induction false} UnkeyedItemsAreNew(t: State, ps: seq<NewPlace>, now: Time)
    ensures Imported(t, ps, now).nextPlace >= t.nextPlace
    ensures (exists p :: p in ps && p.osmId == 0) ==> Imported(t, ps, now).nextPlace > t.nextPlace
    decreases |ps|
  {
    if ps != [] {
      var n := |ps| - 1;
      UnkeyedItemsAreNew(t, ps[..n], now);
      ImportStep(t, ps, now);
      assert ps == ps[..n] + [ps[n]];
    }
  }

  ghost predicate ShowsLast(t: State, ps: seq<NewPlace>) {
    forall id :: id in t.places && t.places[id].osmId != 0 ==>
      var last := LastOf(ps, t.places[id].osmId, t.places[id].osmType);
      last.Some? ==> Shows(t.places[id], last.value)
  }

  /** The table holds what importing `ps` leaves. */
  ghost predicate Settled(t: State, ps: seq<NewPlace>) {
    AllKnown(t, ps) && ShowsLast(t, ps)
  }

  predicate Keyed(ps: seq<NewPlace>) {
    forall p :: p in ps ==> p.osmId != 0
  }

  /** Between two imports only columns that the import writes have changed, on rows it writes. */
  ghost predicate Touched(t: State, u: State, ps: seq<NewPlace>) {
    && u.places.Keys == t.places.Keys && u.nextPlace == t.nextPlace && u.queue == t.queue && u.nextQueue == t.nextQueue
    && forall id :: id in t.places ==>
         var a, b := t.places[id], u.places[id];
         && a == b.(spot := a.spot, rank := a.rank, refs := a.refs)
         && (a != b ==> a.osmId != 0 && LastOf(ps, a.osmId, a.osmType).Some?)
  }

  /** An import of keyed items restores what it wrote before, whatever was done since to those columns. */
  lemma RepeatRestores(t: State, u: State, ps: seq<NewPlace>)
    requires Valid(t) && Valid(u) && Timeless(t) == t && Timeless(u) == u
    requires Keyed(ps) && Settled(t, ps) && Touched(t, u, ps)
    ensures Imported(u, ps, 0) == t
  {
    forall p | p in ps
      ensures exists id :: id in u.places && SameOsmKey(u.places[id], p)
    {
      var id :| id in t.places && SameOsmKey(t.places[id], p);
      assert SameOsmKey(u.places[id], p);
    }
    KnownItemsRewrite(u, ps);
    var v := Imported(u, ps, 0);
    forall id | id in t.places
      ensures v.places[id] == t.places[id]
    {
      var last := LastOf(ps, t.places[id].osmId, t.places[id].osmType);
      if last.Some? {
        LastIsListed(ps, t.places[id].osmId, t.places[id].osmType);
      }
    }
    assert v.places == t.places;
  }

  lemma {:induction false} LastIsListed(ps: seq<NewPlace>, osmId: int, osmType: string)
    requires LastOf(ps, osmId, osmType).Some?
    ensures var p := LastOf(ps, osmId, osmType).value; p in ps && p.osmId == osmId && p.osmType == osmType
  {
    var p := ps[|ps| - 1];
    if p.osmId != osmId || p.osmType != osmType {
      LastIsListed(ps[..|ps| - 1], osmId, osmType);
    }
  }

  /** The tables without updated_at. */
  function Undated(s: State): State {
    s.(places := map id | id in s.places :: s.places[id].(updatedAt := 0))
  }

  /** Every row of `t` is in `u`, with its created_at. */
  ghost predicate KeepsCreated(t: State, u: State) {
    forall id :: id in t.places ==> id in u.places && u.places[id].createdAt == t.places[id].createdAt
  }

  lemma {:induction false} ImportKeepsCreated(t: State, ps: seq<NewPlace>, now: Time)
    ensures KeepsCreated(t, Imported(t, ps, now))
    decreases |ps|
  {
    if ps != [] {
      ImportKeepsCreated(t, ps[..|ps| - 1], now);
      ImportStep(t, ps, now);
    }
  }

  lemma UndatedIff(t: State, u: State)
    requires KeepsCreated(t, u)
    ensures Undated(u) == Undated(t) <==> Timeless(u) == Timeless(t)
  {
    if Timeless(u) == Timeless(t) {
      assert u.places.Keys == Timeless(u).places.Keys == Timeless(t).places.Keys == t.places.Keys;
      forall id | id in t.places
        ensures Undated(u).places[id] == Undated(t).places[id]
      {
        assert Timeless(u).places[id] == Timeless(t).places[id];
      }
      assert Undated(u).places == Undated(t).places;
    }
    if Undated(u) == Undated(t) {
      assert u.places.Keys == Undated(u).places.Keys == Undated(t).places.Keys == t.places.Keys;
      forall id | id in t.places
        ensures Timeless(u).places[id] == Timeless(t).places[id]
      {
        assert Undated(u).places[id] == Undated(t).places[id];
      }
      assert Timeless(u).places == Timeless(t).places;
    }
  }

  /** Repeating an import reproduces the tables up to updated_at exactly when every item has an OSM
      id: an item without one is inserted again. */
  lemma RepeatingReproducesIff(s: State, ps: seq<NewPlace>, now: Time, later: Time)
    requires Valid(s)
    ensures var t := Imported(s, ps, now);
            Undated(Imported(t, ps, later)) == Undated(t) <==> Keyed(ps)
  {
    var t := Imported(s, ps, now);
    RepeatingIsTimelessIff(s, ps, now, later);
    ImportKeepsCreated(t, ps, later);
    UndatedIff(t, Imported(t, ps, later));
  }

  lemma RepeatingIsTimelessIff(s: State, ps: seq<NewPlace>, now: Time, later: Time)
    requires Valid(s)
    ensures var t := Imported(s, ps, now);
            Timeless(Imported(t, ps, later)) == Timeless(t) <==> Keyed(ps)
  {
    var t := Imported(s, ps, now);
    var t0 := Timeless(t);
    UpsertsKeepValid(s, ps, now);
    TimesDoNotMatter(t, ps, later);
    TimelessIsValid(t);
    if Keyed(ps) {
      ImportedIsSettled(s, ps, now);
      RepeatRestores(t0, t0, ps);
    } else {
      UnkeyedItemsAreNew(t, ps, later);
    }
  }

  lemma ImportedIsSettled(s: State, ps: seq<NewPlace>, now: Time)
    requires Valid(s) && Keyed(ps)
    ensures Settled(Timeless(Imported(s, ps, now)), ps)
  {
    RowsShowTheLastItem(s, ps, now);
    var u := Imported(s, ps, now);
    var t := Timeless(u);
    forall p | p in ps
      ensures exists id :: id in t.places && SameOsmKey(t.places[id], p)
    {
      var id :| id in u.places && SameOsmKey(u.places[id], p);
      assert SameOsmKey(t.places[id], p);
    }
  }

  /** The effect attaches a ref to a row that the import writes. */
  ghost predicate AttachesTo(t: State, ps: seq<NewPlace>, e: Effect) {
    && e.Attached? && e.place in t.places && t.places[e.place].osmId != 0
    && LastOf(ps, t.places[e.place].osmId, t.places[e.place].osmType).Some?
  }

  lemma {:induction false} AttachesTouch(t: State, ps: seq<NewPlace>, es: seq<Effect>)
    requires Valid(t) && forall e :: e in es ==> AttachesTo(t, ps, e)
    ensures Valid(ApplyAll(t, es)) && Touched(Timeless(t), Timeless(ApplyAll(t, es)), ps)
    decreases |es|
  {
    if es != [] {
      var n := |es| - 1;
      AttachesTouch(t, ps, es[..n]);
      assert AttachesTo(t, ps, es[n]);
      ApplyKeepsValid(ApplyAll(t, es[..n]), es[n]);
      AttachTouches(t, ApplyAll(t, es[..n]), ps, es[n]);
    }
  }

  lemma AttachTouches(t: State, u: State, ps: seq<NewPlace>, e: Effect)
    requires Touched(Timeless(t), Timeless(u), ps) && AttachesTo(t, ps, e)
    ensures Touched(Timeless(t), Timeless(Apply(u, e)), ps)
  {
  }

  /** External refs attached between two runs of the same import, to places it writes, are gone
      after the second run: the tables are again what the first run left. */
  lemma RepeatingErasesAttachments(s: State, ps: seq<NewPlace>, now: Time, attaches: seq<Effect>, later: Time)
    requires Valid(s) && Keyed(ps)
    requires forall e :: e in attaches ==> AttachesTo(Imported(s, ps, now), ps, e)
    ensures var t := Imported(s, ps, now);
            Undated(Imported(ApplyAll(t, attaches), ps, later)) == Undated(t)
  {
    var t := Imported(s, ps, now);
    UpsertsKeepValid(s, ps, now);
    ImportedIsSettled(s, ps, now);
    RepeatErases(t, ps, attaches, later);
    AttachesKeepCreated(t, attaches);
    ImportKeepsCreated(ApplyAll(t, attaches), ps, later);
    UndatedIff(t, Imported(ApplyAll(t, attaches), ps, later));
  }

  lemma {:induction false} AttachesKeepCreated(t: State, es: seq<Effect>)
    requires forall e :: e in es ==> e.Attached?
    ensures KeepsCreated(t, ApplyAll(t, es))
    decreases |es|
  {
    if es != [] {
      assert es[|es| - 1] in es && forall e :: e in es[..|es| - 1] ==> e in es;
      AttachesKeepCreated(t, es[..|es| - 1]);
    }
  }

  lemma RepeatErases(t: State, ps: seq<NewPlace>, attaches: seq<Effect>, later: Time)
    requires Valid(t) && Keyed(ps) && Settled(Timeless(t), ps)
    requires forall e :: e in attaches ==> AttachesTo(t, ps, e)
    ensures Timeless(Imported(ApplyAll(t, attaches), ps, later)) == Timeless(t)
  {
    var u := ApplyAll(t, attaches);
    AttachesTouch(t, ps, attaches);
    TimesDoNotMatter(u, ps, later);
    TimelessIsValid(t);
    TimelessIsValid(u);
    RepeatRestores(Timeless(t), Timeless(u), ps);
  }

  // ---------------------------------------------------------------- stable ids

  /** Every row stays, under its id and with its OSM key. */
  lemma {:induction false} KeysStay(s: State, ps: seq<NewPlace>, now: Time, id: PlaceId)
    requires id in s.places
    ensures var t := Imported(s, ps, now);
            id in t.places && t.places[id].osmId == s.places[id].osmId && t.places[id].osmType == s.places[id].osmType
    decreases |ps|
  {
    if ps != [] {
      KeysStay(s, ps[..|ps| - 1], now, id);
      ImportStep(s, ps, now);
    }
  }

  lemma {:induction false} ReturnedIdsHoldTheKeys(s: State, ps: seq<NewPlace>, now: Time, i: nat)
    requires Valid(s) && i < |ps| && ps[i].osmId != 0
    ensures var t, ids := Imported(s, ps, now), ImportedIds(s, ps, now);
            ids[i] in t.places && SameOsmKey(t.places[ids[i]], ps[i])
    decreases |ps|
  {
    var n := |ps| - 1;
    ImportStep(s, ps, now);
    UpsertsKeepValid(s, ps[..n], now);
    var before := Imported(s, ps[..n], now);
    if i < n {
      ReturnedIdsHoldTheKeys(s, ps[..n], now, i);
      var id := ImportedIds(s, ps[..n], now)[i];
      assert ImportedIds(s, ps, now)[i] == id;
    } else {
      assert ImportedIds(s, ps, now)[n] == Target(before, ps[n]);
    }
  }

  /** For a keyed item an import returns the id of the row that holds its key. */
  lemma IdFollowsKey(t: State, ps: seq<NewPlace>, now: Time, i: nat, id: PlaceId)
    requires Valid(t) && i < |ps| && ps[i].osmId != 0
    requires id in t.places && SameOsmKey(t.places[id], ps[i])
    ensures ImportedIds(t, ps, now)[i] == id
  {
    var u, got := Imported(t, ps, now), ImportedIds(t, ps, now);
    UpsertsKeepValid(t, ps, now);
    ReturnedIdsHoldTheKeys(t, ps, now, i);
    KeysStay(t, ps, now, id);
    assert OsmKeyClash(u.places[id], u.places[got[i]]);
  }

  /** Generated ids are stable: repeating an import returns, for each item with an OSM id, the id it
      returned first, and for each item without one an id that was never there. */
  lemma IdsAreStable(s: State, ps: seq<NewPlace>, now: Time, later: Time, i: nat)
    requires Valid(s) && i < |ps|
    ensures var t := Imported(s, ps, now);
            if ps[i].osmId != 0 then ImportedIds(t, ps, later)[i] == ImportedIds(s, ps, now)[i]
            else ImportedIds(t, ps, later)[i] !in t.places
  {
    UpsertsKeepValid(s, ps, now);
    if ps[i].osmId != 0 {
      ReturnedIdsHoldTheKeys(s, ps, now, i);
      IdFollowsKey(Imported(s, ps, now), ps, later, i, ImportedIds(s, ps, now)[i]);
    } else {
      UnkeyedIdIsNew(Imported(s, ps, now), ps, later, i);
    }
  }

  lemma {:induction false} UnkeyedIdIsNew(t: State, ps: seq<NewPlace>, now: Time, i: nat)
    requires i < |ps| && ps[i].osmId == 0
    ensures ImportedIds(t, ps, now)[i] >= t.nextPlace
    decreases |ps|
  {
    var n := |ps| - 1;
    ImportStep(t, ps, now);
    if i < n {
      UnkeyedIdIsNew(t, ps[..n], now, i);
      assert ImportedIds(t, ps, now)[i] == ImportedIds(t, ps[..n], now)[i];
    } else {
      UnkeyedItemsAreNew(t, ps[..n], now);
    }
  }

  lemma {:induction false} ReturnedIdsAreThere(s: State, ps: seq<NewPlace>, now: Time)
    ensures s.places.Keys <= Imported(s, ps, now).places.Keys
    ensures forall id :: id in ImportedIds(s, ps, now) ==> id in Imported(s, ps, now).places
    decreases |ps|
  {
    if ps != [] {
      ReturnedIdsAreThere(s, ps[..|ps| - 1], now);
      ImportStep(s, ps, now);
    }
  }

  lemma SameUpToTimes(d: State, t: State)
    requires Timeless(d) == Timeless(t)
    ensures d.places.Keys == t.places.Keys && d.queue == t.queue
    ensures forall id :: id in t.places ==> d.places[id].spot == t.places[id].spot
                                            && d.places[id].osmId == t.places[id].osmId && d.places[id].osmType == t.places[id].osmType
  {
    assert Timeless(d).places.Keys == d.places.Keys && Timeless(t).places.Keys == t.places.Keys;
    assert Timeless(d).queue == d.queue && Timeless(t).queue == t.queue;
    forall id | id in t.places
      ensures d.places[id].spot == t.places[id].spot
              && d.places[id].osmId == t.places[id].osmId && d.places[id].osmType == t.places[id].osmType
    {
      assert Timeless(d).places[id] == Timeless(t).places[id];
    }
  }
}
