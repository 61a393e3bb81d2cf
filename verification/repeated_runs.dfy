/** What running the same import again does to the tables, each run being import and sweep
    (cmd/ingestion/main.go, runCanonical). */
module RepeatedRuns {
  import opened Models
  import opened Normalization
  import opened Scoring
  import opened Matching
  import opened Registry
  import opened Identity
  import opened Ingestion
  import Profiles
  import opened Reimport
  import opened ImportLaws
  import opened QueueLaws
  import opened Runs
  import opened Ledger
  import opened Pipelines

  function Bare(refs: map<string, ExternalRef>): map<string, ExternalRef> {
    map k | k in refs :: refs[k].(matchedAt := 0)
  }

  function BareRow(row: PlaceRow): PlaceRow {
    row.(refs := Bare(row.refs), updatedAt := 0)
  }

  function LastingRow(row: QueueRow): QueueRow {
    row.(attempts := 0, lastAttempted := 0)
  }

  /** The tables without updated_at, the times of attempts and matches, and attempt counters. */
  function Lasting(s: State): State {
    s.(places := map id | id in s.places :: BareRow(s.places[id]), queue := map q | q in s.queue :: LastingRow(s.queue[q]))
  }

  /** The import completes, and `rows` is what the queue query returns to its sweep. */
  ghost predicate Completes(w: World, env: Env, s: State, items: seq<Item>, rows: seq<QueueRow>, fates: QueueId -> Fate) {
    var p := WholeImport(env, s, items);
    p.stage.ok && Possible(w, p.db, SweepNear(p.stage.touched, rows, fates))
  }

  ghost function AfterRun(w: World, env: Env, s: State, items: seq<Item>, rows: seq<QueueRow>, fates: QueueId -> Fate): State {
    var p := WholeImport(env, s, items);
    After(w, p.db, SweepNear(p.stage.touched, rows, fates))
  }

  // ---------------------------------------------------------------- what the first sweep attaches

  predicate LinksTo(judge: Judge, row: QueueRow, place: PlaceId, source: string) {
    var d := judge(RecordOf(row));
    d.Matched? && d.place == place && row.source == source
  }

  /** Row `i` matches, and no later row of its source matches the same place. */
  ghost predicate IsLastLink(judge: Judge, rows: seq<QueueRow>, i: nat) {
    && i < |rows| && judge(RecordOf(rows[i])).Matched?
    && forall j :: i < j < |rows| ==> !LinksTo(judge, rows[j], judge(RecordOf(rows[i])).place, rows[i].source)
  }

  function LastLink(judge: Judge, rows: seq<QueueRow>, place: PlaceId, source: string): (i: Option<nat>)
    ensures i.Some? ==> i.value < |rows| && LinksTo(judge, rows[i.value], place, source)
    ensures forall j :: 0 <= j < |rows| && (i.None? || i.value < j) ==> !LinksTo(judge, rows[j], place, source)
  {
    if rows == [] then None
    else
      var n := |rows| - 1;
      if LinksTo(judge, rows[n], place, source) then Some(n) else LastLink(judge, rows[..n], place, source)
  }

  ghost predicate NoneFails(judge: Judge, rows: seq<QueueRow>, fates: QueueId -> Fate) {
    forall row :: row in rows ==> OutcomeOf(judge(RecordOf(row)), fates(row.id)) != Failed
  }

  lemma {:induction false} ZeroErrors(c: nat, judge: Judge, rows: seq<QueueRow>, fates: QueueId -> Fate)
    requires Tally(c, judge, rows, fates).errors == 0
    ensures NoneFails(judge, rows, fates)
  {
    if rows != [] {
      ZeroErrors(c, judge, rows[..|rows| - 1], fates);
      assert rows == rows[..|rows| - 1] + [rows[|rows| - 1]];
    }
  }

  function LinkRef(judge: Judge, row: QueueRow, fates: QueueId -> Fate): ExternalRef
    requires judge(RecordOf(row)).Matched?
  {
    ExternalRef(row.sourceId, judge(RecordOf(row)).confidence, fates(row.id).now)
  }

  /** The last link's ref, or what was there. */
  function Relinked(x: Option<ExternalRef>, judge: Judge, rows: seq<QueueRow>, fates: QueueId -> Fate,
                    place: PlaceId, source: string): Option<ExternalRef> {
    var i := LastLink(judge, rows, place, source);
    if i.None? then x else Some(LinkRef(judge, rows[i.value], fates))
  }

  function LinkedBy(x: Option<ExternalRef>, judge: Judge, row: QueueRow, fates: QueueId -> Fate, place: PlaceId, source: string): Option<ExternalRef> {
    if LinksTo(judge, row, place, source) then Some(LinkRef(judge, row, fates)) else x
  }

  lemma {:induction false} SweptRef(x: Option<ExternalRef>, judge: Judge, rows: seq<QueueRow>, fates: QueueId -> Fate,
                                    place: PlaceId, source: string)
    requires NoneFails(judge, rows, fates)
    ensures LatestRef(x, SweepEffects(judge, rows, fates), place, source) == Relinked(x, judge, rows, fates, place, source)
    decreases |rows|
  {
    if rows != [] {
      var n := |rows| - 1;
      assert rows[n] in rows && forall r :: r in rows[..n] ==> r in rows;
      SweptRef(x, judge, rows[..n], fates, place, source);
      OneMoreRow(x, judge, rows, fates, place, source);
      RelinkedStep(x, judge, rows, fates, place, source);
    }
  }

  lemma OneMoreRow(x: Option<ExternalRef>, judge: Judge, rows: seq<QueueRow>, fates: QueueId -> Fate, place: PlaceId, source: string)
    requires rows != [] && OutcomeOf(judge(RecordOf(rows[|rows| - 1])), fates(rows[|rows| - 1].id)) != Failed
    ensures LatestRef(x, SweepEffects(judge, rows, fates), place, source)
         == LinkedBy(LatestRef(x, SweepEffects(judge, rows[..|rows| - 1], fates), place, source), judge, rows[|rows| - 1], fates, place, source)
  {
    var n := |rows| - 1;
    var before := SweepEffects(judge, rows[..n], fates);
    RowRef(LatestRef(x, before, place, source), judge, rows[n], fates, place, source);
    LatestRefSplits(x, before, RowEffects(judge(RecordOf(rows[n])), rows[n], fates(rows[n].id)), place, source);
  }

  lemma RelinkedStep(x: Option<ExternalRef>, judge: Judge, rows: seq<QueueRow>, fates: QueueId -> Fate, place: PlaceId, source: string)
    requires rows != []
    ensures Relinked(x, judge, rows, fates, place, source)
         == LinkedBy(Relinked(x, judge, rows[..|rows| - 1], fates, place, source), judge, rows[|rows| - 1], fates, place, source)
  {
  }

  lemma RowRef(x: Option<ExternalRef>, judge: Judge, row: QueueRow, fates: QueueId -> Fate, place: PlaceId, source: string)
    requires OutcomeOf(judge(RecordOf(row)), fates(row.id)) != Failed
    ensures LatestRef(x, RowEffects(judge(RecordOf(row)), row, fates(row.id)), place, source)
         == LinkedBy(x, judge, row, fates, place, source)
  {
    var es := RowEffects(judge(RecordOf(row)), row, fates(row.id));
    LatestOne(x, es[0], place, source);
    if |es| == 2 {
      assert es == [es[0]] + [es[1]];
      LatestRefSplits(x, [es[0]], [es[1]], place, source);
      LatestOne(LatestRef(x, [es[0]], place, source), es[1], place, source);
    } else {
      assert es == [es[0]];
    }
  }

  lemma LatestOne(x: Option<ExternalRef>, e: Effect, place: PlaceId, source: string)
    ensures LatestRef(x, [e], place, source) == if Overwrites(e, place, source) then Written(e, source) else x
  {
    assert [e][..0] == [];
  }

  // ---------------------------------------------------------------- what a sweep leaves alone

  /** Same places; only refs and updated_at may differ. */
  ghost predicate SamePlaces(s: State, t: State) {
    && t.places.Keys == s.places.Keys && t.nextPlace == s.nextPlace
    && forall id :: id in s.places ==> t.places[id] == s.places[id].(refs := t.places[id].refs, updatedAt := t.places[id].updatedAt)
  }

  lemma {:induction false} PlacesKept(s: State, es: seq<Effect>)
    requires forall e :: e in es ==> KeepsSpots(e)
    ensures SamePlaces(s, ApplyAll(s, es))
    decreases |es|
  {
    if es != [] {
      var n := |es| - 1;
      assert es[n] in es && forall e :: e in es[..n] ==> e in es;
      PlacesKept(s, es[..n]);
      PlacesKeptByOne(s, ApplyAll(s, es[..n]), es[n]);
    }
  }

  lemma PlacesKeptByOne(s: State, t: State, e: Effect)
    requires SamePlaces(s, t) && KeepsSpots(e)
    ensures SamePlaces(s, Apply(t, e))
  {
  }

  /** A sweep that matches nothing only counts attempts. */
  lemma {:induction false} UnmatchedSweep(s: State, judge: Judge, rows: seq<QueueRow>, fates: QueueId -> Fate)
    requires forall row :: row in rows ==> judge(RecordOf(row)) == NoMatch
    ensures var t := ApplyAll(s, SweepEffects(judge, rows, fates));
            t.places == s.places && t.nextPlace == s.nextPlace && t.nextQueue == s.nextQueue && Lasting(t).queue == Lasting(s).queue
    decreases |rows|
  {
    if rows != [] {
      var n := |rows| - 1;
      var row := rows[n];
      assert row in rows && forall r :: r in rows[..n] ==> r in rows;
      UnmatchedSweep(s, judge, rows[..n], fates);
      ApplyAllSplits(s, SweepEffects(judge, rows[..n], fates), RowEffects(NoMatch, row, fates(row.id)));
      UnmatchedRow(ApplyAll(s, SweepEffects(judge, rows[..n], fates)), row, fates(row.id));
    }
  }

  lemma UnmatchedRow(s: State, row: QueueRow, fate: Fate)
    ensures var t := ApplyAll(s, RowEffects(NoMatch, row, fate));
            t.places == s.places && t.nextPlace == s.nextPlace && t.nextQueue == s.nextQueue && Lasting(t).queue == Lasting(s).queue
  {
    var es := RowEffects(NoMatch, row, fate);
    if es != [] {
      ApplyOne(s, es[0]);
      assert Lasting(Apply(s, es[0])).queue == Lasting(s).queue;
    }
  }

  // ---------------------------------------------------------------- when the second run restores the refs

  /** The item that the import has last for the place carries the ref that the row's match attaches. */
  predicate CarriesRef(ps: seq<NewPlace>, place: PlaceRow, judge: Judge, row: QueueRow) {
    var d, last := judge(RecordOf(row)), LastOf(ps, place.osmId, place.osmType);
    d.Matched? && last.Some? ==>
      && row.source in last.value.refs
      && last.value.refs[row.source].id == row.sourceId && last.value.refs[row.source].confidence == d.confidence
  }

  /** Every ref that the sweep leaves on a place the import writes is one that the place's last item carries. */
  ghost predicate CarriesItsLinks(judge: Judge, s: State, ps: seq<NewPlace>, rows: seq<QueueRow>) {
    forall i: nat :: IsLastLink(judge, rows, i) && judge(RecordOf(rows[i])).place in s.places ==>
      CarriesRef(ps, s.places[judge(RecordOf(rows[i])).place], judge, rows[i])
  }

  ghost predicate PlaceCarries(judge: Judge, ps: seq<NewPlace>, place: PlaceRow, id: PlaceId, rows: seq<QueueRow>) {
    forall source :: LastLink(judge, rows, id, source).Some? ==>
      CarriesRef(ps, place, judge, rows[LastLink(judge, rows, id, source).value])
  }

  lemma LinksByPlace(judge: Judge, s: State, ps: seq<NewPlace>, rows: seq<QueueRow>)
    ensures CarriesItsLinks(judge, s, ps, rows) <==> forall id :: id in s.places ==> PlaceCarries(judge, ps, s.places[id], id, rows)
  {
    if forall id :: id in s.places ==> PlaceCarries(judge, ps, s.places[id], id, rows) {
      forall i: nat | IsLastLink(judge, rows, i) && judge(RecordOf(rows[i])).place in s.places
        ensures CarriesRef(ps, s.places[judge(RecordOf(rows[i])).place], judge, rows[i])
      {
        var id := judge(RecordOf(rows[i])).place;
        assert PlaceCarries(judge, ps, s.places[id], id, rows);
        assert LinksTo(judge, rows[i], id, rows[i].source);
        assert LastLink(judge, rows, id, rows[i].source) == Some(i);
      }
    }
    if CarriesItsLinks(judge, s, ps, rows) {
      forall id, source | id in s.places && LastLink(judge, rows, id, source).Some?
        ensures CarriesRef(ps, s.places[id], judge, rows[LastLink(judge, rows, id, source).value])
      {
        assert IsLastLink(judge, rows, LastLink(judge, rows, id, source).value);
      }
    }
  }

  /** Refs after the sweep are the links over the refs before it. */
  ghost predicate Relinks(s: State, t: State, judge: Judge, rows: seq<QueueRow>, fates: QueueId -> Fate) {
    forall place, source ::
      Lookup(RefsOf(t, place), source) == Relinked(Lookup(RefsOf(s, place), source), judge, rows, fates, place, source)
  }

  lemma BareIff(a: map<string, ExternalRef>, b: map<string, ExternalRef>)
    ensures Bare(a) == Bare(b) <==>
              forall k :: k in a || k in b ==> k in a && k in b && a[k].id == b[k].id && a[k].confidence == b[k].confidence
  {
    if forall k :: k in a || k in b ==> k in a && k in b && a[k].id == b[k].id && a[k].confidence == b[k].confidence {
      assert Bare(a) == Bare(b);
    } else {
      var k :| (k in a || k in b) && !(k in a && k in b && a[k].id == b[k].id && a[k].confidence == b[k].confidence);
      assert k in Bare(a) <==> k in a;
      assert k in Bare(b) <==> k in b;
    }
  }

  /** Over refs that the import wrote, the sweep's links are what the import carries exactly when
      writing the import's refs again restores what the sweep left. */
  lemma RefsRestoredIff(refs: map<string, ExternalRef>, place: PlaceRow, ps: seq<NewPlace>, id: PlaceId,
                        judge: Judge, rows: seq<QueueRow>, fates: QueueId -> Fate)
    requires var last := LastOf(ps, place.osmId, place.osmType); last.Some? && place.refs == last.value.refs
    requires forall source :: Lookup(refs, source) == Relinked(Lookup(place.refs, source), judge, rows, fates, id, source)
    ensures Bare(place.refs) == Bare(refs) <==> PlaceCarries(judge, ps, place, id, rows)
  {
    BareIff(place.refs, refs);
    if PlaceCarries(judge, ps, place, id, rows) {
      forall k | k in place.refs || k in refs
        ensures k in place.refs && k in refs && place.refs[k].id == refs[k].id && place.refs[k].confidence == refs[k].confidence
      {
        assert Lookup(refs, k) == Relinked(Lookup(place.refs, k), judge, rows, fates, id, k);
      }
    } else {
      var source :| LastLink(judge, rows, id, source).Some?
                    && !CarriesRef(ps, place, judge, rows[LastLink(judge, rows, id, source).value]);
      assert Lookup(refs, source) == Relinked(Lookup(place.refs, source), judge, rows, fates, id, source);
    }
  }

  lemma PlaceRestoredIff(d: State, s: State, d': State, ps: seq<NewPlace>, id: PlaceId,
                         judge: Judge, rows: seq<QueueRow>, fates: QueueId -> Fate)
    requires SamePlaces(d, s) && Relinks(d, s, judge, rows, fates) && id in d.places && KeepsCreated(s, d')
    requires Keyed(ps) && ShowsLast(Timeless(d), ps) && Rewritten(Timeless(s), Timeless(d'), ps)
    ensures id in s.places && id in d'.places
    ensures BareRow(d'.places[id]) == BareRow(s.places[id]) <==> PlaceCarries(judge, ps, d.places[id], id, rows)
  {
    var row, last := d.places[id], LastOf(ps, d.places[id].osmId, d.places[id].osmType);
    assert id in Timeless(d').places && id in Timeless(s).places && id in Timeless(d).places;
    assert Timeless(d').places[id] == RewrittenRow(Timeless(s).places[id], ps);
    if last.Some? {
      LastIsListed(ps, row.osmId, row.osmType);
      assert Shows(Timeless(d).places[id], last.value);
      forall source
        ensures Lookup(s.places[id].refs, source) == Relinked(Lookup(row.refs, source), judge, rows, fates, id, source)
      {
        assert Lookup(RefsOf(s, id), source) == Relinked(Lookup(RefsOf(d, id), source), judge, rows, fates, id, source);
      }
      RefsRestoredIff(s.places[id].refs, row, ps, id, judge, rows, fates);
    }
  }

  // ---------------------------------------------------------------- the two runs

  lemma FirstSweep(w: World, d: State, e: Event)
    requires Valid(d) && e.SweepNear? && Possible(w, d, e)
    requires Tally(|e.rows|, Matcher(w, SpotsOf(d)), e.rows, e.fates).errors == 0
    ensures var s := After(w, d, e);
            Valid(s) && SpotsOf(s) == SpotsOf(d) && SamePlaces(d, s) && Relinks(d, s, Matcher(w, SpotsOf(d)), e.rows, e.fates)
  {
    var judge, s := Matcher(w, SpotsOf(d)), After(w, d, e);
    EventKeepsValid(w, d, e);
    SweepKeepsSpots(judge, e.rows, e.fates);
    PlacesKept(d, EffectsOf(w, d, e));
    ZeroErrors(|e.rows|, judge, e.rows, e.fates);
    EventAttachesLand(w, d, e);
    forall place, source
      ensures Lookup(RefsOf(s, place), source) == Relinked(Lookup(RefsOf(d, place), source), judge, e.rows, e.fates, place, source)
    {
      RefIsTheLatest(d, EffectsOf(w, d, e), place, source);
      SweptRef(Lookup(RefsOf(d, place), source), judge, e.rows, e.fates, place, source);
    }
  }

  /** The second import rewrites the rows it wrote before, and moves nothing that matching reads. */
  lemma SecondImport(d: State, s: State, d': State, ps: seq<NewPlace>)
    requires Valid(s) && SamePlaces(d, s) && Keyed(ps) && Settled(Timeless(d), ps)
    requires Timeless(d') == Timeless(Imported(s, ps, 0))
    ensures Rewritten(Timeless(s), Timeless(d'), ps) && SpotsOf(d') == SpotsOf(s)
  {
    var t := Timeless(s);
    TimesDoNotMatter(s, ps, 0);
    TimelessIsValid(s);
    forall p | p in ps
      ensures exists id :: id in t.places && SameOsmKey(t.places[id], p)
    {
      var id :| id in Timeless(d).places && SameOsmKey(Timeless(d).places[id], p);
      assert SameOsmKey(t.places[id], p);
    }
    KnownItemsRewrite(t, ps);
    SpotsRestored(d, s, d', ps);
  }

  lemma SpotsRestored(d: State, s: State, d': State, ps: seq<NewPlace>)
    requires SamePlaces(d, s) && Keyed(ps) && ShowsLast(Timeless(d), ps) && Rewritten(Timeless(s), Timeless(d'), ps)
    ensures SpotsOf(d') == SpotsOf(s)
  {
    assert d'.places.Keys == s.places.Keys by {
      assert Timeless(d').places.Keys == d'.places.Keys && Timeless(s).places.Keys == s.places.Keys;
    }
    forall id | id in s.places
      ensures d'.places[id].spot == s.places[id].spot
    {
      assert id in Timeless(d').places && id in Timeless(s).places && id in Timeless(d).places;
      assert Timeless(d').places[id] == RewrittenRow(Timeless(s).places[id], ps);
      if LastOf(ps, d.places[id].osmId, d.places[id].osmType).Some? {
        LastIsListed(ps, d.places[id].osmId, d.places[id].osmType);
      }
    }
  }

  /** A sweep of a queue without matches only counts attempts. */
  lemma SecondSweep(w: World, d: State, e: Event)
    requires Valid(d) && e.SweepNear? && Possible(w, d, e)
    requires Quiet(w, d)
    ensures var t := After(w, d, e);
            t.places == d.places && t.nextPlace == d.nextPlace && t.nextQueue == d.nextQueue && Lasting(t).queue == Lasting(d).queue
  {
    var m, judge := SpotsOf(d), Matcher(w, SpotsOf(d));
    forall row | row in e.rows
      ensures judge(RecordOf(row)) == NoMatch
    {
      assert row.id in d.queue && d.queue[row.id] == row;
      assert Silent(w, m, RecordOf(row));
      NoMatchMeans(w, m, RecordOf(row), FindCandidates(w, m, RecordOf(row)));
    }
    UnmatchedSweep(d, judge, e.rows, e.fates);
  }

  lemma LastingIff(d: State, s: State, d': State, s': State, ps: seq<NewPlace>, judge: Judge, rows: seq<QueueRow>, fates: QueueId -> Fate)
    requires SamePlaces(d, s) && Relinks(d, s, judge, rows, fates) && KeepsCreated(s, d')
    requires Keyed(ps) && ShowsLast(Timeless(d), ps) && Rewritten(Timeless(s), Timeless(d'), ps)
    requires s'.places == d'.places && s'.nextPlace == d'.nextPlace && s'.nextQueue == d'.nextQueue && Lasting(s').queue == Lasting(d').queue
    ensures Lasting(s') == Lasting(s) <==> CarriesItsLinks(judge, d, ps, rows)
  {
    LinksByPlace(judge, d, ps, rows);
    forall id | id in d.places
      ensures id in s.places && id in d'.places
      ensures BareRow(d'.places[id]) == BareRow(s.places[id]) <==> PlaceCarries(judge, ps, d.places[id], id, rows)
    {
      PlaceRestoredIff(d, s, d', ps, id, judge, rows, fates);
    }
    SameRows(d, s, d', s', ps);
  }

  lemma SameRows(d: State, s: State, d': State, s': State, ps: seq<NewPlace>)
    requires SamePlaces(d, s) && Rewritten(Timeless(s), Timeless(d'), ps)
    requires s'.places == d'.places && s'.nextPlace == d'.nextPlace && s'.nextQueue == d'.nextQueue && Lasting(s').queue == Lasting(d').queue
    ensures d'.places.Keys == s.places.Keys == d.places.Keys
    ensures Lasting(s') == Lasting(s) <==> forall id :: id in d.places ==> BareRow(d'.places[id]) == BareRow(s.places[id])
  {
    assert Timeless(d').places.Keys == d'.places.Keys && Timeless(s).places.Keys == s.places.Keys;
    SameQueue(s, d', ps);
    SameBareRows(s, d');
  }

  lemma SameQueue(s: State, d': State, ps: seq<NewPlace>)
    requires Rewritten(Timeless(s), Timeless(d'), ps)
    ensures Lasting(d').queue == Lasting(s).queue && d'.nextPlace == s.nextPlace && d'.nextQueue == s.nextQueue
  {
    assert Timeless(d').queue == d'.queue && Timeless(s).queue == s.queue;
  }

  lemma SameBareRows(s: State, d': State)
    requires d'.places.Keys == s.places.Keys
    ensures Lasting(d').places == Lasting(s).places <==> forall id :: id in s.places ==> BareRow(d'.places[id]) == BareRow(s.places[id])
  {
    if forall id :: id in s.places ==> BareRow(d'.places[id]) == BareRow(s.places[id]) {
      assert Lasting(d').places == Lasting(s).places;
    } else {
      var id :| id in s.places && BareRow(d'.places[id]) != BareRow(s.places[id]);
      assert Lasting(d').places[id] != Lasting(s).places[id];
    }
  }

  /** A run from a queue without matches, with a sweep without errors. */
  ghost predicate CleanRunOnce(w: World, env: Env, s: State, items: seq<Item>, rows: seq<QueueRow>, fates: QueueId -> Fate, reach: real) {
    var p := WholeImport(env, s, items);
    Quiet(w, s) && Completes(w, env, s, items, rows, fates) && Clean(w, p.db, SweepNear(p.stage.touched, rows, fates), reach)
  }

  /** Running a whole import again, upserts and sweep, after a run whose sweep reported no errors and
      left no record that matches: the tables end up as they were, timestamps and attempts aside,
      exactly when every item has an OSM id and every ref that the first sweep left on a place the
      import writes is one that the place's last item carries. Whether it does can be read off the
      queue and the imported places before the second run. */
  lemma RepeatedRunReproducesIff(w: World, env: Env, env': Env, s: State, items: seq<Item>,
                                 rows: seq<QueueRow>, fates: QueueId -> Fate, rows': seq<QueueRow>, fates': QueueId -> Fate, reach: real)
    requires w.Valid() && Reaches(w, reach) && Valid(s)
    requires CleanRunOnce(w, env, s, items, rows, fates, reach)
    requires Completes(w, env', AfterRun(w, env, s, items, rows, fates), items, rows', fates')
    ensures var d, first := WholeImport(env, s, items).db, AfterRun(w, env, s, items, rows, fates);
            Lasting(AfterRun(w, env', first, items, rows', fates')) == Lasting(first) <==>
              Keyed(Places(items)) && CarriesItsLinks(Matcher(w, SpotsOf(d)), d, Places(items), rows)
  {
    var p, first, ps := WholeImport(env, s, items), AfterRun(w, env, s, items, rows, fates), Places(items);
    var p', second := WholeImport(env', first, items), AfterRun(w, env', first, items, rows', fates');
    CompletedIsValid(env, s, items);
    FirstSweep(w, p.db, SweepNear(p.stage.touched, rows, fates));
    CompletedIsValid(env', first, items);
    ImportIsOneByOne(env', first, items, 0);
    if Keyed(ps) {
      ImportSettles(env, s, items);
      SecondImport(p.db, first, p'.db, ps);
      WholeImportKeepsCreated(env', first, items);
      ImportThenSweepSettles(w, env, s, items, rows, fates, reach);
      QuietCarriesOver(w, first, p'.db, ps);
      SecondSweep(w, p'.db, SweepNear(p'.stage.touched, rows', fates'));
      LastingIff(p.db, first, p'.db, second, ps, Matcher(w, SpotsOf(p.db)), rows, fates);
    } else {
      UnkeyedItemsAreNew(first, ps, 0);
      SweepAddsNoPlaces(w, p'.db, SweepNear(p'.stage.touched, rows', fates'));
      assert Timeless(p'.db).nextPlace == p'.db.nextPlace;
    }
  }

  lemma ImportSettles(env: Env, s: State, items: seq<Item>)
    requires Valid(s) && WholeImport(env, s, items).stage.ok && Keyed(Places(items))
    ensures Settled(Timeless(WholeImport(env, s, items).db), Places(items))
  {
    ImportIsOneByOne(env, s, items, 0);
    ImportedIsSettled(s, Places(items), 0);
  }

  lemma QuietCarriesOver(w: World, s: State, d: State, ps: seq<NewPlace>)
    requires Quiet(w, s) && SpotsOf(d) == SpotsOf(s) && Rewritten(Timeless(s), Timeless(d), ps)
    ensures Quiet(w, d)
  {
    assert Timeless(d).queue == d.queue && Timeless(s).queue == s.queue;
  }

  lemma SweepAddsNoPlaces(w: World, d: State, e: Event)
    requires e.SweepNear?
    ensures After(w, d, e).nextPlace == d.nextPlace
  {
    SweepKeepsSpots(Matcher(w, SpotsOf(d)), e.rows, e.fates);
    PlacesKept(d, EffectsOf(w, d, e));
  }

  /** Every item that brings a profile has an OSM id. */
  ghost predicate ProfilesAreKeyed(items: seq<Item>) {
    forall i :: 0 <= i < |items| && items[i].profile.Some? ==> items[i].place.osmId != 0
  }

  /** No profile that is the only one for a place without a row names a submitter. */
  ghost predicate FirstProfilesAreUnsigned(t: Profiles.Table, ws: seq<Profiles.Write>) {
    forall i :: 0 <= i < |ws| && ws[i].Ingest? && ws[i].place !in t && Profiles.CountFor(ws, ws[i].place) == 1 ==>
      Profiles.Unsigned(ws[i].profile)
  }

  /** A second run leaves the profiles as they were, updated_at aside, exactly when every profile comes
      with an item that has an OSM id (else it is stored again, for the place that is inserted again)
      and no profile that is the only one for a place without a row names a submitter (the second run
      clears the name). Profiles belong to places of the table. */
  lemma RepeatedRunProfilesIff(w: World, env: Env, env': Env, s: State, items: seq<Item>, rows: seq<QueueRow>, fates: QueueId -> Fate,
                               t: Profiles.Table, p: Progress, p': Progress)
    requires Valid(s) && Completes(w, env, s, items, rows, fates) && t.Keys <= s.places.Keys
    requires p == WholeImport(env, s, items) && p' == WholeImport(env', AfterRun(w, env, s, items, rows, fates), items)
    requires p'.stage.ok
    ensures SameRowsAgain(items, p.stage.touched, p'.stage.touched)
    ensures var t1 := Profiles.AfterAll(t, p.stage.writes);
            Profiles.Ageless(Profiles.AfterAll(t1, p'.stage.writes)) == Profiles.Ageless(t1) <==>
              ProfilesAreKeyed(items) && FirstProfilesAreUnsigned(t, p.stage.writes)
  {
    var first := AfterRun(w, env, s, items, rows, fates);
    CompletedIsValid(env, s, items);
    ImportIsOneByOne(env, s, items, 0);
    EventKeepsValid(w, p.db, SweepNear(p.stage.touched, rows, fates));
    ImportIsOneByOne(env', first, items, 0);
    SameIds(w, s, p.db, SweepNear(p.stage.touched, rows, fates), Places(items));
    ProfilesAgainIff(t, env, env', first, items, p.stage.touched, p'.stage.touched);
  }

  /** Items with an OSM id go to the same rows. */
  ghost predicate SameRowsAgain(items: seq<Item>, ids: seq<PlaceId>, ids': seq<PlaceId>) {
    && |ids| == |ids'| == |items|
    && forall i :: 0 <= i < |items| && items[i].place.osmId != 0 ==> ids'[i] == ids[i]
  }

  lemma ProfilesAgainIff(t: Profiles.Table, env: Env, env': Env, first: State, items: seq<Item>, ids: seq<PlaceId>, ids': seq<PlaceId>)
    requires SameRowsAgain(items, ids, ids') && t.Keys <= first.places.Keys && forall id :: id in ids ==> id in first.places
    requires forall i :: 0 <= i < |items| && items[i].place.osmId == 0 ==> ids'[i] !in first.places
    ensures var ws, ws' := ProfileWrites(env, ids, Submissions(items), 0), ProfileWrites(env', ids', Submissions(items), 0);
            var t1 := Profiles.AfterAll(t, ws);
            Profiles.Ageless(Profiles.AfterAll(t1, ws')) == Profiles.Ageless(t1) <==>
              ProfilesAreKeyed(items) && FirstProfilesAreUnsigned(t, ws)
  {
    if ProfilesAreKeyed(items) {
      SameProfilesHandedOver(env, env', ids, ids', Submissions(items), 0);
      Profiles.IngestingAgainIff(t, ProfileWrites(env, ids, Submissions(items), 0), ProfileWrites(env', ids', Submissions(items), 0));
    } else {
      var i :| 0 <= i < |items| && items[i].profile.Some? && items[i].place.osmId == 0;
      StoredAgain(t, env, env', first, ids, ids', Submissions(items), i);
    }
  }

  /** What the second import gets for each item, and that all rows so far are there. */
  lemma SameIds(w: World, s: State, d: State, e: Event, ps: seq<NewPlace>)
    requires Valid(s) && Valid(After(w, d, e)) && e.SweepNear? && Timeless(d) == Timeless(Imported(s, ps, 0))
    ensures var t := After(w, d, e); var ids, ids' := ImportedIds(s, ps, 0), ImportedIds(t, ps, 0);
            && s.places.Keys <= t.places.Keys
            && (forall id :: id in ids ==> id in t.places)
            && (forall i :: 0 <= i < |ps| && ps[i].osmId != 0 ==> ids'[i] == ids[i])
            && (forall i :: 0 <= i < |ps| && ps[i].osmId == 0 ==> ids'[i] !in t.places)
  {
    var t := After(w, d, e);
    SweepKeepsSpots(Matcher(w, SpotsOf(d)), e.rows, e.fates);
    PlacesKept(d, EffectsOf(w, d, e));
    SameUpToTimes(d, Imported(s, ps, 0));
    ReturnedIdsAreThere(s, ps, 0);
    forall i | 0 <= i < |ps|
      ensures ps[i].osmId != 0 ==> ImportedIds(t, ps, 0)[i] == ImportedIds(s, ps, 0)[i]
      ensures ps[i].osmId == 0 ==> ImportedIds(t, ps, 0)[i] !in t.places
    {
      if ps[i].osmId != 0 {
        ReturnedIdsHoldTheKeys(s, ps, 0, i);
        IdFollowsKey(t, ps, 0, i, ImportedIds(s, ps, 0)[i]);
      } else {
        UnkeyedIdIsNew(t, ps, 0, i);
      }
    }
  }

  lemma {:induction false} SameProfilesHandedOver(env: Env, env': Env, ids: seq<PlaceId>, ids': seq<PlaceId>, pending: seq<Submission>, k: nat)
    requires |ids| == |ids'| == |pending|
    requires forall i :: 0 <= i < |ids| && pending[i].Some? ==> ids'[i] == ids[i]
    ensures Profiles.SameSubmissions(ProfileWrites(env, ids, pending, k), ProfileWrites(env', ids', pending, k))
    decreases |ids|
  {
    if ids != [] {
      SameProfilesHandedOver(env, env', ids[..|ids| - 1], ids'[..|ids| - 1], pending[..|ids| - 1], k);
    }
  }

  /** The profile writes go to the given places, and to each that comes with a profile. */
  lemma {:induction false} WritesGoTo(env: Env, ids: seq<PlaceId>, pending: seq<Submission>, k: nat)
    requires |ids| == |pending|
    ensures forall w :: w in ProfileWrites(env, ids, pending, k) ==> w.Ingest? && w.place in ids
    ensures forall i :: 0 <= i < |ids| && pending[i].Some? ==> exists w :: w in ProfileWrites(env, ids, pending, k) && w.place == ids[i]
    decreases |ids|
  {
    if ids != [] {
      var n := |ids| - 1;
      var before, all := ProfileWrites(env, ids[..n], pending[..n], k), ProfileWrites(env, ids, pending, k);
      WritesGoTo(env, ids[..n], pending[..n], k);
      assert all == before + WritesOf(env, ids[n], pending[n], k + n);
      forall i | 0 <= i < |ids| && pending[i].Some?
        ensures exists w :: w in all && w.place == ids[i]
      {
        if i < n {
          assert pending[..n][i].Some? && ids[..n][i] == ids[i];
          var w :| w in before && w.place == ids[i];
          assert w in all;
        } else {
          assert WritesOf(env, ids[n], pending[n], k + n)[0] in all;
        }
      }
    }
  }

  lemma StoredAgain(t: Profiles.Table, env: Env, env': Env, first: State, ids: seq<PlaceId>, ids': seq<PlaceId>, pending: seq<Submission>, i: nat)
    requires |ids| == |ids'| == |pending| && i < |ids| && pending[i].Some?
    requires t.Keys <= first.places.Keys && (forall id :: id in ids ==> id in first.places) && ids'[i] !in first.places
    ensures var t1 := Profiles.AfterAll(t, ProfileWrites(env, ids, pending, 0));
            Profiles.Ageless(Profiles.AfterAll(t1, ProfileWrites(env', ids', pending, 0))) != Profiles.Ageless(t1)
  {
    var ws, ws' := ProfileWrites(env, ids, pending, 0), ProfileWrites(env', ids', pending, 0);
    var t1 := Profiles.AfterAll(t, ws);
    var t2 := Profiles.AfterAll(t1, ws');
    WritesGoTo(env, ids, pending, 0);
    WritesGoTo(env', ids', pending, 0);
    Profiles.PlacesWithRows(t, ws, ids'[i]);
    Profiles.PlacesWithRows(t1, ws', ids'[i]);
    assert Profiles.Ageless(t1).Keys == t1.Keys && Profiles.Ageless(t2).Keys == t2.Keys;
    assert ids'[i] in t2 && ids'[i] !in t1;
  }

  // ---------------------------------------------------------------- an import that is not idempotent

  const SOMEWHERE := Point(0.0, 0.0)
  const FLAT := World(Text(s => s, c => c != ' ', (a, b) => a == b), (p, q) => 0.0, (p, q) => 0.0)
  const CAFE := NewPlace(1, "node", Spot(SOMEWHERE, "x", "cafe", map[], Active), 2, map[], "osm")
  const WAITING := QueueRow(0, "wheelmap", "7", "x", "cafe", "", "", SOMEWHERE, "{}", 0, 1)
  const ONE_BY_ONE := Env(1, k => 0, k => false, k => 0, k => false, k => "")
  const BEFORE := State(map[], 0, map[0 := WAITING], 1)

  lemma {:induction false} RowsExist(s: State, ids: set<QueueId>) returns (rows: seq<QueueRow>)
    requires Valid(s) && ids <= s.queue.Keys
    ensures Enumerates(s, ids, rows)
    decreases |ids|
  {
    if ids == {} {
      rows := [];
    } else {
      var q :| q in ids;
      rows := RowsExist(s, ids - {q});
      ListedOneMore(s, ids - {q}, rows, q);
      assert ids - {q} + {q} == ids;
      rows := rows + [s.queue[q]];
    }
  }

  lemma CafeIsInserted()
    ensures Valid(BEFORE) && ImportedIds(BEFORE, [CAFE], 0) == [0]
    ensures Imported(BEFORE, [CAFE], 0) == BEFORE.(places := map[0 := Inserted(CAFE, 0)], nextPlace := 1)
  {
    assert [CAFE][..0] == [];
    ImportStep(BEFORE, [CAFE], 0);
    assert Imported(BEFORE, [], 0) == BEFORE && ImportedIds(BEFORE, [], 0) == [];
  }

  ghost predicate HoldsTheCafe(d: State) {
    && Valid(d) && d.places.Keys == {0} && d.queue == BEFORE.queue
    && d.places[0].spot == CAFE.spot && d.places[0].osmId == 1 && d.places[0].osmType == "node"
  }

  lemma CafeImport(env: Env, s: State, items: seq<Item>)
    requires env == ONE_BY_ONE && s == BEFORE && items == [Item(CAFE, None)]
    ensures var p := WholeImport(env, s, items);
            p.stage.ok && p.stage.touched == [0] && HoldsTheCafe(p.db)
  {
    CafeIsInserted();
    assert Places(items) == [CAFE];
    OneByOneFrom(env, s, items);
    SameUpToTimes(WholeImport(env, s, items).db, Imported(s, Places(items), 0));
  }

  lemma OneByOneFrom(env: Env, s: State, items: seq<Item>)
    requires Valid(s) && env == ONE_BY_ONE && |items| == 1 && items[0].profile.None?
    ensures var p := WholeImport(env, s, items);
            && p.stage.ok && Valid(p.db) && p.stage.touched == ImportedIds(s, Places(items), 0)
            && Timeless(p.db) == Timeless(Imported(s, Places(items), 0))
  {
    ImportSucceedsIff(env, s, items);
    CompletedIsValid(env, s, items);
    ImportIsOneByOne(env, s, items, 0);
  }

  lemma CafeMatches(m: Spots)
    requires m.Keys == {0} && m[0] == CAFE.spot
    ensures var d := Matcher(FLAT, m)(RecordOf(WAITING)); d.Matched? && d.place == 0
  {
    var r := RecordOf(WAITING);
    ShortNames(FLAT.text);
    assert Tokens(FLAT.text, "x") == {"x"};
    JaccardMeaning({"x"}, {"x"});
    assert Score(FLAT, r, m[0]) >= LOW_CONFIDENCE_THRESHOLD;
    var cs := FindCandidates(FLAT, m, r);
    assert Within(FLAT, m, r, RADIUS_M) == {0};
    assert cs[0] in cs && cs[0] == 0;
    NoMatchMeans(FLAT, m, r, cs);
    assert Matcher(FLAT, m)(r) == Verdict(FLAT, m, r);
  }

  /** What is restored cannot differ: a link that is not carried is lost by the second run. */
  lemma LinkIsLost(w: World, env: Env, s: State, items: seq<Item>, rows: seq<QueueRow>, fates: QueueId -> Fate, reach: real)
    returns (rows': seq<QueueRow>)
    requires w.Valid() && Reaches(w, reach) && Valid(s) && env.size >= 1 && Smooth(env, items, |items|)
    requires CleanRunOnce(w, env, s, items, rows, fates, reach)
    requires var d := WholeImport(env, s, items).db; !CarriesItsLinks(Matcher(w, SpotsOf(d)), d, Places(items), rows)
    ensures var first := AfterRun(w, env, s, items, rows, fates);
            Completes(w, env, first, items, rows', fates) && Lasting(AfterRun(w, env, first, items, rows', fates)) != Lasting(first)
  {
    var p, first := WholeImport(env, s, items), AfterRun(w, env, s, items, rows, fates);
    CompletedIsValid(env, s, items);
    EventKeepsValid(w, p.db, SweepNear(p.stage.touched, rows, fates));
    rows' := SecondRunCompletes(w, env, first, items, fates);
    RepeatedRunReproducesIff(w, env, env, s, items, rows, fates, rows', fates, reach);
  }

  lemma SecondRunCompletes(w: World, env: Env, first: State, items: seq<Item>, fates: QueueId -> Fate) returns (rows: seq<QueueRow>)
    requires Valid(first) && env.size >= 1 && Smooth(env, items, |items|)
    ensures Completes(w, env, first, items, rows, fates)
  {
    ImportSucceedsIff(env, first, items);
    CompletedIsValid(env, first, items);
    var p := WholeImport(env, first, items);
    rows := RowsExist(p.db, NearTouched(w, p.db, p.stage.touched, RADIUS_M));
  }

  /** One keyed place without refs and one waiting record that matches it: the first run attaches the
      record's ref and takes it off the queue, the second run's upsert erases the ref. */
  lemma SecondRunLosesTheRef(env: Env, s: State, items: seq<Item>, rows: seq<QueueRow>, fates: QueueId -> Fate)
    returns (rows': seq<QueueRow>)
    requires env == ONE_BY_ONE && s == BEFORE && items == [Item(CAFE, None)] && rows == [WAITING] && fates(0).fault == NoFault
    ensures Valid(s) && Keyed(Places(items)) && CleanRunOnce(FLAT, env, s, items, rows, fates, RADIUS_M)
    ensures var first := AfterRun(FLAT, env, s, items, rows, fates);
            Completes(FLAT, env, first, items, rows', fates) && Lasting(AfterRun(FLAT, env, first, items, rows', fates)) != Lasting(first)
  {
    CafeIsInserted();
    CafeRunIsClean(env, s, items, rows, fates);
    CafeLinkIsNotCarried(env, s, items, rows);
    CafeSetting(env, items);
    rows' := LinkIsLost(FLAT, env, s, items, rows, fates, RADIUS_M);
  }

  lemma CafeSetting(env: Env, items: seq<Item>)
    requires env == ONE_BY_ONE && items == [Item(CAFE, None)]
    ensures FLAT.Valid() && Reaches(FLAT, RADIUS_M)
    ensures env.size >= 1 && Smooth(env, items, |items|) && Keyed(Places(items))
  {
  }

  lemma CafeRunIsClean(env: Env, s: State, items: seq<Item>, rows: seq<QueueRow>, fates: QueueId -> Fate)
    requires env == ONE_BY_ONE && s == BEFORE && items == [Item(CAFE, None)] && rows == [WAITING] && fates(0).fault == NoFault
    ensures CleanRunOnce(FLAT, env, s, items, rows, fates, RADIUS_M)
  {
    var d := WholeImport(env, s, items).db;
    CafeImport(env, s, items);
    FirstRunIsPossible(d, fates);
    FirstRunIsClean(d, Matcher(FLAT, SpotsOf(d)), fates);
  }

  lemma CafeLinkIsNotCarried(env: Env, s: State, items: seq<Item>, rows: seq<QueueRow>)
    requires env == ONE_BY_ONE && s == BEFORE && items == [Item(CAFE, None)] && rows == [WAITING]
    ensures var d := WholeImport(env, s, items).db; !CarriesItsLinks(Matcher(FLAT, SpotsOf(d)), d, Places(items), rows)
  {
    var d := WholeImport(env, s, items).db;
    CafeImport(env, s, items);
    CafeMatches(SpotsOf(d));
    CafeCarriesNothing(d, items);
  }

  lemma FirstRunIsPossible(d: State, fates: QueueId -> Fate)
    requires HoldsTheCafe(d)
    ensures Possible(FLAT, d, SweepNear([0], [WAITING], fates))
  {
    assert 0 in [0] && IsNearAny(FLAT, d.places, WAITING.at, [0], RADIUS_M);
    assert NearTouched(FLAT, d, [0], RADIUS_M) == {0};
    assert WAITING in [WAITING];
  }

  lemma FirstRunIsClean(d: State, judge: Judge, fates: QueueId -> Fate)
    requires HoldsTheCafe(d) && judge == Matcher(FLAT, SpotsOf(d)) && fates(0).fault == NoFault
    ensures Clean(FLAT, d, SweepNear([0], [WAITING], fates), RADIUS_M)
  {
    OneRowTally(judge, fates);
    SubsetSize(Within(FLAT, SpotsOf(d), RecordOf(WAITING), RADIUS_M), {0});
  }

  lemma OneRowTally(judge: Judge, fates: QueueId -> Fate)
    requires fates(0).fault == NoFault
    ensures Tally(1, judge, [WAITING], fates).errors == 0
  {
    assert [WAITING][..0] == [];
  }

  lemma CafeCarriesNothing(d: State, items: seq<Item>)
    requires items == [Item(CAFE, None)] && 0 in d.places && d.places[0].osmId == 1 && d.places[0].osmType == "node"
    requires var v := Matcher(FLAT, SpotsOf(d))(RecordOf(WAITING)); v.Matched? && v.place == 0
    ensures !CarriesItsLinks(Matcher(FLAT, SpotsOf(d)), d, Places(items), [WAITING])
  {
    assert Places(items) == [CAFE];
    assert LastOf([CAFE], 1, "node") == Some(CAFE);
    assert IsLastLink(Matcher(FLAT, SpotsOf(d)), [WAITING], 0);
  }
}
