/** The two ingestion pipelines from end to end (cmd/ingestion/main.go). */
module Pipelines {
  import opened Models
  import opened Scoring
  import opened Matching
  import opened Registry
  import opened Identity
  import Profiles
  import opened Ingestion
  import opened ImportLaws
  import opened Runs

  /** `sweep` is None when the sweep could not even list its rows: that is logged, not fatal. */
  datatype Report = ImportFailed | Complete(written: nat, profilesWritten: nat, sweep: Option<SweepResult>)

  /** The source hands its items to the batcher and stops at the first error. */
  method SinkItems(b: Batcher, db: Database, table: Profiles.ProfileTable, items: seq<Item>) returns (ok: bool)
    requires Valid(db.S()) && b.At(db, true) == Start(db.S()) && b.Consistent(table)
    modifies b, db, table
    ensures b.Consistent(table)
    ensures b.At(db, ok) == SinkAll(b.env, Start(old(db.S())), items)
    ensures ok ==> Valid(db.S())
  {
    ghost var s := db.S();
    ok := true;
    for i := 0 to |items|
      invariant ok && b.Consistent(table) && Valid(db.S())
      invariant b.At(db, true) == SinkAll(b.env, Start(s), items[..i])
    {
      SinkStep(b.env, s, items, i);
      ok := b.Sink(db, table, items[i].place, items[i].profile);
      if !ok {
        SinkStopped(b.env, Start(s), items, i + 1);
        return;
      }
    }
    assert items[..|items|] == items;
  }

  lemma SinkStep(env: Env, s: State, items: seq<Item>, i: nat)
    requires Valid(s) && i < |items|
    ensures var m, r := SinkAll(env, Start(s), items[..i]), SinkAll(env, Start(s), items[..i + 1]);
            && r == (if m.stage.ok then Sunk(env, m, items[i].place, items[i].profile) else m)
            && (r.stage.ok ==> Valid(r.db))
  {
    assert items[..i + 1][..i] == items[..i];
    var done, chunk := SinkAllBuffers(env, s, items[..i + 1]);
  }

  lemma {:induction false} SinkStopped(env: Env, m: Progress, items: seq<Item>, i: nat)
    requires Paired(m) && i <= |items| && !SinkAll(env, m, items[..i]).stage.ok
    ensures SinkAll(env, m, items) == SinkAll(env, m, items[..i])
    decreases |items|
  {
    if i == |items| {
      assert items[..i] == items;
    } else {
      var n := |items| - 1;
      assert items[..n][..i] == items[..i];
      SinkStopped(env, m, items[..n], i);
    }
  }

  /** Upserts in batches, profiles after each batch, one sweep at the end. */
  method RunCanonical(w: World, db: Database, table: Profiles.ProfileTable, env: Env, items: seq<Item>,
                      fates: QueueId -> Fate, findFails: bool) returns (report: Report, ghost rows: seq<QueueRow>)
    requires w.Valid() && Valid(db.S())
    modifies db, table
    ensures var p := WholeImport(env, old(db.S()), items);
            && table.rows == Profiles.AfterAll(old(table.rows), p.stage.writes)
            && (!p.stage.ok ==> report == ImportFailed && db.S() == p.db)
            && (p.stage.ok ==>
                  && report.Complete? && report.written == |items|
                  && report.profilesWritten == CountWritten(old(table.rows), p.stage.writes)
                  && (report.sweep.None? <==> findFails && p.stage.touched != [])
                  && (report.sweep.None? ==> db.S() == p.db)
                  && (report.sweep.Some? ==>
                        && Enumerates(p.db, NearTouched(w, p.db, p.stage.touched, RADIUS_M), rows)
                        && db.S() == After(w, p.db, SweepNear(p.stage.touched, rows, fates))
                        && report.sweep.value == Tally(|rows|, Matcher(w, SpotsOf(p.db)), rows, fates)))
  {
    rows := [];
    ghost var s0 := db.S();
    var b := new Batcher(env, table);
    var ok := SinkItems(b, db, table, items);
    if ok {
      ok := b.FlushNow(db, table);
    }
    if !ok { return ImportFailed, []; }
    CompletedIsValid(env, s0, items);
    var swept;
    swept, rows := Sweep(w, db, b.touchedIDs, fates, findFails);
    report := Complete(b.written, b.profilesWritten, swept);
  }

  // ---------------------------------------------------------------- the queue after an import

  ghost function Ids(ids: seq<PlaceId>): set<PlaceId> {
    set id | id in ids
  }

  lemma FlushKeepsQuiet(w: World, env: Env, m: Progress)
    requires Paired(m) && m.stage.ok && Flush(env, m).stage.ok
    requires QuietExcept(w, m.db, Ids(m.stage.touched))
    ensures QuietExcept(w, Flush(env, m).db, Ids(Flush(env, m).stage.touched))
  {
    if m.buffer != [] {
      var now := env.flushAt(m.written);
      var ids := PlaceIds(Upserts(m.db, m.buffer, now));
      WriteKeepsQuiet(w, m.db, m.buffer, now, Ids(m.stage.touched));
      StoreAllMeaning(env, m.stage, ids, m.pending, m.written);
      assert Ids(m.stage.touched + ids) == Ids(m.stage.touched) + Ids(ids);
    }
  }

  lemma {:induction false} SinkAllKeepsQuiet(w: World, env: Env, s: State, items: seq<Item>)
    requires Quiet(w, s)
    ensures var m := SinkAll(env, Start(s), items); m.stage.ok ==> QuietExcept(w, m.db, Ids(m.stage.touched))
  {
    if items == [] {
      QuietExceptNothing(w, s);
      assert Ids([]) == {};
    } else {
      var n := |items| - 1;
      SinkAllKeepsQuiet(w, env, s, items[..n]);
      var before := SinkAll(env, Start(s), items[..n]);
      var m := before.(buffer := before.buffer + [items[n].place], pending := before.pending + [items[n].profile]);
      if before.stage.ok && |m.buffer| >= env.size && Flush(env, m).stage.ok {
        FlushKeepsQuiet(w, env, m);
      }
    }
  }

  /** A whole import, whatever its batches, followed by its one sweep over the rows near the touched
      places: if no queued record matched any place before and the sweep reports no errors, then no
      queued record matches any place afterwards, considered by the sweep or not. */
  lemma ImportThenSweepSettles(w: World, env: Env, s: State, items: seq<Item>, rows: seq<QueueRow>, fates: QueueId -> Fate, reach: real)
    requires w.Valid() && Reaches(w, reach) && Valid(s) && Quiet(w, s)
    requires var p := WholeImport(env, s, items); var sweep := SweepNear(p.stage.touched, rows, fates);
             p.stage.ok && Possible(w, p.db, sweep) && Clean(w, p.db, sweep, reach)
    ensures var p := WholeImport(env, s, items);
            Quiet(w, After(w, p.db, SweepNear(p.stage.touched, rows, fates)))
  {
    var p := WholeImport(env, s, items);
    var sweep := SweepNear(p.stage.touched, rows, fates);
    SinkAllKeepsQuiet(w, env, s, items);
    FlushKeepsQuiet(w, env, SinkAll(env, Start(s), items));
    CompletedIsValid(env, s, items);
    SweepSettles(w, p.db, sweep, Ids(p.stage.touched), reach);
    assert Pending(w, p.db, sweep, Ids(p.stage.touched)) == {};
    QuietExceptNothing(w, After(w, p.db, sweep));
  }

  // ---------------------------------------------------------------- external sources

  datatype Counters = Counters(confident: nat, lowConfidence: nat, noMatch: nat, errors: nat)

  function Events(records: seq<Record>, fates: nat -> Fate): (es: seq<Event>)
    ensures |es| == |records| && forall i :: 0 <= i < |es| ==> es[i] == ResolveRecord(records[i], fates(i))
  {
    seq(|records|, i requires 0 <= i < |records| => ResolveRecord(records[i], fates(i)))
  }

  /** How one record ended: unmatched means queued. */
  ghost function EndOf(w: World, s: State, r: Record, fate: Fate): Outcome {
    var d := Matcher(w, SpotsOf(s))(r);
    if ResolveEffects(d, r, fate) == [] then Failed else if d == NoMatch then StillUnmatched else Drained(d.band)
  }

  /** The endings by what they mean: a statement on the record's path failed, the record was attached to
      a place that scores at least 0.80, or at least 0.55, or no place scored enough and it was queued. */
  lemma EndMeans(w: World, s: State, r: Record, fate: Fate)
    requires w.Valid()
    ensures var o := EndOf(w, s, r, fate); var m := SpotsOf(s); var d := Verdict(w, m, r);
            && (o == Failed <==>
                  || fate.fault == MatchFails || (d.Matched? && fate.fault == AttachFails)
                  || (!d.Matched? && fate.fault == EnqueueFails))
            && (o == Drained(Confident) <==> o != Failed && d.Matched? && Score(w, r, m[d.place]) >= 0.80)
            && (o == Drained(LowConfidence) <==> o != Failed && d.Matched? && 0.55 <= Score(w, r, m[d.place]) < 0.80)
            && (o == StillUnmatched <==> o != Failed && !d.Matched?)
  {
    VerdictMeans(w, SpotsOf(s), r);
  }

  function Counted(c: Counters, o: Outcome): Counters {
    match o
    case Drained(Confident) => c.(confident := c.confident + 1)
    case Drained(LowConfidence) => c.(lowConfidence := c.lowConfidence + 1)
    case StillUnmatched => c.(noMatch := c.noMatch + 1)
    case Failed => c.(errors := c.errors + 1)
  }

  function CountAll(ends: seq<Outcome>): Counters {
    if ends == [] then Counters(0, 0, 0, 0) else Counted(CountAll(ends[..|ends| - 1]), ends[|ends| - 1])
  }

  /** The counters are the numbers of records of each kind, and no record goes uncounted. */
  lemma {:induction false} CountersAreCounts(ends: seq<Outcome>)
    ensures var c := CountAll(ends);
            && c.confident == multiset(ends)[Drained(Confident)]
            && c.lowConfidence == multiset(ends)[Drained(LowConfidence)]
            && c.noMatch == multiset(ends)[StillUnmatched]
            && c.errors == multiset(ends)[Failed]
            && c.confident + c.lowConfidence + c.noMatch + c.errors == |ends|
  {
    if ends != [] {
      CountersAreCounts(ends[..|ends| - 1]);
      assert ends == ends[..|ends| - 1] + [ends[|ends| - 1]];
    }
  }

  /** The record sink: a record that fails is counted, never fatal. */
  method HandleRecord(w: World, db: Database, r: Record, fate: Fate, c: Counters) returns (c': Counters)
    requires w.Valid() && Valid(db.S())
    modifies db
    ensures Valid(db.S()) && db.S() == After(w, old(db.S()), ResolveRecord(r, fate))
    ensures c' == Counted(c, EndOf(w, old(db.S()), r, fate))
  {
    ghost var s := db.S();
    var d := Resolve(w, db, r, fate);
    EndOfResolve(w, s, r, fate);
    c' := CountDecision(c, d);
    DecisionCounts(c, d, Verdict(w, SpotsOf(s), r), ResolveEffects(Verdict(w, SpotsOf(s), r), r, fate) == []);
  }

  function CountDecision(c: Counters, d: Option<Decision>): Counters {
    match d
    case None => c.(errors := c.errors + 1)
    case Some(NoMatch) => c.(noMatch := c.noMatch + 1)
    case Some(Matched(Confident, _, _)) => c.(confident := c.confident + 1)
    case Some(Matched(LowConfidence, _, _)) => c.(lowConfidence := c.lowConfidence + 1)
  }

  lemma DecisionCounts(c: Counters, out: Option<Decision>, d: Decision, failed: bool)
    requires out == if failed then None else Some(d)
    ensures CountDecision(c, out) == Counted(c, if failed then Failed else if d == NoMatch then StillUnmatched else Drained(d.band))
  {
  }

  lemma EndOfResolve(w: World, s: State, r: Record, fate: Fate)
    ensures var d := Verdict(w, SpotsOf(s), r); var es := ResolveEffects(d, r, fate);
            && EndOf(w, s, r, fate) == (if es == [] then Failed else if d == NoMatch then StillUnmatched else Drained(d.band))
            && After(w, s, ResolveRecord(r, fate)) == ApplyAll(s, es)
  {
  }

  /** How the first `n` records ended, each in the state that the records before it left. */
  ghost function Ends(w: World, s: State, records: seq<Record>, fates: nat -> Fate, n: nat): (ends: seq<Outcome>)
    requires n <= |records|
    ensures |ends| == n
  {
    if n == 0 then []
    else
      var t := StateAfter(w, s, Events(records, fates)[..n - 1]);
      Ends(w, s, records, fates, n - 1) + [EndOf(w, t, records[n - 1], fates(n - 1))]
  }

  method RunExternal(w: World, db: Database, records: seq<Record>, fates: nat -> Fate) returns (c: Counters)
    requires w.Valid() && Valid(db.S())
    modifies db
    ensures Valid(db.S()) && db.S() == StateAfter(w, old(db.S()), Events(records, fates))
    ensures c == CountAll(Ends(w, old(db.S()), records, fates, |records|))
  {
    ghost var s := db.S();
    c := Counters(0, 0, 0, 0);
    for i := 0 to |records|
      invariant Valid(db.S()) && db.S() == StateAfter(w, s, Events(records, fates)[..i])
      invariant c == CountAll(Ends(w, s, records, fates, i))
    {
      OneMoreEvent(w, s, Events(records, fates), i);
      OneMoreCounted(Ends(w, s, records, fates, i), EndOf(w, db.S(), records[i], fates(i)));
      c := HandleRecord(w, db, records[i], fates(i), c);
    }
    assert Events(records, fates)[..|records|] == Events(records, fates);
  }

  lemma OneMoreEvent(w: World, s: State, es: seq<Event>, i: nat)
    requires i < |es|
    ensures StateAfter(w, s, es[..i + 1]) == After(w, StateAfter(w, s, es[..i]), es[i])
  {
    assert es[..i + 1][..i] == es[..i];
  }

  lemma OneMoreCounted(ends: seq<Outcome>, o: Outcome)
    ensures CountAll(ends + [o]) == Counted(CountAll(ends), o)
  {
    assert (ends + [o])[..|ends|] == ends;
  }
}
