/** The batching importer (cmd/ingestion/batcher.go). */
module Ingestion {
  import opened Models
  import opened Registry
  import opened Audit
  import opened Profiles
  import opened Reimport

  /** Batch size, clock readings, failures and generated ids, by the position of the item in the
      import; a batch goes by the position of its first item. */
  datatype Env = Env(size: int, flushAt: nat -> Time, flushFails: nat -> bool,
                     profileAt: nat -> Time, profileFails: nat -> bool, newId: nat -> string)

  type Submission = Option<Profile>

  /** The profile side of an import: the places touched, the profiles written, and whether no error has occurred. */
  datatype Stage = Stage(touched: seq<PlaceId>, writes: seq<Write>, ok: bool)

  /** An import under way: the tables and the batcher's fields. */
  datatype Progress = Progress(db: State, buffer: seq<NewPlace>, pending: seq<Submission>, written: nat, stage: Stage)

  // ---------------------------------------------------------------- one flush

  function WriteOf(env: Env, id: PlaceId, p: Profile, k: nat): Write {
    Ingest(id, env.newId(k), p, env.profileAt(k))
  }

  /** One place's profile, if it came with one. */
  function Store(env: Env, st: Stage, id: PlaceId, profile: Submission, k: nat): Stage {
    var touched := st.touched + [id];
    if profile.None? then st.(touched := touched)
    else if env.profileFails(k) then st.(touched := touched, ok := false)
    else st.(touched := touched, writes := st.writes + [WriteOf(env, id, profile.value, k)])
  }

  /** The profiles of the places `ids` in order, up to the first failure. */
  function StoreAll(env: Env, st: Stage, ids: seq<PlaceId>, pending: seq<Submission>, k: nat): Stage
    requires |ids| == |pending|
  {
    if ids == [] then st
    else
      var n := |ids| - 1;
      var before := StoreAll(env, st, ids[..n], pending[..n], k);
      if before.ok then Store(env, before, ids[n], pending[n], k + n) else before
  }

  ghost predicate Paired(m: Progress) { |m.buffer| == |m.pending| }

  /** The batch went in as rows `ids`. */
  function Stored(env: Env, m: Progress, db: State, ids: seq<PlaceId>): Progress
    requires |ids| == |m.pending|
  {
    var stage := StoreAll(env, m.stage, ids, m.pending, m.written);
    Progress(db, if stage.ok then [] else m.buffer, if stage.ok then [] else m.pending, m.written + |m.buffer|, stage)
  }

  /** A rejected batch leaves everything as it was; a failed profile write keeps the buffer. */
  ghost function Flush(env: Env, m: Progress): (r: Progress)
    requires Paired(m)
    ensures Paired(r)
  {
    if m.buffer == [] then m
    else if env.flushFails(m.written) || !NoRepeatedKey(m.buffer) then m.(stage := m.stage.(ok := false))
    else
      var now := env.flushAt(m.written);
      Stored(env, m, Imported(m.db, m.buffer, now), ImportedIds(m.db, m.buffer, now))
  }

  ghost function Sunk(env: Env, m: Progress, p: NewPlace, profile: Submission): (r: Progress)
    requires Paired(m)
    ensures Paired(r)
  {
    var m' := m.(buffer := m.buffer + [p], pending := m.pending + [profile]);
    if |m'.buffer| >= env.size then Flush(env, m') else m'
  }

  /** How many of the writes found no verified row. */
  function CountWritten(t: Table, ws: seq<Write>): nat {
    if ws == [] then 0
    else
      var n := |ws| - 1;
      CountWritten(t, ws[..n]) + if Verified(Row(AfterAll(t, ws[..n]), ws[n].place)) then 0 else 1
  }

  // ---------------------------------------------------------------- the batcher

  class Batcher {
    const env: Env
    var buffer: seq<NewPlace>
    var pendingProfiles: seq<Submission>
    var written: nat
    var touchedIDs: seq<PlaceId>
    var profilesWritten: nat

    /** The profile table the import started from, and what it has written since. */
    ghost const initial: Table
    ghost var log: seq<Write>

    ghost predicate Consistent(table: ProfileTable)
      reads this, table
    {
      table.rows == AfterAll(initial, log) && profilesWritten == CountWritten(initial, log)
    }

    ghost function StageAt(ok: bool): Stage
      reads this
    {
      Stage(touchedIDs, log, ok)
    }

    ghost function At(db: Database, ok: bool): Progress
      reads this, db
    {
      Progress(db.S(), buffer, pendingProfiles, written, StageAt(ok))
    }

    constructor (env: Env, table: ProfileTable)
      ensures this.env == env && initial == table.rows && Consistent(table)
      ensures buffer == [] && pendingProfiles == [] && written == 0 && touchedIDs == [] && log == []
    {
      this.env := env;
      buffer, pendingProfiles, written, touchedIDs, profilesWritten := [], [], 0, [], 0;
      initial, log := table.rows, [];
    }

    method Sink(db: Database, table: ProfileTable, p: NewPlace, profile: Submission) returns (ok: bool)
      requires Valid(db.S()) && |buffer| == |pendingProfiles| && Consistent(table)
      modifies this, db, table
      ensures Consistent(table)
      ensures At(db, ok) == Sunk(env, old(At(db, true)), p, profile)
    {
      buffer := buffer + [p];
      pendingProfiles := pendingProfiles + [profile];
      ok := true;
      if |buffer| >= env.size {
        ok := FlushNow(db, table);
      }
    }

    method FlushNow(db: Database, table: ProfileTable) returns (ok: bool)
      requires Valid(db.S()) && |buffer| == |pendingProfiles| && Consistent(table)
      modifies this, db, table
      ensures Consistent(table)
      ensures At(db, ok) == Flush(env, old(At(db, true)))
    {
      ghost var m := At(db, true);
      if |buffer| == 0 { return true; }
      var ids := UpsertBuffer(db, m);
      if ids.None? { return false; }
      ok := Settle(table, ids.value);
    }

    method UpsertBuffer(db: Database, ghost m: Progress) returns (ids: Option<seq<PlaceId>>)
      requires Valid(db.S()) && buffer != [] && Paired(m)
      requires m.db == db.S() && m.buffer == buffer && m.pending == pendingProfiles && m.written == written
      modifies db`places, db`nextPlace
      ensures ids.None? ==> db.S() == m.db && Flush(env, m) == m.(stage := m.stage.(ok := false))
      ensures ids.Some? ==> |ids.value| == |m.pending| && Flush(env, m) == Stored(env, m, db.S(), ids.value)
    {
      ids := db.UpsertBatch(buffer, env.flushAt(written), env.flushFails(written));
      if ids.Some? {
        AcceptedFlush(env, m, db.S(), ids.value);
      }
    }

    /** What follows an accepted upsert: count it, store the profiles, and drop the buffer if all went well. */
    method Settle(table: ProfileTable, ids: seq<PlaceId>) returns (ok: bool)
      requires |ids| == |pendingProfiles| && Consistent(table)
      modifies this, table
      ensures Consistent(table)
      ensures written == old(written) + |old(buffer)|
      ensures StageAt(ok) == StoreAll(env, old(StageAt(true)), ids, old(pendingProfiles), old(written))
      ensures buffer == (if ok then [] else old(buffer)) && pendingProfiles == (if ok then [] else old(pendingProfiles))
    {
      var k := written;
      written := written + |buffer|;
      ok := WriteProfiles(table, ids, k);
      if ok {
        buffer := [];
        pendingProfiles := [];
      }
    }

    /** The profiles of the buffered places, now stored under `ids`, up to the first failure. */
    method WriteProfiles(table: ProfileTable, ids: seq<PlaceId>, k: nat) returns (ok: bool)
      requires |ids| == |pendingProfiles| && Consistent(table)
      modifies this`touchedIDs, this`profilesWritten, this`log, table
      ensures Consistent(table)
      ensures StageAt(ok) == StoreAll(env, old(StageAt(true)), ids, pendingProfiles, k)
    {
      ghost var st, pending := StageAt(true), pendingProfiles;
      StoreNone(env, st, ids, pending, k);
      ok := true;
      for i := 0 to |ids|
        invariant Consistent(table) && pendingProfiles == pending && ok
        invariant StageAt(true) == StoreAll(env, st, ids[..i], pending[..i], k)
        invariant i == |ids| ==> StageAt(true) == StoreAll(env, st, ids, pending, k)
      {
        ghost var before := StageAt(true);
        ok := WriteOne(table, ids[i], pendingProfiles[i], k + i);
        StoreNext(env, st, before, StageAt(ok), ids, pending, k, i);
        if !ok { return; }
      }
    }

    method WriteOne(table: ProfileTable, id: PlaceId, profile: Submission, k: nat) returns (ok: bool)
      requires Consistent(table)
      modifies this`touchedIDs, this`profilesWritten, this`log, table
      ensures Consistent(table)
      ensures StageAt(ok) == Store(env, old(StageAt(true)), id, profile, k)
    {
      touchedIDs := touchedIDs + [id];
      if profile.None? { return true; }
      ghost var w := WriteOf(env, id, profile.value, k);
      var put := table.WriteProfile(id, env.newId(k), profile.value, env.profileAt(k), env.profileFails(k));
      if put.None? { return false; }
      LogStep(initial, log, w);
      log := log + [w];
      if put.value {
        profilesWritten := profilesWritten + 1;
      }
      return true;
    }
  }

  lemma LogStep(t: Table, ws: seq<Write>, w: Write)
    ensures AfterAll(t, ws + [w]) == After(AfterAll(t, ws), w)
    ensures CountWritten(t, ws + [w]) == CountWritten(t, ws) + if Verified(Row(AfterAll(t, ws), w.place)) then 0 else 1
  {
    assert (ws + [w])[..|ws|] == ws;
  }

  lemma AcceptedFlush(env: Env, m: Progress, s: State, ids: seq<PlaceId>)
    requires Paired(m) && m.buffer != [] && !env.flushFails(m.written) && NoRepeatedKey(m.buffer)
    requires var es := Upserts(m.db, m.buffer, env.flushAt(m.written)); s == ApplyAll(m.db, es) && ids == PlaceIds(es)
    ensures |ids| == |m.pending| && Flush(env, m) == Stored(env, m, s, ids)
  {
  }

  lemma StoreNone(env: Env, st: Stage, ids: seq<PlaceId>, pending: seq<Submission>, k: nat)
    requires |ids| == |pending|
    ensures StoreAll(env, st, ids[..0], pending[..0], k) == st
    ensures ids == [] ==> StoreAll(env, st, ids, pending, k) == st
  {
  }

  lemma StoreNext(env: Env, st: Stage, before: Stage, r: Stage, ids: seq<PlaceId>, pending: seq<Submission>, k: nat, i: nat)
    requires i < |ids| == |pending|
    requires before.ok && before == StoreAll(env, st, ids[..i], pending[..i], k) && r == Store(env, before, ids[i], pending[i], k + i)
    ensures r == StoreAll(env, st, ids[..i + 1], pending[..i + 1], k)
    ensures !r.ok || i + 1 == |ids| ==> r == StoreAll(env, st, ids, pending, k)
  {
    assert ids[..i + 1][..i] == ids[..i] && pending[..i + 1][..i] == pending[..i];
    if i + 1 == |ids| {
      assert ids[..i + 1] == ids && pending[..i + 1] == pending;
    } else if !r.ok {
      FailureEndsIt(env, st, ids, pending, k, i + 1);
    }
  }

  lemma {:induction false} FailureEndsIt(env: Env, st: Stage, ids: seq<PlaceId>, pending: seq<Submission>, k: nat, i: nat)
    requires i <= |ids| == |pending| && !StoreAll(env, st, ids[..i], pending[..i], k).ok
    ensures StoreAll(env, st, ids, pending, k) == StoreAll(env, st, ids[..i], pending[..i], k)
    decreases |ids|
  {
    if i == |ids| {
      assert ids[..i] == ids && pending[..i] == pending;
    } else {
      var n := |ids| - 1;
      assert ids[..n][..i] == ids[..i] && pending[..n][..i] == pending[..i];
      FailureEndsIt(env, st, ids[..n], pending[..n], k, i);
    }
  }
}
