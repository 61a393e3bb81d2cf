/** What a batched import does, whatever the batch size. */
module ImportLaws {
  import opened Models
  import opened Registry
  import opened Audit
  import opened Profiles
  import opened Reimport
  import opened Ingestion

  datatype Item = Item(place: NewPlace, profile: Submission)

  function Places(items: seq<Item>): (ps: seq<NewPlace>)
    ensures |ps| == |items| && forall i :: 0 <= i < |ps| ==> ps[i] == items[i].place
  {
    seq(|items|, i requires 0 <= i < |items| => items[i].place)
  }

  function Submissions(items: seq<Item>): (ps: seq<Submission>)
    ensures |ps| == |items| && forall i :: 0 <= i < |ps| ==> ps[i] == items[i].profile
  {
    seq(|items|, i requires 0 <= i < |items| => items[i].profile)
  }

  lemma PartsOf(a: seq<Item>, b: seq<Item>)
    ensures Places(a + b) == Places(a) + Places(b)
    ensures Submissions(a + b) == Submissions(a) + Submissions(b)
  {
  }

  const BEGIN := Stage([], [], true)

  function Start(s: State): Progress {
    Progress(s, [], [], 0, BEGIN)
  }

  /** The source hands over its items; the first error ends the import. */
  ghost function SinkAll(env: Env, m: Progress, items: seq<Item>): (r: Progress)
    requires Paired(m)
    ensures Paired(r)
  {
    if items == [] then m
    else
      var n := |items| - 1;
      var before := SinkAll(env, m, items[..n]);
      if before.stage.ok then Sunk(env, before, items[n].place, items[n].profile) else before
  }

  /** All items handed over, then the final flush. */
  ghost function WholeImport(env: Env, s: State, items: seq<Item>): Progress {
    var m := SinkAll(env, Start(s), items);
    if m.stage.ok then Flush(env, m) else m
  }

  // ---------------------------------------------------------------- storing profiles

  lemma {:induction false} StoreAllComposes(env: Env, st: Stage, ids: seq<PlaceId>, pending: seq<Submission>, k: nat,
                                            ids': seq<PlaceId>, pending': seq<Submission>)
    requires |ids| == |pending| && |ids'| == |pending'|
    ensures var mid := StoreAll(env, st, ids, pending, k);
            StoreAll(env, st, ids + ids', pending + pending', k) == if mid.ok then StoreAll(env, mid, ids', pending', k + |ids|) else mid
    decreases |ids'|
  {
    if ids' == [] {
      assert ids + ids' == ids && pending + pending' == pending;
    } else {
      var n := |ids'| - 1;
      assert (ids + ids')[..|ids| + n] == ids + ids'[..n] && (pending + pending')[..|ids| + n] == pending + pending'[..n];
      StoreAllComposes(env, st, ids, pending, k, ids'[..n], pending'[..n]);
    }
  }

  function WritesOf(env: Env, id: PlaceId, profile: Submission, k: nat): seq<Write> {
    if profile.None? then [] else [WriteOf(env, id, profile.value, k)]
  }

  /** The profiles, each written once and in order under its own place. */
  function ProfileWrites(env: Env, ids: seq<PlaceId>, pending: seq<Submission>, k: nat): seq<Write>
    requires |ids| == |pending|
  {
    if ids == [] then []
    else
      var n := |ids| - 1;
      ProfileWrites(env, ids[..n], pending[..n], k) + WritesOf(env, ids[n], pending[n], k + n)
  }

  ghost predicate Storable(env: Env, pending: seq<Submission>, k: nat) {
    forall i :: 0 <= i < |pending| && pending[i].Some? ==> !env.profileFails(k + i)
  }

  lemma {:induction false} StoreAllSucceedsIff(env: Env, st: Stage, ids: seq<PlaceId>, pending: seq<Submission>, k: nat)
    requires |ids| == |pending| && st.ok
    ensures StoreAll(env, st, ids, pending, k).ok <==> Storable(env, pending, k)
    decreases |ids|
  {
    if ids != [] {
      var n := |ids| - 1;
      StoreAllSucceedsIff(env, st, ids[..n], pending[..n], k);
      assert forall i :: 0 <= i < n ==> pending[..n][i] == pending[i];
    }
  }

  /** A successful pass has touched every place once, in order, and written every profile that
      came with one, once, in order, under its own place. */
  lemma {:induction false} StoreAllMeaning(env: Env, st: Stage, ids: seq<PlaceId>, pending: seq<Submission>, k: nat)
    requires |ids| == |pending| && st.ok && StoreAll(env, st, ids, pending, k).ok
    ensures StoreAll(env, st, ids, pending, k) == Stage(st.touched + ids, st.writes + ProfileWrites(env, ids, pending, k), true)
    decreases |ids|
  {
    if ids == [] {
      assert st.touched + ids == st.touched && st.writes + [] == st.writes;
    } else {
      var n := |ids| - 1;
      StoreAllMeaning(env, st, ids[..n], pending[..n], k);
      Associative(st.touched, ids[..n], [ids[n]]);
      assert ids[..n] + [ids[n]] == ids;
      Associative(st.writes, ProfileWrites(env, ids[..n], pending[..n], k), WritesOf(env, ids[n], pending[n], k + n));
    }
  }

  // ---------------------------------------------------------------- batches are invisible

  /** The import has written exactly the items `done`, as one-by-one upserts would have. */
  ghost predicate Loaded(env: Env, s: State, done: seq<Item>, m: Progress) {
    var t := Timeless(s);
    && Valid(m.db) && m.written == |done|
    && Timeless(m.db) == Imported(t, Places(done), 0)
    && m.stage == StoreAll(env, BEGIN, ImportedIds(t, Places(done), 0), Submissions(done), 0)
  }

  lemma ChunkLoads(s: State, done: seq<Item>, db: State, chunk: seq<Item>, now: Time)
    requires Valid(db) && Timeless(db) == Imported(Timeless(s), Places(done), 0)
    ensures Valid(Imported(db, Places(chunk), now))
    ensures Timeless(Imported(db, Places(chunk), now)) == Imported(Timeless(s), Places(done + chunk), 0)
    ensures ImportedIds(Timeless(s), Places(done + chunk), 0)
         == ImportedIds(Timeless(s), Places(done), 0) + ImportedIds(db, Places(chunk), now)
  {
    UpsertsKeepValid(db, Places(chunk), now);
    TimesDoNotMatter(db, Places(chunk), now);
    ImportsCompose(Timeless(s), Places(done), Places(chunk), 0);
    PartsOf(done, chunk);
  }

  lemma ChunkStores(env: Env, st: Stage, first: seq<PlaceId>, done: seq<Item>, ids: seq<PlaceId>, chunk: seq<Item>)
    requires |first| == |done| && |ids| == |chunk| && StoreAll(env, st, first, Submissions(done), 0).ok
    ensures StoreAll(env, StoreAll(env, st, first, Submissions(done), 0), ids, Submissions(chunk), |done|)
         == StoreAll(env, st, first + ids, Submissions(done + chunk), 0)
  {
    PartsOf(done, chunk);
    StoreAllComposes(env, st, first, Submissions(done), 0, ids, Submissions(chunk));
  }

  lemma FlushLoads(env: Env, s: State, done: seq<Item>, m: Progress, chunk: seq<Item>)
    requires Loaded(env, s, done, m) && m.stage.ok && chunk != []
    requires m.buffer == Places(chunk) && m.pending == Submissions(chunk)
    requires Flush(env, m).stage.ok
    ensures Loaded(env, s, done + chunk, Flush(env, m))
    ensures Flush(env, m).buffer == [] && Flush(env, m).pending == []
  {
    var now := env.flushAt(m.written);
    var ids := ImportedIds(m.db, m.buffer, now);
    ChunkLoads(s, done, m.db, chunk, now);
    ChunkStores(env, BEGIN, ImportedIds(Timeless(s), Places(done), 0), done, ids, chunk);
    assert Flush(env, m) == Stored(env, m, Imported(m.db, m.buffer, now), ids);
  }

  lemma FlushSucceedsIff(env: Env, m: Progress)
    requires Paired(m) && m.stage.ok && m.buffer != []
    ensures Flush(env, m).stage.ok <==>
              && !env.flushFails(m.written) && NoRepeatedKey(m.buffer)
              && Storable(env, m.pending, m.written)
  {
    StoreAllSucceedsIff(env, m.stage, ImportedIds(m.db, m.buffer, env.flushAt(m.written)), m.pending, m.written);
  }

  /** The items `done` are written, `chunk` is in the buffer. */
  ghost predicate Buffered(env: Env, s: State, done: seq<Item>, chunk: seq<Item>, m: Progress) {
    Loaded(env, s, done, m) && m.buffer == Places(chunk) && m.pending == Submissions(chunk)
  }

  lemma StartIsLoaded(env: Env, s: State)
    requires Valid(s)
    ensures Loaded(env, s, [], Start(s))
  {
    assert Upserts(Timeless(s), [], 0) == [];
    assert ImportedIds(Timeless(s), Places([]), 0) == [];
  }

  lemma SunkBuffers(env: Env, s: State, done: seq<Item>, chunk: seq<Item>, m: Progress, item: Item)
    requires Buffered(env, s, done, chunk, m) && m.stage.ok
    requires Sunk(env, m, item.place, item.profile).stage.ok
    ensures var r := Sunk(env, m, item.place, item.profile);
            if |chunk| + 1 >= env.size then Buffered(env, s, done + (chunk + [item]), [], r) else Buffered(env, s, done, chunk + [item], r)
  {
    var m' := m.(buffer := m.buffer + [item.place], pending := m.pending + [item.profile]);
    PartsOf(chunk, [item]);
    assert Places([item]) == [item.place] && Submissions([item]) == [item.profile];
    assert Buffered(env, s, done, chunk + [item], m');
    if |chunk| + 1 >= env.size {
      FlushLoads(env, s, done, m', chunk + [item]);
    }
  }

  /** While no error has occurred, what was written and what is in the buffer are together what was handed over. */
  lemma {:induction false} SinkAllBuffers(env: Env, s: State, items: seq<Item>) returns (done: seq<Item>, chunk: seq<Item>)
    requires Valid(s)
    ensures var m := SinkAll(env, Start(s), items);
            done + chunk == items && (m.stage.ok ==> Buffered(env, s, done, chunk, m))
    ensures env.size >= 1 ==> Boundary(env.size, |done|) && |chunk| < env.size
  {
    if items == [] {
      done, chunk := [], [];
      StartIsLoaded(env, s);
      NextChunk(0, env.size);
    } else {
      var n := |items| - 1;
      done, chunk := SinkAllBuffers(env, s, items[..n]);
      done, chunk := HandOver(env, s, items, done, chunk, SinkAll(env, Start(s), items[..n]), items[n]);
    }
  }

  lemma HandOver(env: Env, s: State, items: seq<Item>, done: seq<Item>, chunk: seq<Item>, before: Progress, item: Item)
    returns (done': seq<Item>, chunk': seq<Item>)
    requires Paired(before) && (before.stage.ok ==> Buffered(env, s, done, chunk, before))
    requires items != [] && done + chunk == items[..|items| - 1] && item == items[|items| - 1]
    requires env.size >= 1 ==> Boundary(env.size, |done|) && |chunk| < env.size
    ensures var r := if before.stage.ok then Sunk(env, before, item.place, item.profile) else before;
            done' + chunk' == items && (r.stage.ok ==> Buffered(env, s, done', chunk', r))
    ensures env.size >= 1 ==> Boundary(env.size, |done'|) && |chunk'| < env.size
  {
    OneMoreBuffered(env, s, done, chunk, before, item);
    Regroup(done, chunk, items);
    done', chunk' := NextParts(env.size, done, chunk, item);
  }

  lemma OneMoreBuffered(env: Env, s: State, done: seq<Item>, chunk: seq<Item>, before: Progress, item: Item)
    requires Paired(before) && (before.stage.ok ==> Buffered(env, s, done, chunk, before))
    ensures var r := if before.stage.ok then Sunk(env, before, item.place, item.profile) else before;
            r.stage.ok ==>
              if |chunk| + 1 >= env.size then Buffered(env, s, done + (chunk + [item]), [], r) else Buffered(env, s, done, chunk + [item], r)
  {
    if before.stage.ok && Sunk(env, before, item.place, item.profile).stage.ok {
      SunkBuffers(env, s, done, chunk, before, item);
    }
  }

  lemma NextParts<T>(size: int, done: seq<T>, chunk: seq<T>, item: T) returns (done': seq<T>, chunk': seq<T>)
    requires size >= 1 ==> Boundary(size, |done|) && |chunk| < size
    ensures if |chunk| + 1 >= size then done' == done + (chunk + [item]) && chunk' == [] else done' == done && chunk' == chunk + [item]
    ensures size >= 1 ==> Boundary(size, |done'|) && |chunk'| < size
  {
    NextChunk(|done|, size);
    if |chunk| + 1 >= size {
      done', chunk' := done + (chunk + [item]), [];
    } else {
      done', chunk' := done, chunk + [item];
    }
  }

  predicate Boundary(size: int, k: nat) {
    size >= 1 && k % size == 0
  }

  lemma NextChunk(k: nat, size: int)
    ensures Boundary(size, k) ==> Boundary(size, k + size)
    ensures size >= 1 ==> Boundary(size, 0)
  {
    if Boundary(size, k) {
      DivisionIs(k + size, size, k / size + 1, 0);
    }
  }

  lemma Regroup<T>(a: seq<T>, b: seq<T>, c: seq<T>)
    requires c != [] && a + b == c[..|c| - 1]
    ensures a + (b + [c[|c| - 1]]) == c && a + (b + [c[|c| - 1]]) + [] == c
  {
    Associative(a, b, [c[|c| - 1]]);
  }

  /** Batching is invisible: for every batch size, a completed import leaves the tables that
      upserting its items one at a time at any moment would leave, up to timestamps; it has touched
      exactly the rows those upserts wrote, in order; and it has written each profile that came with
      an item once, in order, under that item's row. */
  lemma ImportIsOneByOne(env: Env, s: State, items: seq<Item>, now: Time)
    requires Valid(s) && WholeImport(env, s, items).stage.ok
    ensures var r, ids := WholeImport(env, s, items), ImportedIds(s, Places(items), now);
            && r.buffer == [] && r.pending == [] && r.written == |items|
            && Timeless(r.db) == Timeless(Imported(s, Places(items), now))
            && r.stage.touched == ids
            && r.stage.writes == ProfileWrites(env, ids, Submissions(items), 0)
  {
    var done, chunk := SinkAllBuffers(env, s, items);
    TimesDoNotMatter(s, Places(items), now);
    FinalFlushLoads(env, s, done, chunk, SinkAll(env, Start(s), items));
    StoreAllMeaning(env, BEGIN, ImportedIds(Timeless(s), Places(items), 0), Submissions(items), 0);
    NothingBefore(ImportedIds(s, Places(items), now));
    NothingBefore(ProfileWrites(env, ImportedIds(s, Places(items), now), Submissions(items), 0));
  }

  lemma NothingBefore<T>(a: seq<T>)
    ensures [] + a == a
  {
  }

  lemma FinalFlushLoads(env: Env, s: State, done: seq<Item>, chunk: seq<Item>, m: Progress)
    requires Buffered(env, s, done, chunk, m) && m.stage.ok && Flush(env, m).stage.ok
    ensures Loaded(env, s, done + chunk, Flush(env, m)) && Flush(env, m).buffer == [] && Flush(env, m).pending == []
  {
    if chunk == [] {
      assert done + chunk == done;
    } else {
      FlushLoads(env, s, done, m, chunk);
    }
  }

  // ---------------------------------------------------------------- when an import succeeds

  predicate SameKey(p: NewPlace, q: NewPlace) {
    p.osmId != 0 && p.osmId == q.osmId && p.osmType == q.osmType
  }

  /** Nothing goes wrong with the first `n` items in batches of env.size. */
  ghost predicate Smooth(env: Env, items: seq<Item>, n: nat)
    requires env.size >= 1 && n <= |items|
  {
    && (forall k: nat :: k < n && k % env.size == 0 ==> !env.flushFails(k))
    && (forall i: nat :: i < n && items[i].profile.Some? ==> !env.profileFails(i))
    && (forall i: nat, j: nat :: i < j < n && SameKey(items[i].place, items[j].place) ==> i / env.size != j / env.size)
  }

  lemma Scaled(d: int, size: int)
    requires size >= 1
    ensures d >= 1 ==> d * size >= size
    ensures d <= -1 ==> d * size <= -size
  {
  }

  lemma DivisionIs(i: nat, size: int, q: int, r: int)
    requires size >= 1 && i == q * size + r && 0 <= r < size
    ensures i / size == q && i % size == r
  {
    var d := i / size - q;
    assert d * size == r - i % size;
    Scaled(d, size);
  }

  lemma WithinChunk(size: int, k: nat, i: nat)
    requires size >= 1 && k % size == 0 && i < k + size
    ensures k <= i ==> i / size == k / size && (i % size == 0 <==> i == k)
    ensures i < k ==> i / size < k / size
  {
    if k <= i {
      DivisionIs(i, size, k / size, i - k);
    } else {
      var d := i / size - k / size;
      assert d * size + i % size == i - k;
      Scaled(d, size);
    }
  }

  lemma ChunkIsSmooth(env: Env, items: seq<Item>, k: nat, l: nat)
    requires Boundary(env.size, k) && 1 <= l <= env.size && k + l <= |items|
    ensures Smooth(env, items, k + l) <==> Smooth(env, items, k) && !env.flushFails(k) && ChunkGoesIn(items, k, l) && ChunkStored(env, items, k, l)
  {
    forall i: nat | i < k + l
      ensures k <= i ==> i / env.size == k / env.size && (i % env.size == 0 <==> i == k)
      ensures i < k ==> i / env.size < k / env.size
    {
      WithinChunk(env.size, k, i);
    }
  }

  ghost predicate ChunkGoesIn(items: seq<Item>, k: nat, l: nat)
    requires k + l <= |items|
  {
    forall i: nat, j: nat :: k <= i < j < k + l ==> !SameKey(items[i].place, items[j].place)
  }

  ghost predicate ChunkStored(env: Env, items: seq<Item>, k: nat, l: nat)
    requires k + l <= |items|
  {
    forall i: nat :: k <= i < k + l && items[i].profile.Some? ==> !env.profileFails(i)
  }

  lemma ChunkFlushes(env: Env, items: seq<Item>, m: Progress, k: nat, l: nat)
    requires k + l <= |items| && l >= 1 && m.stage.ok && m.written == k
    requires m.buffer == Places(items[k..k + l]) && m.pending == Submissions(items[k..k + l])
    ensures Flush(env, m).stage.ok <==> !env.flushFails(k) && ChunkGoesIn(items, k, l) && ChunkStored(env, items, k, l)
  {
    FlushSucceedsIff(env, m);
    ChunkKeys(items, k, l);
    ChunkProfiles(env, items, k, l, m.pending);
  }

  lemma ChunkProfiles(env: Env, items: seq<Item>, k: nat, l: nat, pending: seq<Submission>)
    requires k + l <= |items| && pending == Submissions(items[k..k + l])
    ensures ChunkStored(env, items, k, l) <==> Storable(env, pending, k)
  {
    assert forall i :: 0 <= i < l ==> pending[i] == items[k + i].profile;
    if Storable(env, pending, k) {
      forall i: nat | k <= i < k + l && items[i].profile.Some?
        ensures !env.profileFails(i)
      {
        assert pending[i - k].Some? && k + (i - k) == i;
      }
    }
  }

  lemma ChunkKeys(items: seq<Item>, k: nat, l: nat)
    requires k + l <= |items|
    ensures NoRepeatedKey(Places(items[k..k + l])) <==> ChunkGoesIn(items, k, l)
  {
    var ps := Places(items[k..k + l]);
    assert forall i :: 0 <= i < l ==> ps[i] == items[k + i].place;
    if NoRepeatedKey(ps) {
      forall i: nat, j: nat | k <= i < j < k + l
        ensures !SameKey(items[i].place, items[j].place)
      {
        assert ps[i - k] == items[i].place && ps[j - k] == items[j].place;
      }
    }
  }

  /** Two batch boundaries within less than a batch are one. */
  lemma SameBoundary(size: int, a: nat, b: nat, n: nat)
    requires Boundary(size, a) && Boundary(size, b) && a <= n < a + size && b <= n < b + size
    ensures a == b
  {
    WithinChunk(size, a, n);
    WithinChunk(size, b, n);
    assert a == (a / size) * size && b == (b / size) * size;
  }

  lemma SmoothPrefix(env: Env, items: seq<Item>, n: nat, k: nat)
    requires env.size >= 1 && k <= n <= |items|
    ensures Smooth(env, items[..n], k) <==> Smooth(env, items, k)
  {
  }

  lemma {:induction false} SinkAllSucceedsIff(env: Env, s: State, items: seq<Item>, k: nat)
    requires Valid(s) && Boundary(env.size, k) && k <= |items| < k + env.size
    ensures SinkAll(env, Start(s), items).stage.ok <==> Smooth(env, items, k)
    decreases |items|
  {
    if items != [] {
      var n := |items| - 1;
      var before := SinkAll(env, Start(s), items[..n]);
      var k' := if n < k then k - env.size else k;
      PreviousBoundary(env.size, k, n);
      SinkAllSucceedsIff(env, s, items[..n], k');
      SmoothPrefix(env, items, n, k');
      if n < k {
        ChunkIsSmooth(env, items, k', env.size);
      }
      if before.stage.ok {
        var done, chunk := SinkAllBuffers(env, s, items[..n]);
        SameBoundary(env.size, |done|, k', n);
        LastSunk(env, s, items, before, done, chunk);
      }
    }
  }

  lemma PreviousBoundary(size: int, k: nat, n: nat)
    requires Boundary(size, k) && n + 1 < k + size && k <= n + 1
    ensures n < k ==> k >= size && Boundary(size, k - size) && n == k - 1
  {
    if n < k {
      var q := k / size;
      assert k == q * size;
      Scaled(q, size);
      DivisionIs(k - size, size, q - 1, 0);
    }
  }

  /** The last item handed over: either it only goes into the buffer, or it fills the batch. */
  lemma LastSunk(env: Env, s: State, items: seq<Item>, before: Progress, done: seq<Item>, chunk: seq<Item>)
    requires items != [] && done + chunk == items[..|items| - 1] && |chunk| < env.size
    requires Buffered(env, s, done, chunk, before) && before.stage.ok
    ensures var item, k := items[|items| - 1], |done|;
            Sunk(env, before, item.place, item.profile).stage.ok <==>
              (|chunk| + 1 == env.size ==> !env.flushFails(k) && ChunkGoesIn(items, k, env.size) && ChunkStored(env, items, k, env.size))
  {
    var item, k := items[|items| - 1], |done|;
    var m := before.(buffer := before.buffer + [item.place], pending := before.pending + [item.profile]);
    if |chunk| + 1 == env.size {
      Regroup(done, chunk, items);
      assert items[k..k + env.size] == chunk + [item];
      PartsOf(chunk, [item]);
      assert Places([item]) == [item.place] && Submissions([item]) == [item.profile];
      ChunkFlushes(env, items, m, k, env.size);
    }
  }

  /** An import succeeds exactly when no statement fails and no batch holds an OSM key twice: with
      batches of one no import is refused for a repeated key, with larger ones that depends on where
      the batch boundaries fall. */
  lemma ImportSucceedsIff(env: Env, s: State, items: seq<Item>)
    requires Valid(s) && env.size >= 1
    ensures WholeImport(env, s, items).stage.ok <==> Smooth(env, items, |items|)
  {
    var done, chunk := SinkAllBuffers(env, s, items);
    SinkAllSucceedsIff(env, s, items, |done|);
    LastChunk(env, items, SinkAll(env, Start(s), items), done, chunk);
  }

  lemma LastChunk(env: Env, items: seq<Item>, m: Progress, done: seq<Item>, chunk: seq<Item>)
    requires items == done + chunk && Boundary(env.size, |done|) && |chunk| < env.size && Paired(m)
    requires m.stage.ok <==> Smooth(env, items, |done|)
    requires m.stage.ok ==> m.written == |done| && m.buffer == Places(chunk) && m.pending == Submissions(chunk)
    ensures m.stage.ok && Flush(env, m).stage.ok <==> Smooth(env, items, |items|)
  {
    if chunk != [] {
      ChunkIsSmooth(env, items, |done|, |chunk|);
      if m.stage.ok {
        LastFlush(env, items, m, done, chunk);
      }
    }
  }

  lemma LastFlush(env: Env, items: seq<Item>, m: Progress, done: seq<Item>, chunk: seq<Item>)
    requires items == done + chunk && chunk != [] && m.stage.ok
    requires m.written == |done| && m.buffer == Places(chunk) && m.pending == Submissions(chunk)
    ensures var k, l := |done|, |chunk|;
            Flush(env, m).stage.ok <==> !env.flushFails(k) && ChunkGoesIn(items, k, l) && ChunkStored(env, items, k, l)
  {
    MiddleIs(done, chunk);
    ChunkFlushes(env, items, m, |done|, |chunk|);
  }

  lemma MiddleIs<T>(a: seq<T>, b: seq<T>)
    ensures (a + b)[|a|..|a| + |b|] == b
  {
  }

  lemma CompletedIsValid(env: Env, s: State, items: seq<Item>)
    requires Valid(s) && WholeImport(env, s, items).stage.ok
    ensures Valid(WholeImport(env, s, items).db) && WholeImport(env, s, items).written == |items|
  {
    var done, chunk := SinkAllBuffers(env, s, items);
    FinalFlushLoads(env, s, done, chunk, SinkAll(env, Start(s), items));
  }

  lemma FlushKeepsCreated(env: Env, m: Progress)
    requires Paired(m)
    ensures KeepsCreated(m.db, Flush(env, m).db)
  {
    ImportKeepsCreated(m.db, m.buffer, env.flushAt(m.written));
  }

  lemma {:induction false} SinkAllKeepsCreated(env: Env, m: Progress, items: seq<Item>)
    requires Paired(m)
    ensures KeepsCreated(m.db, SinkAll(env, m, items).db)
  {
    if items != [] {
      var n := |items| - 1;
      var before := SinkAll(env, m, items[..n]);
      SinkAllKeepsCreated(env, m, items[..n]);
      FlushKeepsCreated(env, before.(buffer := before.buffer + [items[n].place], pending := before.pending + [items[n].profile]));
    }
  }

  lemma WholeImportKeepsCreated(env: Env, s: State, items: seq<Item>)
    ensures KeepsCreated(s, WholeImport(env, s, items).db)
  {
    SinkAllKeepsCreated(env, Start(s), items);
    FlushKeepsCreated(env, SinkAll(env, Start(s), items));
  }

  /** Two imports of the same items with nothing in between, whatever the batch sizes: the second
      reproduces the tables up to updated_at exactly when every item has an OSM id, and then touches
      the very same rows. (With the sweeps that follow each import, see RepeatedRuns.) */
  lemma RepeatedImportReproducesIff(env: Env, env': Env, s: State, items: seq<Item>)
    requires Valid(s) && WholeImport(env, s, items).stage.ok
    requires WholeImport(env', WholeImport(env, s, items).db, items).stage.ok
    ensures var r := WholeImport(env, s, items); var r' := WholeImport(env', r.db, items);
            && (Undated(r'.db) == Undated(r.db) <==> Keyed(Places(items)))
            && (Keyed(Places(items)) ==> r'.stage.touched == r.stage.touched)
  {
    var r, ps := WholeImport(env, s, items), Places(items);
    var r', t := WholeImport(env', r.db, items), Imported(s, ps, 0);
    CompletedIsValid(env, s, items);
    ImportIsOneByOne(env, s, items, 0);
    ImportIsOneByOne(env', r.db, items, 0);
    UpsertsKeepValid(s, ps, 0);
    TimesDoNotMatter(r.db, ps, 0);
    TimesDoNotMatter(t, ps, 0);
    RepeatingIsTimelessIff(s, ps, 0, 0);
    WholeImportKeepsCreated(env', r.db, items);
    UndatedIff(r.db, r'.db);
    forall i | 0 <= i < |ps| && Keyed(ps)
      ensures r'.stage.touched[i] == r.stage.touched[i]
    {
      assert ps[i] in ps;
      ReturnedIdsHoldTheKeys(s, ps, 0, i);
      SameUpToTimes(r.db, t);
      IdFollowsKey(r.db, ps, 0, i, r.stage.touched[i]);
    }
  }

  // ---------------------------------------------------------------- what is written, and what a failure leaves

  function CountProfiles(pending: seq<Submission>): nat {
    if pending == [] then 0 else CountProfiles(pending[..|pending| - 1]) + if pending[|pending| - 1].Some? then 1 else 0
  }

  /** There is one write for each profile, in order: that of item `i` comes after those of the items
      before, goes to the row of item `i` and carries its profile. */
  lemma {:induction false} WriteOfItem(env: Env, ids: seq<PlaceId>, pending: seq<Submission>, k: nat, i: nat)
    requires |ids| == |pending| && i < |ids|
    ensures var ws := ProfileWrites(env, ids, pending, k);
            && |ws| == CountProfiles(pending)
            && (pending[i].Some? ==>
                  && CountProfiles(pending[..i]) < |ws|
                  && ws[CountProfiles(pending[..i])] == Ingest(ids[i], env.newId(k + i), pending[i].value, env.profileAt(k + i)))
    decreases |ids|
  {
    var n := |ids| - 1;
    ProfilesCounted(env, ids[..n], pending[..n], k);
    if i < n {
      assert pending[..n][..i] == pending[..i];
      WriteOfItem(env, ids[..n], pending[..n], k, i);
    }
  }

  lemma {:induction false} ProfilesCounted(env: Env, ids: seq<PlaceId>, pending: seq<Submission>, k: nat)
    requires |ids| == |pending|
    ensures |ProfileWrites(env, ids, pending, k)| == CountProfiles(pending)
    decreases |ids|
  {
    if ids != [] {
      ProfilesCounted(env, ids[..|ids| - 1], pending[..|ids| - 1], k);
    }
  }

  /** Item `f` is the first whose profile write fails. */
  ghost predicate FailsFirst(env: Env, pending: seq<Submission>, k: nat, f: nat) {
    f < |pending| && pending[f].Some? && env.profileFails(k + f) && Storable(env, pending[..f], k)
  }

  lemma {:induction false} StoreAllFails(env: Env, st: Stage, ids: seq<PlaceId>, pending: seq<Submission>, k: nat) returns (f: nat)
    requires |ids| == |pending| && st.ok && !StoreAll(env, st, ids, pending, k).ok
    ensures FailsFirst(env, pending, k, f)
    ensures StoreAll(env, st, ids, pending, k)
         == Stage(st.touched + ids[..f + 1], st.writes + ProfileWrites(env, ids[..f], pending[..f], k), false)
    decreases |ids|
  {
    var n := |ids| - 1;
    var before := StoreAll(env, st, ids[..n], pending[..n], k);
    if before.ok {
      f := n;
      StoreAllMeaning(env, st, ids[..n], pending[..n], k);
      StoreAllSucceedsIff(env, st, ids[..n], pending[..n], k);
      assert ids[..n + 1] == ids[..n] + [ids[n]];
      Associative(st.touched, ids[..n], [ids[n]]);
    } else {
      f := StoreAllFails(env, st, ids[..n], pending[..n], k);
      assert pending[..n][..f] == pending[..f] && ids[..n][..f] == ids[..f] && ids[..n][..f + 1] == ids[..f + 1];
    }
  }

  /** A refused batch changes nothing. When a profile write fails, the batch is in, the profiles before
      that one are written, the places up to it are touched, and the buffer is kept. */
  lemma FailedFlushMeans(env: Env, m: Progress)
    requires Paired(m) && m.stage.ok && !Flush(env, m).stage.ok
    ensures var r := Flush(env, m); var ids := ImportedIds(m.db, m.buffer, env.flushAt(m.written));
            if env.flushFails(m.written) || !NoRepeatedKey(m.buffer) then r == m.(stage := m.stage.(ok := false))
            else exists f :: FailsFirst(env, m.pending, m.written, f) && StoppedAt(env, m, r, ids, f)
  {
    if !(env.flushFails(m.written) || !NoRepeatedKey(m.buffer)) {
      var f := StoreAllFails(env, m.stage, ImportedIds(m.db, m.buffer, env.flushAt(m.written)), m.pending, m.written);
      assert StoppedAt(env, m, Flush(env, m), ImportedIds(m.db, m.buffer, env.flushAt(m.written)), f);
    }
  }

  ghost predicate StoppedAt(env: Env, m: Progress, r: Progress, ids: seq<PlaceId>, f: nat) {
    && f < |ids| == |m.pending|
    && r.db == Imported(m.db, m.buffer, env.flushAt(m.written)) && r.written == m.written + |m.buffer|
    && r.buffer == m.buffer && r.pending == m.pending
    && r.stage.touched == m.stage.touched + ids[..f + 1]
    && r.stage.writes == m.stage.writes + ProfileWrites(env, ids[..f], m.pending[..f], m.written)
  }

  /** Which writes find no verified row. */
  ghost function Writing(t: Table, ws: seq<Write>): nat -> bool {
    (i: nat) => i < |ws| && !Verified(Row(AfterAll(t, ws[..i]), ws[i].place))
  }

  ghost function Chosen(p: nat -> bool, n: nat): set<nat> {
    set i: nat | i < n && p(i)
  }

  /** The counter of written profiles counts the writes that found no verified row. */
  lemma {:induction false} CountWrittenMeans(t: Table, ws: seq<Write>)
    ensures CountWritten(t, ws) == |Chosen(Writing(t, ws), |ws|)|
  {
    if ws == [] {
      assert Chosen(Writing(t, ws), 0) == {};
    } else {
      var n := |ws| - 1;
      CountWrittenMeans(t, ws[..n]);
      forall i: nat | i < n
        ensures Writing(t, ws[..n])(i) <==> Writing(t, ws)(i)
      {
        assert ws[..n][..i] == ws[..i];
      }
      OneMoreCounted(Writing(t, ws[..n]), Writing(t, ws), n);
    }
  }

  lemma OneMoreCounted(was: nat -> bool, now: nat -> bool, n: nat)
    requires forall i: nat :: i < n ==> (was(i) <==> now(i))
    ensures |Chosen(now, n + 1)| == |Chosen(was, n)| + if now(n) then 1 else 0
  {
    assert Chosen(now, n + 1) == Chosen(was, n) + if now(n) then {n} else {};
  }
}
