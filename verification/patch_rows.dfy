/** What the serial order of concurrent PATCHes computes: each is a field-by-field update of the row
    left by the one before (internal/place/repository.go, pkg/models/accessibility.go, cmd/api/main.go). */
module PatchRows {
  import opened Models
  import opened MergePatch
  import opened ProfileJson
  import opened PatchProtocol

  /** The profile that "{}" decodes to. */
  const BLANK := Struct(map k | k in PROFILE.fields :: Nil)

  function Found(row: Option<Row>): Val {
    if row.None? then BLANK else row.value.profile
  }

  /** What the handler and the repository write into the merged profile. `stamp` depends on the client
      (its API key, its clock), on the attempt (which reads its own clock) and on whether a row was
      found (an insert sets the place and gets an id). */
  datatype Handler = Handler(key: Client -> Option<string>, stamp: (Client, nat, bool, Val) -> Val)

  /** Encode the row, merge, decode, stamp. The submitter is not in the JSON, so it is the client. */
  function PatchOf(h: Handler, c: Client, attempt: nat, row: Option<Row>, patch: Patch): Option<Row> {
    var merged := Patched(Found(row), patch);
    if merged.None? then None else Some(Row(h.stamp(c, attempt, row.Some?, merged.value), h.key(c)))
  }

  ghost predicate IsProfile(v: Val) {
    WellTyped(PROFILE, v)
  }

  /** Clients patch as above; stamping and ingesting a profile gives a profile. */
  ghost predicate WritesProfiles(u: Setup, h: Handler) {
    && (forall c, k, row, p :: u.apply(c, k, row, p) == PatchOf(h, c, k, row, p))
    && (forall c, k, found, v :: IsProfile(v) ==> IsProfile(h.stamp(c, k, found, v)))
    && (forall row, p: Row :: IsProfile(Found(row)) && IsProfile(p.profile) ==> IsProfile(u.ingest(row, p).profile))
  }

  /** Ingestion is only handed profiles. */
  ghost predicate IngestsProfiles(acts: seq<Action>) {
    forall a :: a in acts && a.Ingest? ==> IsProfile(a.profile.profile)
  }

  ghost predicate LogsProfiles(log: seq<Entry>) {
    forall e :: e in log && e.ByIngestion? ==> IsProfile(e.profile.profile)
  }

  lemma {:induction false} RunLogsProfiles(u: Setup, s: Sys, acts: seq<Action>, t: Sys)
    requires IsRun(u, s, acts, t) && IngestsProfiles(acts) && LogsProfiles(s.log)
    ensures LogsProfiles(t.log)
    decreases |acts|
  {
    if acts != [] {
      assert acts[0] in acts && forall a :: a in acts[1..] ==> a in acts;
      RunLogsProfiles(u, Do(u, s, acts[0]), acts[1..], t);
    }
  }

  lemma PatchIsProfile(u: Setup, h: Handler, c: Client, attempt: nat, row: Option<Row>, patch: Patch)
    requires WritesProfiles(u, h)
    ensures var r := u.apply(c, attempt, row, patch); r.Some? ==> IsProfile(r.value.profile)
  {
    DecodeIsWellTyped(PROFILE, Merge(Encode(Found(row)), patch));
  }

  lemma {:induction false} ReplayIsProfile(u: Setup, h: Handler, r0: Option<Row>, log: seq<Entry>)
    requires WritesProfiles(u, h) && IsProfile(Found(r0)) && LogsProfiles(log)
    ensures IsProfile(Found(Replay(u, r0, log)))
  {
    assert IsProfile(BLANK);
    if log != [] {
      var n := |log| - 1;
      var before := Replay(u, r0, log[..n]);
      assert log[n] in log && forall e :: e in log[..n] ==> e in log;
      ReplayIsProfile(u, h, r0, log[..n]);
      if log[n].ByClient? && log[n].c in u.patches {
        PatchIsProfile(u, h, log[n].c, log[n].attempt, before, u.patches[log[n].c]);
      }
    }
  }

  /** Each successful PATCH of a run is a field-by-field update of exactly the row its predecessor in
      commit order left (of the blank profile if it is the first), stamped by its own attempt and
      submitted by its own client: members its patch omits keep what earlier patches wrote, and
      nothing it read was stale. */
  lemma EveryPatchUpdatesTheLatestRow(u: Setup, h: Handler, s: Sys, acts: seq<Action>, t: Sys, c: Client)
    requires Starts(u, s) && IsRun(u, s, acts, t) && Succeeded(t, c)
    requires WritesProfiles(u, h) && IsProfile(Found(s.row)) && IngestsProfiles(acts)
    ensures c in u.patches
    ensures exists i: nat :: LogHas(t.log, i, c)
              && UpdatedBy(h, t.log[i], Replay(u, s.row, t.log[..i]), u.patches[c], t.txns[c].outcome.result)
  {
    PatchesAreSerializable(u, s, acts, t);
    RunKeepsInv(u, s.row, s, acts, t);
    RunLogsProfiles(u, s, acts, t);
    var o := t.txns[c].outcome;
    var i: nat :| WroteEntry(u, s.row, t.log, i, c, o) && (o.created <==> s.row.None? && i == 0);
    PrefixIsProfile(u, h, s.row, t.log, i);
    EntryUpdates(u, h, s.row, t.log, i, c, o);
  }

  lemma PrefixIsProfile(u: Setup, h: Handler, r0: Option<Row>, log: seq<Entry>, i: nat)
    requires WritesProfiles(u, h) && IsProfile(Found(r0)) && LogsProfiles(log) && i <= |log|
    ensures IsProfile(Found(Replay(u, r0, log[..i])))
  {
    assert forall e :: e in log[..i] ==> e in log;
    ReplayIsProfile(u, h, r0, log[..i]);
  }

  lemma EntryUpdates(u: Setup, h: Handler, r0: Option<Row>, log: seq<Entry>, i: nat, c: Client, o: Outcome)
    requires WroteEntry(u, r0, log, i, c, o) && c in u.patches && WritesProfiles(u, h)
    requires IsProfile(Found(Replay(u, r0, log[..i])))
    ensures LogHas(log, i, c) && UpdatedBy(h, log[i], Replay(u, r0, log[..i]), u.patches[c], o.result)
  {
    assert log[..i + 1][..i] == log[..i];
    PatchIsFieldwise(Found(Replay(u, r0, log[..i])), u.patches[c]);
  }

  predicate LogHas(log: seq<Entry>, i: nat, c: Client) {
    i < |log| && By(log[i], c)
  }

  ghost predicate UpdatedBy(h: Handler, e: Entry, before: Option<Row>, patch: Patch, result: Row)
    requires e.ByClient?
  {
    var updated := Update(PROFILE, Found(before), patch);
    updated.Some? && result == Row(h.stamp(e.c, e.attempt, before.Some?, updated.value), h.key(e.c))
  }

  /** Who is served depends on the place and the patch alone: unless its transaction is aborted, a client
      is told that the place is missing, or that the patch does not fit a profile, or it succeeds,
      whatever the other clients and ingestion do. */
  lemma WhoIsServed(u: Setup, h: Handler, s: Sys, acts: seq<Action>, t: Sys, c: Client)
    requires Starts(u, s) && IsRun(u, s, acts, t) && c in u.patches && Abort(c) !in acts
    requires WritesProfiles(u, h) && IsProfile(Found(s.row)) && IngestsProfiles(acts)
    requires c in t.txns && t.txns[c].Finished?
    ensures var o := t.txns[c].outcome;
            && (o == PlaceNotFound <==> !u.placeExists)
            && (o == InvalidPatch <==> u.placeExists && !Fits(PROFILE, u.patches[c]))
            && (o.Success? <==> u.placeExists && Fits(PROFILE, u.patches[c]))
  {
    var last := LastReading(u, s, acts, c);
    OutcomeIsDecided(u, s, acts, t, c);
    RunLogsProfiles(u, s, acts, t);
    if u.placeExists {
      PrefixIsProfile(u, h, s.row, t.log, last.value.writes);
      AppliesIff(u, h, c, last.value.attempt, Replay(u, s.row, t.log[..last.value.writes]), u.patches[c]);
    }
  }

  lemma AppliesIff(u: Setup, h: Handler, c: Client, attempt: nat, row: Option<Row>, patch: Patch)
    requires WritesProfiles(u, h) && IsProfile(Found(row))
    ensures u.apply(c, attempt, row, patch) != None <==> Fits(PROFILE, patch)
  {
    PatchIsFieldwise(Found(row), patch);
    FitsWhateverTheValue(PROFILE, Found(row), patch);
  }

  // ---------------------------------------------------------------- verification

  const VERIFIED := "user_verified"

  predicate IsVerified(row: Option<Row>) {
    row.Some? && Part(row.value.profile, VERIFIED) == Leaf(Bool(true))
  }

  /** A member of the schema that the patch leaves out keeps its value. */
  lemma OmittedMembersKeep(v: Val, patch: Json, k: string)
    requires WellTyped(PROFILE, v) && patch.Obj? && k in PROFILE.fields && k !in patch.fields && Patched(v, patch).Some?
    ensures Part(Patched(v, patch).value, k) == Part(v, k)
  {
    PatchIsFieldwise(v, patch);
    UpdateKeepsOmitted(PROFILE, v, patch, k);
  }

  lemma UpdateKeepsOmitted(shape: Shape, v: Val, patch: Json, k: string)
    requires shape.StructOf? && patch.Obj? && k in shape.fields && k !in patch.fields && Update(shape, v, patch).Some?
    ensures Part(Update(shape, v, patch).value, k) == Part(v, k)
  {
  }

  /** user_verified is read-only for clients; the handler sets it for a client with a key; ingestion
      skips a verified row and verifies none. */
  ghost predicate GuardsVerification(u: Setup, h: Handler) {
    && (forall c :: c in u.patches ==> u.patches[c].Obj? && VERIFIED !in u.patches[c].fields)
    && (forall c, k, found, v ::
          Part(h.stamp(c, k, found, v), VERIFIED) == if h.key(c).Some? then Leaf(Bool(true)) else Part(v, VERIFIED))
    && (forall row, p :: IsVerified(row) ==> u.ingest(row, p) == row.value)
    && (forall row, p :: !IsVerified(row) ==> !IsVerified(Some(u.ingest(row, p))))
  }

  /** Every client entry really wrote a row. */
  ghost predicate AllWrote(u: Setup, r0: Option<Row>, log: seq<Entry>) {
    forall i: nat :: i < |log| && log[i].ByClient? ==> log[i].c in u.patches && Replay(u, r0, log[..i + 1]).Some?
  }

  predicate Vouched(h: Handler, e: Entry) {
    e.ByClient? && h.key(e.c).Some?
  }

  lemma {:induction false} ReplayVerifies(u: Setup, h: Handler, r0: Option<Row>, log: seq<Entry>)
    requires WritesProfiles(u, h) && GuardsVerification(u, h)
    requires IsProfile(Found(r0)) && LogsProfiles(log) && AllWrote(u, r0, log)
    ensures IsVerified(Replay(u, r0, log)) <==> IsVerified(r0) || exists e :: e in log && Vouched(h, e)
  {
    if log != [] {
      var n := |log| - 1;
      assert log == log[..n] + [log[n]];
      PrefixAllWrote(u, r0, log, n);
      ReplayVerifies(u, h, r0, log[..n]);
      ReplayIsProfile(u, h, r0, log[..n]);
      assert log[..n + 1] == log;
      EntryVerifies(u, h, Replay(u, r0, log[..n]), log[n], Replay(u, r0, log));
    }
  }

  lemma PrefixAllWrote(u: Setup, r0: Option<Row>, log: seq<Entry>, n: nat)
    requires AllWrote(u, r0, log) && LogsProfiles(log) && n <= |log|
    ensures AllWrote(u, r0, log[..n]) && LogsProfiles(log[..n])
  {
    forall i: nat | i < n && log[..n][i].ByClient?
      ensures log[..n][i].c in u.patches && Replay(u, r0, log[..n][..i + 1]).Some?
    {
      assert log[..n][..i + 1] == log[..i + 1];
    }
    assert forall e :: e in log[..n] ==> e in log;
  }

  lemma EntryVerifies(u: Setup, h: Handler, before: Option<Row>, e: Entry, after: Option<Row>)
    requires WritesProfiles(u, h) && GuardsVerification(u, h) && IsProfile(Found(before))
    requires match e
             case ByClient(c, k) => c in u.patches && after.Some? && after == u.apply(c, k, before, u.patches[c])
             case ByIngestion(p) => after == Some(u.ingest(before, p))
    ensures IsVerified(after) <==> IsVerified(before) || Vouched(h, e)
  {
    if e.ByClient? {
      OmittedMembersKeep(Found(before), u.patches[e.c], VERIFIED);
    }
  }

  /** However PATCHes and ingestion interleave: the profile is verified at the end exactly when it was
      at the start, or a client with an API key has succeeded. Nothing takes it away. */
  lemma VerifiedIff(u: Setup, h: Handler, s: Sys, acts: seq<Action>, t: Sys)
    requires Starts(u, s) && IsRun(u, s, acts, t)
    requires WritesProfiles(u, h) && GuardsVerification(u, h) && IsProfile(Found(s.row)) && IngestsProfiles(acts)
    ensures IsVerified(t.row) <==> IsVerified(s.row) || exists c :: Succeeded(t, c) && h.key(c).Some?
  {
    PatchesAreSerializable(u, s, acts, t);
    RunKeepsInv(u, s.row, s, acts, t);
    RunLogsProfiles(u, s, acts, t);
    LogAllWrote(u, s.row, t);
    ReplayVerifies(u, h, s.row, t.log);
    SuccessesAreLogged(u, h, s.row, t);
  }

  lemma LogAllWrote(u: Setup, r0: Option<Row>, t: Sys)
    requires Inv(u, r0, t)
    ensures AllWrote(u, r0, t.log)
  {
    forall i: nat | i < |t.log| && t.log[i].ByClient?
      ensures t.log[i].c in u.patches && Replay(u, r0, t.log[..i + 1]).Some?
    {
      assert By(t.log[i], t.log[i].c) && Succeeded(t, t.log[i].c);
      RowsAppearOnce(u, r0, t, i + 1);
    }
  }

  lemma SuccessesAreLogged(u: Setup, h: Handler, r0: Option<Row>, t: Sys)
    requires Inv(u, r0, t)
    ensures (exists e :: e in t.log && Vouched(h, e)) <==> exists c :: Succeeded(t, c) && h.key(c).Some?
  {
    if e :| e in t.log && Vouched(h, e) {
      var i :| 0 <= i < |t.log| && t.log[i] == e;
      assert By(t.log[i], e.c) && Succeeded(t, e.c);
    }
    if c :| Succeeded(t, c) && h.key(c).Some? {
      assert TxnOk(u, r0, t.row, t.log, c, t.txns[c]);
      var i: nat :| WroteEntry(u, r0, t.log, i, c, t.txns[c].outcome);
      assert t.log[i] in t.log && Vouched(h, t.log[i]);
    }
  }
}
