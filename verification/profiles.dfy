/** The accessibility_profiles table under its three writers (internal/place/repository.go,
    cmd/api/main.go, cmd/ingestion/main.go), each write one transaction. */
module Profiles {
  import opened Models
  import opened Audit

  /** At most one profile for each place. */
  type Table = map<PlaceId, Profile>

  /** What a PATCH makes of the stored profile (of none: of the empty one); None is a patch that
      does not apply. */
  type Merging = Option<Profile> -> Option<Profile>

  datatype Write =
    | Create(place: PlaceId, newId: string, profile: Profile, key: Option<string>, now: Time)
    | Patch(place: PlaceId, newId: string, merge: Merging, key: Option<string>, submitted: Time, now: Time)
    | Ingest(place: PlaceId, newId: string, profile: Profile, now: Time)

  function Row(t: Table, place: PlaceId): Option<Profile> {
    if place in t then Some(t[place]) else None
  }

  /** What the handlers write into a submitted profile. */
  function Submitted(p: Profile, key: Option<string>, submitted: Time): Profile {
    Flagged(p).(submittedBy := key, userVerified := p.userVerified || key.Some?, submittedAt := Some(submitted))
  }

  /** The columns a PATCH updates: all but id and place_id. */
  function PatchedRow(stored: Profile, p: Profile, now: Time): Profile {
    p.(id := stored.id, placeId := stored.placeId, updatedAt := now)
  }

  /** The columns ingestion updates: user_verified is not one of them. */
  function IngestedRow(stored: Profile, p: Profile, now: Time): Profile {
    stored.(reports := p.reports, parts := p.parts, submittedBy := None, submittedAt := None, updatedAt := now)
  }

  function NewRow(place: PlaceId, newId: string, p: Profile, now: Time): Profile {
    p.(id := newId, placeId := Some(place), updatedAt := now)
  }

  /** What the ingestion transaction leaves in the row. */
  function Ingested(stored: Option<Profile>, place: PlaceId, newId: string, p: Profile, now: Time): Profile {
    if stored.None? then NewRow(place, newId, p.(userVerified := false), now)
    else if stored.value.userVerified then stored.value
    else IngestedRow(stored.value, p, now)
  }

  /** The row a write leaves for its place, given the row it finds; None when it writes nothing. */
  function Change(stored: Option<Profile>, w: Write): Option<Profile> {
    match w
    case Create(place, newId, p, key, now) =>
      if stored.Some? then None else Some(NewRow(place, newId, Submitted(p, key, now), now))
    case Patch(place, newId, merge, key, submitted, now) =>
      var merged := merge(stored);
      if merged.None? then None
      else
        var p := Submitted(merged.value, key, submitted);
        Some(if stored.Some? then PatchedRow(stored.value, p, now) else NewRow(place, newId, p, now))
    case Ingest(place, newId, p, now) => Some(Ingested(stored, place, newId, Flagged(p), now))
  }

  function After(t: Table, w: Write): Table {
    var row := Change(Row(t, w.place), w);
    if row.None? then t else t[w.place := row.value]
  }

  function AfterAll(t: Table, run: seq<Write>): Table {
    if run == [] then t else After(AfterAll(t, run[..|run| - 1]), run[|run| - 1])
  }

  // ---------------------------------------------------------------- what a write leaves

  /** The row holds the reports and components of the submitted profile, with the flags of their facts. */
  ghost predicate HoldsFacts(row: Profile, p: Profile) {
    && row.reports == p.reports && row.parts.Keys == p.parts.Keys
    && forall s :: s in p.parts ==>
         && row.parts[s].facts == p.parts[s].facts
         && row.parts[s].isInherited == p.parts[s].isInherited && row.parts[s].sourceId == p.parts[s].sourceId
         && Tells(row.parts[s].facts, row.parts[s].auditFlags)
  }

  ghost predicate KeepsIdentity(row: Profile, stored: Option<Profile>, place: PlaceId, newId: string) {
    if stored.None? then row.id == newId && row.placeId == Some(place)
    else row.id == stored.value.id && row.placeId == stored.value.placeId
  }

  lemma FlaggedHoldsFacts(p: Profile)
    ensures HoldsFacts(Flagged(p), p)
  {
    forall s | s in p.parts
      ensures Tells(p.parts[s].facts, Flagged(p).parts[s].auditFlags)
    {
      FlagsTell(p.parts[s].facts);
    }
  }

  /** What creating a place leaves in its profile row: the submitted facts, submitter and time. */
  lemma CreateMeans(stored: Option<Profile>, w: Write)
    requires w.Create?
    ensures var row := Change(stored, w);
            && (row.None? <==> stored.Some?)
            && (row.Some? ==>
                  && HoldsFacts(row.value, w.profile) && KeepsIdentity(row.value, None, w.place, w.newId)
                  && row.value.submittedBy == w.key && row.value.submittedAt == Some(w.now) && row.value.updatedAt == w.now
                  && (row.value.userVerified <==> w.profile.userVerified || w.key.Some?))
  {
    FlaggedHoldsFacts(w.profile);
  }

  /** What a PATCH leaves: the merged facts, the submitter and the time, under the identity of the row. */
  lemma PatchMeans(stored: Option<Profile>, w: Write)
    requires w.Patch?
    ensures var row, merged := Change(stored, w), w.merge(stored);
            && (row.None? <==> merged.None?)
            && (row.Some? ==>
                  && HoldsFacts(row.value, merged.value) && KeepsIdentity(row.value, stored, w.place, w.newId)
                  && row.value.submittedBy == w.key && row.value.submittedAt == Some(w.submitted) && row.value.updatedAt == w.now
                  && (row.value.userVerified <==> merged.value.userVerified || w.key.Some?))
  {
    if w.merge(stored).Some? {
      FlaggedHoldsFacts(w.merge(stored).value);
    }
  }

  /** What ingestion leaves: a verified row as it was, else the source's facts, unverified; an update
      names no submitter. */
  lemma IngestMeans(stored: Option<Profile>, w: Write)
    requires w.Ingest?
    ensures var row := Change(stored, w);
            && row.Some?
            && (Verified(stored) ==> row == stored)
            && (!Verified(stored) ==>
                  && HoldsFacts(row.value, w.profile) && KeepsIdentity(row.value, stored, w.place, w.newId)
                  && !row.value.userVerified && row.value.updatedAt == w.now
                  && row.value.submittedBy == (if stored.None? then w.profile.submittedBy else None)
                  && row.value.submittedAt == (if stored.None? then w.profile.submittedAt else None))
  {
    FlaggedHoldsFacts(w.profile);
  }

  /** A write touches the row of its place only. */
  lemma WritesOneRow(t: Table, w: Write, place: PlaceId)
    ensures Row(After(t, w), place) == if place == w.place && Change(Row(t, place), w).Some? then Change(Row(t, place), w) else Row(t, place)
  {
  }

  class ProfileTable {
    var rows: Table

    constructor ()
      ensures rows == map[]
    {
      rows := map[];
    }

    /** A nil profile is an error; a verified row is skipped. `fails` is a database error. */
    method UpsertProfileIngestion(place: PlaceId, newId: string, profile: Option<Profile>, now: Time, fails: bool)
      returns (written: Option<bool>)
      modifies this
      ensures written.None? <==> profile == None || fails
      ensures written == Some(false) <==> !written.None? && Verified(Row(old(rows), place))
      ensures written != Some(true) ==> rows == old(rows)
      ensures written == Some(true) ==> rows == old(rows)[place := Ingested(Row(old(rows), place), place, newId, profile.value, now)]
    {
      if profile == None || fails { return None; }
      var p := profile.value;
      if place !in rows {
        rows := rows[place := Profile(newId, Some(place), p.reports, p.parts, false, p.submittedBy, p.submittedAt, now)];
        return Some(true);
      }
      if rows[place].userVerified {
        return Some(false);
      }
      rows := rows[place := rows[place].(reports := p.reports, parts := p.parts, updatedAt := now,
                                         submittedBy := None, submittedAt := None)];
      return Some(true);
    }

    /** What an import hands to its batcher: flags first, then the upsert. */
    method WriteProfile(place: PlaceId, newId: string, profile: Profile, now: Time, fails: bool) returns (written: Option<bool>)
      modifies this
      ensures written.None? <==> fails
      ensures rows == if fails then old(rows) else After(old(rows), Ingest(place, newId, profile, now))
      ensures written == Some(true) <==> !fails && !Verified(Row(old(rows), place))
    {
      ghost var stored := Row(rows, place);
      written := UpsertProfileIngestion(place, newId, Some(Flagged(profile)), now, fails);
      if written.Some? {
        assert written.value <==> !Verified(stored);
      }
      assert Verified(Row(old(rows), place)) ==> old(rows)[place := old(rows)[place]] == old(rows);
    }
  }

  predicate Verified(row: Option<Profile>) {
    row.Some? && row.value.userVerified
  }

  // ---------------------------------------------------------------- flags

  ghost predicate AllHonest(t: Table) {
    forall place :: place in t ==> Honest(t[place])
  }

  lemma ChangeIsHonest(stored: Option<Profile>, w: Write)
    requires stored.Some? ==> Honest(stored.value)
    ensures Change(stored, w).Some? ==> Honest(Change(stored, w).value)
  {
    match w
    case Create(_, _, p, key, now) => assert Honest(Flagged(p));
    case Patch(_, _, merge, key, submitted, now) =>
      if merge(stored).Some? { assert Honest(Flagged(merge(stored).value)); }
    case Ingest(_, _, p, now) => assert Honest(Flagged(p));
  }

  /** In every run every stored component carries exactly the flags of its own facts, whatever flags
      the client, the source or an earlier row supplied; so does everything a reader is shown. */
  lemma {:induction false} StoredFlagsAreHonest(t: Table, run: seq<Write>, child: PlaceId, parent: PlaceId, parentId: string)
    requires AllHonest(t)
    ensures AllHonest(AfterAll(t, run))
    ensures Honest(Effective(Row(AfterAll(t, run), child), parentId, Row(AfterAll(t, run), parent)))
  {
    if run != [] {
      var before, w := AfterAll(t, run[..|run| - 1]), run[|run| - 1];
      StoredFlagsAreHonest(t, run[..|run| - 1], child, parent, parentId);
      ChangeIsHonest(Row(before, w.place), w);
    }
    EffectiveProfileLaws(Row(AfterAll(t, run), child), parentId, Row(AfterAll(t, run), parent));
  }

  // ---------------------------------------------------------------- verification

  /** user_verified is read-only for clients: a merge keeps what was stored, a new place claims nothing. */
  ghost predicate ReadOnlyVerified(w: Write) {
    match w
    case Create(_, _, p, _, _) => !p.userVerified
    case Patch(_, _, merge, _, _, _) => forall row :: merge(row).Some? ==> merge(row).value.userVerified == Verified(row)
    case Ingest(_, _, _, _) => true
  }

  /** The write carries an API key and reaches the row. */
  predicate Vouches(stored: Option<Profile>, w: Write) {
    match w
    case Create(_, _, _, key, _) => key.Some? && stored.None?
    case Patch(_, _, merge, key, _, _) => key.Some? && merge(stored).Some?
    case Ingest(_, _, _, _) => false
  }

  lemma ChangeVerifies(stored: Option<Profile>, w: Write)
    requires ReadOnlyVerified(w)
    ensures Change(stored, w).Some? ==> (Verified(Change(stored, w)) <==> Verified(stored) || Vouches(stored, w))
    ensures Change(stored, w).None? ==> !Vouches(stored, w)
  {
  }

  /** A profile is verified exactly when someone with an API key has written it: no later write
      takes that away, and no ingestion gives it. */
  lemma {:induction false} VerifiedIff(t: Table, run: seq<Write>, place: PlaceId)
    requires forall w :: w in run ==> ReadOnlyVerified(w)
    ensures Verified(Row(AfterAll(t, run), place))
       <==> Verified(Row(t, place))
            || exists i :: 0 <= i < |run| && run[i].place == place && Vouches(Row(AfterAll(t, run[..i]), place), run[i])
  {
    if run != [] {
      var n := |run| - 1;
      VerifiedIff(t, run[..n], place);
      assert forall i :: 0 <= i < n ==> run[..n][i] == run[i] && run[..n][..i] == run[..i];
      ChangeVerifies(Row(AfterAll(t, run[..n]), run[n].place), run[n]);
    }
  }

  function WithoutIngestion(run: seq<Write>): seq<Write> {
    if run == [] then []
    else WithoutIngestion(run[..|run| - 1]) + if run[|run| - 1].Ingest? then [] else [run[|run| - 1]]
  }

  lemma AfterAllSnoc(t: Table, run: seq<Write>, w: Write)
    ensures AfterAll(t, run + [w]) == After(AfterAll(t, run), w)
  {
    assert (run + [w])[..|run|] == run;
  }

  /** Once a profile is verified, ingestion is invisible in it: the row is, column by column, what
      it would be had no ingestion run at all. */
  lemma {:induction false} VerifiedRowsIgnoreIngestion(t: Table, run: seq<Write>, place: PlaceId)
    requires forall w :: w in run ==> ReadOnlyVerified(w)
    requires Verified(Row(t, place))
    ensures Verified(Row(AfterAll(t, run), place))
    ensures Row(AfterAll(t, run), place) == Row(AfterAll(t, WithoutIngestion(run)), place)
  {
    if run != [] {
      var n := |run| - 1;
      VerifiedRowsIgnoreIngestion(t, run[..n], place);
      ChangeVerifies(Row(AfterAll(t, run[..n]), run[n].place), run[n]);
      if run[n].Ingest? {
        assert WithoutIngestion(run) == WithoutIngestion(run[..n]);
      } else {
        AfterAllSnoc(t, WithoutIngestion(run[..n]), run[n]);
      }
    }
  }

  /** No write changes the id or the place of a row. */
  lemma {:induction false} IdentityIsKept(t: Table, run: seq<Write>, place: PlaceId)
    requires place in t
    ensures place in AfterAll(t, run)
    ensures AfterAll(t, run)[place].id == t[place].id && AfterAll(t, run)[place].placeId == t[place].placeId
  {
    if run != [] {
      IdentityIsKept(t, run[..|run| - 1], place);
    }
  }

  // ---------------------------------------------------------------- ingesting the same again

  /** The last write to the place, and how many there are. */
  function LastFor(ws: seq<Write>, place: PlaceId): Option<Write> {
    if ws == [] then None
    else if ws[|ws| - 1].place == place then Some(ws[|ws| - 1]) else LastFor(ws[..|ws| - 1], place)
  }

  function CountFor(ws: seq<Write>, place: PlaceId): nat {
    if ws == [] then 0 else CountFor(ws[..|ws| - 1], place) + if ws[|ws| - 1].place == place then 1 else 0
  }

  ghost predicate OnlyIngests(ws: seq<Write>) {
    forall w :: w in ws ==> w.Ingest?
  }

  /** The same profiles for the same places; ids and clocks may differ. */
  ghost predicate SameSubmissions(ws: seq<Write>, ws': seq<Write>) {
    && |ws| == |ws'| && OnlyIngests(ws) && OnlyIngests(ws')
    && forall i :: 0 <= i < |ws| ==> ws[i].place == ws'[i].place && ws[i].Ingest? && ws'[i].Ingest? && ws[i].profile == ws'[i].profile
  }

  /** The row after ingestions of `ws`, started from `before`. */
  ghost predicate IsIngested(before: Option<Profile>, ws: seq<Write>, place: PlaceId, row: Option<Profile>) {
    var last := LastFor(ws, place);
    if last.None? || Verified(before) then row == before
    else
      && row.Some? && last.value.Ingest?
      && row.value.reports == last.value.profile.reports && row.value.parts == Flagged(last.value.profile).parts
      && !row.value.userVerified
      && (before.Some? ==> row.value.id == before.value.id && row.value.placeId == before.value.placeId)
      && (if before.None? && CountFor(ws, place) == 1
          then row.value.submittedBy == last.value.profile.submittedBy && row.value.submittedAt == last.value.profile.submittedAt
          else row.value.submittedBy == None && row.value.submittedAt == None)
  }

  lemma {:induction false} CountsAgree(ws: seq<Write>, place: PlaceId)
    ensures LastFor(ws, place).None? <==> CountFor(ws, place) == 0
  {
    if ws != [] {
      CountsAgree(ws[..|ws| - 1], place);
    }
  }

  lemma {:induction false} RowsAreIngested(t: Table, ws: seq<Write>, place: PlaceId)
    requires OnlyIngests(ws)
    ensures IsIngested(Row(t, place), ws, place, Row(AfterAll(t, ws), place))
  {
    if ws != [] {
      var n := |ws| - 1;
      assert ws[n] in ws && forall w :: w in ws[..n] ==> w in ws;
      RowsAreIngested(t, ws[..n], place);
      if ws[n].place == place {
        CountsAgree(ws[..n], place);
        IngestedOnce(Row(t, place), ws, place, Row(AfterAll(t, ws[..n]), place));
      }
    }
  }

  lemma IngestedOnce(before: Option<Profile>, ws: seq<Write>, place: PlaceId, row: Option<Profile>)
    requires ws != [] && ws[|ws| - 1].Ingest? && ws[|ws| - 1].place == place
    requires IsIngested(before, ws[..|ws| - 1], place, row)
    requires LastFor(ws[..|ws| - 1], place).None? <==> CountFor(ws[..|ws| - 1], place) == 0
    ensures IsIngested(before, ws, place, Change(row, ws[|ws| - 1]))
  {
  }

  lemma {:induction false} SameLast(ws: seq<Write>, ws': seq<Write>, place: PlaceId)
    requires SameSubmissions(ws, ws')
    ensures var a, b := LastFor(ws, place), LastFor(ws', place);
            && (a.None? <==> b.None?)
            && (a.Some? ==> a.value.Ingest? && b.value.Ingest? && a.value.profile == b.value.profile)
  {
    if ws != [] {
      var n := |ws| - 1;
      assert forall w :: w in ws[..n] ==> w in ws;
      assert forall w :: w in ws'[..n] ==> w in ws';
      SameLast(ws[..n], ws'[..n], place);
    }
  }

  /** The profiles without updated_at. */
  function Ageless(t: Table): Table {
    map place | place in t :: t[place].(updatedAt := 0)
  }

  predicate Unsigned(p: Profile) {
    p.submittedBy == None && p.submittedAt == None
  }

  /** Ingesting the same profiles again changes nothing but updated_at, exactly when no profile that
      is the only one for a place without a row names a submitter: the insert keeps the name, the
      update clears it. */
  lemma IngestingAgainIff(t: Table, ws: seq<Write>, ws': seq<Write>)
    requires SameSubmissions(ws, ws')
    ensures Ageless(AfterAll(AfterAll(t, ws), ws')) == Ageless(AfterAll(t, ws)) <==>
              forall i :: 0 <= i < |ws| && ws[i].place !in t && CountFor(ws, ws[i].place) == 1 ==> Unsigned(ws[i].profile)
  {
    var t1, t2 := AfterAll(t, ws), AfterAll(AfterAll(t, ws), ws');
    forall place
      ensures CountFor(ws, place) == 1 ==> LastFor(ws, place).Some? && LastFor(ws, place).value.Ingest?
      ensures RowAgain(t1, t2, place) <==> (place !in t && CountFor(ws, place) == 1 ==> Unsigned(LastFor(ws, place).value.profile))
    {
      RowsAreIngested(t, ws, place);
      RowsAreIngested(t1, ws', place);
      SameLast(ws, ws', place);
      CountsAgree(ws, place);
    }
    AgelessIff(t1, t2);
    forall i | 0 <= i < |ws| && CountFor(ws, ws[i].place) == 1
      ensures LastFor(ws, ws[i].place) == Some(ws[i])
    {
      OnlyOne(ws, i);
    }
    forall place | CountFor(ws, place) == 1
      ensures exists i :: 0 <= i < |ws| && ws[i].place == place && LastFor(ws, place) == Some(ws[i])
    {
      CountsAgree(ws, place);
      LastIsThere(ws, place);
    }
  }

  ghost predicate RowAgain(t1: Table, t2: Table, place: PlaceId) {
    (place in t1 <==> place in t2) && (place in t1 ==> t1[place].(updatedAt := 0) == t2[place].(updatedAt := 0))
  }

  lemma AgelessIff(t1: Table, t2: Table)
    ensures Ageless(t2) == Ageless(t1) <==> forall place :: RowAgain(t1, t2, place)
  {
    if Ageless(t2) == Ageless(t1) {
      assert t1.Keys == Ageless(t1).Keys == t2.Keys;
      forall place
        ensures RowAgain(t1, t2, place)
      {
        if place in t1 {
          assert Ageless(t1)[place] == Ageless(t2)[place];
        }
      }
    }
    if forall place :: RowAgain(t1, t2, place) {
      forall place
        ensures place in t1 <==> place in t2
        ensures place in t1 ==> t1[place].(updatedAt := 0) == t2[place].(updatedAt := 0)
      {
        assert RowAgain(t1, t2, place);
      }
      assert Ageless(t2) == Ageless(t1);
    }
  }

  lemma {:induction false} OnlyOne(ws: seq<Write>, i: nat)
    requires i < |ws|
    ensures CountFor(ws, ws[i].place) >= 1
    ensures CountFor(ws, ws[i].place) == 1 ==> LastFor(ws, ws[i].place) == Some(ws[i])
  {
    if i < |ws| - 1 {
      OnlyOne(ws[..|ws| - 1], i);
    } else {
      CountsAgree(ws, ws[i].place);
    }
  }

  lemma {:induction false} LastIsThere(ws: seq<Write>, place: PlaceId)
    requires LastFor(ws, place).Some?
    ensures exists i :: 0 <= i < |ws| && ws[i].place == place && LastFor(ws, place) == Some(ws[i])
  {
    if ws[|ws| - 1].place != place {
      LastIsThere(ws[..|ws| - 1], place);
      var i :| 0 <= i < |ws| - 1 && ws[..|ws| - 1][i].place == place && LastFor(ws[..|ws| - 1], place) == Some(ws[..|ws| - 1][i]);
      assert ws[i].place == place;
    }
  }

  lemma {:induction false} PlacesWithRows(t: Table, ws: seq<Write>, place: PlaceId)
    requires OnlyIngests(ws)
    ensures place in AfterAll(t, ws) <==> place in t || exists w :: w in ws && w.place == place
  {
    if ws != [] {
      var n := |ws| - 1;
      assert ws[n] in ws && forall w :: w in ws[..n] ==> w in ws;
      PlacesWithRows(t, ws[..n], place);
      assert ws == ws[..n] + [ws[n]];
      assert place in AfterAll(t, ws) <==> place in AfterAll(t, ws[..n]) || place == ws[n].place;
    }
  }
}
