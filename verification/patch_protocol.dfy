/** Concurrent PATCHes of one place's profile: the transactions of UpsertProfile and
    upsertProfileAttempt (internal/place/repository.go) as interleaved database steps.
    Statements run at READ COMMITTED: SELECT .. FOR UPDATE waits for the row's lock holder and sees
    committed rows only; INSERT waits for an uncommitted insert of the same place_id and violates the
    unique index once one is committed. Ingestion writes of the same row may come in between. */
module PatchProtocol {
  import opened Models
  import opened MergePatch
  import opened ProfileJson

  type Client = nat
  /** The JSON form of the profile, and the submitted_by column, which is not part of it. */
  datatype Row = Row(profile: Val, submittedBy: Option<string>)
  type Patch = Json

  /** What does not change during a run. `apply` is what an attempt of one client makes of the row it
      read: merge, decode, and stamp with the client's key and the attempt's clock; None is a patch
      that cannot be applied. */
  datatype Setup = Setup(
    placeExists: bool,
    patches: map<Client, Patch>,
    apply: (Client, nat, Option<Row>, Patch) -> Option<Row>,
    ingest: (Option<Row>, Row) -> Row)

  datatype Outcome = Success(result: Row, created: bool) | PlaceNotFound | InvalidPatch | UniqueViolation | Aborted

  datatype Txn =
    | Waiting(attempt: nat)
    | Read(attempt: nat, seen: Option<Row>)
    | Wrote(attempt: nat, row: Row, inserted: bool)
    | Finished(outcome: Outcome)

  datatype Entry = ByClient(c: Client, attempt: nat) | ByIngestion(profile: Row)

  /** The committed row, the transactions, and the committed writes in commit order. */
  datatype Sys = Sys(row: Option<Row>, txns: map<Client, Txn>, log: seq<Entry>)

  datatype Action = Load(c: Client) | Write(c: Client) | Commit(c: Client) | Abort(c: Client) | Ingest(profile: Row)

  predicate HoldsLock(t: Txn) {
    (t.Read? && t.seen.Some?) || (t.Wrote? && !t.inserted)
  }

  predicate IsInserting(t: Txn) {
    t.Wrote? && t.inserted
  }

  ghost predicate Unlocked(s: Sys) {
    forall c :: c in s.txns ==> !HoldsLock(s.txns[c])
  }

  ghost predicate NoInsert(s: Sys) {
    forall c :: c in s.txns ==> !IsInserting(s.txns[c])
  }

  ghost predicate Enabled(u: Setup, s: Sys, a: Action) {
    match a
    case Load(c) => c in s.txns && s.txns[c].Waiting? && (s.row.Some? ==> Unlocked(s))
    case Write(c) =>
      && c in s.txns && c in u.patches && s.txns[c].Read?
      && (s.txns[c].seen.None? && u.apply(c, s.txns[c].attempt, None, u.patches[c]).Some? ==> NoInsert(s))
    case Commit(c) => c in s.txns && s.txns[c].Wrote?
    case Abort(c) => c in s.txns && !s.txns[c].Finished?
    case Ingest(_) => u.placeExists && Unlocked(s) && NoInsert(s)
  }

  function Set(s: Sys, c: Client, t: Txn): Sys {
    s.(txns := s.txns[c := t])
  }

  ghost function Do(u: Setup, s: Sys, a: Action): Sys
    requires Enabled(u, s, a)
  {
    match a
    case Load(c) =>
      if !u.placeExists then Set(s, c, Finished(PlaceNotFound)) else Set(s, c, Read(s.txns[c].attempt, s.row))
    case Write(c) =>
      var t := s.txns[c];
      var merged := u.apply(c, t.attempt, t.seen, u.patches[c]);
      if merged.None? then Set(s, c, Finished(InvalidPatch))
      else if t.seen.Some? then Set(s, c, Wrote(t.attempt, merged.value, false))
      else if s.row.None? then Set(s, c, Wrote(t.attempt, merged.value, true))
      else if t.attempt == 0 then Set(s, c, Waiting(1))
      else Set(s, c, Finished(UniqueViolation))
    case Commit(c) =>
      var t := s.txns[c];
      Set(s, c, Finished(Success(t.row, t.inserted))).(row := Some(t.row), log := s.log + [ByClient(c, t.attempt)])
    case Abort(c) => Set(s, c, Finished(Aborted))
    case Ingest(p) => s.(row := Some(u.ingest(s.row, p)), log := s.log + [ByIngestion(p)])
  }

  ghost predicate IsRun(u: Setup, s: Sys, acts: seq<Action>, t: Sys)
    decreases |acts|
  {
    if acts == [] then s == t
    else Enabled(u, s, acts[0]) && IsRun(u, Do(u, s, acts[0]), acts[1..], t)
  }

  /** Every client is about to make its first attempt. */
  ghost predicate Starts(u: Setup, s: Sys) {
    && s.log == [] && s.txns.Keys == u.patches.Keys
    && (s.row.Some? ==> u.placeExists)
    && forall c :: c in s.txns ==> s.txns[c] == Waiting(0)
  }

  // ---------------------------------------------------------------- the serial reading of a log

  /** The committed writes applied one after another. */
  function Replay(u: Setup, row: Option<Row>, log: seq<Entry>): Option<Row> {
    if log == [] then row
    else
      var n := |log| - 1;
      var before := Replay(u, row, log[..n]);
      match log[n]
      case ByClient(c, k) => if c in u.patches then u.apply(c, k, before, u.patches[c]) else before
      case ByIngestion(p) => Some(u.ingest(before, p))
  }

  predicate By(e: Entry, c: Client) {
    e.ByClient? && e.c == c
  }

  /** Client `c` wrote entry `i` and was told exactly what that write left in the row. */
  ghost predicate WroteEntry(u: Setup, row: Option<Row>, log: seq<Entry>, i: nat, c: Client, o: Outcome) {
    && i < |log| && By(log[i], c)
    && o.Success?
    && Replay(u, row, log[..i + 1]) == Some(o.result)
    && o.created == Replay(u, row, log[..i]).None?
  }

  /** What one transaction knows, given the committed row and the log. */
  ghost predicate TxnOk(u: Setup, r0: Option<Row>, row: Option<Row>, log: seq<Entry>, c: Client, t: Txn)
  {
    c in u.patches &&
    match t
    case Waiting(n) => n <= 1 && (n == 1 ==> row.Some?)
    case Read(n, seen) => n <= 1 && (n == 1 ==> seen.Some?) && (seen.Some? ==> row == seen)
    case Wrote(n, written, inserted) => u.apply(c, n, row, u.patches[c]) == Some(written) && inserted == row.None?
    case Finished(o) => if o.Success? then exists i :: WroteEntry(u, r0, log, i, c, o) else o != UniqueViolation
  }

  ghost predicate TxnsOk(u: Setup, r0: Option<Row>, s: Sys) {
    forall c :: c in s.txns ==> TxnOk(u, r0, s.row, s.log, c, s.txns[c])
  }

  ghost predicate LocksOk(s: Sys) {
    && (forall c, d :: c in s.txns && d in s.txns && HoldsLock(s.txns[c]) && HoldsLock(s.txns[d]) ==> c == d)
    && (forall c, d :: c in s.txns && d in s.txns && IsInserting(s.txns[c]) && IsInserting(s.txns[d]) ==> c == d)
  }

  predicate Succeeded(s: Sys, c: Client) {
    c in s.txns && s.txns[c].Finished? && s.txns[c].outcome.Success?
  }

  ghost predicate LogOk(s: Sys) {
    && (forall i, c :: 0 <= i < |s.log| && By(s.log[i], c) ==> Succeeded(s, c))
    && (forall i, j, c :: 0 <= i < j < |s.log| && By(s.log[i], c) ==> !By(s.log[j], c))
  }

  ghost predicate Inv(u: Setup, r0: Option<Row>, s: Sys) {
    && s.txns.Keys == u.patches.Keys
    && s.row == Replay(u, r0, s.log)
    && TxnsOk(u, r0, s) && LocksOk(s) && LogOk(s)
  }

  lemma ReplayExtends(u: Setup, r0: Option<Row>, s: Sys, e: Entry)
    ensures Replay(u, r0, s.log + [e]) ==
              match e
              case ByClient(c, k) => if c in u.patches then u.apply(c, k, Replay(u, r0, s.log), u.patches[c]) else Replay(u, r0, s.log)
              case ByIngestion(p) => Some(u.ingest(Replay(u, r0, s.log), p))
  {
    assert (s.log + [e])[..|s.log|] == s.log;
  }

  lemma LogEntriesStay(u: Setup, r0: Option<Row>, log: seq<Entry>, e: Entry, i: nat, c: Client, o: Outcome)
    requires WroteEntry(u, r0, log, i, c, o)
    ensures WroteEntry(u, r0, log + [e], i, c, o)
  {
    assert (log + [e])[..i + 1] == log[..i + 1] && (log + [e])[..i] == log[..i];
  }

  lemma StepKeepsInv(u: Setup, r0: Option<Row>, s: Sys, a: Action)
    requires Inv(u, r0, s) && Enabled(u, s, a)
    ensures Inv(u, r0, Do(u, s, a))
  {
    match a {
      case Load(c) => QuietStep(u, r0, s, a, c);
      case Write(c) => QuietStep(u, r0, s, a, c);
      case Abort(c) => QuietStep(u, r0, s, a, c);
      case Commit(c) => CommitKeepsInv(u, r0, s, c);
      case Ingest(p) => IngestKeepsInv(u, r0, s, p);
    }
  }

  /** A step that commits nothing: only transaction `c` changes. */
  lemma QuietStep(u: Setup, r0: Option<Row>, s: Sys, a: Action, c: Client)
    requires Inv(u, r0, s) && Enabled(u, s, a)
    requires a == Load(c) || a == Write(c) || a == Abort(c)
    ensures Inv(u, r0, Do(u, s, a))
  {
    var t := Do(u, s, a);
    assert TxnOk(u, r0, s.row, s.log, c, s.txns[c]);
    QuietLocks(u, s, a, c);
    assert t == s.(txns := s.txns[c := t.txns[c]]);
    OwnStep(u, r0, s, a, c);
    assert LogOk(t) by {
      assert forall d :: Succeeded(s, d) ==> Succeeded(t, d);
    }
  }

  lemma OwnStep(u: Setup, r0: Option<Row>, s: Sys, a: Action, c: Client)
    requires TxnsOk(u, r0, s) && Enabled(u, s, a)
    requires a == Load(c) || a == Write(c) || a == Abort(c)
    ensures var t := Do(u, s, a); c in t.txns && TxnOk(u, r0, t.row, t.log, c, t.txns[c])
  {
    assert TxnOk(u, r0, s.row, s.log, c, s.txns[c]);
  }

  lemma QuietLocks(u: Setup, s: Sys, a: Action, c: Client)
    requires LocksOk(s) && Enabled(u, s, a)
    requires a == Load(c) || a == Write(c) || a == Abort(c)
    requires s.txns[c].Read? && s.txns[c].seen.Some? ==> s.row.Some?
    ensures LocksOk(Do(u, s, a))
  {
    var t := Do(u, s, a);
    assert t == s.(txns := s.txns[c := t.txns[c]]);
    assert HoldsLock(t.txns[c]) ==> HoldsLock(s.txns[c]) || Unlocked(s);
    assert IsInserting(t.txns[c]) ==> NoInsert(s);
  }

  lemma OutcomeStays(u: Setup, r0: Option<Row>, row: Option<Row>, row': Option<Row>, log: seq<Entry>, e: Entry, d: Client, t: Txn)
    requires TxnOk(u, r0, row, log, d, t) && t.Finished?
    ensures TxnOk(u, r0, row', log + [e], d, t)
  {
    if t.outcome.Success? {
      var i :| WroteEntry(u, r0, log, i, d, t.outcome);
      LogEntriesStay(u, r0, log, e, i, d, t.outcome);
    }
  }

  lemma IngestKeepsInv(u: Setup, r0: Option<Row>, s: Sys, p: Row)
    requires Inv(u, r0, s) && Enabled(u, s, Ingest(p))
    ensures Inv(u, r0, Do(u, s, Ingest(p)))
  {
    var t := Do(u, s, Ingest(p));
    ReplayExtends(u, r0, s, ByIngestion(p));
    forall d | d in t.txns
      ensures TxnOk(u, r0, t.row, t.log, d, t.txns[d])
    {
      OthersSurviveIngest(u, r0, s, p, d);
    }
    IngestKeepsLog(u, s, p);
  }

  lemma OthersSurviveIngest(u: Setup, r0: Option<Row>, s: Sys, p: Row, d: Client)
    requires TxnsOk(u, r0, s) && Enabled(u, s, Ingest(p)) && d in s.txns
    ensures var t := Do(u, s, Ingest(p)); TxnOk(u, r0, t.row, t.log, d, s.txns[d])
  {
    assert TxnOk(u, r0, s.row, s.log, d, s.txns[d]) && !HoldsLock(s.txns[d]) && !IsInserting(s.txns[d]);
    if s.txns[d].Finished? {
      OutcomeStays(u, r0, s.row, Do(u, s, Ingest(p)).row, s.log, ByIngestion(p), d, s.txns[d]);
    }
  }

  lemma IngestKeepsLog(u: Setup, s: Sys, p: Row)
    requires LogOk(s) && LocksOk(s) && Enabled(u, s, Ingest(p))
    ensures LogOk(Do(u, s, Ingest(p))) && LocksOk(Do(u, s, Ingest(p)))
  {
    var t := Do(u, s, Ingest(p));
    assert forall d :: Succeeded(s, d) ==> Succeeded(t, d);
  }

  lemma CommitKeepsInv(u: Setup, r0: Option<Row>, s: Sys, c: Client)
    requires Inv(u, r0, s) && Enabled(u, s, Commit(c))
    ensures Inv(u, r0, Do(u, s, Commit(c)))
  {
    CommitWrites(u, r0, s, c);
    CommitTxns(u, r0, s, c);
    CommitKeepsLog(u, s, c);
  }

  lemma CommitTxns(u: Setup, r0: Option<Row>, s: Sys, c: Client)
    requires TxnsOk(u, r0, s) && LocksOk(s) && Enabled(u, s, Commit(c))
    requires var t := Do(u, s, Commit(c)); TxnOk(u, r0, t.row, t.log, c, t.txns[c])
    ensures TxnsOk(u, r0, Do(u, s, Commit(c)))
  {
    var t := Do(u, s, Commit(c));
    forall d | d in t.txns
      ensures TxnOk(u, r0, t.row, t.log, d, t.txns[d])
    {
      if d != c {
        OthersSurviveCommit(u, r0, s, c, d);
      }
    }
  }

  lemma CommitWrites(u: Setup, r0: Option<Row>, s: Sys, c: Client)
    requires Inv(u, r0, s) && Enabled(u, s, Commit(c))
    ensures var t := Do(u, s, Commit(c));
            t.row == Replay(u, r0, t.log) && TxnOk(u, r0, t.row, t.log, c, t.txns[c])
  {
    var t := Do(u, s, Commit(c));
    assert TxnOk(u, r0, s.row, s.log, c, s.txns[c]);
    ReplayExtends(u, r0, s, ByClient(c, s.txns[c].attempt));
    assert t.log[..|s.log|] == s.log && t.log[..|s.log| + 1] == t.log;
    assert WroteEntry(u, r0, t.log, |s.log|, c, t.txns[c].outcome);
  }

  lemma OthersSurviveCommit(u: Setup, r0: Option<Row>, s: Sys, c: Client, d: Client)
    requires TxnsOk(u, r0, s) && LocksOk(s) && Enabled(u, s, Commit(c)) && d in s.txns && d != c
    ensures var t := Do(u, s, Commit(c)); TxnOk(u, r0, t.row, t.log, d, s.txns[d])
  {
    assert TxnOk(u, r0, s.row, s.log, c, s.txns[c]) && TxnOk(u, r0, s.row, s.log, d, s.txns[d]);
    if s.txns[d].Finished? {
      OutcomeStays(u, r0, s.row, Do(u, s, Commit(c)).row, s.log, ByClient(c, s.txns[c].attempt), d, s.txns[d]);
    } else {
      assert HoldsLock(s.txns[c]) || IsInserting(s.txns[c]);
      assert HoldsLock(s.txns[c]) ==> !HoldsLock(s.txns[d]);
      assert IsInserting(s.txns[c]) ==> !IsInserting(s.txns[d]);
    }
  }

  lemma CommitKeepsLog(u: Setup, s: Sys, c: Client)
    requires LogOk(s) && LocksOk(s) && Enabled(u, s, Commit(c))
    ensures LogOk(Do(u, s, Commit(c))) && LocksOk(Do(u, s, Commit(c)))
  {
    var t := Do(u, s, Commit(c));
    assert forall d :: Succeeded(s, d) ==> Succeeded(t, d);
    assert !Succeeded(s, c) && Succeeded(t, c);
  }

  // ---------------------------------------------------------------- main results

  lemma {:induction false} RunKeepsInv(u: Setup, r0: Option<Row>, s: Sys, acts: seq<Action>, t: Sys)
    requires Inv(u, r0, s) && IsRun(u, s, acts, t)
    ensures Inv(u, r0, t)
    decreases |acts|
  {
    if acts != [] {
      StepKeepsInv(u, r0, s, acts[0]);
      RunKeepsInv(u, r0, Do(u, s, acts[0]), acts[1..], t);
    }
  }

  lemma {:induction false} RowsAppearOnce(u: Setup, r0: Option<Row>, s: Sys, i: nat)
    requires Inv(u, r0, s) && 0 < i <= |s.log|
    ensures Replay(u, r0, s.log[..i]).Some?
  {
    if s.log[i - 1].ByClient? {
      var c := s.log[i - 1].c;
      assert By(s.log[i - 1], c) && Succeeded(s, c);
      assert TxnOk(u, r0, s.row, s.log, c, s.txns[c]);
      var j :| WroteEntry(u, r0, s.log, j, c, s.txns[c].outcome);
      assert j == i - 1;
    } else {
      assert s.log[..i][..i - 1] == s.log[..i - 1];
    }
  }

  /** However the transactions interleave: the row is the committed writes applied in commit order;
      exactly the successful clients are in that order, each once, and each was told the row its own
      write produced; no one fails on the unique index; and a success says `created` exactly when
      it is the first write of a row that was absent. */
  lemma PatchesAreSerializable(u: Setup, s: Sys, acts: seq<Action>, t: Sys)
    requires Starts(u, s) && IsRun(u, s, acts, t)
    ensures t.row == Replay(u, s.row, t.log)
    ensures forall c :: c in u.patches ==> c in t.txns && t.txns[c] != Finished(UniqueViolation)
    ensures forall c, o :: c in t.txns && t.txns[c] == Finished(o) && o.Success? ==>
              exists i :: WroteEntry(u, s.row, t.log, i, c, o) && (o.created <==> s.row.None? && i == 0)
    ensures forall i, c :: 0 <= i < |t.log| && By(t.log[i], c) ==>
              Succeeded(t, c)
    ensures forall i, j, c :: 0 <= i < j < |t.log| && By(t.log[i], c) ==> !By(t.log[j], c)
  {
    assert Inv(u, s.row, s);
    RunKeepsInv(u, s.row, s, acts, t);
    forall c | c in u.patches
      ensures c in t.txns && t.txns[c] != Finished(UniqueViolation)
    {
      assert TxnOk(u, s.row, t.row, t.log, c, t.txns[c]);
    }
    forall c, o | c in t.txns && t.txns[c] == Finished(o) && o.Success?
      ensures exists i :: WroteEntry(u, s.row, t.log, i, c, o) && (o.created <==> s.row.None? && i == 0)
    {
      assert TxnOk(u, s.row, t.row, t.log, c, t.txns[c]);
      var i :| WroteEntry(u, s.row, t.log, i, c, o);
      if i > 0 {
        RowsAppearOnce(u, s.row, t, i);
      } else {
        assert t.log[..0] == [];
      }
    }
  }

  // ---------------------------------------------------------------- what each client is told

  /** An attempt read the row when `writes` entries were in the log. */
  datatype Reading = Reading(attempt: nat, writes: nat)

  /** The last time that `c` read the row, if it has. */
  ghost function LastReading(u: Setup, s: Sys, acts: seq<Action>, c: Client): Option<Reading>
    decreases |acts|
  {
    if acts == [] || !Enabled(u, s, acts[0]) then None
    else
      var later := LastReading(u, Do(u, s, acts[0]), acts[1..], c);
      if later.Some? then later else ReadingBy(s, acts[0], c)
  }

  function ReadingBy(s: Sys, a: Action, c: Client): Option<Reading> {
    if a == Load(c) && c in s.txns && s.txns[c].Waiting? then Some(Reading(s.txns[c].attempt, |s.log|)) else None
  }

  /** What the patch makes of the row as it was at the reading. */
  function Merged(u: Setup, r0: Option<Row>, log: seq<Entry>, c: Client, last: Option<Reading>): Option<Row> {
    if last.None? || c !in u.patches || last.value.writes > |log| then None
    else u.apply(c, last.value.attempt, Replay(u, r0, log[..last.value.writes]), u.patches[c])
  }

  /** What a transaction still under way or finished owes to its last reading. */
  ghost predicate Follows(u: Setup, r0: Option<Row>, s: Sys, c: Client, last: Option<Reading>)
    requires c in s.txns
  {
    && (last.Some? ==> last.value.writes <= |s.log|)
    && match s.txns[c]
       case Waiting(_) => true
       case Read(k, seen) => u.placeExists && last.Some? && last.value.attempt == k && seen == Replay(u, r0, s.log[..last.value.writes])
       case Wrote(_, row, _) => u.placeExists && last.Some? && Merged(u, r0, s.log, c, last) == Some(row)
       case Finished(o) =>
         match o
         case PlaceNotFound => !u.placeExists
         case InvalidPatch => u.placeExists && last.Some? && Merged(u, r0, s.log, c, last) == None
         case Success(result, _) => u.placeExists && last.Some? && Merged(u, r0, s.log, c, last) == Some(result)
         case UniqueViolation => false
         case Aborted => false
  }

  lemma ReadingStays(u: Setup, r0: Option<Row>, log: seq<Entry>, e: Entry, c: Client, last: Option<Reading>)
    requires last.Some? ==> last.value.writes <= |log|
    ensures Merged(u, r0, log + [e], c, last) == Merged(u, r0, log, c, last)
    ensures last.Some? ==> (log + [e])[..last.value.writes] == log[..last.value.writes]
  {
    if last.Some? {
      assert (log + [e])[..last.value.writes] == log[..last.value.writes];
    }
  }

  lemma StepFollows(u: Setup, r0: Option<Row>, s: Sys, a: Action, c: Client, last: Option<Reading>)
    requires Inv(u, r0, s) && Enabled(u, s, a) && a != Abort(c)
    requires c in s.txns && c in u.patches && Follows(u, r0, s, c, last)
    ensures var now := ReadingBy(s, a, c); var t := Do(u, s, a);
            c in t.txns && Follows(u, r0, t, c, if now.Some? then now else last)
  {
    assert TxnOk(u, r0, s.row, s.log, c, s.txns[c]);
    match a {
      case Load(d) => assert s.log[..|s.log|] == s.log;
      case Write(d) =>
      case Abort(d) =>
      case Commit(d) => ReadingStays(u, r0, s.log, ByClient(d, s.txns[d].attempt), c, last);
      case Ingest(p) => ReadingStays(u, r0, s.log, ByIngestion(p), c, last);
    }
  }

  lemma {:induction false} RunFollows(u: Setup, r0: Option<Row>, s: Sys, acts: seq<Action>, t: Sys, c: Client, last: Option<Reading>)
    requires Inv(u, r0, s) && IsRun(u, s, acts, t) && Abort(c) !in acts
    requires c in s.txns && c in u.patches && Follows(u, r0, s, c, last)
    ensures var later := LastReading(u, s, acts, c);
            c in t.txns && Follows(u, r0, t, c, if later.Some? then later else last)
    decreases |acts|
  {
    if acts != [] {
      var now := ReadingBy(s, acts[0], c);
      assert acts[0] in acts && forall a :: a in acts[1..] ==> a in acts;
      StepKeepsInv(u, r0, s, acts[0]);
      StepFollows(u, r0, s, acts[0], c, last);
      RunFollows(u, r0, Do(u, s, acts[0]), acts[1..], t, c, if now.Some? then now else last);
    }
  }

  /** The client's answer by its inputs: the place is missing; or its patch does not apply to the row
      it last read; or it succeeded, with the patch of that row and an entry of its own in the log. */
  ghost predicate Answered(u: Setup, r0: Option<Row>, t: Sys, c: Client, last: Option<Reading>)
    requires c in t.txns && t.txns[c].Finished?
  {
    var o := t.txns[c].outcome;
    && (o == PlaceNotFound <==> !u.placeExists)
    && (u.placeExists ==> last.Some? && last.value.attempt <= 1 && last.value.writes <= |t.log|)
    && (o == InvalidPatch <==> u.placeExists && Merged(u, r0, t.log, c, last) == None)
    && (o.Success? <==> u.placeExists && Merged(u, r0, t.log, c, last) != None)
    && (o.Success? ==> Merged(u, r0, t.log, c, last) == Some(o.result) && exists i :: WroteEntry(u, r0, t.log, i, c, o))
  }

  /** In every run without an abort of `c`, its outcome is decided by its inputs. In particular a client
      that lost the race to insert reads the winner's row and succeeds, if its patch applies to it. */
  lemma OutcomeIsDecided(u: Setup, s: Sys, acts: seq<Action>, t: Sys, c: Client)
    requires Starts(u, s) && IsRun(u, s, acts, t) && c in u.patches && Abort(c) !in acts
    requires c in t.txns && t.txns[c].Finished?
    ensures Answered(u, s.row, t, c, LastReading(u, s, acts, c))
  {
    assert Inv(u, s.row, s);
    RunKeepsInv(u, s.row, s, acts, t);
    assert TxnOk(u, s.row, t.row, t.log, c, t.txns[c]);
    RunFollows(u, s.row, s, acts, t, c, None);
    ReadingsAreOfTwoAttempts(u, s.row, s, acts, t, c);
  }

  lemma {:induction false} ReadingsAreOfTwoAttempts(u: Setup, r0: Option<Row>, s: Sys, acts: seq<Action>, t: Sys, c: Client)
    requires Inv(u, r0, s) && IsRun(u, s, acts, t) && c in u.patches
    ensures var last := LastReading(u, s, acts, c); last.Some? ==> last.value.attempt <= 1
    decreases |acts|
  {
    if acts != [] {
      assert TxnOk(u, r0, s.row, s.log, c, s.txns[c]);
      StepKeepsInv(u, r0, s, acts[0]);
      ReadingsAreOfTwoAttempts(u, r0, Do(u, s, acts[0]), acts[1..], t, c);
    }
  }

  // ---------------------------------------------------------------- progress

  function Rank(t: Txn): nat {
    match t
    case Waiting(n) => if n == 0 then 5 else 3
    case Read(n, _) => if n == 0 then 4 else 2
    case Wrote(_, _, _) => 1
    case Finished(_) => 0
  }

  function ActionsOf(acts: seq<Action>, c: Client): nat {
    if acts == [] then 0
    else (if !acts[0].Ingest? && acts[0].c == c then 1 else 0) + ActionsOf(acts[1..], c)
  }

  lemma {:induction false} RankBoundsSteps(u: Setup, r0: Option<Row>, s: Sys, acts: seq<Action>, t: Sys, c: Client)
    requires Inv(u, r0, s) && IsRun(u, s, acts, t) && c in u.patches
    ensures c in t.txns && ActionsOf(acts, c) + Rank(t.txns[c]) <= Rank(s.txns[c])
    decreases |acts|
  {
    if acts != [] {
      StepKeepsInv(u, r0, s, acts[0]);
      RankFalls(u, r0, s, acts[0], c);
      RankBoundsSteps(u, r0, Do(u, s, acts[0]), acts[1..], t, c);
    }
  }

  /** No client takes more than five steps, and unless its transaction is aborted it is then served: two
      attempts are always enough. */
  lemma EveryClientFinishes(u: Setup, s: Sys, acts: seq<Action>, t: Sys, c: Client)
    requires Starts(u, s) && IsRun(u, s, acts, t) && c in u.patches
    ensures c in t.txns && ActionsOf(acts, c) <= 5
    ensures ActionsOf(acts, c) == 5 ==> t.txns[c].Finished?
    ensures t.txns[c].Finished? && Abort(c) !in acts ==> Answered(u, s.row, t, c, LastReading(u, s, acts, c))
  {
    RankBoundsSteps(u, s.row, s, acts, t, c);
    if t.txns[c].Finished? && Abort(c) !in acts {
      OutcomeIsDecided(u, s, acts, t, c);
    }
  }

  lemma RankFalls(u: Setup, r0: Option<Row>, s: Sys, a: Action, c: Client)
    requires Inv(u, r0, s) && Enabled(u, s, a) && c in u.patches
    ensures var t := Do(u, s, a);
            c in t.txns && (if !a.Ingest? && a.c == c then 1 else 0) + Rank(t.txns[c]) <= Rank(s.txns[c])
  {
    assert TxnOk(u, r0, s.row, s.log, c, s.txns[c]);
  }

  /** No deadlock: while some client has not finished, some client can take a step of its own. */
  lemma SomeoneCanMove(u: Setup, r0: Option<Row>, s: Sys, c: Client)
    requires Inv(u, r0, s) && c in s.txns && !s.txns[c].Finished?
    ensures exists d :: Enabled(u, s, Load(d)) || Enabled(u, s, Write(d)) || Enabled(u, s, Commit(d))
  {
    if d :| d in s.txns && s.txns[d].Wrote? {
      assert Enabled(u, s, Commit(d));
    } else if d :| d in s.txns && HoldsLock(s.txns[d]) {
      assert Enabled(u, s, Write(d));
    } else if s.txns[c].Waiting? {
      assert Enabled(u, s, Load(c));
    } else {
      assert Enabled(u, s, Write(c));
    }
  }
}
