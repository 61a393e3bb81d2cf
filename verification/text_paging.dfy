/** Following the next_cursor text that clients see (cmd/api/main.go, internal/pagination/pagination.go). */
module TextPaging {
  import opened Models
  import opened Paging
  import opened Cursor
  import Uuid

  /** How times are written: the calendar of the time package. */
  datatype Writing = Writing(civil: Time -> Civil, time: Civil -> Time)

  /** The key of a stored row: whole microseconds of the years 0 to 9999, and an id of 128 bits. */
  predicate IsStored(w: Writing, k: Key) {
    && ValidCivil(w.civil(k.updatedAt)) && w.civil(k.updatedAt).nanos % 1000 == 0
    && w.time(w.civil(k.updatedAt)) == k.updatedAt && k.id < Uuid.SIZE
  }

  ghost predicate AllStored(w: Writing, snaps: seq<Table>) {
    forall i, id :: 0 <= i < |snaps| && id in snaps[i] ==> IsStored(w, Key(snaps[i][id].updatedAt, id))
  }

  function Written(w: Writing, k: Key): string {
    if Bytes(Uuid.Text(k.id)) then Encode(w.civil(k.updatedAt), Uuid.Text(k.id)) else ""
  }

  /** A cursor that cannot be decoded is ignored. */
  function CursorIn(w: Writing, text: Option<string>): Option<Key> {
    if text.None? then None
    else
      match Decode(text.value)
      case Refused(_) => None
      case Decoded(t, id) => Some(Key(w.time(t), Uuid.Number(id)))
  }

  datatype TextPage = TextPage(data: seq<Key>, next: Option<string>)

  /** The handler: decode the cursor, list, encode the next one. */
  function ListByText(w: Writing, t: Table, cursor: Option<string>, limit: nat): TextPage
    requires limit >= 1
  {
    var p := ListPlaces(t, CursorIn(w, cursor), limit);
    TextPage(p.data, if p.next.None? then None else Some(Written(w, p.next.value)))
  }

  function FollowByText(w: Writing, snaps: seq<Table>, cursor: Option<string>, limit: nat): Walk
    requires limit >= 1
  {
    if snaps == [] then Walk([], false)
    else
      var p := ListByText(w, snaps[0], cursor, limit);
      if p.next.None? then Walk(p.data, true)
      else var rest := FollowByText(w, snaps[1..], p.next, limit); Walk(p.data + rest.rows, rest.done)
  }

  /** The microsecond truncation loses nothing of a stored time. */
  lemma StoredKeysSurvive(w: Writing, k: Key)
    requires IsStored(w, k)
    ensures CursorIn(w, Some(Written(w, k))) == Some(k)
  {
    var t := w.civil(k.updatedAt);
    Uuid.CursorsOfIdsAreAccepted(t, k.id);
    assert Truncate(t) == t;
  }

  /** One page by text is the page by key, and its cursor reads as the key's. */
  lemma SamePage(w: Writing, t: Table, text: Option<string>, cursor: Option<Key>, limit: nat)
    requires limit >= 1 && CursorIn(w, text) == cursor
    requires forall id :: id in t ==> IsStored(w, Key(t[id].updatedAt, id))
    ensures var p, q := ListPlaces(t, cursor, limit), ListByText(w, t, text, limit);
            q.data == p.data && (q.next.None? <==> p.next.None?) && CursorIn(w, q.next) == p.next
  {
    var p := ListPlaces(t, cursor, limit);
    PageMeaning(t, cursor, limit);
    if p.next.Some? {
      StoredKeysSurvive(w, p.next.value);
    }
  }

  lemma LaterSnapshots(w: Writing, snaps: seq<Table>)
    requires snaps != [] && AllStored(w, snaps)
    ensures AllStored(w, snaps[1..])
    ensures forall id :: id in snaps[0] ==> IsStored(w, Key(snaps[0][id].updatedAt, id))
  {
    assert forall i :: 0 <= i < |snaps[1..]| ==> snaps[1..][i] == snaps[i + 1];
  }

  lemma {:induction false} TextWalk(w: Writing, snaps: seq<Table>, text: Option<string>, cursor: Option<Key>, limit: nat)
    requires limit >= 1 && AllStored(w, snaps) && CursorIn(w, text) == cursor
    ensures FollowByText(w, snaps, text, limit) == Follow(snaps, cursor, limit)
    decreases |snaps|
  {
    if snaps != [] {
      LaterSnapshots(w, snaps);
      SamePage(w, snaps[0], text, cursor, limit);
      TextWalk(w, snaps[1..], ListByText(w, snaps[0], text, limit).next, ListPlaces(snaps[0], cursor, limit).next, limit);
    }
  }

  /** A client that follows the encoded cursors walks exactly the pages of the keys themselves, whatever
      is written in between; so every row that is left alone for a completed traversal comes once. */
  lemma EncodedCursorsWalkTheSamePages(w: Writing, snaps: seq<Table>, limit: nat)
    requires limit >= 1 && AllStored(w, snaps)
    ensures FollowByText(w, snaps, None, limit) == Follow(snaps, None, limit)
    ensures forall k :: Untouched(snaps, k) && FollowByText(w, snaps, None, limit).done ==>
              Occurrences(FollowByText(w, snaps, None, limit).rows, k.id) == 1
  {
    TextWalk(w, snaps, None, None, limit);
    forall k | Untouched(snaps, k) && Follow(snaps, None, limit).done
      ensures Occurrences(Follow(snaps, None, limit).rows, k.id) == 1
    {
      UntouchedRowIsReturnedOnce(snaps, limit, k);
    }
  }
}
