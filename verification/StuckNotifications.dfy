// The stuck-notifications worker: it decides whether the message the cursor points
// at is still good and, if not, recomputes the cursor from the listing.

module StuckNotifications {
  import opened Wrappers
  import opened Inbox
  import CursorProtocol

  // The three listings a job may fetch; None is a failed fetch. Only comments use
  // `lookup` (the thing by its full name) and `confirm` (a first look at the inbox).
  datatype Views = Views(lookup: Option<seq<Thing>>, confirm: Option<seq<Thing>>, inbox: Option<seq<Thing>>)

  // The thing a scan for `id` stops at.
  function Find(things: seq<Thing>, id: nat): (found: Option<Thing>)
    ensures found.Some? ==> found.value in things && found.value.id == id
    ensures found.None? ==> forall t <- things :: t.id != id
  {
    if things == [] then None
    else if things[0].id == id then Some(things[0])
    else Find(things[1..], id)
  }

  datatype Verdict = LeaveAlone | Reset(cursor: Cursor)

  function Recompute(inbox: Option<seq<Thing>>): (v: Verdict) {
    if inbox.None? then LeaveAlone else Reset(FirstLive(inbox.value))
  }

  // What becomes of the cursor: a private message is judged by the inbox alone, a
  // comment must also be found undeleted by its name.
  function Judge(cursor: nat, private: bool, views: Views): (v: Verdict) {
    var things := if private then views.inbox else views.lookup;
    if things.None? then LeaveAlone
    else
      var found := Find(things.value, cursor);
      if found.None? || found.value.deleted then Recompute(views.inbox)
      else if private || views.confirm.None? || Find(views.confirm.value, cursor).Some? then LeaveAlone
      else Recompute(views.inbox)
  }

  class StuckNotificationsConsumer {
    var row: Account

    constructor (row: Account)
      ensures this.row == row
    {
      this.row := row;
    }

    // One job; `stored` tells whether the final row write succeeds.
    method Consume(private: bool, views: Views, stored: bool)
      modifies this
      ensures row == if old(row).cursor.None? then old(row)
                     else match Judge(old(row).cursor.value, private, views)
                       case LeaveAlone => old(row)
                       case Reset(cursor) => if stored then old(row).(cursor := cursor) else old(row)
    {
      var account := row;
      if account.cursor.None? {
        return;
      }
      var id := account.cursor.value;
      var things := if private then views.inbox else views.lookup;
      if things.None? {
        return;
      }
      var i := 0;
      while i < |things.value|
        invariant 0 <= i <= |things.value|
        invariant Find(things.value, id) == Find(things.value[i..], id)
      {
        var thing := things.value[i];
        if thing.id == id {
          if thing.deleted {
            break;
          }
          if private || views.confirm.None? {
            return;
          }
          var listed := Contains(views.confirm.value, id);
          if listed {
            return;
          }
          break;
        }
        assert things.value[i..][1..] == things.value[i + 1..];
        i := i + 1;
      }
      if views.inbox.None? {
        return;
      }
      var cursor := NewestLive(views.inbox.value);
      if stored {
        row := account.(cursor := cursor);
      }
    }
  }

  // The listing loop that sets `found`.
  method Contains(things: seq<Thing>, id: nat) returns (found: bool)
    ensures found <==> exists t <- things :: t.id == id
  {
    found := false;
    for i := 0 to |things|
      invariant found <==> exists t <- things[..i] :: t.id == id
    {
      if things[i].id == id {
        found := true;
      }
    }
    assert things[..|things|] == things;
  }

  // The loop that skips deleted things and breaks at the first other one.
  method NewestLive(things: seq<Thing>) returns (cursor: Cursor)
    ensures cursor == FirstLive(things)
  {
    cursor := None;
    for i := 0 to |things|
      invariant cursor == None && FirstLive(things) == FirstLive(things[i..])
    {
      if !things[i].deleted {
        return Some(things[i].id);
      }
      assert things[i..][1..] == things[i + 1..];
    }
  }

  // Scanning the listing for a message finds it exactly when it is listed there.
  lemma FindInListing(box: Box, cursor: nat)
    requires cursor < |box|
    ensures var found := Find(CursorProtocol.Listing(box).value, cursor);
            found == if cursor in Newest(box, 25) then Some(Thing(cursor, box[cursor].deleted)) else None
  {
    var page := Newest(box, LISTING_LIMIT);
    PageIsWindow(box, |box|, LISTING_LIMIT);
    var things := CursorProtocol.Listing(box).value;
    if cursor in page {
      var i :| 0 <= i < |page| && page[i] == cursor;
      assert things[i] in things && things[i].id == cursor;
    }
    var found := Find(things, cursor);
    if found.Some? {
      var i :| 0 <= i < |things| && things[i] == found.value;
      assert page[i] in page;
    }
  }

  // A listing shows a message once.
  ghost predicate ShownOnce(things: seq<Thing>) {
    forall t <- things, u <- things :: t.id == u.id ==> t == u
  }

  lemma FoundLive(things: seq<Thing>, id: nat)
    requires ShownOnce(things)
    ensures Thing(id, false) in things <==> Find(things, id).Some? && !Find(things, id).value.deleted
  {
    var found := Find(things, id);
    if found.Some? {
      assert found.value == Thing(id, found.value.deleted);
    }
  }

  // The cursor is reset exactly when its message is gone and the inbox could be read: a
  // private message when the inbox does not show it undeleted; a comment when its name does
  // not, or when it does and the inbox, asked a first time, does not list it. When a fetch
  // that the job comes to fails, the cursor is left alone.
  lemma ResetExactly(cursor: nat, private: bool, views: Views, to: Cursor)
    requires views.inbox.Some? ==> ShownOnce(views.inbox.value)
    requires views.lookup.Some? ==> ShownOnce(views.lookup.value)
    ensures Judge(cursor, private, views) == Reset(to) <==>
              && views.inbox.Some? && to == FirstLive(views.inbox.value)
              && if private then Thing(cursor, false) !in views.inbox.value
                 else
                   && views.lookup.Some?
                   && (Thing(cursor, false) in views.lookup.value ==>
                         views.confirm.Some? && forall t <- views.confirm.value :: t.id != cursor)
  {
    if private && views.inbox.Some? {
      FoundLive(views.inbox.value, cursor);
    } else if !private && views.lookup.Some? {
      FoundLive(views.lookup.value, cursor);
    }
  }

  // When all fetches succeed and agree with the inbox, the verdict is the one of the
  // cursor protocol: reset exactly when the cursor's message is missing, deleted or
  // out of the listing, and then to the newest undeleted listed message.
  lemma VerdictIsProtocolStep(box: Box, cursor: nat, private: bool, views: Views)
    requires cursor < |box|
    requires CursorProtocol.Listing(box) == views.inbox && views.confirm == views.inbox
    requires views.lookup.Some?
    requires forall t <- views.lookup.value :: t.id == cursor ==> t.deleted == box[cursor].deleted
    ensures var missing := !private && Find(views.lookup.value, cursor).None?;
            Judge(cursor, private, views) ==
            if CursorProtocol.Stuck(box, cursor, missing) then Reset(CursorProtocol.ResetCursor(box)) else LeaveAlone
  {
    FindInListing(box, cursor);
  }
}
