/**
 * What removeContactFromBubble, closeBubble (with its serial unsubscribe queue) and
 * deleteBubble of lib/services/Bubbles.js do, as functions of the room list and of the
 * collaborators' replies. The methods of BubblesService.Bubbles are proved to have
 * exactly these effects; the lemmas here state what the effects guarantee.
 */
module BubbleClose {
  import opened Remote
  import opened BubbleRooms

  /** What an operation did: how its promise settled, the room list after it, the calls it made. */
  datatype Effect<+T> = Effect(result: Settled<T, Error>, rooms: seq<Room>, actions: seq<Action>)

  /**
   * How the operations that fetch the room again after their remote call end: the
   * snapshot replaces the entry with its id and resolves; the fetch has no error
   * handler, so a failed or unanswered fetch leaves the promise pending and the list as it was.
   */
  ghost predicate Refetched(before: seq<Room>, refetch: Reply<Room>, result: Settled<Room, Error>, after: seq<Room>)
  {
    && (refetch.Ok? ==> result == Resolved(refetch.value) && after == ReplaceById(before, refetch.value))
    && (!refetch.Ok? ==> result == Pending && after == before)
  }

  /** The remote call removeContactFromBubble makes for `contactId`: none, or one chosen by its last status. */
  function RemovalCalls(room: Room, contactId: string): seq<Action>
  {
    match LastStatus(room.users, contactId)
    case Some(s) =>
      if s.Invited? then [RestRemoveInvitation(contactId, room.id)]
      else if s.Accepted? then [RestUnsubscribeContact(contactId, room.id)]
      else []
    case None => []
  }

  /**
   * removeContactFromBubble(contact, bubble) answered by `reply`: the LAST entry for the
   * contact decides; an invitation is cancelled, an accepted member unsubscribed, and
   * anything else (or no entry) resolves with the room itself and no remote call.
   */
  ghost function RemoveEffect(rooms: seq<Room>, contact: Option<Contact>, bubble: Option<Room>, reply: Reply<Room>): (e: Effect<Room>)
    ensures contact.None? || bubble.None? ==> e == Effect(Rejected(BadRequest), rooms, [])
    ensures contact.Some? && bubble.Some? ==>
      var id, room := contact.value.id, bubble.value;
      (LastStatus(room.users, id) == Some(Invited) ==> e.actions == [RestRemoveInvitation(id, room.id)]) &&
      (LastStatus(room.users, id) == Some(Accepted) ==> e.actions == [RestUnsubscribeContact(id, room.id)]) &&
      (LastStatus(room.users, id) !in {Some(Invited), Some(Accepted)} ==> e == Effect(Resolved(room), rooms, []))
    ensures e.actions != [] ==>
      (reply.Ok? ==> e.result == Resolved(reply.value) && e.rooms == ReplaceById(rooms, reply.value)) &&
      (reply.Err? ==> e.result == Rejected(RemoteError(reply.reason)) && e.rooms == rooms) &&
      (reply.NoAnswer? ==> e.result == Pending && e.rooms == rooms)
  {
    if contact.None? || bubble.None? then Effect(Rejected(BadRequest), rooms, [])
    else
      var calls := RemovalCalls(bubble.value, contact.value.id);
      if calls == [] then Effect(Resolved(bubble.value), rooms, [])
      else
        match reply
        case Ok(snapshot) => Effect(Resolved(snapshot), ReplaceById(rooms, snapshot), calls)
        case Err(reason) => Effect(Rejected(RemoteError(reason)), rooms, calls)
        case NoAnswer => Effect(Pending, rooms, calls)
  }

  /** The ids of every user entry other than the local user's, in entry order. */
  function OthersOf(users: seq<Member>, localUserId: string): (r: seq<string>)
    ensures forall x :: x in r ==> x != localUserId
    ensures forall k :: 0 <= k < |users| && users[k].userId != localUserId ==> users[k].userId in r
    ensures forall x :: x in r ==> exists k :: 0 <= k < |users| && users[k].userId == x
  {
    if users == [] then []
    else
      var last := users[|users| - 1].userId;
      var r := OthersOf(users[..|users| - 1], localUserId);
      assert forall x :: x in r ==> exists k :: 0 <= k < |users| && users[k].userId == x by {
        forall x | x in r ensures exists k :: 0 <= k < |users| && users[k].userId == x {
          var k :| 0 <= k < |users| - 1 && users[..|users| - 1][k].userId == x;
          assert users[k].userId == x;
        }
      }
      assert forall k :: 0 <= k < |users| - 1 ==> users[k] == users[..|users| - 1][k];
      r + (if last != localUserId then [last] else [])
  }

  /**
   * The queue keeps the users' order: the ids queued for a concatenation are those of
   * its first part followed by those of its second, and one entry queues its own id
   * exactly when it is not the local user's, once.
   */
  lemma {:induction false} OthersOfAppend(a: seq<Member>, b: seq<Member>, localUserId: string)
    ensures OthersOf(a + b, localUserId) == OthersOf(a, localUserId) + OthersOf(b, localUserId)
    ensures |b| == 1 ==> OthersOf(b, localUserId) == (if b[0].userId != localUserId then [b[0].userId] else [])
    decreases |b|
  {
    if b == [] {
      assert a + b == a;
    } else {
      var init, last := b[..|b| - 1], b[|b| - 1];
      assert (a + b)[..|a + b| - 1] == a + init;
      assert (a + b)[|a + b| - 1] == last;
      OthersOfAppend(a, init, localUserId);
      var tail := if last.userId != localUserId then [last.userId] else [];
      AppendTwice(OthersOf(a, localUserId), OthersOf(init, localUserId), tail);
      if |b| == 1 {
        assert init == [];
      }
    }
  }

  /** closeBubble's queue: the other users in entry order, then the local user last. */
  function QueueOf(users: seq<Member>, localUserId: string): seq<string>
  {
    OthersOf(users, localUserId) + [localUserId]
  }

  /** How draining the unsubscribe queue ended. */
  datatype DrainEnd = Drained | Halted(error: Error) | Stalled

  datatype Drain = Drain(end: DrainEnd, rooms: seq<Room>, actions: seq<Action>)

  /**
   * unsubscribeParticipants from position `k` of the queue: one removal at a time, the
   * next only after the previous one resolved; `replies[j]` answers the removal of
   * `queue[j]`. An empty id is falsy for `if (participantID)` and ends the queue early.
   */
  ghost function DrainFrom(rooms: seq<Room>, room: Room, queue: seq<string>, replies: seq<Reply<Room>>, k: nat): Drain
    decreases |queue| - k
  {
    if k >= |queue| || queue[k] == "" then Drain(Drained, rooms, [])
    else
      var e := RemoveEffect(rooms, Some(Contact(queue[k])), Some(room), ReplyAt(replies, k));
      match e.result
      case Resolved(_) =>
        var d := DrainFrom(e.rooms, room, queue, replies, k + 1);
        d.(actions := e.actions + d.actions)
      case Rejected(error) => Drain(Halted(error), e.rooms, e.actions)
      case Pending => Drain(Stalled, e.rooms, e.actions)
  }

  /** A drain that continues after the calls `done` were already issued. */
  function Resume(done: seq<Action>, d: Drain): Drain
  {
    d.(actions := done + d.actions)
  }

  /** Proof helper: one unfolding of `DrainFrom` at position `k`. */
  lemma DrainStep(rooms: seq<Room>, room: Room, queue: seq<string>, replies: seq<Reply<Room>>, k: nat)
    requires k < |queue| && queue[k] != ""
    ensures var e := RemoveEffect(rooms, Some(Contact(queue[k])), Some(room), ReplyAt(replies, k));
      var d := DrainFrom(rooms, room, queue, replies, k);
      && (e.result.Resolved? ==> d == Resume(e.actions, DrainFrom(e.rooms, room, queue, replies, k + 1)))
      && (e.result.Rejected? ==> d == Drain(Halted(e.result.error), e.rooms, e.actions))
      && (e.result.Pending? ==> d == Drain(Stalled, e.rooms, e.actions))
  {
  }

  /** The queue ends at position `j`: past its last id, or at an empty id, which is falsy. */
  predicate QueueEnds(queue: seq<string>, j: nat)
  {
    j >= |queue| || queue[j] == ""
  }

  /** The removal of `queue[j]` does not resolve: it makes a remote call, and that call is not answered with a room. */
  ghost predicate Blocks(room: Room, queue: seq<string>, replies: seq<Reply<Room>>, j: nat)
  {
    !QueueEnds(queue, j) && RemovalCalls(room, queue[j]) != [] && !ReplyAt(replies, j).Ok?
  }

  /**
   * Where a drain from position `k` ends: the first position at which the queue ends
   * or whose removal does not resolve. Every removal before it resolved.
   */
  ghost function FirstBlocked(room: Room, queue: seq<string>, replies: seq<Reply<Room>>, k: nat): (j: nat)
    ensures k <= j
    ensures QueueEnds(queue, j) || Blocks(room, queue, replies, j)
    ensures forall i :: k <= i < j ==> !QueueEnds(queue, i) && !Blocks(room, queue, replies, i)
    decreases |queue| - k
  {
    if QueueEnds(queue, k) || Blocks(room, queue, replies, k) then k
    else FirstBlocked(room, queue, replies, k + 1)
  }

  /** The removal calls of the queue from position `k` when every one of them succeeds. */
  ghost function Plan(room: Room, queue: seq<string>, k: nat): seq<Action>
    decreases |queue| - k
  {
    if QueueEnds(queue, k) then []
    else RemovalCalls(room, queue[k]) + Plan(room, queue, k + 1)
  }

  /** The removal calls of the queue from position `k` up to, not including, position `j`. */
  ghost function PlanBetween(room: Room, queue: seq<string>, k: nat, j: nat): seq<Action>
    decreases j - k
  {
    if j <= k || k >= |queue| then []
    else RemovalCalls(room, queue[k]) + PlanBetween(room, queue, k + 1, j)
  }

  /**
   * The drain issues the planned removals in queue order and stops at the first one
   * that does not resolve: it drains exactly when the queue ends before any removal
   * fails, and then it issued the whole plan; otherwise it issued the removals before
   * that position and then that one, and it carries that call's error, or stalls when
   * the call never answers.
   */
  lemma {:induction false} DrainFollowsPlan(rooms: seq<Room>, room: Room, queue: seq<string>, replies: seq<Reply<Room>>, k: nat)
    ensures var d := DrainFrom(rooms, room, queue, replies, k);
      var j := FirstBlocked(room, queue, replies, k);
      && d.actions <= Plan(room, queue, k)
      && (d.end.Drained? <==> QueueEnds(queue, j))
      && (d.end.Drained? ==> d.actions == Plan(room, queue, k))
      && (!d.end.Drained? ==>
            && d.actions == PlanBetween(room, queue, k, j) + RemovalCalls(room, queue[j])
            && d.end == (if ReplyAt(replies, j).Err? then Halted(RemoteError(ReplyAt(replies, j).reason)) else Stalled))
    decreases |queue| - k
  {
    if !QueueEnds(queue, k) {
      var e := RemoveEffect(rooms, Some(Contact(queue[k])), Some(room), ReplyAt(replies, k));
      assert e.actions == RemovalCalls(room, queue[k]);
      if e.result.Resolved? {
        assert !Blocks(room, queue, replies, k);
        var rest := DrainFrom(e.rooms, room, queue, replies, k + 1);
        DrainStep(rooms, room, queue, replies, k);
        DrainFollowsPlan(e.rooms, room, queue, replies, k + 1);
        PrefixPrepend(e.actions, rest.actions, Plan(room, queue, k + 1));
        var j := FirstBlocked(room, queue, replies, k + 1);
        assert FirstBlocked(room, queue, replies, k) == j;
        assert PlanBetween(room, queue, k, j) == e.actions + PlanBetween(room, queue, k + 1, j);
        if !QueueEnds(queue, j) {
          AppendTwice(e.actions, PlanBetween(room, queue, k + 1, j), RemovalCalls(room, queue[j]));
        }
      } else {
        assert e.actions != [];
        assert Blocks(room, queue, replies, k);
        assert PlanBetween(room, queue, k, k) == [];
      }
    }
  }

  /**
   * How a drain ends, on its own: it drains exactly when the queue ends before any
   * removal fails; otherwise it carries the error of the first removal that failed, or
   * stalls when that removal never answered.
   */
  lemma DrainEndsAtFirstBlocked(rooms: seq<Room>, room: Room, queue: seq<string>, replies: seq<Reply<Room>>, k: nat)
    ensures var d := DrainFrom(rooms, room, queue, replies, k);
      var j := FirstBlocked(room, queue, replies, k);
      && (d.end.Drained? <==> QueueEnds(queue, j))
      && (!d.end.Drained? ==> d.end == (if ReplyAt(replies, j).Err? then Halted(RemoteError(ReplyAt(replies, j).reason)) else Stalled))
  {
    DrainFollowsPlan(rooms, room, queue, replies, k);
  }

  /**
   * How closing an open room settles, on its own: with the fetched room when the queue
   * drained and the fetch answered, pending when the fetch did not; otherwise with the
   * error of the first removal that failed, or pending when it never answered.
   */
  lemma CloseSettles(rooms: seq<Room>, room: Room, localUserId: string, removals: seq<Reply<Room>>, refetch: Reply<Room>)
    requires !Closed(room)
    ensures var e := CloseEffect(rooms, Some(room), localUserId, removals, refetch);
      var q := QueueOf(room.users, localUserId);
      var j := FirstBlocked(room, q, removals, 0);
      && (QueueEnds(q, j) ==> e.result == (if refetch.Ok? then Resolved(refetch.value) else Pending))
      && (!QueueEnds(q, j) ==> e.result == (if ReplyAt(removals, j).Err? then Rejected(RemoteError(ReplyAt(removals, j).reason)) else Pending))
  {
    DrainEndsAtFirstBlocked(rooms, room, QueueOf(room.users, localUserId), removals, 0);
  }

  /** Draining never adds, drops or reorders a room entry: the ids stay position by position. */
  lemma {:induction false} DrainKeepsIds(rooms: seq<Room>, room: Room, queue: seq<string>, replies: seq<Reply<Room>>, k: nat)
    ensures var d := DrainFrom(rooms, room, queue, replies, k);
      |d.rooms| == |rooms| && forall j :: 0 <= j < |rooms| ==> d.rooms[j].id == rooms[j].id
    decreases |queue| - k
  {
    if !QueueEnds(queue, k) {
      var e := RemoveEffect(rooms, Some(Contact(queue[k])), Some(room), ReplyAt(replies, k));
      if e.result.Resolved? {
        DrainKeepsIds(e.rooms, room, queue, replies, k + 1);
      }
    }
  }

  /** Every room a collaborator answers with, from position `k` of the script on, has the id `id`. */
  ghost predicate AnswersFor(replies: seq<Reply<Room>>, k: nat, id: string)
  {
    forall j :: k <= j < |replies| && replies[j].Ok? ==> replies[j].value.id == id
  }

  /**
   * When every answered removal returns the room being closed, draining changes no
   * entry whose id is another room's: only the closed room's entry can be replaced.
   */
  lemma {:induction false} DrainKeepsOtherRooms(rooms: seq<Room>, room: Room, queue: seq<string>, replies: seq<Reply<Room>>, k: nat)
    requires AnswersFor(replies, k, room.id)
    ensures var d := DrainFrom(rooms, room, queue, replies, k);
      |d.rooms| == |rooms| && forall i :: 0 <= i < |rooms| && rooms[i].id != room.id ==> d.rooms[i] == rooms[i]
    decreases |queue| - k
  {
    if !QueueEnds(queue, k) {
      var e := RemoveEffect(rooms, Some(Contact(queue[k])), Some(room), ReplyAt(replies, k));
      assert forall i :: 0 <= i < |rooms| && rooms[i].id != room.id ==> e.rooms[i] == rooms[i] && e.rooms[i].id == rooms[i].id by {
        if e.actions != [] && ReplyAt(replies, k).Ok? {
          assert ReplyAt(replies, k).value.id == room.id;
        }
      }
      if e.result.Resolved? {
        DrainKeepsOtherRooms(e.rooms, room, queue, replies, k + 1);
      }
    }
  }

  /** When every removal is answered with a room, the queue drains and the whole plan is issued. */
  lemma DrainsWhenAllSucceed(rooms: seq<Room>, room: Room, queue: seq<string>, replies: seq<Reply<Room>>, k: nat)
    requires forall j :: k <= j < |queue| ==> ReplyAt(replies, j).Ok?
    ensures DrainFrom(rooms, room, queue, replies, k).end == Drained
    ensures DrainFrom(rooms, room, queue, replies, k).actions == Plan(room, queue, k)
  {
    DrainFollowsPlan(rooms, room, queue, replies, k);
  }

  /**
   * The local user's own removal comes last: no planned call before the final one
   * targets the local user.
   */
  lemma LocalUserRemovedLast(room: Room, localUserId: string)
    ensures var p := Plan(room, QueueOf(room.users, localUserId), 0);
      forall j :: 0 <= j < |p| - 1 ==> NotRemoving(p[j], room, localUserId)
  {
    var queue := QueueOf(room.users, localUserId);
    assert forall j :: 0 <= j < |queue| - 1 ==> queue[j] in OthersOf(room.users, localUserId);
    PlanAvoids(room, queue, 0, localUserId);
  }

  /** `action` is not a removal of `userId` from `room`. */
  ghost predicate NotRemoving(action: Action, room: Room, userId: string)
  {
    action != RestRemoveInvitation(userId, room.id) && action != RestUnsubscribeContact(userId, room.id)
  }

  lemma {:induction false} PlanAvoids(room: Room, queue: seq<string>, k: nat, localUserId: string)
    requires forall j :: k <= j < |queue| - 1 ==> queue[j] != localUserId
    ensures forall j :: 0 <= j < |Plan(room, queue, k)| - 1 ==> NotRemoving(Plan(room, queue, k)[j], room, localUserId)
    decreases |queue| - k
  {
    if k < |queue| && queue[k] != "" {
      var calls, rest := RemovalCalls(room, queue[k]), Plan(room, queue, k + 1);
      assert |calls| <= 1;
      assert calls != [] ==>
        calls[0] == RestRemoveInvitation(queue[k], room.id) || calls[0] == RestUnsubscribeContact(queue[k], room.id);
      PlanAvoids(room, queue, k + 1, localUserId);
      if k == |queue| - 1 {
        assert rest == [];
      }
      var p := Plan(room, queue, k);
      assert p == calls + rest;
      forall j | 0 <= j < |p| - 1
        ensures NotRemoving(p[j], room, localUserId)
      {
        if j >= |calls| {
          assert p[j] == rest[j - |calls|];
        } else {
          assert rest != [] && k < |queue| - 1;
          assert p[j] == calls[0];
        }
      }
    }
  }

  /**
   * closeBubble(bubble): an already closed room resolves unchanged with no call.
   * Otherwise the queue is drained; after it drained the room is fetched again and the
   * snapshot replaces the entry with its id. That fetch has no error handler, so a
   * failed or unanswered fetch leaves the promise pending.
   */
  ghost function CloseEffect(rooms: seq<Room>, bubble: Option<Room>, localUserId: string,
                             removals: seq<Reply<Room>>, refetch: Reply<Room>): (e: Effect<Room>)
    ensures bubble.None? ==> e == Effect(Rejected(BadRequest), rooms, [])
    ensures bubble.Some? && Closed(bubble.value) ==> e == Effect(Resolved(bubble.value), rooms, [])
  {
    if bubble.None? then Effect(Rejected(BadRequest), rooms, [])
    else if IsBubbleClosed(bubble) == Returned(true) then Effect(Resolved(bubble.value), rooms, [])
    else
      var room := bubble.value;
      var d := DrainFrom(rooms, room, QueueOf(room.users, localUserId), removals, 0);
      match d.end
      case Halted(error) => Effect(Rejected(error), d.rooms, d.actions)
      case Stalled => Effect(Pending, d.rooms, d.actions)
      case Drained =>
        var actions := d.actions + [RestGetBubble(room.id)];
        match refetch
        case Ok(snapshot) => Effect(Resolved(snapshot), ReplaceById(d.rooms, snapshot), actions)
        case _ => Effect(Pending, d.rooms, actions)
  }

  /**
   * Closing an open room drains its queue as `DrainFollowsPlan` describes. When the
   * queue drained, the room is fetched again: the fetched snapshot replaces the entry
   * with its id and is what the close resolves with, and looking it up then gives it
   * (when the id is in the list). When a removal did not resolve, the close rejects with
   * that removal's error, or stays pending when it never answered, and no fetch is
   * made. Close never adds or drops an entry of the list.
   */
  lemma CloseFollowsPlan(rooms: seq<Room>, room: Room, localUserId: string, removals: seq<Reply<Room>>, refetch: Reply<Room>)
    requires !Closed(room)
    ensures var e := CloseEffect(rooms, Some(room), localUserId, removals, refetch);
      var q := QueueOf(room.users, localUserId);
      var d := DrainFrom(rooms, room, q, removals, 0);
      var j := FirstBlocked(room, q, removals, 0);
      && |e.rooms| == |rooms|
      && (QueueEnds(q, j) ==>
            && e.actions == Plan(room, q, 0) + [RestGetBubble(room.id)]
            && Refetched(d.rooms, refetch, e.result, e.rooms))
      && (!QueueEnds(q, j) ==>
            && e.actions <= Plan(room, q, 0)
            && e.actions == PlanBetween(room, q, 0, j) + RemovalCalls(room, q[j])
            && e.rooms == d.rooms
            && e.result == (if ReplyAt(removals, j).Err? then Rejected(RemoteError(ReplyAt(removals, j).reason)) else Pending))
      && (e.result.Resolved? && Known(rooms, e.result.value.id) ==> Find(e.rooms, ById(e.result.value.id)) == Some(e.result.value))
  {
    var d := DrainFrom(rooms, room, QueueOf(room.users, localUserId), removals, 0);
    DrainFollowsPlan(rooms, room, QueueOf(room.users, localUserId), removals, 0);
    DrainKeepsIds(rooms, room, QueueOf(room.users, localUserId), removals, 0);
    var e := CloseEffect(rooms, Some(room), localUserId, removals, refetch);
    if e.result.Resolved? && Known(rooms, e.result.value.id) {
      var snapshot := e.result.value;
      var k :| 0 <= k < |rooms| && rooms[k].id == snapshot.id;
      assert d.rooms[k].id == snapshot.id;
      assert Known(d.rooms, snapshot.id);
      ReplaceThenFind(d.rooms, snapshot);
    }
  }

  /**
   * An open room whose removals are all answered with a room, and whose fetch answers,
   * closes: every planned removal is issued, then the fetch, and the close resolves with
   * the fetched room, which replaces the entry with its id.
   */
  lemma CloseResolvesWhenAllSucceed(rooms: seq<Room>, room: Room, localUserId: string, removals: seq<Reply<Room>>, refetch: Reply<Room>)
    requires !Closed(room) && refetch.Ok?
    requires forall j :: 0 <= j < |QueueOf(room.users, localUserId)| ==> ReplyAt(removals, j).Ok?
    ensures var e := CloseEffect(rooms, Some(room), localUserId, removals, refetch);
      var q := QueueOf(room.users, localUserId);
      && e.result == Resolved(refetch.value)
      && e.actions == Plan(room, q, 0) + [RestGetBubble(room.id)]
      && e.rooms == ReplaceById(DrainFrom(rooms, room, q, removals, 0).rooms, refetch.value)
  {
    DrainsWhenAllSucceed(rooms, room, QueueOf(room.users, localUserId), removals, 0);
  }

  /** After a known room is replaced by id, looking it up by id gives the snapshot. */
  lemma ReplaceThenFind(rooms: seq<Room>, snapshot: Room)
    requires Known(rooms, snapshot.id)
    ensures Find(ReplaceById(rooms, snapshot), ById(snapshot.id)) == Some(snapshot)
  {
    var r := ReplaceById(rooms, snapshot);
    var k :| FirstMatch(rooms, ById(snapshot.id), k) && r == rooms[k := snapshot];
    assert FirstMatch(r, ById(snapshot.id), k);
    assert FindIndex(r, ById(snapshot.id)) == k;
  }

  /**
   * deleteBubble(bubble): close first; a close that rejects or stays pending ends the
   * delete before the remote delete is issued. After the remote delete succeeds, the
   * entry with the closed room's id is spliced out (the last entry when that id is not
   * in the list) and the result is OK; a failed remote delete rejects with its error and
   * leaves the list as the close left it.
   */
  ghost function DeleteEffect(rooms: seq<Room>, bubble: Option<Room>, localUserId: string,
                              removals: seq<Reply<Room>>, refetch: Reply<Room>, deleted: Reply<()>): (e: Effect<()>)
    ensures bubble.None? ==> e == Effect(Rejected(BadRequest), rooms, [])
    ensures var c := CloseEffect(rooms, bubble, localUserId, removals, refetch);
      && (c.result.Rejected? ==> e == Effect(Rejected(c.result.error), c.rooms, c.actions))
      && (c.result.Pending? ==> e == Effect(Pending, c.rooms, c.actions))
      && (c.result.Resolved? ==> e.actions == c.actions + [RestDeleteBubble(c.result.value.id)])
      && (e.result.Resolved? <==> c.result.Resolved? && deleted.Ok?)
      && (e.result.Resolved? ==> e.rooms == RemoveById(c.rooms, c.result.value.id))
      && (c.result.Resolved? && deleted.Err? ==> e.result == Rejected(RemoteError(deleted.reason)) && e.rooms == c.rooms)
      && (c.result.Resolved? && deleted.NoAnswer? ==> e.result == Pending && e.rooms == c.rooms)
  {
    var c := CloseEffect(rooms, bubble, localUserId, removals, refetch);
    match c.result
    case Rejected(error) => Effect(Rejected(error), c.rooms, c.actions)
    case Pending => Effect(Pending, c.rooms, c.actions)
    case Resolved(updated) =>
      var actions := c.actions + [RestDeleteBubble(updated.id)];
      match deleted
      case Ok(_) => Effect(Resolved(()), RemoveById(c.rooms, updated.id), actions)
      case Err(reason) => Effect(Rejected(RemoteError(reason)), c.rooms, actions)
      case NoAnswer => Effect(Pending, c.rooms, actions)
  }

  /** Closing a room never adds, drops or reorders entries: the ids stay position by position. */
  lemma CloseKeepsIds(rooms: seq<Room>, bubble: Option<Room>, localUserId: string, removals: seq<Reply<Room>>, refetch: Reply<Room>)
    ensures var c := CloseEffect(rooms, bubble, localUserId, removals, refetch);
      |c.rooms| == |rooms| && forall j :: 0 <= j < |rooms| ==> c.rooms[j].id == rooms[j].id
  {
    if bubble.Some? {
      DrainKeepsIds(rooms, bubble.value, QueueOf(bubble.value.users, localUserId), removals, 0);
    }
  }

  /**
   * When the removals and the fetch answer with the room being closed, closing it
   * changes no entry whose id is another room's.
   */
  lemma CloseKeepsOtherRooms(rooms: seq<Room>, bubble: Option<Room>, localUserId: string, removals: seq<Reply<Room>>, refetch: Reply<Room>)
    requires bubble.Some? ==> AnswersFor(removals, 0, bubble.value.id) && (refetch.Ok? ==> refetch.value.id == bubble.value.id)
    ensures var c := CloseEffect(rooms, bubble, localUserId, removals, refetch);
      |c.rooms| == |rooms| &&
      forall i :: 0 <= i < |rooms| && (bubble.None? || rooms[i].id != bubble.value.id) ==> c.rooms[i] == rooms[i]
  {
    if bubble.Some? {
      var room := bubble.value;
      var d := DrainFrom(rooms, room, QueueOf(room.users, localUserId), removals, 0);
      DrainKeepsOtherRooms(rooms, room, QueueOf(room.users, localUserId), removals, 0);
      DrainKeepsIds(rooms, room, QueueOf(room.users, localUserId), removals, 0);
    }
  }

  /**
   * With unique ids, a successful delete forgets the closed room: the list loses exactly
   * that entry and the ids stay unique. When the id is not in the list, the last entry
   * goes instead.
   */
  lemma DeleteForgetsRoom(rooms: seq<Room>, bubble: Option<Room>, localUserId: string,
                          removals: seq<Reply<Room>>, refetch: Reply<Room>, deleted: Reply<()>)
    requires UniqueIds(rooms)
    ensures var e := DeleteEffect(rooms, bubble, localUserId, removals, refetch, deleted);
      var c := CloseEffect(rooms, bubble, localUserId, removals, refetch);
      e.result.Resolved? ==>
        var id := c.result.value.id;
        && UniqueIds(e.rooms)
        && (Known(rooms, id) ==> |e.rooms| == |rooms| - 1 && !Known(e.rooms, id))
        && (!Known(rooms, id) ==> e.rooms == (if c.rooms == [] then [] else c.rooms[..|c.rooms| - 1]))
  {
    var e := DeleteEffect(rooms, bubble, localUserId, removals, refetch, deleted);
    var c := CloseEffect(rooms, bubble, localUserId, removals, refetch);
    CloseKeepsIds(rooms, bubble, localUserId, removals, refetch);
    if e.result.Resolved? {
      var id := c.result.value.id;
      assert UniqueIds(c.rooms) by {
        forall i, j | 0 <= i < j < |c.rooms| ensures c.rooms[i].id != c.rooms[j].id {
          assert c.rooms[i].id == rooms[i].id && c.rooms[j].id == rooms[j].id;
        }
      }
      assert Known(rooms, id) <==> Known(c.rooms, id) by {
        if Known(rooms, id) {
          var k :| 0 <= k < |rooms| && rooms[k].id == id;
          assert c.rooms[k].id == id;
        }
        if Known(c.rooms, id) {
          var k :| 0 <= k < |c.rooms| && c.rooms[k].id == id;
          assert rooms[k].id == id;
        }
      }
      RemoveKeepsIdsUnique(c.rooms, id);
    }
  }

  /** Removing an entry keeps ids unique; with unique ids the removed id is gone from the list. */
  lemma RemoveKeepsIdsUnique(rooms: seq<Room>, id: string)
    requires UniqueIds(rooms)
    ensures UniqueIds(RemoveById(rooms, id))
    ensures Known(rooms, id) ==> |RemoveById(rooms, id)| == |rooms| - 1 && !Known(RemoveById(rooms, id), id)
  {
    var r := RemoveById(rooms, id);
    if Known(rooms, id) {
      var k :| FirstMatch(rooms, ById(id), k) && r == rooms[..k] + rooms[k + 1..];
      assert forall j :: 0 <= j < |r| ==> r[j] == (if j < k then rooms[j] else rooms[j + 1]);
      forall i, j | 0 <= i < j < |r| ensures r[i].id != r[j].id {
      }
    } else if rooms != [] {
      assert forall j :: 0 <= j < |r| ==> r[j] == rooms[j];
    }
  }
}
