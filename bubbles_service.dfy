/**
 * The bubble directory service of lib/services/Bubbles.js: the local list of rooms
 * (`_bubbles`) and the operations that change it. Every remote answer is a parameter;
 * the calls the service makes to REST and XMPP and the events it emits are appended,
 * in order, to `log`.
 */
module BubblesService {
  import opened Remote
  import opened BubbleRooms
  import opened BubbleClose

  /** The payload of an affiliation event: the room it is about and the new status. */
  datatype Affiliation = Affiliation(bubbleId: string, status: Status)

  /**
   * The status of `contactId` in `users`: every matching entry overwrites the previous
   * one, so the last one wins.
   */
  method ContactStatus(users: seq<Member>, contactId: string) returns (status: Option<Status>)
    ensures status == LastStatus(users, contactId)
  {
    status := None;
    var i := 0;
    while i < |users|
      invariant 0 <= i <= |users|
      invariant status == LastStatus(users[..i], contactId)
    {
      assert users[..i + 1][..i] == users[..i];
      if users[i].userId == contactId {
        status := Some(users[i].status);
      }
      i := i + 1;
    }
    assert users[..|users|] == users;
  }

  /**
   * closeBubble's queue: every other user in entry order, then the local user; the
   * local user appears exactly once, at the end.
   */
  method UnsubscribeQueue(users: seq<Member>, localUserId: string) returns (queue: seq<string>)
    ensures queue == QueueOf(users, localUserId)
    ensures |queue| >= 1 && queue[|queue| - 1] == localUserId
    ensures forall k :: 0 <= k < |queue| - 1 ==> queue[k] != localUserId
  {
    queue := [];
    var i := 0;
    while i < |users|
      invariant 0 <= i <= |users|
      invariant queue == OthersOf(users[..i], localUserId)
    {
      assert users[..i + 1][..i] == users[..i];
      if users[i].userId != localUserId {
        queue := queue + [users[i].userId];
      }
      i := i + 1;
    }
    assert users[..|users|] == users;
    assert forall k :: 0 <= k < |queue| ==> queue[k] in OthersOf(users, localUserId);
    queue := queue + [localUserId];
  }

  class Bubbles {
    /** The id of the signed-in user (`_rest.userId`). */
    const localUserId: string
    /** `_bubbles`: the rooms known locally, in list order. */
    var rooms: seq<Room>
    /** The REST and XMPP calls made and the events emitted, oldest first. */
    var log: seq<Action>

    /** A started service: the list is empty and nothing has been sent. */
    constructor(localUserId: string)
      ensures this.localUserId == localUserId && rooms == [] && log == []
    {
      this.localUserId := localUserId;
      rooms := [];
      log := [];
    }

    /**
     * createBubble: an empty name or description is refused before any call. An absent
     * history flag is sent as false. Once the room is created its initial presence is
     * sent; the room joins the list and the promise resolves only when the presence is
     * confirmed (`presenceConfirmed`).
     */
    method CreateBubble(name: string, description: string, withHistory: Option<bool>,
                        created: Reply<Room>, presenceConfirmed: bool) returns (res: Settled<Room, Error>)
      modifies this`rooms, this`log
      ensures name == "" || description == "" ==>
        res == Rejected(BadRequest) && rooms == old(rooms) && log == old(log)
      ensures name != "" && description != "" ==>
        var call := RestCreateBubble(name, description, withHistory == Some(true));
        && (created.Ok? ==>
              && log == old(log) + [call, XmppInitialPresence(created.value.jid)]
              && (presenceConfirmed ==> res == Resolved(created.value) && rooms == old(rooms) + [created.value])
              && (!presenceConfirmed ==> res == Pending && rooms == old(rooms)))
        && (created.Err? ==> res == Rejected(RemoteError(created.reason)) && rooms == old(rooms) && log == old(log) + [call])
        && (created.NoAnswer? ==> res == Pending && rooms == old(rooms) && log == old(log) + [call])
    {
      if name == "" || description == "" {
        return Rejected(BadRequest);
      }
      var history := if withHistory.Some? then withHistory.value else false;
      log := log + [RestCreateBubble(name, description, history)];
      match created {
        case Err(reason) =>
          res := Rejected(RemoteError(reason));
        case NoAnswer =>
          res := Pending;
        case Ok(bubble) =>
          log := log + [XmppInitialPresence(bubble.jid)];
          if presenceConfirmed {
            rooms := rooms + [bubble];
            res := Resolved(bubble);
          } else {
            res := Pending;
          }
      }
    }

    /**
     * removeContactFromBubble: the contact's last entry in the room decides between
     * cancelling an invitation, unsubscribing a member, or resolving with the room as
     * given; the answered snapshot replaces the entry with its id.
     */
    method RemoveContactFromBubble(contact: Option<Contact>, bubble: Option<Room>, reply: Reply<Room>)
      returns (res: Settled<Room, Error>)
      modifies this`rooms, this`log
      ensures var e := RemoveEffect(old(rooms), contact, bubble, reply);
        res == e.result && rooms == e.rooms && log == old(log) + e.actions
    {
      if contact.None? || bubble.None? {
        return Rejected(BadRequest);
      }
      var id, room := contact.value.id, bubble.value;
      var status := ContactStatus(room.users, id);
      if status == Some(Invited) || status == Some(Accepted) {
        var call := if status == Some(Invited) then RestRemoveInvitation(id, room.id) else RestUnsubscribeContact(id, room.id);
        log := log + [call];
        match reply {
          case Ok(snapshot) =>
            rooms := ReplaceById(rooms, snapshot);
            res := Resolved(snapshot);
          case Err(reason) =>
            res := Rejected(RemoteError(reason));
          case NoAnswer =>
            res := Pending;
        }
      } else {
        res := Resolved(room);
      }
    }

    /**
     * closeBubble: unsubscribes the queue one user at a time, each removal only after
     * the previous one resolved, then fetches the room again. `removals[k]` answers the
     * removal of the `k`-th queued user.
     */
    method CloseBubble(bubble: Option<Room>, removals: seq<Reply<Room>>, refetch: Reply<Room>)
      returns (res: Settled<Room, Error>)
      modifies this`rooms, this`log
      ensures var e := CloseEffect(old(rooms), bubble, localUserId, removals, refetch);
        res == e.result && rooms == e.rooms && log == old(log) + e.actions
      ensures bubble.Some? && !Closed(bubble.value) ==>
        var q := QueueOf(bubble.value.users, localUserId);
        var j := FirstBlocked(bubble.value, q, removals, 0);
        && (QueueEnds(q, j) ==> res == (if refetch.Ok? then Resolved(refetch.value) else Pending))
        && (!QueueEnds(q, j) ==> res == (if ReplyAt(removals, j).Err? then Rejected(RemoteError(ReplyAt(removals, j).reason)) else Pending))
    {
      if bubble.None? {
        return Rejected(BadRequest);
      }
      if IsBubbleClosed(bubble) == Returned(true) {
        return Resolved(bubble.value);
      }
      CloseSettles(rooms, bubble.value, localUserId, removals, refetch);
      var room := bubble.value;
      var queue := UnsubscribeQueue(room.users, localUserId);
      var end := UnsubscribeParticipants(room, queue, removals, 0);
      match end {
        case Halted(error) =>
          res := Rejected(error);
        case Stalled =>
          res := Pending;
        case Drained =>
          log := log + [RestGetBubble(room.id)];
          match refetch {
            case Ok(snapshot) =>
              rooms := ReplaceById(rooms, snapshot);
              res := Resolved(snapshot);
            case _ =>
              res := Pending;
          }
      }
    }

    /**
     * closeBubble's unsubscribeParticipants, from position `k` of the queue: removes
     * `queue[k]` from `room` and recurses on the rest only after that removal resolved;
     * it stops at the first removal that fails or never answers, or at an empty id.
     * `removals[k]` answers the removal of `queue[k]`.
     */
    method UnsubscribeParticipants(room: Room, queue: seq<string>, removals: seq<Reply<Room>>, k: nat) returns (end: DrainEnd)
      modifies this`rooms, this`log
      ensures var d := DrainFrom(old(rooms), room, queue, removals, k);
        end == d.end && rooms == d.rooms && log == old(log) + d.actions
      ensures var j := FirstBlocked(room, queue, removals, k);
        && (end.Drained? <==> QueueEnds(queue, j))
        && (!end.Drained? ==> end == (if ReplyAt(removals, j).Err? then Halted(RemoteError(ReplyAt(removals, j).reason)) else Stalled))
      decreases |queue| - k
    {
      if k >= |queue| || queue[k] == "" {
        return Drained;
      }
      ghost var rooms0, log0 := rooms, log;
      ghost var e := RemoveEffect(rooms0, Some(Contact(queue[k])), Some(room), ReplyAt(removals, k));
      ghost var d := DrainFrom(rooms0, room, queue, removals, k);
      DrainStep(rooms0, room, queue, removals, k);
      DrainEndsAtFirstBlocked(rooms0, room, queue, removals, k);
      var removed := RemoveContactFromBubble(Some(Contact(queue[k])), Some(room), ReplyAt(removals, k));
      assert removed == e.result && rooms == e.rooms && log == log0 + e.actions;
      if removed.Rejected? {
        assert d == Drain(Halted(removed.error), rooms, e.actions);
        return Halted(removed.error);
      } else if removed.Pending? {
        assert d == Drain(Stalled, rooms, e.actions);
        return Stalled;
      }
      ghost var rest := DrainFrom(rooms, room, queue, removals, k + 1);
      assert d == Resume(e.actions, rest);
      end := UnsubscribeParticipants(room, queue, removals, k + 1);
      AppendTwice(log0, e.actions, rest.actions);
    }

    /**
     * deleteBubble: closes the room, then deletes it remotely and splices the entry with
     * the closed room's id out of the list.
     */
    method DeleteBubble(bubble: Option<Room>, removals: seq<Reply<Room>>, refetch: Reply<Room>, deleted: Reply<()>)
      returns (res: Settled<(), Error>)
      modifies this`rooms, this`log
      ensures var e := DeleteEffect(old(rooms), bubble, localUserId, removals, refetch, deleted);
        res == e.result && rooms == e.rooms && log == old(log) + e.actions
    {
      if bubble.None? {
        return Rejected(BadRequest);
      }
      var closed := CloseBubble(bubble, removals, refetch);
      match closed {
        case Rejected(error) =>
          res := Rejected(error);
        case Pending =>
          res := Pending;
        case Resolved(updated) =>
          log := log + [RestDeleteBubble(updated.id)];
          match deleted {
            case Ok(_) =>
              rooms := RemoveById(rooms, updated.id);
              res := Resolved(());
            case Err(reason) =>
              res := Rejected(RemoteError(reason));
            case NoAnswer =>
              res := Pending;
          }
      }
    }

    /**
     * leaveBubble: refused with FORBIDDEN unless another accepted moderator remains;
     * after the remote leave succeeds the unavailable presence is sent. The room list
     * is not touched.
     */
    method LeaveBubble(bubble: Option<Room>, left: Reply<string>) returns (res: Settled<string, Error>)
      modifies this`log
      ensures bubble.None? ==> res == Rejected(BadRequest) && log == old(log)
      ensures bubble.Some? && (forall k :: 0 <= k < |bubble.value.users| ==> !CanTakeOver(bubble.value.users[k], localUserId)) ==>
        res == Rejected(Forbidden) && log == old(log)
      ensures bubble.Some? && (exists k :: 0 <= k < |bubble.value.users| && CanTakeOver(bubble.value.users[k], localUserId)) ==>
        var room := bubble.value;
        && (left.Ok? ==> res == Resolved(left.value) && log == old(log) + [RestLeaveBubble(room.id), XmppUnavailablePresence(room.jid)])
        && (left.Err? ==> res == Rejected(RemoteError(left.reason)) && log == old(log) + [RestLeaveBubble(room.id)])
        && (left.NoAnswer? ==> res == Pending && log == old(log) + [RestLeaveBubble(room.id)])
    {
      if bubble.None? {
        return Rejected(BadRequest);
      }
      var room := bubble.value;
      if OtherActiveModerator(room.users, localUserId).None? {
        return Rejected(Forbidden);
      }
      log := log + [RestLeaveBubble(room.id)];
      match left {
        case Ok(json) =>
          log := log + [XmppUnavailablePresence(room.jid)];
          res := Resolved(json);
        case Err(reason) =>
          res := Rejected(RemoteError(reason));
        case NoAnswer =>
          res := Pending;
      }
    }

    /**
     * inviteContactToBubble: after the remote invitation the room is fetched again and
     * the snapshot replaces the entry with its id.
     */
    method InviteContactToBubble(contact: Option<Contact>, bubble: Option<Room>, isModerator: bool, withInvitation: bool,
                                 reason: string, invited: Reply<()>, refetch: Reply<Room>) returns (res: Settled<Room, Error>)
      modifies this`rooms, this`log
      ensures contact.None? || bubble.None? ==> res == Rejected(BadRequest) && rooms == old(rooms) && log == old(log)
      ensures contact.Some? && bubble.Some? ==>
        var room := bubble.value;
        var call := RestInviteContact(contact.value.id, room.id, isModerator, withInvitation, reason);
        && (invited.Ok? ==> log == old(log) + [call, RestGetBubble(room.id)] && Refetched(old(rooms), refetch, res, rooms))
        && (invited.Err? ==> res == Rejected(RemoteError(invited.reason)) && rooms == old(rooms) && log == old(log) + [call])
        && (invited.NoAnswer? ==> res == Pending && rooms == old(rooms) && log == old(log) + [call])
    {
      if contact.None? || bubble.None? {
        return Rejected(BadRequest);
      }
      var room := bubble.value;
      log := log + [RestInviteContact(contact.value.id, room.id, isModerator, withInvitation, reason)];
      match invited {
        case Ok(_) =>
          res := Refetch(room.id, refetch);
        case Err(error) =>
          res := Rejected(RemoteError(error));
        case NoAnswer =>
          res := Pending;
      }
    }

    /**
     * The `getBubble(id).then(...)` step shared by invite, accept, decline: the
     * snapshot replaces the entry with its id; without an answer nothing settles.
     */
    method Refetch(id: string, refetch: Reply<Room>) returns (res: Settled<Room, Error>)
      modifies this`rooms, this`log
      ensures log == old(log) + [RestGetBubble(id)]
      ensures Refetched(old(rooms), refetch, res, rooms)
    {
      log := log + [RestGetBubble(id)];
      if refetch.Ok? {
        rooms := ReplaceById(rooms, refetch.value);
        res := Resolved(refetch.value);
      } else {
        res := Pending;
      }
    }

    /**
     * acceptInvitationToJoinBubble: after the remote accept the initial presence is
     * sent, then the room is fetched again.
     */
    method AcceptInvitationToJoinBubble(bubble: Option<Room>, accepted: Reply<()>, refetch: Reply<Room>)
      returns (res: Settled<Room, Error>)
      modifies this`rooms, this`log
      ensures bubble.None? ==> res == Rejected(BadRequest) && rooms == old(rooms) && log == old(log)
      ensures bubble.Some? ==>
        var room := bubble.value;
        && (accepted.Ok? ==>
              && log == old(log) + [RestAcceptInvitation(room.id), XmppInitialPresence(room.jid), RestGetBubble(room.id)]
              && Refetched(old(rooms), refetch, res, rooms))
        && (accepted.Err? ==> res == Rejected(RemoteError(accepted.reason)) && rooms == old(rooms) && log == old(log) + [RestAcceptInvitation(room.id)])
        && (accepted.NoAnswer? ==> res == Pending && rooms == old(rooms) && log == old(log) + [RestAcceptInvitation(room.id)])
    {
      if bubble.None? {
        return Rejected(BadRequest);
      }
      var room := bubble.value;
      log := log + [RestAcceptInvitation(room.id)];
      match accepted {
        case Ok(_) =>
          log := log + [XmppInitialPresence(room.jid)];
          res := Refetch(room.id, refetch);
        case Err(reason) =>
          res := Rejected(RemoteError(reason));
        case NoAnswer =>
          res := Pending;
      }
    }

    /** declineInvitationToJoinBubble: after the remote decline the room is fetched again; no presence. */
    method DeclineInvitationToJoinBubble(bubble: Option<Room>, declined: Reply<()>, refetch: Reply<Room>)
      returns (res: Settled<Room, Error>)
      modifies this`rooms, this`log
      ensures bubble.None? ==> res == Rejected(BadRequest) && rooms == old(rooms) && log == old(log)
      ensures bubble.Some? ==>
        var room := bubble.value;
        && (declined.Ok? ==>
              && log == old(log) + [RestDeclineInvitation(room.id), RestGetBubble(room.id)]
              && Refetched(old(rooms), refetch, res, rooms))
        && (declined.Err? ==> res == Rejected(RemoteError(declined.reason)) && rooms == old(rooms) && log == old(log) + [RestDeclineInvitation(room.id)])
        && (declined.NoAnswer? ==> res == Pending && rooms == old(rooms) && log == old(log) + [RestDeclineInvitation(room.id)])
    {
      if bubble.None? {
        return Rejected(BadRequest);
      }
      var room := bubble.value;
      log := log + [RestDeclineInvitation(room.id)];
      match declined {
        case Ok(_) =>
          res := Refetch(room.id, refetch);
        case Err(reason) =>
          res := Rejected(RemoteError(reason));
        case NoAnswer =>
          res := Pending;
      }
    }

    /**
     * setBubbleCustomData: the whole custom data area is replaced by what the server
     * answers; the result is the given room with only that field changed.
     */
    method SetBubbleCustomData(bubble: Option<Room>, customData: CustomData, stored: Reply<CustomData>)
      returns (res: Settled<Room, Error>)
      modifies this`log
      ensures bubble.None? ==> res == Rejected(BadRequest) && log == old(log)
      ensures bubble.Some? ==>
        && log == old(log) + [RestSetCustomData(bubble.value.id, customData)]
        && (stored.Ok? ==>
              res.Resolved? && res.value.customData == stored.value &&
              res.value.(customData := bubble.value.customData) == bubble.value)
        && (stored.Err? ==> res == Rejected(RemoteError(stored.reason)))
        && (stored.NoAnswer? ==> res == Pending)
    {
      if bubble.None? {
        return Rejected(BadRequest);
      }
      var room := bubble.value;
      log := log + [RestSetCustomData(room.id, customData)];
      match stored {
        case Ok(data) =>
          res := Resolved(room.(customData := data));
        case Err(reason) =>
          res := Rejected(RemoteError(reason));
        case NoAnswer =>
          res := Pending;
      }
    }

    /**
     * getBubbles: the server's list replaces the local one, and an initial presence is
     * sent to every room in which the local user is accepted.
     */
    method GetBubbles(listed: Reply<seq<Room>>) returns (res: Settled<(), Error>)
      modifies this`rooms, this`log
      ensures listed.Ok? ==>
        res == Resolved(()) && rooms == listed.value && log == old(log) + [RestGetBubbles] + RejoinPresences(listed.value, localUserId)
      ensures listed.Err? ==> res == Rejected(RemoteError(listed.reason)) && rooms == old(rooms) && log == old(log) + [RestGetBubbles]
      ensures listed.NoAnswer? ==> res == Pending && rooms == old(rooms) && log == old(log) + [RestGetBubbles]
    {
      log := log + [RestGetBubbles];
      if listed.Err? {
        return Rejected(RemoteError(listed.reason));
      } else if listed.NoAnswer? {
        return Pending;
      }
      var list := listed.value;
      rooms := list;
      ghost var log1 := log;
      var i := 0;
      while i < |list|
        invariant 0 <= i <= |list|
        invariant rooms == list
        invariant log == log1 + RejoinPresences(list[..i], localUserId)
      {
        RejoinStep(list, i, localUserId);
        SendRoomPresences(list[i].jid, list[i].users);
        i := i + 1;
      }
      assert list[..|list|] == list;
      res := Resolved(());
    }

    /** getBubbles' inner loop: one initial presence to `jid` per accepted entry of the local user. */
    method SendRoomPresences(jid: string, users: seq<Member>)
      modifies this`log
      ensures log == old(log) + RoomPresences(jid, users, localUserId)
    {
      ghost var log0 := log;
      var j := 0;
      while j < |users|
        invariant 0 <= j <= |users|
        invariant log == log0 + RoomPresences(jid, users[..j], localUserId)
      {
        assert users[..j + 1][..j] == users[..j];
        if users[j].userId == localUserId && users[j].status.Accepted? {
          log := log + [XmppInitialPresence(jid)];
        }
        j := j + 1;
      }
      assert users[..|users|] == users;
    }

    /** getBubbleById: an empty id throws; otherwise the first room with that id, if any. */
    function GetBubbleById(id: string): (r: Checked<Option<Room>>)
      reads this
      ensures id == "" <==> r == Thrown(BadRequest)
      ensures id != "" ==> r.Returned? && (r.value.None? <==> !Known(rooms, id))
      ensures r.Returned? && r.value.Some? ==> r.value.value.id == id && exists k :: FirstMatch(rooms, ById(id), k) && rooms[k] == r.value.value
    {
      if id == "" then Thrown(BadRequest) else Returned(Find(rooms, ById(id)))
    }

    /** getBubbleByJid: an empty JID throws; otherwise the first room with that JID, if any. */
    function GetBubbleByJid(jid: string): (r: Checked<Option<Room>>)
      reads this
      ensures jid == "" <==> r == Thrown(BadRequest)
      ensures jid != "" ==> r.Returned? && (r.value.None? <==> forall k :: 0 <= k < |rooms| ==> rooms[k].jid != jid)
      ensures r.Returned? && r.value.Some? ==> r.value.value.jid == jid && exists k :: FirstMatch(rooms, ByJid(jid), k) && rooms[k] == r.value.value
    {
      if jid == "" then Thrown(BadRequest) else Returned(Find(rooms, ByJid(jid)))
    }

    /** getAllPendingBubbles: exactly the known rooms holding an invitation of the local user, in list order. */
    function GetAllPendingBubbles(): (r: seq<Room>)
      reads this
      ensures forall room :: room in r <==> room in rooms && InvitedTo(room, localUserId)
    {
      PendingBubbles(rooms, localUserId)
    }

    /** getAll: the local list itself. */
    function GetAll(): seq<Room>
      reads this
    {
      rooms
    }

    /**
     * _onInvitationReceived: the room is fetched; the snapshot replaces the entry with
     * its id or is appended, and the invitation event is emitted with it.
     */
    method OnInvitationReceived(bubbleId: string, fetched: Reply<Room>)
      modifies this`rooms, this`log
      ensures fetched.Ok? ==>
        rooms == Upsert(old(rooms), fetched.value) &&
        log == old(log) + [RestGetBubble(bubbleId), Emit(InvitationDetailsReceived, fetched.value)]
      ensures !fetched.Ok? ==> rooms == old(rooms) && log == old(log) + [RestGetBubble(bubbleId)]
    {
      log := log + [RestGetBubble(bubbleId)];
      if fetched.Ok? {
        rooms := Upsert(rooms, fetched.value);
        log := log + [Emit(InvitationDetailsReceived, fetched.value)];
      }
    }

    /** _onAffiliationChanged: as an invitation, with the affiliation event. */
    method OnAffiliationChanged(affiliation: Affiliation, fetched: Reply<Room>)
      modifies this`rooms, this`log
      ensures fetched.Ok? ==>
        rooms == Upsert(old(rooms), fetched.value) &&
        log == old(log) + [RestGetBubble(affiliation.bubbleId), Emit(AffiliationDetailsChanged, fetched.value)]
      ensures !fetched.Ok? ==> rooms == old(rooms) && log == old(log) + [RestGetBubble(affiliation.bubbleId)]
    {
      log := log + [RestGetBubble(affiliation.bubbleId)];
      if fetched.Ok? {
        rooms := Upsert(rooms, fetched.value);
        log := log + [Emit(AffiliationDetailsChanged, fetched.value)];
      }
    }

    /**
     * _onOwnAffiliationChanged: as an affiliation change, and an initial presence is
     * sent when the room is new to the list or the new status is accepted.
     */
    method OnOwnAffiliationChanged(affiliation: Affiliation, fetched: Reply<Room>)
      modifies this`rooms, this`log
      ensures fetched.Ok? ==>
        var snapshot := fetched.value;
        var presence := if !Known(old(rooms), snapshot.id) || affiliation.status.Accepted? then [XmppInitialPresence(snapshot.jid)] else [];
        rooms == Upsert(old(rooms), snapshot) &&
        log == old(log) + [RestGetBubble(affiliation.bubbleId)] + presence + [Emit(OwnAffiliationDetailsChanged, snapshot)]
      ensures !fetched.Ok? ==> rooms == old(rooms) && log == old(log) + [RestGetBubble(affiliation.bubbleId)]
    {
      log := log + [RestGetBubble(affiliation.bubbleId)];
      if fetched.Ok? {
        var snapshot := fetched.value;
        var found := FindIndex(rooms, ById(snapshot.id));
        if found > -1 {
          rooms := rooms[found := snapshot];
          if affiliation.status.Accepted? {
            log := log + [XmppInitialPresence(snapshot.jid)];
          }
        } else {
          rooms := rooms + [snapshot];
          log := log + [XmppInitialPresence(snapshot.jid)];
        }
        log := log + [Emit(OwnAffiliationDetailsChanged, snapshot)];
      }
    }
  }
}
