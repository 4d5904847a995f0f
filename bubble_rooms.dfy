/**
 * The rooms ("bubbles") of the directory kept by lib/services/Bubbles.js, and the
 * pure list operations its methods are built from: the `find`, `findIndex`,
 * `filter` and `splice` calls on the `_bubbles` array and on a room's `users`.
 */
module BubbleRooms {
  import opened Remote

  /** A user's privilege; `OtherPrivilege` carries any privilege name other than "moderator". */
  datatype Privilege = Moderator | OtherPrivilege(name: string)

  /**
   * A membership status; `OtherStatus` carries any status name other than "invited" and
   * "accepted", which the directory does not act on.
   */
  datatype Status = Invited | Accepted | OtherStatus(name: string)

  datatype Member = Member(userId: string, privilege: Privilege, status: Status)

  type CustomData = map<string, string>

  datatype Room = Room(id: string, jid: string, name: string, customData: CustomData, users: seq<Member>)

  /** The contact argument of invite and remove; only its id is read. */
  datatype Contact = Contact(id: string)

  /** `ErrorCase.BAD_REQUEST`, `ErrorCase.FORBIDDEN`, or a collaborator's error passed through. */
  datatype Error = BadRequest | Forbidden | RemoteError(reason: string)

  /** A call that returns or throws without a promise. */
  datatype Checked<+T> = Returned(value: T) | Thrown(error: Error)

  /** The events the directory republishes after storing a pushed room. */
  datatype Topic = InvitationDetailsReceived | AffiliationDetailsChanged | OwnAffiliationDetailsChanged

  /** A call the directory makes on REST or XMPP, or an event it emits. */
  datatype Action =
    | RestCreateBubble(name: string, description: string, withHistory: bool)
    | RestDeleteBubble(bubbleId: string)
    | RestGetBubble(bubbleId: string)
    | RestGetBubbles
    | RestInviteContact(contactId: string, bubbleId: string, isModerator: bool, withInvitation: bool, reason: string)
    | RestRemoveInvitation(contactId: string, bubbleId: string)
    | RestUnsubscribeContact(contactId: string, bubbleId: string)
    | RestLeaveBubble(bubbleId: string)
    | RestAcceptInvitation(bubbleId: string)
    | RestDeclineInvitation(bubbleId: string)
    | RestSetCustomData(bubbleId: string, customData: CustomData)
    | XmppInitialPresence(jid: string)
    | XmppUnavailablePresence(jid: string)
    | Emit(topic: Topic, bubble: Room)

  // ---------------------------------------------------------------- members

  /** A member still in the room: invited or accepted. */
  predicate Active(m: Member)
  {
    m.status.Invited? || m.status.Accepted?
  }

  /** A room is closed when none of its members is invited or accepted. */
  ghost predicate Closed(room: Room)
  {
    forall k :: 0 <= k < |room.users| ==> !Active(room.users[k])
  }

  /** `users.find(user => user.status === "invited" || user.status === "accepted")` */
  function FirstActive(users: seq<Member>): (r: Option<Member>)
    ensures r.None? <==> forall k :: 0 <= k < |users| ==> !Active(users[k])
    ensures r.Some? ==> r.value in users && Active(r.value)
  {
    if users == [] then None
    else if Active(users[0]) then Some(users[0])
    else FirstActive(users[1..])
  }

  /** isBubbleClosed: throws BAD_REQUEST without a room, else tells whether it is closed. */
  function IsBubbleClosed(bubble: Option<Room>): (r: Checked<bool>)
    ensures bubble.None? <==> r == Thrown(BadRequest)
    ensures bubble.Some? ==> r == Returned(Closed(bubble.value))
  {
    if bubble.None? then Thrown(BadRequest)
    else Returned(FirstActive(bubble.value.users).None?)
  }

  /** A member who lets the local user leave: another user, moderator, accepted. */
  predicate CanTakeOver(m: Member, localUserId: string)
  {
    m.privilege.Moderator? && m.status.Accepted? && m.userId != localUserId
  }

  /** `users.find(user => user.privilege === "moderator" && user.status === "accepted" && user.userId !== localUserId)` */
  function OtherActiveModerator(users: seq<Member>, localUserId: string): (r: Option<Member>)
    ensures r.None? <==> forall k :: 0 <= k < |users| ==> !CanTakeOver(users[k], localUserId)
    ensures r.Some? ==> r.value in users && CanTakeOver(r.value, localUserId)
  {
    if users == [] then None
    else if CanTakeOver(users[0], localUserId) then Some(users[0])
    else OtherActiveModerator(users[1..], localUserId)
  }

  /** `k` is the last entry of `users` for `userId`. */
  ghost predicate LastEntry(users: seq<Member>, userId: string, k: int)
  {
    0 <= k < |users| && users[k].userId == userId &&
    forall j :: k < j < |users| ==> users[j].userId != userId
  }

  /**
   * The status removeContactFromBubble dispatches on: its `forEach` overwrites the
   * status at every entry for the contact, so the last entry wins; none leaves it unset.
   */
  function LastStatus(users: seq<Member>, contactId: string): Option<Status>
  {
    if users == [] then None
    else if users[|users| - 1].userId == contactId then Some(users[|users| - 1].status)
    else LastStatus(users[..|users| - 1], contactId)
  }

  /**
   * The status removeContactFromBubble dispatches on is unset exactly when the contact
   * has no entry, and otherwise is the status of the contact's last entry.
   */
  lemma {:induction false} LastStatusIsLastEntry(users: seq<Member>, contactId: string)
    ensures LastStatus(users, contactId).None? <==> forall k :: 0 <= k < |users| ==> users[k].userId != contactId
    ensures LastStatus(users, contactId).Some? ==>
      exists k :: LastEntry(users, contactId, k) && users[k].status == LastStatus(users, contactId).value
  {
    if users != [] {
      var init := users[..|users| - 1];
      if users[|users| - 1].userId == contactId {
        assert LastEntry(users, contactId, |users| - 1);
      } else {
        LastStatusIsLastEntry(init, contactId);
        assert forall j :: 0 <= j < |init| ==> init[j] == users[j];
        if LastStatus(init, contactId).Some? {
          var k :| LastEntry(init, contactId, k) && init[k].status == LastStatus(init, contactId).value;
          assert LastEntry(users, contactId, k);
        }
      }
    }
  }

  /** The local user has an accepted entry in `room`. */
  ghost predicate AcceptedIn(room: Room, localUserId: string)
  {
    exists j :: 0 <= j < |room.users| && room.users[j].userId == localUserId && room.users[j].status.Accepted?
  }

  /** getBubbles' inner `forEach`: one initial presence to `jid` per accepted entry of the local user. */
  function RoomPresences(jid: string, users: seq<Member>, localUserId: string): seq<Action>
  {
    if users == [] then []
    else
      var last := users[|users| - 1];
      RoomPresences(jid, users[..|users| - 1], localUserId) +
        (if last.userId == localUserId && last.status.Accepted? then [XmppInitialPresence(jid)] else [])
  }

  /** A room's presences all go to its JID, and there is at least one exactly when the local user is accepted there. */
  lemma {:induction false} RoomPresencesExactly(jid: string, users: seq<Member>, localUserId: string)
    ensures forall a :: a in RoomPresences(jid, users, localUserId) ==> a == XmppInitialPresence(jid)
    ensures RoomPresences(jid, users, localUserId) != [] <==>
      exists j :: 0 <= j < |users| && users[j].userId == localUserId && users[j].status.Accepted?
  {
    if users != [] {
      var init := users[..|users| - 1];
      RoomPresencesExactly(jid, init, localUserId);
      assert forall j :: 0 <= j < |init| ==> init[j] == users[j];
    }
  }

  /** getBubbles' presences after reloading the list, room by room in list order. */
  function RejoinPresences(rooms: seq<Room>, localUserId: string): seq<Action>
  {
    if rooms == [] then []
    else
      var last := rooms[|rooms| - 1];
      RejoinPresences(rooms[..|rooms| - 1], localUserId) + RoomPresences(last.jid, last.users, localUserId)
  }

  /**
   * After the list is reloaded, every room in which the local user is accepted gets an
   * initial presence, and no other room does.
   */
  lemma {:induction false} RejoinPresencesExactly(rooms: seq<Room>, localUserId: string)
    ensures forall k :: 0 <= k < |rooms| && AcceptedIn(rooms[k], localUserId) ==>
      XmppInitialPresence(rooms[k].jid) in RejoinPresences(rooms, localUserId)
    ensures forall a :: a in RejoinPresences(rooms, localUserId) ==>
      exists k :: 0 <= k < |rooms| && a == XmppInitialPresence(rooms[k].jid) && AcceptedIn(rooms[k], localUserId)
  {
    if rooms != [] {
      var last := rooms[|rooms| - 1];
      var init := rooms[..|rooms| - 1];
      var r := RejoinPresences(init, localUserId);
      var p := RoomPresences(last.jid, last.users, localUserId);
      RejoinPresencesExactly(init, localUserId);
      RoomPresencesExactly(last.jid, last.users, localUserId);
      assert RejoinPresences(rooms, localUserId) == r + p;
      forall k | 0 <= k < |rooms| && AcceptedIn(rooms[k], localUserId)
        ensures XmppInitialPresence(rooms[k].jid) in r + p
      {
        if k < |init| {
          assert init[k] == rooms[k];
        } else {
          assert k == |rooms| - 1 && p != [];
          assert p[0] in p;
        }
      }
      forall a | a in r + p
        ensures exists k :: 0 <= k < |rooms| && a == XmppInitialPresence(rooms[k].jid) && AcceptedIn(rooms[k], localUserId)
      {
        if a in r {
          var k :| 0 <= k < |init| && a == XmppInitialPresence(init[k].jid) && AcceptedIn(init[k], localUserId);
          assert init[k] == rooms[k];
        } else {
          assert a in p;
          assert AcceptedIn(rooms[|rooms| - 1], localUserId);
        }
      }
    }
  }

  /** Proof helper: one unfolding of `RejoinPresences` on the prefix `rooms[..i + 1]`. */
  lemma RejoinStep(rooms: seq<Room>, i: nat, localUserId: string)
    requires i < |rooms|
    ensures RejoinPresences(rooms[..i + 1], localUserId) ==
      RejoinPresences(rooms[..i], localUserId) + RoomPresences(rooms[i].jid, rooms[i].users, localUserId)
  {
    assert rooms[..i + 1][..i] == rooms[..i];
  }

  /** `users.filter(user => user.userId === localUserId && user.status === "invited")` */
  function Invitations(users: seq<Member>, localUserId: string): (r: seq<Member>)
    ensures forall m :: m in r <==> m in users && m.userId == localUserId && m.status.Invited?
  {
    if users == [] then []
    else
      (if users[0].userId == localUserId && users[0].status.Invited? then [users[0]] else [])
      + Invitations(users[1..], localUserId)
  }

  /** The local user holds an invitation to `room` that is not yet accepted or declined. */
  ghost predicate InvitedTo(room: Room, localUserId: string)
  {
    exists k :: 0 <= k < |room.users| && room.users[k].userId == localUserId && room.users[k].status.Invited?
  }

  /** getAllPendingBubbles: the rooms whose invitations to the local user are not empty. */
  function PendingBubbles(rooms: seq<Room>, localUserId: string): (r: seq<Room>)
    ensures forall room :: room in r <==> room in rooms && InvitedTo(room, localUserId)
    ensures |r| <= |rooms|
  {
    if rooms == [] then []
    else
      var head := rooms[0];
      assert |Invitations(head.users, localUserId)| > 0 <==> InvitedTo(head, localUserId) by {
        var inv := Invitations(head.users, localUserId);
        if |inv| > 0 {
          assert inv[0] in head.users;
          var k :| 0 <= k < |head.users| && head.users[k] == inv[0];
        }
        if InvitedTo(head, localUserId) {
          var k :| 0 <= k < |head.users| && head.users[k].userId == localUserId && head.users[k].status.Invited?;
          assert head.users[k] in inv;
        }
      }
      (if |Invitations(head.users, localUserId)| > 0 then [head] else [])
      + PendingBubbles(rooms[1..], localUserId)
  }

  /** getAllPendingBubbles keeps list order: the filter distributes over concatenation. */
  lemma {:induction false} PendingBubblesKeepsOrder(a: seq<Room>, b: seq<Room>, localUserId: string)
    ensures PendingBubbles(a + b, localUserId) == PendingBubbles(a, localUserId) + PendingBubbles(b, localUserId)
  {
    if a != [] {
      assert (a + b)[0] == a[0];
      assert (a + b)[1..] == a[1..] + b;
      PendingBubblesKeepsOrder(a[1..], b, localUserId);
    } else {
      assert a + b == b;
    }
  }

  // ---------------------------------------------------------------- the room list

  /** How `find` and `findIndex` select a room: by id or by jid. */
  datatype Key = ById(id: string) | ByJid(jid: string)

  predicate Matches(room: Room, key: Key)
  {
    match key
    case ById(id) => room.id == id
    case ByJid(jid) => room.jid == jid
  }

  /** `rooms.findIndex(...)`: the first matching position, or -1 when none matches. */
  function FindIndex(rooms: seq<Room>, key: Key): (i: int)
    ensures -1 <= i < |rooms|
    ensures i == -1 <==> forall k :: 0 <= k < |rooms| ==> !Matches(rooms[k], key)
    ensures 0 <= i ==> Matches(rooms[i], key) && forall k :: 0 <= k < i ==> !Matches(rooms[k], key)
  {
    if rooms == [] then -1
    else if Matches(rooms[0], key) then 0
    else
      var i := FindIndex(rooms[1..], key);
      if i == -1 then -1 else i + 1
  }

  /** `k` is the first position of a matching room. */
  ghost predicate FirstMatch(rooms: seq<Room>, key: Key, k: int)
  {
    0 <= k < |rooms| && Matches(rooms[k], key) && forall j :: 0 <= j < k ==> !Matches(rooms[j], key)
  }

  /** Some room of the list has this id. */
  ghost predicate Known(rooms: seq<Room>, id: string)
  {
    exists k :: 0 <= k < |rooms| && rooms[k].id == id
  }

  /** `rooms.find(...)`: the first matching room, or undefined. */
  function Find(rooms: seq<Room>, key: Key): (r: Option<Room>)
    ensures r.None? <==> forall k :: 0 <= k < |rooms| ==> !Matches(rooms[k], key)
    ensures r.Some? ==> exists k :: FirstMatch(rooms, key, k) && rooms[k] == r.value
  {
    var i := FindIndex(rooms, key);
    if i == -1 then None
    else
      assert FirstMatch(rooms, key, i);
      Some(rooms[i])
  }

  /**
   * `rooms[rooms.findIndex(b => b.id === snapshot.id)] = snapshot`. The first entry with
   * the snapshot's id is replaced. With no such entry the index is -1, and writing at
   * -1 sets a property of the array object: its elements stay as they were.
   */
  function ReplaceById(rooms: seq<Room>, snapshot: Room): (r: seq<Room>)
    ensures !Known(rooms, snapshot.id) ==> r == rooms
    ensures Known(rooms, snapshot.id) ==>
      exists k :: FirstMatch(rooms, ById(snapshot.id), k) && r == rooms[k := snapshot]
    ensures |r| == |rooms| && forall k :: 0 <= k < |r| ==> r[k].id == rooms[k].id
  {
    var i := FindIndex(rooms, ById(snapshot.id));
    if i < 0 then rooms
    else
      assert FirstMatch(rooms, ById(snapshot.id), i);
      rooms[i := snapshot]
  }

  /**
   * The pushed-event handlers' store: replace the first entry with the snapshot's id
   * when there is one (`foundIndex > -1`), otherwise append the snapshot.
   */
  function Upsert(rooms: seq<Room>, snapshot: Room): (r: seq<Room>)
    ensures Known(rooms, snapshot.id) ==> r == ReplaceById(rooms, snapshot)
    ensures !Known(rooms, snapshot.id) ==> r == rooms + [snapshot]
    ensures |r| == |rooms| + (if Known(rooms, snapshot.id) then 0 else 1)
    ensures forall k :: 0 <= k < |rooms| && rooms[k].id != snapshot.id ==> r[k] == rooms[k]
  {
    var i := FindIndex(rooms, ById(snapshot.id));
    if i > -1 then rooms[i := snapshot] else rooms + [snapshot]
  }

  /** After an upsert, looking the room up by its id gives the stored snapshot. */
  lemma UpsertThenFind(rooms: seq<Room>, snapshot: Room)
    ensures Find(Upsert(rooms, snapshot), ById(snapshot.id)) == Some(snapshot)
  {
    var r := Upsert(rooms, snapshot);
    var key := ById(snapshot.id);
    if Known(rooms, snapshot.id) {
      var k :| FirstMatch(rooms, key, k) && r == rooms[k := snapshot];
      assert FirstMatch(r, key, k);
      assert FindIndex(r, key) == k;
    } else {
      assert FirstMatch(r, key, |rooms|);
      assert FindIndex(r, key) == |rooms|;
    }
  }

  /** No two rooms of the list share an id. */
  ghost predicate UniqueIds(rooms: seq<Room>)
  {
    forall i, j :: 0 <= i < j < |rooms| ==> rooms[i].id != rooms[j].id
  }

  /** The pushed-event handlers never store a second copy of a room. */
  lemma UpsertKeepsIdsUnique(rooms: seq<Room>, snapshot: Room)
    requires UniqueIds(rooms)
    ensures UniqueIds(Upsert(rooms, snapshot))
  {
    var r := Upsert(rooms, snapshot);
    if !Known(rooms, snapshot.id) {
      forall i, j | 0 <= i < j < |r| ensures r[i].id != r[j].id {
        if j == |rooms| {
          assert r[i] == rooms[i];
        }
      }
    }
  }

  /** `Array.prototype.splice(start, 1)`: a negative start counts back from the end. */
  function SpliceOne(rooms: seq<Room>, start: int): seq<Room>
  {
    var from :=
      if start < 0 then (if |rooms| + start < 0 then 0 else |rooms| + start)
      else if start > |rooms| then |rooms| else start;
    if from < |rooms| then rooms[..from] + rooms[from + 1..] else rooms
  }

  /**
   * deleteBubble's `splice(findIndex(el => el.id === id), 1)`: removes the first entry
   * with the id; with no such entry the index is -1 and the LAST entry goes instead.
   */
  function RemoveById(rooms: seq<Room>, id: string): (r: seq<Room>)
    ensures Known(rooms, id) ==> exists k :: FirstMatch(rooms, ById(id), k) && r == rooms[..k] + rooms[k + 1..]
    ensures !Known(rooms, id) ==> r == (if rooms == [] then [] else rooms[..|rooms| - 1])
  {
    var i := FindIndex(rooms, ById(id));
    assert i >= 0 ==> FirstMatch(rooms, ById(id), i);
    SpliceOne(rooms, i)
  }
}
