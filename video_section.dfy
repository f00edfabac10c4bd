/**
 * Connection statuses of src/components/pages/room-ready/video-section.ts.
 *
 * `ChangeConnectionStatus` is the body of the room transaction: it receives
 * the current record (or null) and returns the record to write. The
 * `VideoSection` class is the component: it holds the room id and the
 * signed-in user, and its lifecycle hooks run the transaction against the
 * database with a fixed status.
 */
module VideoSection {
  import opened Wrappers
  import opened RoomRecord
  import opened Handler

  /**
   * The transaction body. The caller whose uid is the host's changes only the
   * host's status; anyone else takes the guest slot: its status and its four
   * identity fields are overwritten. Nothing else in the record changes, and
   * a missing record stays missing.
   */
  function ChangeConnectionStatus(room: Option<Room>, user: UserInfo, status: Status): (r: Option<Room>)
    ensures r.Some? <==> room.Some?
    ensures r.Some? ==> StableFields(room.value, r.value)
    ensures r.Some? && user.uid == room.value.members.host.uid ==>
      && r.value.members.host.connection.status == status
      && Identity(r.value.members.host) == Identity(room.value.members.host)
      && r.value.members.guest == room.value.members.guest
    ensures r.Some? && user.uid != room.value.members.host.uid ==>
      && r.value.members.guest.connection.status == status
      && Identity(r.value.members.guest) == user
      && r.value.members.host == room.value.members.host
  {
    match room
    case None => None
    case Some(rm) =>
      var host := rm.members.host;
      var guest := rm.members.guest;
      if user.uid == host.uid then
        Some(rm.(members := rm.members.(host := host.(connection := host.connection.(status := status)))))
      else
        Some(rm.(members := rm.members.(guest := guest.(
          connection := guest.connection.(status := status),
          uid := user.uid,
          email := user.email,
          photoUrl := user.photoUrl,
          displayName := user.displayName))))
  }

  /**
   * What no status change may touch: the id, both timestamps, both
   * passwords, the host's identity once it is not the writer's, and every
   * `connected_at`/`disconnected_at`.
   */
  ghost predicate StableFields(before: Room, after: Room) {
    && after.id == before.id
    && after.createdAt == before.createdAt
    && after.expiresAt == before.expiresAt
    && after.members.host.password == before.members.host.password
    && after.members.guest.password == before.members.guest.password
    && Identity(after.members.host) == Identity(before.members.host)
    && after.members.host.connection.connectedAt == before.members.host.connection.connectedAt
    && after.members.host.connection.disconnectedAt == before.members.host.connection.disconnectedAt
    && after.members.guest.connection.connectedAt == before.members.guest.connection.connectedAt
    && after.members.guest.connection.disconnectedAt == before.members.guest.connection.disconnectedAt
  }

  /** Running the transaction twice with the same caller and status writes what running it once wrote. */
  lemma ChangeIdempotent(room: Option<Room>, user: UserInfo, status: Status)
    ensures ChangeConnectionStatus(ChangeConnectionStatus(room, user, status), user, status)
         == ChangeConnectionStatus(room, user, status)
  {
  }

  /**
   * A host write and a guest write commute: whichever commits first, both
   * statuses end up in the record.
   */
  lemma HostAndGuestCommute(room: Room, host: UserInfo, hostStatus: Status, guest: UserInfo, guestStatus: Status)
    requires host.uid == room.members.host.uid && guest.uid != room.members.host.uid
    ensures ChangeConnectionStatus(ChangeConnectionStatus(Some(room), host, hostStatus), guest, guestStatus)
         == ChangeConnectionStatus(ChangeConnectionStatus(Some(room), guest, guestStatus), host, hostStatus)
  {
  }

  /** A second non-host caller replaces the recorded guest: the slot keeps only the last writer. */
  lemma SecondGuestOverwrites(room: Room, first: UserInfo, second: UserInfo, s1: Status, s2: Status)
    requires first.uid != room.members.host.uid && second.uid != room.members.host.uid
    ensures var r := ChangeConnectionStatus(ChangeConnectionStatus(Some(room), first, s1), second, s2);
      r.Some? && Identity(r.value.members.guest) == second && r.value.members.guest.connection.status == s2
  {
  }

  /** Status changes keep records stored under their own id. */
  lemma ChangeKeepsKeyedById(rooms: map<string, Room>, roomId: string, user: UserInfo, status: Status)
    requires KeyedById(rooms) && roomId in rooms
    ensures KeyedById(rooms[roomId := ChangeConnectionStatus(Some(rooms[roomId]), user, status).value])
  {
  }

  /** The `room-ready` video component. */
  class VideoSection {
    const roomId: string
    /** The database the transactions run against. */
    const db: RoomStore
    /** `_user`: filled in by the auth-state callback, empty before it. */
    var user: UserInfo
    /** `_isLoading`: true while the camera is being opened. */
    var isLoading: bool

    constructor (roomId: string, db: RoomStore)
      ensures this.roomId == roomId && this.db == db
      ensures user == EmptyUser && !isLoading
    {
      this.roomId := roomId;
      this.db := db;
      user := EmptyUser;
      isLoading := false;
    }

    /**
     * The `onAuthStateChanged` callback: a signed-in user is copied into
     * `_user`; a signed-out one is sent to the login page.
     */
    method OnAuthStateChanged(authUser: Option<UserInfo>) returns (redirect: Option<string>)
      modifies this`user
      ensures authUser.Some? ==> user == authUser.value && redirect == None
      ensures authUser.None? ==> user == old(user) && redirect == Some("/auth/login")
    {
      if authUser.Some? {
        user := authUser.value;
        redirect := None;
      } else {
        redirect := Some("/auth/login");
      }
    }

    /**
     * `changeConnectionStatus`: runs the transaction on `rooms/<roomId>`. A
     * present record is replaced by the transaction's result; an absent one
     * stays absent. Nothing is emitted.
     */
    method ChangeConnectionStatusTx(status: Status)
      requires db.Valid()
      modifies db
      ensures db.Valid() && db.emitted == old(db.emitted)
      ensures roomId !in old(db.rooms) ==> db.rooms == old(db.rooms)
      ensures roomId in old(db.rooms) ==>
        db.rooms == old(db.rooms)[roomId := ChangeConnectionStatus(Some(old(db.rooms)[roomId]), user, status).value]
    {
      var current := if roomId in db.rooms then Some(db.rooms[roomId]) else None;
      var next := ChangeConnectionStatus(current, user, status);
      if next.Some? {
        ChangeKeepsKeyedById(db.rooms, roomId, user, status);
        db.rooms := db.rooms[roomId := next.value];
      }
    }

    /**
     * `openLocalVideo`: shows the spinner, writes 'ready', then asks for the
     * camera. The spinner is hidden only when the camera opens
     * (`cameraOpens`); a refused camera leaves it on.
     */
    method OpenLocalVideo(cameraOpens: bool)
      requires db.Valid()
      modifies this`isLoading, db
      ensures db.Valid() && db.emitted == old(db.emitted)
      ensures isLoading == !cameraOpens
      ensures roomId !in old(db.rooms) ==> db.rooms == old(db.rooms)
      ensures roomId in old(db.rooms) ==>
        db.rooms == old(db.rooms)[roomId := ChangeConnectionStatus(Some(old(db.rooms)[roomId]), user, Ready).value]
    {
      isLoading := true;
      ChangeConnectionStatusTx(Ready);
      if cameraOpens {
        isLoading := false;
      }
    }

    /** `disconnectedCallback`: the component is torn down and writes 'disconnected'. */
    method DisconnectedCallback()
      requires db.Valid()
      modifies db
      ensures db.Valid() && db.emitted == old(db.emitted)
      ensures roomId !in old(db.rooms) ==> db.rooms == old(db.rooms)
      ensures roomId in old(db.rooms) ==>
        db.rooms == old(db.rooms)[roomId := ChangeConnectionStatus(Some(old(db.rooms)[roomId]), user, Disconnected).value]
    {
      ChangeConnectionStatusTx(Disconnected);
    }

    /** `closeConnection`, the 'beforeunload' listener: the page is left and writes 'disconnected'. */
    method CloseConnection()
      requires db.Valid()
      modifies db
      ensures db.Valid() && db.emitted == old(db.emitted)
      ensures roomId !in old(db.rooms) ==> db.rooms == old(db.rooms)
      ensures roomId in old(db.rooms) ==>
        db.rooms == old(db.rooms)[roomId := ChangeConnectionStatus(Some(old(db.rooms)[roomId]), user, Disconnected).value]
    {
      ChangeConnectionStatusTx(Disconnected);
    }
  }

  /**
   * Before the auth-state callback has run, `_user.uid` is empty: against a
   * room whose host uid is not empty the write lands in the guest slot and
   * blanks the guest's identity.
   */
  lemma WriteBeforeSignInTakesGuestSlot(room: Room, status: Status)
    requires room.members.host.uid != ""
    ensures var r := ChangeConnectionStatus(Some(room), EmptyUser, status);
      r.Some? && Identity(r.value.members.guest) == EmptyUser && r.value.members.guest.connection.status == status
  {
  }
}
