/**
 * The room record as server/handler.ts writes it (and src/config/room.ts
 * mirrors it): an id, two timestamps and two member slots, each with an
 * identity, a password pair and a connection.
 *
 * Timestamps are integer seconds on the clock the record was written with;
 * `connected_at` and `disconnected_at` stay the strings the code stores.
 */
module RoomRecord {
  import opened Encrypt

  /** The statuses the code writes. */
  datatype Status = Disconnected | Ready

  datatype Connection = Connection(status: Status, connectedAt: string, disconnectedAt: string)

  datatype Member = Member(
    password: Password,
    uid: string,
    email: string,
    displayName: string,
    photoUrl: string,
    connection: Connection)

  datatype Members = Members(host: Member, guest: Member)

  datatype Room = Room(id: string, createdAt: int, expiresAt: int, members: Members)

  /** The identity fields of a signed-in user. */
  datatype UserInfo = UserInfo(uid: string, email: string, displayName: string, photoUrl: string)

  const EmptyUser: UserInfo := UserInfo("", "", "", "")

  /** A connection that has never been used. */
  const FreshConnection: Connection := Connection(Disconnected, "", "")

  /** The all-empty member slot: the guest of a new room. */
  const EmptyMember: Member := Member(Password("", ""), "", "", "", "", FreshConnection)

  function Identity(m: Member): UserInfo {
    UserInfo(m.uid, m.email, m.displayName, m.photoUrl)
  }
}
