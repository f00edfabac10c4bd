/**
 * The room lifecycle of server/handler.ts: the expiry sweep, room creation
 * and the password gate, over the `rooms` collection of the database.
 *
 * The database is an in-memory map from room id to record. The clock, the
 * fresh uuid, and the outcome of every database write are parameters. The
 * event emitter is an append-only log of the ids emitted on
 * 'admin-delete-room'.
 */
module Handler {
  import opened Wrappers
  import opened Encrypt
  import opened RoomRecord

  /** The timezone shift added to the clock, in seconds. */
  const NineHours: int := 9 * 60 * 60

  /** A room lives three minutes, in seconds. */
  const RoomTtl: int := 3 * 60

  const WrongPasswordMessage: string := "비밀번호가 맞지 않습니다. 다시 시도해주세요"

  /** The instant the sweep compares against: shifted by nine hours only in production. */
  function SweepNow(clock: int, isProd: bool): int {
    if isProd then clock + NineHours else clock
  }

  /** `expiresAt.isBefore(now)`. */
  predicate IsExpired(room: Room, now: int) {
    room.expiresAt < now
  }

  /** The ids of the rooms a sweep at `now` selects. */
  function ExpiredIds(rooms: map<string, Room>, now: int): set<string> {
    set id | id in rooms && IsExpired(rooms[id], now)
  }

  /**
   * The collection after a sweep at `now`, when the database rejected the
   * removal of the ids in `failed`.
   */
  function Swept(rooms: map<string, Room>, now: int, failed: set<string>): map<string, Room> {
    map id | id in rooms && !(IsExpired(rooms[id], now) && id !in failed) :: rooms[id]
  }

  /** Every record is stored under its own id. */
  ghost predicate KeyedById(rooms: map<string, Room>) {
    forall id | id in rooms :: rooms[id].id == id
  }

  /** The record `createRoom` writes, with the clock read once. */
  function NewRoom(roomId: string, host: UserInfo, hashed: string, salt: string, clock: int): (r: Room)
    ensures r.id == roomId
    ensures r.createdAt == clock + NineHours
    ensures r.expiresAt - r.createdAt == RoomTtl
    ensures Identity(r.members.host) == host
    ensures r.members.host.password == Password(hashed, salt)
    ensures r.members.host.connection == FreshConnection
    ensures r.members.guest == EmptyMember
  {
    Room(
      roomId,
      clock + NineHours,
      clock + NineHours + RoomTtl,
      Members(
        Member(Password(hashed, salt), host.uid, host.email, host.displayName, host.photoUrl, FreshConnection),
        EmptyMember))
  }

  /** Why a request answered 500. */
  datatype ServerError =
    | CryptoFailed(cause: CryptoError)  // randomBytes or pbkdf2 rejected
    | WriteRejected                     // the database refused the write
    | RoomMissing                       // `room.members` read on a null snapshot

  /** Body of POST /room. */
  datatype CreateRoomBody = CreateRoomBody(password: string, host: UserInfo)

  datatype CreateResponse = Created(roomId: string) | CreateFailed(error: ServerError)

  datatype CheckResponse = PasswordOk | PasswordWrong(message: string) | CheckFailed(error: ServerError)

  /** `checkRoomPassword`: the answer to POST /room/check, read from the collection. */
  function CheckRoomPassword(rooms: map<string, Room>, roomId: string, password: string, kdf: Kdf): (r: CheckResponse)
    ensures r == PasswordOk <==>
      roomId in rooms && ComparePassword(password, rooms[roomId].members.host.password, kdf) == Success(true)
    ensures r == PasswordWrong(WrongPasswordMessage) <==>
      roomId in rooms && ComparePassword(password, rooms[roomId].members.host.password, kdf) == Success(false)
    ensures r.PasswordWrong? ==> r.message == WrongPasswordMessage
    ensures roomId in rooms && ComparePassword(password, rooms[roomId].members.host.password, kdf).Failure? ==>
      r == CheckFailed(CryptoFailed(ComparePassword(password, rooms[roomId].members.host.password, kdf).error))
    ensures roomId !in rooms ==> r == CheckFailed(RoomMissing)
  {
    if roomId !in rooms then
      CheckFailed(RoomMissing)
    else
      match ComparePassword(password, rooms[roomId].members.host.password, kdf)
      case Failure(e) => CheckFailed(CryptoFailed(e))
      case Success(isCorrect) =>
        if isCorrect then PasswordOk else PasswordWrong(WrongPasswordMessage)
  }

  class RoomStore {
    /** The `rooms` collection. */
    var rooms: map<string, Room>
    /** Every id emitted on 'admin-delete-room', oldest first. */
    var emitted: seq<string>

    ghost predicate Valid()
      reads this
    {
      KeyedById(rooms)
    }

    constructor ()
      ensures Valid() && rooms == map[] && emitted == []
    {
      rooms := map[];
      emitted := [];
    }

    /**
     * `removeRoomSchedule`: one pass of the sweep at `clock`. Every room the
     * snapshot shows as expired is removed under its id, unless the database
     * rejects that removal (`failed`); the removal's completion callback
     * emits the id either way.
     */
    method RemoveRoomSchedule(clock: int, isProd: bool, failed: set<string>)
      requires Valid()
      modifies this
      ensures Valid()
      ensures rooms == Swept(old(rooms), SweepNow(clock, isProd), failed)
      ensures |emitted| >= |old(emitted)| && emitted[..|old(emitted)|] == old(emitted)
      ensures forall id :: id in emitted[|old(emitted)|..] <==> id in ExpiredIds(old(rooms), SweepNow(clock, isProd))
      ensures forall i, j :: |old(emitted)| <= i < j < |emitted| ==> emitted[i] != emitted[j]
    {
      var now := SweepNow(clock, isProd);
      var snapshot := rooms;
      var pending := snapshot.Keys;
      ghost var before := emitted;
      while pending != {}
        invariant KeyedById(snapshot)
        invariant pending <= snapshot.Keys
        invariant rooms == map id | id in snapshot && !(id !in pending && IsExpired(snapshot[id], now) && id !in failed) :: snapshot[id]
        invariant |emitted| >= |before| && emitted[..|before|] == before
        invariant forall id :: id in emitted[|before|..] <==> id in ExpiredIds(snapshot, now) && id !in pending
        invariant forall i, j :: |before| <= i < j < |emitted| ==> emitted[i] != emitted[j]
        decreases pending
      {
        var key :| key in pending;
        var item := snapshot[key];
        if item.expiresAt < now {
          if item.id !in failed {
            rooms := rooms - {item.id};
          }
          assert (emitted + [item.id])[|before|..] == emitted[|before|..] + [item.id];
          emitted := emitted + [item.id];
        }
        pending := pending - {key};
      }
    }

    /**
     * `createRoom`: salt, hash, then one write of the new record under the
     * fresh id `roomId`. Any failure answers 500 and leaves the collection
     * as it was.
     */
    method CreateRoom(body: CreateRoomBody, randomBytes: RandomBytes, kdf: Kdf, roomId: string, clock: int, writeFails: bool)
      returns (resp: CreateResponse)
      requires Valid()
      requires DeliversRequested(randomBytes, SaltBytes)
      modifies this
      ensures Valid() && emitted == old(emitted)
      ensures resp.Created? <==>
        CreateSalt(randomBytes).Success?
        && CreateHashedPassword(body.password, CreateSalt(randomBytes).value, kdf).Success?
        && !writeFails
      ensures resp.Created? ==> resp.roomId == roomId && rooms == old(rooms)[roomId := NewRoom(roomId, body.host,
        CreateHashedPassword(body.password, CreateSalt(randomBytes).value, kdf).value, CreateSalt(randomBytes).value, clock)]
      ensures resp.Created? && roomId !in old(rooms) ==> |rooms| == |old(rooms)| + 1
      ensures !resp.Created? ==> rooms == old(rooms)
    {
      var salt := CreateSalt(randomBytes);
      if salt.Failure? {
        return CreateFailed(CryptoFailed(salt.error));
      }
      var hashed := CreateHashedPassword(body.password, salt.value, kdf);
      if hashed.Failure? {
        return CreateFailed(CryptoFailed(hashed.error));
      }
      if writeFails {
        return CreateFailed(WriteRejected);
      }
      rooms := rooms[roomId := NewRoom(roomId, body.host, hashed.value, salt.value, clock)];
      resp := Created(roomId);
    }
  }

  /** A sweep removes exactly the expired rooms whose removal succeeded and keeps every other record as it was. */
  lemma SweepRemovesExactlyExpired(rooms: map<string, Room>, now: int, failed: set<string>)
    ensures Swept(rooms, now, failed).Keys == rooms.Keys - (ExpiredIds(rooms, now) - failed)
    ensures forall id | id in Swept(rooms, now, failed) :: Swept(rooms, now, failed)[id] == rooms[id]
  {
  }

  /** A room expiring exactly at `now` is not expired yet; one second later it is. */
  lemma ExpiryBoundary(rooms: map<string, Room>, id: string, now: int)
    requires id in rooms && rooms[id].expiresAt == now
    ensures id in Swept(rooms, now, {})
    ensures id !in Swept(rooms, now + 1, {})
  {
  }

  /** An empty collection stays empty and nothing is selected. */
  lemma SweepEmpty(now: int, failed: set<string>)
    ensures Swept(map[], now, failed) == map[]
    ensures ExpiredIds(map[], now) == {}
  {
  }

  /**
   * Sweeping again at the same instant selects only the rooms whose removal
   * failed the first time; after a sweep without failures it selects nothing
   * and changes nothing.
   */
  lemma SweepAgain(rooms: map<string, Room>, now: int, failed: set<string>)
    ensures ExpiredIds(Swept(rooms, now, failed), now) == ExpiredIds(rooms, now) * failed
    ensures ExpiredIds(Swept(rooms, now, {}), now) == {}
    ensures Swept(Swept(rooms, now, {}), now, {}) == Swept(rooms, now, {})
  {
  }

  /** The sweep and creation keep every record under its own id. */
  lemma SweptKeyedById(rooms: map<string, Room>, now: int, failed: set<string>)
    requires KeyedById(rooms)
    ensures KeyedById(Swept(rooms, now, failed))
  {
  }

  /**
   * Lifetime of a new room: created at `created`, it is selected by a sweep
   * at `clock` exactly when the sweep's instant is past created + 9h + 3min.
   * In production that is three minutes after creation; elsewhere the
   * creation shift is not matched by the sweep and the room lives nine
   * hours and three minutes.
   */
  lemma RoomLifetime(roomId: string, host: UserInfo, hashed: string, salt: string, created: int, clock: int, isProd: bool)
    ensures IsExpired(NewRoom(roomId, host, hashed, salt, created), SweepNow(clock, isProd)) <==>
      (if isProd then clock > created + RoomTtl else clock > created + NineHours + RoomTtl)
  {
  }
}
