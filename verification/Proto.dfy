/** The data that travels between clients and server: frame types, message types and the size
    constants of the protocol. */
module Proto {

  datatype Option<+T> = None | Some(value: T) {
    predicate IsFailure() { None? }
    function PropagateFailure<U>(): Option<U> requires None? { None }
    function Extract(): T requires Some? { value }
  }

  newtype u8 = n: int | 0 <= n < 0x100
  newtype u16 = n: int | 0 <= n < 0x1_0000
  newtype u64 = n: int | 0 <= n < 0x1_0000_0000_0000_0000

  const U64_MAX: u64 := 0xffff_ffff_ffff_ffff

  /** Strings are their UTF-8 bytes. */
  type Bytes = seq<u8>

  type Octets16 = s: Bytes | |s| == 16 witness seq(16, _ => 0 as u8)
  type Octets32 = s: Bytes | |s| == 32 witness seq(32, _ => 0 as u8)

  /** A session identifier: 16 random octets, fresh for every connection. */
  datatype Uuid = Uuid(octets: Octets16)

  const MAX_FRAME_LEN: nat := 65536
  const HISTORY_LEN: nat := 15
  const MAX_USERNAME_LEN: nat := 32
  const MAX_ROOM_ID_LEN: nat := 32
  const MAX_CIPHERTEXT_LEN: nat := 4096
  const EPHEMERAL_TTL_MS: nat := 30000
  const EPHEMERAL_REVEAL_MS: nat := 3000

  datatype ErrorKind = AuthFailed | BadFrame | RateLimited | UnsupportedVersion | Internal

  /** The part of a message bound into its authenticated encryption. */
  datatype MessageAd = MessageAd(from: Uuid, username: Bytes, counter: u64, timestampMs: u64, ephemeral: bool)

  datatype RoomMessage = RoomMessage(from: Uuid, username: Bytes, ad: MessageAd, ciphertext: Bytes)

  datatype ClientFrame =
    | RoomSelect(room: Bytes)
    | ClientHello(username: Bytes)
    | ClientMessage(ad: MessageAd, ciphertext: Bytes)
    | Clear

  datatype ServerFrame =
    | ServerHello(roomSalt: Octets32, serverVersion: u16)
    | Welcome(userId: Uuid, history: seq<RoomMessage>)
    | Message(msg: RoomMessage)
    | Cleared(author: Uuid, username: Bytes)
    | Error(reason: ErrorKind)

  predicate IsAsciiAlphanumeric(b: u8) {
    48 <= b <= 57 || 65 <= b <= 90 || 97 <= b <= 122
  }

  /** ASCII letters, digits, `_` and `-` only. */
  predicate IsValidUsername(name: Bytes) {
    forall i | 0 <= i < |name| :: IsAsciiAlphanumeric(name[i]) || name[i] == 95 || name[i] == 45
  }

  /** What a client must have sent in its Hello to be let into a room. */
  predicate AdmissibleUsername(name: Bytes) {
    name != [] && |name| <= MAX_USERNAME_LEN && IsValidUsername(name)
  }

  /** The bounds every message that passed the server's checks satisfies. */
  predicate WithinBounds(m: RoomMessage) {
    && m.ad.from == m.from
    && m.ad.username == m.username
    && AdmissibleUsername(m.username)
    && |m.ciphertext| <= MAX_CIPHERTEXT_LEN
  }
}
