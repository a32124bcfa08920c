/** The handshake prologue: both ends must build the same bytes from the room, its salt and the
    protocol version, or the handshake fails. */
module Prologue {
  import opened Proto

  function PrologueBytes(roomId: Bytes, salt: Octets32, version: u16): Bytes {
    [(|roomId| % 256) as u8] + roomId + salt + [(version / 256) as u8, (version % 256) as u8]
  }

  method BuildPrologue(roomId: Bytes, salt: Octets32, version: u16) returns (v: Bytes)
    ensures v == PrologueBytes(roomId, salt, version)
  {
    v := [];
    v := v + [(|roomId| % 256) as u8];
    v := v + roomId;
    v := v + salt;
    v := v + [(version / 256) as u8, (version % 256) as u8];
  }

  /** Equal prologues mean the same room, salt and version, for room names of any length: the length
      byte may wrap, but everything after the name has a fixed size. */
  lemma PrologueInjective(room1: Bytes, salt1: Octets32, version1: u16, room2: Bytes, salt2: Octets32, version2: u16)
    ensures PrologueBytes(room1, salt1, version1) == PrologueBytes(room2, salt2, version2)
       <==> room1 == room2 && salt1 == salt2 && version1 == version2
  {
    var p1, p2 := PrologueBytes(room1, salt1, version1), PrologueBytes(room2, salt2, version2);
    assert p1[1..|p1| - 34] == room1 && p2[1..|p2| - 34] == room2;
    assert p1[|p1| - 34..|p1| - 2] == salt1 && p2[|p2| - 34..|p2| - 2] == salt2;
    if p1 == p2 {
      assert p1[|p1| - 2] == p2[|p2| - 2] && p1[|p1| - 1] == p2[|p2| - 1];
      assert version1 == 256 * (version1 / 256) + version1 % 256;
      assert version2 == 256 * (version2 / 256) + version2 % 256;
    }
  }

  /** Where everything is: the length of the name, modulo 256, the name, the salt, and the version with
      its more significant byte first. */
  lemma PrologueLayout(roomId: Bytes, salt: Octets32, version: u16)
    ensures var p, n := PrologueBytes(roomId, salt, version), |roomId|;
            && |p| == n + 35
            && p[0] as nat == n % 256
            && p[1..n + 1] == roomId && p[n + 1..n + 33] == salt
            && version as nat == 256 * p[n + 33] as nat + p[n + 34] as nat
  {
  }
}
