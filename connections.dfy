/**
  The wrapper a caller sees for one client connection: it identifies the
  channel, remembers the player bound to it (by UUID) and, once the player
  has joined, the server's per-player connection object used to send packets.
 */
module Connections {
  import opened Wrappers
  import opened Pipelines

  type Uuid = nat

  /** The server's per-player connection object, by identity. */
  type PlayerConnection = nat

  /** A protocol message, opaque to the interception engine. */
  type Packet = string

  newtype int32 = x: int | -0x8000_0000 <= x < 0x8000_0000

  /** Java's 32-bit wrap-around of an integer result. */
  function Wrap32(x: int): (r: int32)
    ensures (r as int - x) % 0x1_0000_0000 == 0
  {
    ((x + 0x8000_0000) % 0x1_0000_0000 - 0x8000_0000) as int32
  }

  /** Which route `sendPacket` takes. */
  datatype Delivery =
    | ThroughPlayerConnection(connection: PlayerConnection, packet: Packet)
    | WriteAndFlush(channel: Channel, packet: Packet)

  /** getPlayer() raises IllegalStateException("No player") when no player is bound. */
  datatype PlayerError = NoPlayer

  class ClientConnection {
    const channel: Channel
    var uuid: Option<Uuid>
    var playerConnection: Option<PlayerConnection>

    constructor (channel: Channel)
      ensures this.channel == channel && uuid == None && playerConnection == None
    {
      this.channel := channel;
      uuid := None;
      playerConnection := None;
    }

    /** The connection represents a player exactly when a UUID is bound. */
    method HasPlayer() returns (b: bool)
      ensures b <==> uuid.Some?
    {
      b := uuid.Some?;
    }

    /** Binds the player's UUID, or clears it when given no player. */
    method SetPlayer(player: Option<Uuid>)
      modifies this`uuid
      ensures uuid == player
    {
      uuid := player;
    }

    method SetPlayerConnection(connection: Option<PlayerConnection>)
      modifies this`playerConnection
      ensures playerConnection == connection
    {
      playerConnection := connection;
    }

    /** The bound player, or the "No player" failure when none is bound. */
    method GetPlayer() returns (r: Result<Uuid, PlayerError>)
      ensures r.Failure? <==> uuid.None?
      ensures r.Success? ==> uuid == Some(r.value)
    {
      match uuid
      case None => r := Failure(NoPlayer);
      case Some(u) => r := Success(u);
    }

    method GetRawChannel() returns (ch: Channel)
      ensures ch == channel
    {
      ch := channel;
    }

    /**
      Sends through the player connection when one is known; otherwise
      writes and flushes straight on the channel.
     */
    method SendPacket(packet: Packet) returns (d: Delivery)
      ensures d.packet == packet
      ensures d.ThroughPlayerConnection? <==> playerConnection.Some?
      ensures d.ThroughPlayerConnection? ==> d.connection == playerConnection.value
      ensures d.WriteAndFlush? ==> d.channel == channel
    {
      match playerConnection
      case Some(pc) => d := ThroughPlayerConnection(pc, packet);
      case None => d := WriteAndFlush(channel, packet);
    }

    /** equals(o): another wrapper of the same channel; never null. */
    predicate Equals(that: ClientConnection?)
      ensures Equals(that) ==> that != null && that.channel == channel
      ensures that != null && that.channel == channel ==> Equals(that)
    {
      that != null && that.channel == channel
    }

    /**
      hashCode() = Objects.hash(channel) = 31 * 1 + channel.hashCode(), in
      32-bit arithmetic; `channelHash` stands for the channel's own hashCode.
     */
    function HashCode(channelHash: Channel -> int32): (r: int32)
      ensures (r as int - (31 * 1 + channelHash(channel) as int)) % 0x1_0000_0000 == 0
    {
      Wrap32(31 + channelHash(channel) as int)
    }
  }

  /** Equality of wrappers is an equivalence that ignores the bound player and connection. */
  lemma EqualsIsChannelEquality(a: ClientConnection, b: ClientConnection, c: ClientConnection)
    ensures a.Equals(a)
    ensures a.Equals(b) <==> b.Equals(a)
    ensures a.Equals(b) && b.Equals(c) ==> a.Equals(c)
    ensures a.Equals(b) <==> a.channel == b.channel
    ensures !a.Equals(null)
  {
  }

  /** Equal wrappers hash alike, whatever players they hold. */
  lemma EqualsAgreesWithHashCode(a: ClientConnection, b: ClientConnection, channelHash: Channel -> int32)
    ensures a.Equals(b) ==> a.HashCode(channelHash) == b.HashCode(channelHash)
  {
  }
}
