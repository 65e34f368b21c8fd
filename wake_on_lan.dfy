/**
 * The Wake-on-LAN packet that `modem_ethernet_wakeup` (and its copy
 * `unetsocket_ext_ethernet_wakeup`) broadcasts to UDP port 9, in the AMD
 * Magic Packet format: a synchronisation stream of six 0xFF bytes followed
 * by sixteen copies of the target's 48-bit MAC address.
 */
module WakeOnLan {
  import opened Wrappers
  import opened Bytes

  const PACKET_LENGTH: nat := 102
  /** The UDP port the packet is broadcast to (the "discard" port). */
  const WAKEUP_PORT: int := 9

  /** The magic packet for the six-byte address `mac`. */
  function Packet(mac: seq<Byte>): (p: seq<Byte>)
    requires |mac| == 6
  {
    seq(PACKET_LENGTH, i requires 0 <= i < PACKET_LENGTH => if i < 6 then 0xFF else mac[i % 6])
  }

  /**
   * What a receiver checks for: a 102-byte packet opening with six 0xFF
   * bytes, followed by one address repeated sixteen times; that address.
   */
  function AddressOf(p: seq<Byte>): (r: Option<seq<Byte>>)
    ensures r.Some? ==> |r.value| == 6
  {
    if |p| == PACKET_LENGTH
       && (forall i :: 0 <= i < 6 ==> p[i] == 0xFF)
       && (forall i :: 6 <= i < PACKET_LENGTH ==> p[i] == p[6 + i % 6])
    then Some(p[6..12])
    else None
  }

  /** A receiver recovers the address from the packet built for it. */
  lemma AddressOfPacket(mac: seq<Byte>)
    requires |mac| == 6
    ensures AddressOf(Packet(mac)) == Some(mac)
  {
    var p := Packet(mac);
    assert forall i :: 6 <= i < PACKET_LENGTH ==> p[i] == p[6 + i % 6];
    assert p[6..12] == mac;
  }

  /** Only the packet built for an address is recognised as carrying it. */
  lemma PacketOfAddress(p: seq<Byte>)
    requires AddressOf(p).Some?
    ensures p == Packet(AddressOf(p).value)
  {
    var mac := AddressOf(p).value;
    assert forall i :: 6 <= i < PACKET_LENGTH ==> p[i] == mac[i % 6];
  }

  /**
   * `modem_ethernet_wakeup`: fills the 102-byte buffer with the
   * synchronisation stream and then copies the address sixteen times, and
   * sends it to port 9 of the broadcast address. Only a refused broadcast
   * option (`broadcastAllowed` false) fails, before anything is built; the
   * result of the send itself is not looked at.
   */
  method EthernetWakeup(macaddr: seq<Byte>, broadcastAllowed: bool) returns (rc: int, sent: Option<seq<Byte>>, port: int)
    requires |macaddr| >= 6
    ensures !broadcastAllowed ==> rc == -1 && sent.None?
    ensures broadcastAllowed ==> rc == 0 && sent == Some(Packet(macaddr[..6])) && port == WAKEUP_PORT
  {
    if !broadcastAllowed {
      return -1, None, 0;
    }
    var toSend := new Byte[PACKET_LENGTH];
    var i := 0;
    while i < 6
      invariant 0 <= i <= 6
      invariant forall k :: 0 <= k < i ==> toSend[k] == 0xFF
    {
      toSend[i] := 0xFF;
      i := i + 1;
    }
    i := 1;
    while i <= 16
      invariant 1 <= i <= 17
      invariant forall k :: 0 <= k < 6 ==> toSend[k] == 0xFF
      invariant forall k :: 6 <= k < 6 * i ==> toSend[k] == macaddr[k % 6]
    {
      var j := 0;
      while j < 6
        invariant 0 <= j <= 6
        invariant forall k :: 0 <= k < 6 ==> toSend[k] == 0xFF
        invariant forall k :: 6 <= k < 6 * i + j ==> toSend[k] == macaddr[k % 6]
      {
        toSend[6 * i + j] := macaddr[j];
        j := j + 1;
      }
      i := i + 1;
    }
    assert toSend[..] == Packet(macaddr[..6]);
    return 0, Some(toSend[..]), WAKEUP_PORT;
  }
}
