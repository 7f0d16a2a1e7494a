/** Values shared by the hub and the controllers: bytes, device addresses, the
    medium header and the protocol constants of vbt.h. */
module Wire {

  datatype Option<+T> = None | Some(value: T)

  type Byte = x: int | 0 <= x < 256

  /** A six-octet Bluetooth device address, as the number its octets spell with the
      least significant one first. */
  type Addr = nat

  const ZERO_ADDR: Addr := 0

  const ADV_ACCESS_ADDR: nat := 0x8E89BED6

  const LL_ADV: nat := 1
  const LL_DATA: nat := 2

  const ADV_IND: nat := 0
  const ADV_DIRECT_IND: nat := 1
  const ADV_NONCONN_IND: nat := 2
  const SCAN_REQ: nat := 3
  const SCAN_RSP: nat := 4
  const CONNECT_IND: nat := 5
  const ADV_SCAN_IND: nat := 6

  /** TTL that a hub stamps on a frame heard from a local node. */
  const FRESH_TTL: nat := 8

  /** The header fields that the hub and the Link Layer act on. */
  datatype Hdr = Hdr(aa: nat, ttl: nat, txAddr: Addr, llType: nat, rssi: int)

  /** The number that octets spell with the least significant one first. */
  function Le(b: seq<Byte>): nat {
    if b == [] then 0 else b[0] as int + 256 * Le(b[1..])
  }

  datatype ConnectInd = ConnectInd(inita: Addr, adva: Addr, aa: nat)

  predicate IsConnectInd(pdu: seq<Byte>) {
    |pdu| >= 2 && pdu[0] % 16 == CONNECT_IND
  }

  /** The connection fields of a CONNECT_IND PDU, when it is long enough to hold them. */
  function ParseConnectInd(pdu: seq<Byte>): Option<ConnectInd> {
    if |pdu| < 18 then None
    else Some(ConnectInd(Le(pdu[2..8]), Le(pdu[8..14]), Le(pdu[14..18])))
  }

  /** Access Addresses that never name a connection. */
  predicate Reserved(aa: nat) {
    aa == 0 || aa == ADV_ACCESS_ADDR
  }

  function Min(a: nat, b: nat): nat {
    if a <= b then a else b
  }

  lemma Assoc<T>(a: seq<T>, b: seq<T>, c: seq<T>)
    ensures a + (b + c) == (a + b) + c
  {
  }
}
