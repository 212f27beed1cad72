/** Types shared by every component: machine-width integers, keys, addresses and loops. */
module Base {

  datatype Option<+T> = None | Some(value: T)

  datatype Result<+T> = Ok(value: T) | Err(error: string)

  const UINT16 := 0x1_0000
  const UINT32 := 0x1_0000_0000
  const UINT64 := 0x1_0000_0000_0000_0000

  type Byte = x: int | 0 <= x < 256
  type Port = x: int | 0 <= x < UINT16
  type RouteID = x: int | 0 <= x < UINT32

  type Bytes33 = s: seq<Byte> | |s| == 33 witness seq(33, _ => 0)
  type Bytes16 = s: seq<Byte> | |s| == 16 witness seq(16, _ => 0)

  /** A compressed public key. */
  datatype PubKey = PubKey(bytes: Bytes33)

  datatype UUID = UUID(bytes: Bytes16)

  /** The zero values the source's structs start with. */
  const NO_KEY := PubKey([0, 0, 0, 0, 0, 0, 0, 0, 0, 0, 0, 0, 0, 0, 0, 0, 0,
                          0, 0, 0, 0, 0, 0, 0, 0, 0, 0, 0, 0, 0, 0, 0, 0])
  const NO_UUID := UUID([0, 0, 0, 0, 0, 0, 0, 0, 0, 0, 0, 0, 0, 0, 0, 0])

  datatype Addr = Addr(pk: PubKey, port: Port)

  datatype Loop = Loop(local: Addr, remote: Addr)

  datatype Hop = Hop(from: PubKey, to: PubKey, transport: UUID)

  type Route = seq<Hop>

  datatype LoopDescriptor = LoopDescriptor(loop: Loop, forward: Route, reverse: Route, keepAlive: int)

  /** A routing rule, by its fields; RuleCodec relates it to the bytes on the wire. */
  datatype Rule =
    | App(keepAlive: nat, reqID: RouteID, respID: RouteID, remotePK: PubKey, localPort: Port, remotePort: Port)
    | Forward(keepAlive: nat, reqID: RouteID, nextID: RouteID, transport: UUID)

  /** A packet between visors, by the fields of its header. */
  datatype Packet = Packet(id: RouteID, payload: seq<Byte>)

  /** Both rule constructors turn a negative keep-alive into zero. */
  function Clamp(keepAlive: int): nat {
    if keepAlive < 0 then 0 else keepAlive
  }
}
