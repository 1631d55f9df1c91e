/** Messages between the world and the clients (src/shared/protocol). */
module Protocol {

  /** What a client knows of one player. */
  datatype Entry = Entry(x: real, y: real, width: real, height: real)

  datatype Message =
    | CreatePlayerMsg(id: nat, entry: Entry)
    | SpawnPlayersMsg(others: map<nat, Entry>)
    | AddPlayerMsg(id: nat, entry: Entry)
    | RemovePlayerMsg(id: nat)
    | MovePlayerMsg(id: nat, x: real, y: real)

  datatype PacketType = Broadcast | Rpc | RpcOthers

  /** Contents on their way out, with the id they are about and the sessions they are for. */
  datatype ServerPacket<M> = ServerPacket(msg: M, id: nat, kind: PacketType)

  /** A packet on its way in: of its contents the world reads only the opcode. */
  datatype Input = Input(id: nat, opcode: nat)

  const CREATE_PLAYER := 0x0003
  const SPAWN_PLAYERS := 0x0004
  const MOVE_LEFT := 0x0012
  const MOVE_RIGHT := 0x0013
  const JUMP := 0x0014
  const MOVE_PLAYER := 0x0015
  const ADD_PLAYER := 0x0016
  const REMOVE_PLAYER := 0x0017

  /** The opcodes that the server itself queues for the world. */
  predicate Reserved(opcode: nat) { opcode == CREATE_PLAYER || opcode == REMOVE_PLAYER }

  /** The opcodes for which the world uses the player that it looked up. */
  predicate Steers(opcode: nat) { opcode == MOVE_LEFT || opcode == MOVE_RIGHT || opcode == JUMP }
}
