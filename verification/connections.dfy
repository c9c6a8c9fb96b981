/** The registry of progress subscribers (`ConnectionManager`): at most one socket per
    transfer id. */
module Connections {
  import opened Wrappers
  import opened Json

  /** A subscriber socket: an identity, and whether sending on it still succeeds. */
  datatype Socket = Socket(handle: nat, open: bool)

  type Registry = map<string, Socket>

  /** Every id other than `id` has the same entry, or none, in both registries. */
  ghost predicate OthersUnchanged(a: Registry, b: Registry, id: string) {
    forall other :: other != id ==> (other in a <==> other in b) && (other in a ==> a[other] == b[other])
  }

  /** `connect`: the socket becomes the entry for the id, replacing any earlier one. */
  function Connect(reg: Registry, id: string, sock: Socket): (r: Registry)
    ensures id in r && r[id] == sock
    ensures OthersUnchanged(reg, r, id)
  {
    reg[id := sock]
  }

  /** `disconnect`: the id's entry is gone; absent ids are left alone. */
  function Disconnect(reg: Registry, id: string): (r: Registry)
    ensures id !in r
    ensures OthersUnchanged(reg, r, id)
    ensures id !in reg ==> r == reg
  {
    reg - {id}
  }

  /** One text frame delivered to a socket. */
  datatype Delivery = Delivery(handle: nat, data: Json)

  datatype SendResult = SendResult(registry: Registry, delivered: Option<Delivery>)

  /** `send_progress_update`: deliver to the id's socket; a failed send drops the
      entry and is swallowed; no entry, nothing happens. */
  function Send(reg: Registry, id: string, data: Json): (r: SendResult)
    ensures OthersUnchanged(reg, r.registry, id)
    ensures id !in reg ==> r == SendResult(reg, None)
    ensures id in reg && reg[id].open ==> r == SendResult(reg, Some(Delivery(reg[id].handle, data)))
    ensures id in reg && !reg[id].open ==> r.delivered.None? && id !in r.registry
  {
    if id !in reg then SendResult(reg, None)
    else if reg[id].open then SendResult(reg, Some(Delivery(reg[id].handle, data)))
    else SendResult(Disconnect(reg, id), None)
  }

  /** Disconnecting twice is disconnecting once. */
  lemma DisconnectIdempotent(reg: Registry, id: string)
    ensures Disconnect(Disconnect(reg, id), id) == Disconnect(reg, id)
  {
  }

  /** A disconnect undoes any connect for the same id. */
  lemma ConnectThenDisconnect(reg: Registry, id: string, sock: Socket)
    ensures Disconnect(Connect(reg, id, sock), id) == Disconnect(reg, id)
  {
  }

  /** After a connect, updates for the id go to the newest socket while it stays open. */
  lemma LatestSocketReceives(reg: Registry, id: string, sock: Socket, data: Json)
    requires sock.open
    ensures Send(Connect(reg, id, sock), id, data).delivered == Some(Delivery(sock.handle, data))
  {
  }
}
