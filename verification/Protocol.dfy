/** The messages a server puts on a client's channel (src/protocol.rs). */
module Protocol {
  import opened Bytes
  import opened Transaction
  import opened Chain

  datatype Member = Member(nodeId: Text, name: Text)

  datatype Msg =
    | Peers(members: set<Member>)
    | TxAck(id: Text, ok: bool, err: Option<TxError>)
    | TxAnnounce(tx: SignedTx)
    | NewBlock(block: Block)
}
