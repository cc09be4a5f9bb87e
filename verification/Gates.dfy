/** Connection ownership by generation: who may feed a source. */
module Gates {
  import opened Wrappers

  // A connection is known by its identity.
  type Conn = nat

  datatype Gate = Gate(generation: nat, connection: Option<Conn>)

  const SHUT := Gate(0, None)

  function Replace(g: Gate, conn: Conn): Gate { Gate(g.generation + 1, Some(conn)) }

  predicate Current(g: Gate, generation: nat, conn: Conn) { generation == g.generation && g.connection == Some(conn) }

  function Release(g: Gate, generation: nat, conn: Conn): Gate {
    if Current(g, generation, conn) then g.(connection := None) else g
  }
}
