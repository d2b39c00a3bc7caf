/** The lease on the one interactive connection (daemon/lease.go). Identifier n stands for `client-n`, 0 for none. */
module Leases {
  import opened Protocol

  /** `granted` lists every identifier ever handed out. */
  datatype Lease = Lease(active: nat, nextId: nat, granted: seq<nat>)

  const FREE := Lease(0, 0, [])

  function Acquired(l: Lease): (Lease, Option<nat>) {
    if l.active != 0 then (l, None)
    else (Lease(l.nextId + 1, l.nextId + 1, l.granted + [l.nextId + 1]), Some(l.nextId + 1))
  }

  function Released(l: Lease, id: nat): (Lease, bool) {
    if id == 0 || l.active != id then (l, false) else (l.(active := 0), true)
  }

  /** The identifiers are 1, 2, 3, ...: none is ever handed out twice. */
  ghost predicate LeaseOk(l: Lease) {
    && l.active <= l.nextId == |l.granted|
    && forall i :: 0 <= i < |l.granted| ==> l.granted[i] == i + 1
  }

  class ClientLease {
    var active: nat
    var nextId: nat
    ghost var granted: seq<nat>

    ghost function Value(): Lease
      reads this
    {
      Lease(active, nextId, granted)
    }

    constructor ()
      ensures Value() == FREE
    {
      active, nextId, granted := 0, 0, [];
    }

    method Acquire() returns (id: Option<nat>)
      modifies this
      ensures (Value(), id) == Acquired(old(Value()))
    {
      if active != 0 { return None; }
      nextId := nextId + 1;
      active := nextId;
      granted := granted + [nextId];
      id := Some(active);
    }

    method Release(id: nat) returns (done: bool)
      modifies this
      ensures (Value(), done) == Released(old(Value()), id)
    {
      if id == 0 || active != id { return false; }
      active := 0;
      done := true;
    }

    method Owner() returns (id: nat)
      ensures id == Value().active
    {
      id := active;
    }
  }

  // ---- the connection on record (daemon/daemon.go) ----

  /** A handler forgets only its own connection. */
  function Cleared(active: Option<nat>, conn: nat): Option<nat> {
    if active == Some(conn) then None else active
  }

  class ActiveConn {
    var conn: Option<nat>

    constructor ()
      ensures conn == None
    {
      conn := None;
    }

    method Set(c: nat)
      modifies this
      ensures conn == Some(c)
    {
      conn := Some(c);
    }

    method Clear(c: nat)
      modifies this
      ensures conn == Cleared(old(conn), c)
    {
      if conn == Some(c) { conn := None; }
    }
  }
}
