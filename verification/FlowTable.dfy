/** Flows by slot and by key, and the fixed pool of buffers they draw from. */
module FlowTable {
  import opened Words
  import opened TcpModel

  /** What the guest knows a flow by; for pings the guest port is the echo identifier. */
  datatype Key = Key(proto: byte, guestPort: u16, dstIp: seq<byte>, dstPort: u16)

  datatype Kind = Udp | Ping | TcpKind

  /** `owner` numbers the flows in order of creation; it is not stored by the program. */
  datatype Flow = Flow(
    key: Key, kind: Kind, buf: nat, lastActive: nat, tcp: Option<Conn>, closing: bool, owner: nat)

  datatype Table = Table(flows: seq<Option<Flow>>, free: seq<nat>, byKey: map<Key, nat>)

  predicate Occupied(t: Table, id: nat) { id < |t.flows| && t.flows[id].Some? }

  predicate Live(t: Table, id: nat) { Occupied(t, id) && !t.flows[id].value.closing }

  // ---------------------------------------------------------------------------------------------
  // Operations
  // ---------------------------------------------------------------------------------------------

  function NextSlot(t: Table): int { if t.free == [] then |t.flows| else t.free[|t.free| - 1] }

  /** Reuse the slot freed last, or add one. */
  function Insert(t: Table, f: Flow): Table
    requires forall i :: 0 <= i < |t.free| ==> t.free[i] < |t.flows|
  {
    var id := NextSlot(t);
    if t.free == [] then Table(t.flows + [Some(f)], [], t.byKey[f.key := id])
    else Table(t.flows[id := Some(f)], t.free[..|t.free| - 1], t.byKey[f.key := id])
  }

  /** A newer flow may own the key by now, so an index entry goes only when it points at `id`. */
  function Unindex(byKey: map<Key, nat>, key: Key, id: nat): map<Key, nat> {
    if key in byKey && byKey[key] == id then byKey - {key} else byKey
  }

  function Remove(t: Table, id: nat): Table {
    if !Occupied(t, id) then t
    else Table(t.flows[id := None], t.free + [id], Unindex(t.byKey, t.flows[id].value.key, id))
  }

  function MarkClosing(t: Table, id: nat): Table {
    if !Occupied(t, id) then t
    else
      var f := t.flows[id].value;
      Table(t.flows[id := Some(f.(closing := true))], t.free, Unindex(t.byKey, f.key, id))
  }

  /** A flow whose key, buffer and owner stay as they are. */
  function Update(t: Table, id: nat, f: Flow): Table
    requires id < |t.flows|
  {
    t.(flows := t.flows[id := Some(f)])
  }

  // ---------------------------------------------------------------------------------------------
  // What the operations keep
  // ---------------------------------------------------------------------------------------------

  /** The index is exactly the map from the keys of live flows to their slots. */
  ghost predicate IndexOk(t: Table) {
    && (forall k :: k in t.byKey ==> Live(t, t.byKey[k]) && t.flows[t.byKey[k]].value.key == k)
    && (forall id: nat :: Live(t, id) ==> t.flows[id].value.key in t.byKey && t.byKey[t.flows[id].value.key] == id)
  }

  /** The free list is exactly the empty slots, each once. */
  ghost predicate FreeOk(t: Table) {
    && (forall i :: 0 <= i < |t.free| ==> t.free[i] < |t.flows| && t.flows[t.free[i]].None?)
    && (forall i, j :: 0 <= i < j < |t.free| ==> t.free[i] != t.free[j])
    && (forall id: nat :: id < |t.flows| && t.flows[id].None? ==> id in t.free)
  }

  ghost predicate TableOk(t: Table) { IndexOk(t) && FreeOk(t) }

  lemma InsertIndex(t: Table, f: Flow)
    requires TableOk(t) && f.key !in t.byKey && !f.closing
    ensures IndexOk(Insert(t, f))
  {
    var t', slot := Insert(t, f), NextSlot(t);
    forall k | k in t'.byKey ensures Live(t', t'.byKey[k]) && t'.flows[t'.byKey[k]].value.key == k {
      if k != f.key { assert Live(t, t.byKey[k]); }
    }
    forall id: nat | Live(t', id) ensures t'.flows[id].value.key in t'.byKey && t'.byKey[t'.flows[id].value.key] == id {
      if id != slot { assert Live(t, id); }
    }
  }

  lemma InsertFree(t: Table, f: Flow)
    requires FreeOk(t)
    ensures FreeOk(Insert(t, f))
  {
    var t', slot := Insert(t, f), NextSlot(t);
    forall id: nat | id < |t'.flows| && t'.flows[id].None? ensures id in t'.free {
      assert id != slot && id in t.free;
    }
  }

  /** A new flow under an absent key goes to an empty slot. */
  lemma InsertKeeps(t: Table, f: Flow)
    requires TableOk(t) && f.key !in t.byKey && !f.closing
    ensures TableOk(Insert(t, f))
    ensures !Occupied(t, NextSlot(t)) && Occupied(Insert(t, f), NextSlot(t))
  {
    InsertIndex(t, f);
    InsertFree(t, f);
  }

  /** Taking a flow out of the index, be it closed or removed, leaves the other entries alone. */
  lemma DropIndex(t: Table, t': Table, id: nat)
    requires IndexOk(t) && Occupied(t, id) && |t'.flows| == |t.flows| && !Live(t', id)
    requires forall j :: 0 <= j < |t.flows| && j != id ==> t'.flows[j] == t.flows[j]
    requires t'.byKey == Unindex(t.byKey, t.flows[id].value.key, id)
    ensures IndexOk(t')
  {
    forall k | k in t'.byKey ensures Live(t', t'.byKey[k]) && t'.flows[t'.byKey[k]].value.key == k {
      assert Live(t, t.byKey[k]);
    }
    forall j: nat | Live(t', j) ensures t'.flows[j].value.key in t'.byKey && t'.byKey[t'.flows[j].value.key] == j {
      assert j != id && Live(t, j);
    }
  }

  lemma RemoveFree(t: Table, id: nat)
    requires FreeOk(t)
    ensures FreeOk(Remove(t, id))
  {
    var t' := Remove(t, id);
    forall j: nat | j < |t'.flows| && t'.flows[j].None? ensures j in t'.free {
      if j != id { assert t.flows[j].None? && j in t.free; }
    }
  }

  /** Removal of a flow, closing or not, leaves a newer flow under the same key untouched. */
  lemma RemoveKeeps(t: Table, id: nat)
    requires TableOk(t)
    ensures TableOk(Remove(t, id)) && !Occupied(Remove(t, id), id)
    ensures forall k :: k in t.byKey && t.byKey[k] != id ==>
              k in Remove(t, id).byKey && Remove(t, id).byKey[k] == t.byKey[k]
  {
    RemoveFree(t, id);
    if Occupied(t, id) { DropIndex(t, Remove(t, id), id); }
  }

  lemma MarkClosingKeeps(t: Table, id: nat)
    requires TableOk(t)
    ensures TableOk(MarkClosing(t, id)) && !Live(MarkClosing(t, id), id)
  {
    if Occupied(t, id) { DropIndex(t, MarkClosing(t, id), id); }
  }

  lemma UpdateKeeps(t: Table, id: nat, f: Flow)
    requires TableOk(t) && Occupied(t, id)
    requires f.key == t.flows[id].value.key && f.closing == t.flows[id].value.closing
    ensures TableOk(Update(t, id, f))
  {
    var t' := Update(t, id, f);
    forall k | k in t'.byKey ensures Live(t', t'.byKey[k]) && t'.flows[t'.byKey[k]].value.key == k {
      assert Live(t, t.byKey[k]);
    }
    forall j: nat | Live(t', j) ensures t'.flows[j].value.key in t'.byKey && t'.byKey[t'.flows[j].value.key] == j {
      assert Live(t, j);
    }
  }
}
