/** internal/idmap: gateway-assigned request ids and the backend requests they stand for. */
module IdMap {

  import opened Text

  /** A JSON-RPC id; the protocol allows strings and numbers. */
  datatype RpcId = StringId(s: string) | IntId(n: int) | FloatId(r: real)

  datatype Entry = Entry(backendID: RpcId, serverName: string, sessionID: string, gatewaySessionID: string)

  /** UUIDs are an endless supply of ids in which none comes twice. */
  type Supply = nat -> string

  ghost predicate Fresh(supply: Supply) {
    forall i: nat, j: nat :: i != j ==> supply(i) != supply(j)
  }

  class InMemoryMap {
    var entries: map<string, Entry>
    /** How many UUIDs have been drawn so far. */
    var drawn: nat
    const supply: Supply

    constructor (supply: Supply)
      ensures entries == map[] && drawn == 0 && this.supply == supply
    {
      entries, drawn, this.supply := map[], 0, supply;
    }

    method Store(backendID: RpcId, serverName: string, sessionID: string, gatewaySessionID: string) returns (id: string)
      modifies this
      ensures id == supply(old(drawn)) && drawn == old(drawn) + 1
      ensures entries == old(entries)[id := Entry(backendID, serverName, sessionID, gatewaySessionID)]
    {
      id := supply(drawn);
      drawn := drawn + 1;
      entries := entries[id := Entry(backendID, serverName, sessionID, gatewaySessionID)];
    }

    method Lookup(gatewayID: string) returns (r: Option<Entry>)
      ensures r.Some? <==> gatewayID in entries
      ensures r.Some? ==> r.value == entries[gatewayID]
    {
      r := if gatewayID in entries then Some(entries[gatewayID]) else None;
    }

    method Remove(gatewayID: string)
      modifies this
      ensures entries == old(entries) - {gatewayID} && drawn == old(drawn)
    {
      entries := entries - {gatewayID};
    }
  }
}
