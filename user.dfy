/**
  The connection and document registry of a user (majormajor/user.py).
  A connection entry is a pair of a connection type and its data; the
  data is kept as a string.
*/
module Users {
  import opened Wrappers

  /** One entry of the list `add_connections` is given: `conn_type` and `conn_data`. */
  datatype Connection = Connection(connType: string, connData: string)

  /** The data of the last entry of type `t` in `conns`, if there is one. */
  function LastOfType(conns: seq<Connection>, t: string): (r: Option<string>)
    ensures r.Some? <==> exists i | 0 <= i < |conns| :: conns[i].connType == t
    ensures r.Some? ==> exists i | 0 <= i < |conns| :: (conns[i] == Connection(t, r.value)
      && forall j | i < j < |conns| :: conns[j].connType != t)
  {
    if conns == [] then None
    else
      var last := conns[|conns| - 1];
      if last.connType == t then
        assert conns[|conns| - 1] == Connection(t, last.connData);
        Some(last.connData)
      else
        var init := conns[..|conns| - 1];
        var r := LastOfType(init, t);
        assert forall i | 0 <= i < |init| :: init[i] == conns[i];
        r
  }

  /** The connection table after writing each entry in turn. */
  function Registered(m: map<string, string>, conns: seq<Connection>): (r: map<string, string>)
  {
    if conns == [] then m
    else Registered(m, conns[..|conns| - 1])[conns[|conns| - 1].connType := conns[|conns| - 1].connData]
  }

  /**
    After registering `conns`, a type maps to the data of its last entry
    in `conns`; a type with no entry keeps what it had, or stays absent.
  */
  lemma {:induction false} RegisteredLastWins(m: map<string, string>, conns: seq<Connection>, t: string)
    ensures LastOfType(conns, t).Some? ==> t in Registered(m, conns) && Registered(m, conns)[t] == LastOfType(conns, t).value
    ensures LastOfType(conns, t).None? ==> (t in Registered(m, conns) <==> t in m)
    ensures LastOfType(conns, t).None? && t in m ==> Registered(m, conns)[t] == m[t]
    decreases |conns|
  {
    if conns != [] {
      RegisteredLastWins(m, conns[..|conns| - 1], t);
    }
  }

  /** A user: an id, the documents it has, and its connections by type (user.py:20-41). */
  class User {
    const id: string
    /** `nickname`: the id as text. */
    const nickname: string
    var documents: set<object>
    var connections: map<string, string>

    /**
      `User(_id)` (user.py:21-25), with the id given: the random id drawn
      when none is given is the caller's to supply.
    */
    constructor (id: string)
      ensures this.id == id && nickname == id && documents == {} && connections == map[]
    {
      this.id := id;
      nickname := id;
      documents := {};
      connections := map[];
    }

    /** `add_document` (user.py:27-28): the document joins the set; adding it again changes nothing. */
    method AddDocument(doc: object)
      modifies this`documents
      ensures documents == old(documents) + {doc}
      ensures doc in old(documents) ==> documents == old(documents)
    {
      documents := documents + {doc};
    }

    /**
      `add_connections` (user.py:30-32): each entry in turn writes its data
      under its type, so a type ends up with the data of its last entry and
      a type without an entry keeps what it had.
    */
    method AddConnections(conns: seq<Connection>)
      modifies this`connections
      ensures connections == Registered(old(connections), conns)
      ensures forall t | LastOfType(conns, t).Some? :: t in connections && connections[t] == LastOfType(conns, t).value
      ensures forall t | LastOfType(conns, t).None? :: (t in connections <==> t in old(connections))
      ensures forall t | LastOfType(conns, t).None? && t in old(connections) :: connections[t] == old(connections)[t]
    {
      for i := 0 to |conns|
        invariant connections == Registered(old(connections), conns[..i])
      {
        assert conns[..i + 1][..i] == conns[..i];
        connections := connections[conns[i].connType := conns[i].connData];
      }
      assert conns[..|conns|] == conns;
      forall t
        ensures LastOfType(conns, t).Some? ==> t in connections && connections[t] == LastOfType(conns, t).value
        ensures LastOfType(conns, t).None? ==> (t in connections <==> t in old(connections))
        ensures LastOfType(conns, t).None? && t in old(connections) ==> connections[t] == old(connections)[t]
      {
        RegisteredLastWins(old(connections), conns, t);
      }
    }

    /** `get_properties_for_connection` (user.py:34-35): the data of a type, or None. */
    function GetPropertiesForConnection(t: string): (r: Option<string>)
      reads this
      ensures r.None? <==> t !in connections
      ensures r.Some? ==> r.value == connections[t]
    {
      if t in connections then Some(connections[t]) else None
    }

    /** `has_connection` (user.py:37-38). */
    function HasConnection(t: string): (r: bool)
      reads this
      ensures r <==> GetPropertiesForConnection(t).Some?
    {
      t in connections
    }

    /** `get_id` (user.py:40-41). */
    function GetId(): string
      reads this
    {
      id
    }
  }
}
