/** The remotes a node knows: in memory, and in the table store. */
module Registry {
  import opened Basics
  import opened Messages
  import opened Transport

  /** The table maps a name's UTF-8 bytes to a DHT key. */
  type Table = map<Bytes, Key>

  type Remotes = map<Text, Peer>

  /** A peer as `Peer::load` makes it: nothing read from the network yet. */
  function Loaded(name: Text, key: Key): Peer {
    Peer(name, key, None, None)
  }

  /** The names and DHT keys of the peers in memory. */
  function Directory(remotes: Remotes): map<Text, Key> {
    map name | name in remotes :: remotes[name].dhtKey
  }

  /** What `Peer::load_all` would rebuild, when every stored key is UTF-8. */
  function Stored(table: Table): map<Text, Key>
    requires forall b :: b in table ==> ValidUtf8(b)
  {
    map b: Text | b in table :: table[b]
  }

  /** Memory and store list the same remotes. */
  ghost predicate Agree(remotes: Remotes, table: Table) {
    && (forall b :: b in table ==> ValidUtf8(b))
    && (forall name: Text :: name in remotes <==> name in table)
    && (forall name :: name in remotes ==>
          name in table && remotes[name].name == name && remotes[name].dhtKey == table[name])
  }

  /** Agreement says that the directory in memory is the one a restart would
      rebuild from the store. */
  lemma AgreementMeansSameDirectory(remotes: Remotes, table: Table)
    requires forall b :: b in table ==> ValidUtf8(b)
    requires forall name :: name in remotes ==> remotes[name].name == name
    ensures Agree(remotes, table) <==> Directory(remotes) == Stored(table)
  {
    if Directory(remotes) == Stored(table) {
      forall name: Text ensures name in remotes <==> name in table {
        assert name in Directory(remotes) <==> name in Stored(table);
      }
      forall name | name in remotes ensures remotes[name].dhtKey == table[name] {
        assert Directory(remotes)[name] == Stored(table)[name];
      }
    }
  }

  /** Which storage call of an operation fails, if any. */
  datatype StorageFault = Fine | StoreFails | LoadFails | DeleteFails

  datatype Operation = Add(name: Text, key: Key, fault: StorageFault) | Remove(name: Text, fault: StorageFault)

  function AfterOp(remotes: Remotes, table: Table, op: Operation): (Remotes, Table) {
    match op
    case Add(name, key, fault) =>
      if fault == StoreFails then (remotes, table)
      else if fault == LoadFails then (remotes, table[name := key])
      else (remotes[name := Loaded(name, key)], table[name := key])
    case Remove(name, fault) =>
      if name !in remotes then (remotes, table)
      else (remotes - {name}, if fault == DeleteFails then table else table - {name})
  }

  /** An addition: the key is stored unless storing fails; the peer is remembered,
      with nothing read of it yet and instead of any peer of that name, when reading
      the key back succeeds too; no other peer or key is touched. */
  lemma AddOutcome(remotes: Remotes, table: Table, name: Text, key: Key, fault: StorageFault)
    ensures var (remotes', table') := AfterOp(remotes, table, Add(name, key, fault));
      && (fault != StoreFails ==> name in table' && table'[name] == key)
      && (fault == StoreFails ==> table' == table)
      && (fault != StoreFails && fault != LoadFails ==>
            name in remotes' && remotes'[name] == Peer(name, key, None, None))
      && (fault == StoreFails || fault == LoadFails ==> remotes' == remotes)
      && (forall other :: other != name ==> (other in remotes' <==> other in remotes))
      && (forall other :: other in remotes && other != name ==> remotes'[other] == remotes[other])
      && table' - {name} == table - {name}
  {
  }

  /** A removal: a known peer is forgotten, and its key deleted unless that fails; no
      other peer or key is touched, and an unknown name changes nothing. */
  lemma RemoveOutcome(remotes: Remotes, table: Table, name: Text, fault: StorageFault)
    ensures var (remotes', table') := AfterOp(remotes, table, Remove(name, fault));
      && name !in remotes'
      && remotes' == remotes - {name}
      && (name in remotes && fault != DeleteFails ==> name !in table')
      && (name !in remotes || fault == DeleteFails ==> table' == table)
      && table' - {name} == table - {name}
  {
  }

  /** Exactly which operations on an agreeing registry leave it agreeing: a read
      failure right after the key was stored is harmless only if that very key
      was known already, and a failed delete only if nothing was to delete. */
  lemma AgreementKeptIff(remotes: Remotes, table: Table, op: Operation)
    requires Agree(remotes, table)
    ensures Agree(AfterOp(remotes, table, op).0, AfterOp(remotes, table, op).1) <==>
      match op
      case Add(name, key, fault) => fault == LoadFails ==> name in remotes && remotes[name].dhtKey == key
      case Remove(name, fault) => fault == DeleteFails ==> name !in remotes
  {
    match op
    case Add(name, key, fault) =>
      assert name in AfterOp(remotes, table, op).1 || fault == StoreFails;
    case Remove(name, fault) =>
      assert name !in AfterOp(remotes, table, op).0;
  }

  function AfterOps(remotes: Remotes, table: Table, ops: seq<Operation>): (Remotes, Table) {
    if ops == [] then (remotes, table)
    else
      var before := AfterOps(remotes, table, ops[..|ops| - 1]);
      AfterOp(before.0, before.1, ops[|ops| - 1])
  }

  /** Registry agreement over any sequence of additions, re-additions and
      removals in which no storage call fails after another has taken effect. */
  lemma {:induction false} RegistryAgrees(remotes: Remotes, table: Table, ops: seq<Operation>)
    requires Agree(remotes, table)
    requires forall i :: 0 <= i < |ops| ==> ops[i].fault == Fine || ops[i].fault == StoreFails
    ensures Agree(AfterOps(remotes, table, ops).0, AfterOps(remotes, table, ops).1)
  {
    if ops == [] {
    } else {
      var init := ops[..|ops| - 1];
      RegistryAgrees(remotes, table, init);
      AgreementKeptIff(AfterOps(remotes, table, init).0, AfterOps(remotes, table, init).1, ops[|ops| - 1]);
    }
  }

  class Conclave {
    const sys: System
    var remotes: Remotes
    var table: Table

    constructor (sys: System)
      ensures this.sys == sys && remotes == map[] && table == map[]
    {
      this.sys, remotes, table := sys, map[], map[];
    }

    /** `remote_add`: parse the address, store it, read it back, remember it. */
    method RemoteAdd(name: Text, addr: Text, fault: StorageFault) returns (r: Result<(), Error>)
      modifies this
      ensures sys.parse(addr).None? ==> r.Err? && remotes == old(remotes) && table == old(table)
      ensures sys.parse(addr).Some? ==>
        && (r.Err? <==> fault == StoreFails || fault == LoadFails)
        && (remotes, table) == AfterOp(old(remotes), old(table), Add(name, sys.parse(addr).value, fault))
    {
      var parsed := sys.parse(addr);
      if parsed.None? {
        return Err(Network);
      }
      if fault == StoreFails {
        return Err(Storage);
      }
      table := table[name := parsed.value];
      if fault == LoadFails {
        return Err(Storage);
      }
      remotes := remotes[name := Loaded(name, table[name])];
      return Ok(());
    }

    /** `remove_peer`: memory first, then the store. */
    method RemoteRemove(name: Text, fault: StorageFault) returns (r: Result<bool, Error>)
      modifies this
      ensures (remotes, table) == AfterOp(old(remotes), old(table), Remove(name, fault))
      ensures r == if name !in old(remotes) then Ok(false) else if fault == DeleteFails then Err(Storage) else Ok(true)
    {
      if name !in remotes {
        return Ok(false);
      }
      remotes := remotes - {name};
      if fault == DeleteFails {
        return Err(Storage);
      }
      table := table - {name};
      return Ok(true);
    }

    /** `Peer::load_all`, over the stored keys in any order. The table may fail to
        open or to list its keys (`listed`), and each key may fail to be read. */
    method LoadAll(listed: bool, unreadable: set<Bytes>) returns (r: Result<Remotes, Error>)
      ensures r.Ok? <==> listed && forall b :: b in table ==> ValidUtf8(b) && b !in unreadable
      ensures r.Ok? ==> Agree(r.value, table)
      ensures r.Ok? ==>
        forall name :: name in r.value ==> name in table && r.value[name] == Loaded(name, table[name])
    {
      if !listed {
        return Err(Storage);
      }
      var loaded: Remotes := map[];
      var rest := table.Keys;
      while rest != {}
        invariant rest <= table.Keys
        invariant forall b :: b in table.Keys - rest ==> ValidUtf8(b) && b !in unreadable
        invariant forall name: Text :: name in loaded <==> name in table.Keys - rest
        invariant forall name :: name in loaded ==> loaded[name] == Loaded(name, table[name])
        decreases rest
      {
        var key :| key in rest;
        if !ValidUtf8(key) {
          return Err(Utf8);
        }
        if key in unreadable {
          return Err(Storage);
        }
        var name: Text := key;
        loaded := loaded[name := Loaded(name, table[key])];
        rest := rest - {key};
      }
      return Ok(loaded);
    }
  }
}
