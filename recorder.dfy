/** The record store every other component is built on (lib/recorder.py):
    a ZODB database whose root holds named containers, each an ordered
    mapping from string key to record. Every write is followed by a
    transaction commit. The database is modelled as the live root
    (`root`, what the open connection sees) and the last committed root
    (`committed`, what a crash or a reopen would find). */
module RecordStore {
  import opened Common

  /** The class-level default container name. */
  const DefaultContainer := "main"

  /** An open ZODB connection; `serial` tells successive connections apart. */
  datatype Connection = Connection(path: string, serial: nat)

  /** Container `name` of `root`, or the empty container if there is none. */
  function ContainerOf<V>(root: map<string, map<string, V>>, name: string): map<string, V>
  {
    if name in root then root[name] else map[]
  }

  /** What `search(filter)` yields: exactly the pairs of `cont` that the
      filter accepts, each with its stored value. */
  function Filtered<V>(cont: map<string, V>, filter: (string, V) -> bool): (r: map<string, V>)
    ensures forall k :: k in r <==> k in cont && filter(k, cont[k])
    ensures forall k :: k in r ==> r[k] == cont[k]
  {
    map k | k in cont && filter(k, cont[k]) :: cont[k]
  }

  /** `list` is `search` with a filter that accepts everything. */
  lemma ListIsWholeContainer<V>(cont: map<string, V>)
    ensures Filtered(cont, (k, v) => true) == cont
  {
  }

  /** A container written twice holds the second value. */
  lemma UpdateTwice<K, V>(m: map<K, V>, k: K, a: V, b: V)
    ensures m[k := a][k := b] == m[k := b]
  {
  }

  class Recorder<V> {
    const dbPath: string
    var contName: string
    var conn: Option<Connection>
    /** How many connections this recorder has opened so far. */
    var connections: nat
    var root: map<string, map<string, V>>
    var committed: map<string, map<string, V>>

    /** `Recorder(db_path, contName)` over a database file whose committed
        contents are `stored`. A non-empty `contName` replaces the default
        container name. */
    constructor (dbPath: string, stored: map<string, map<string, V>>, contName: Option<string>)
      ensures this.dbPath == dbPath && conn == None && connections == 0
      ensures root == stored && committed == stored
      ensures this.contName == if contName.Some? && contName.value != "" then contName.value else DefaultContainer
    {
      this.dbPath := dbPath;
      conn := None;
      connections := 0;
      root := stored;
      committed := stored;
      this.contName := if contName.Some? && contName.value != "" then contName.value else DefaultContainer;
    }

    /** The container a call addresses: the per-call name if one is passed
        (even an empty one), otherwise the recorder's own. */
    function Target(name: Option<string>): string
      reads this
    {
      if name.Some? then name.value else contName
    }

    /** The connection part of `opendb`: a connection is opened only when
        there is none, and an open one is reused. */
    twostate predicate ConnectionKept()
      reads this`contName, this`conn, this`connections
    {
      && contName == old(contName)
      && (old(conn).Some? ==> conn == old(conn) && connections == old(connections))
      && (old(conn).None? ==> conn == Some(Connection(dbPath, old(connections))) && connections == old(connections) + 1)
    }

    /** The container part of `opendb`/`getContainer` for container `name`:
        an existing container is left as it is; a missing one is installed
        empty and committed. */
    twostate predicate ContainerReady(name: string)
      reads this`root, this`committed
    {
      && root == old(root)[name := ContainerOf(old(root), name)]
      && committed == if name in old(root) then old(committed) else root
    }

    method OpenDb(name: Option<string>) returns (target: string)
      modifies this
      ensures target == old(Target(name))
      ensures ConnectionKept() && ContainerReady(target)
    {
      if conn.None? {
        conn := Some(Connection(dbPath, connections));
        connections := connections + 1;
      }
      target := if name.Some? then name.value else contName;
      GetContainer(target);
    }

    method GetContainer(name: string)
      modifies this`root, this`committed
      ensures ContainerReady(name)
    {
      if name !in root {
        root := root[name := map[]];
        Persist();
      }
    }

    /** Closing twice is harmless: the second call changes nothing. */
    method CloseDb()
      modifies this`conn
      ensures conn == None
    {
      if conn.Some? {
        conn := None;
      }
    }

    /** `transaction.commit()` */
    method Persist()
      modifies this`committed
      ensures committed == root
    {
      committed := root;
    }

    /** `save(key, ent, contName)`: the addressed container maps `key` to
        `ent`, every other key and container is unchanged, and the result is
        committed. */
    method Save(key: string, ent: V, name: Option<string>)
      modifies this
      ensures ConnectionKept()
      ensures var t := old(Target(name));
              root == old(root)[t := ContainerOf(old(root), t)[key := ent]]
      ensures committed == root
    {
      ghost var before := root;
      var t := OpenDb(name);
      ghost var cont := root[t];
      Put(t, key, ent);
      UpdateTwice(before, t, cont, cont[key := ent]);
    }

    /** The part of `save` after `opendb`: the open container `t` maps
        `key` to `ent`, and the result is committed. */
    method Put(t: string, key: string, ent: V)
      requires t in root
      modifies this`root, this`committed
      ensures root == old(root)[t := old(root[t])[key := ent]]
      ensures committed == root
    {
      root := root[t := root[t][key := ent]];
      Persist();
    }

    /** `add(key, ent)` is `save(key, ent)` on the recorder's own container. */
    method Add(key: string, ent: V)
      modifies this
      ensures ConnectionKept()
      ensures root == old(root)[contName := ContainerOf(old(root), contName)[key := ent]]
      ensures committed == root
    {
      Save(key, ent, None);
    }

    /** `delete(key)`: removes `key` and nothing else, then commits; a
        missing key raises KeyError before anything is committed (the
        container itself may have just been created and committed). */
    method Delete(key: string) returns (r: Outcome)
      modifies this
      ensures ConnectionKept()
      ensures var cont := ContainerOf(old(root), contName);
              && r == (if key in cont then Pass else Fail(KeyError))
              && root == old(root)[contName := cont - {key}]
      ensures r.Pass? ==> committed == root
      ensures r.Fail? ==> ContainerReady(contName)
    {
      var t := OpenDb(None);
      if key !in root[t] {
        assert root[t] - {key} == root[t];
        return Fail(KeyError);
      }
      root := root[t := root[t] - {key}];
      Persist();
      r := Pass;
    }

    /** `search(filter)` over the recorder's own container. */
    method Search(filter: (string, V) -> bool) returns (entries: map<string, V>)
      modifies this
      ensures ConnectionKept() && ContainerReady(contName)
      ensures entries == Filtered(root[contName], filter)
    {
      var t := OpenDb(None);
      entries := Filtered(root[t], filter);
    }

    /** `list()`: every pair of the recorder's own container. */
    method List() returns (entries: map<string, V>)
      modifies this
      ensures ConnectionKept() && ContainerReady(contName)
      ensures entries == root[contName]
    {
      entries := Search((k, v) => true);
      ListIsWholeContainer(root[contName]);
    }
  }
}
