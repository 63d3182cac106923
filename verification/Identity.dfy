/** Registry identity: renaming entities and devices to the current identity scheme at every setup. */
module Identity {
  import opened Wrappers

  const DOMAIN := "pylontech_mqtt"

  /** The config entry; stackId is the hidden key that remembers the identity token last used. */
  datatype Entry = Entry(entryId: string, host: string, port: nat, topic: string, stackId: Option<string>)

  /** stack_id_from_broker, of whose digest only the shape matters. */
  type Hash = (string, nat, string) -> string

  predicate IsHexDigit(c: char) {
    '0' <= c <= '9' || 'a' <= c <= 'f'
  }

  predicate IsStackId(s: string) {
    |s| == 16 && forall i :: 0 <= i < |s| ==> IsHexDigit(s[i])
  }

  ghost predicate Hashes(hash: Hash) {
    forall host, port, topic :: IsStackId(hash(host, port, topic))
  }

  /** stack_id_from_topic */
  function Munged(topic: string): (r: string)
    ensures |r| == |topic|
    ensures forall i :: 0 <= i < |r| ==> r[i] == if topic[i] == '/' then '_' else topic[i]
  {
    if topic == "" then "" else [if topic[0] == '/' then '_' else topic[0]] + Munged(topic[1..])
  }

  function StackIdOf(e: Entry, hash: Hash): string {
    hash(e.host, e.port, e.topic)
  }

  function OldPrefixes(e: Entry, newPrefix: string): set<string> {
    ({e.entryId + "_", Munged(e.topic) + "_"}
     + (if e.stackId.Some? && e.stackId.value != "" then {e.stackId.value + "_"} else {})) - {newPrefix}
  }

  // Renaming

  predicate Matched(id: string, former: set<string>) {
    exists p :: p in former && p <= id
  }

  /** What the renaming of an id may give: the set of old prefixes has no order, and the first that matches is taken. */
  predicate Renamed(id: string, former: set<string>, newPrefix: string, r: string) {
    if Matched(id, former) then exists p :: p in former && p <= id && r == newPrefix + id[|p|..]
    else r == id
  }

  type Identifier = (string, string)

  predicate RenamedIdentifier(x: Identifier, former: set<string>, newPrefix: string, y: Identifier) {
    x.0 == y.0 && if x.0 == DOMAIN then Renamed(x.1, former, newPrefix, y.1) else x.1 == y.1
  }

  /** Identifiers of other integrations are left alone. */
  lemma OthersStay(x: Identifier, former: set<string>, newPrefix: string, y: Identifier)
    requires RenamedIdentifier(x, former, newPrefix, y)
    ensures y.0 == x.0
    ensures x.0 != "pylontech_mqtt" ==> y == x
    ensures x.0 == "pylontech_mqtt" ==> Renamed(x.1, former, newPrefix, y.1)
  {
  }

  /** The identifiers of a device, each renamed. */
  predicate RenamedAll(before: set<Identifier>, former: set<string>, newPrefix: string, after: set<Identifier>) {
    Related(before, Renaming(former, newPrefix), after)
  }

  function Renaming(former: set<string>, newPrefix: string): (Identifier, Identifier) -> bool {
    (x: Identifier, y: Identifier) => RenamedIdentifier(x, former, newPrefix, y)
  }

  /** Each of a is related to one of b, and each of b to one of a. */
  predicate Related<T(==)>(a: set<T>, rel: (T, T) -> bool, b: set<T>) {
    && (forall x {:trigger HasImage(x, rel, b)} :: x in a ==> HasImage(x, rel, b))
    && (forall y {:trigger HasSource(a, rel, y)} :: y in b ==> HasSource(a, rel, y))
  }

  predicate HasImage<T(==)>(x: T, rel: (T, T) -> bool, b: set<T>) {
    exists y :: y in b && rel(x, y)
  }

  predicate HasSource<T(==)>(a: set<T>, rel: (T, T) -> bool, y: T) {
    exists x :: x in a && rel(x, y)
  }

  method RenameId(id: string, former: set<string>, newPrefix: string) returns (r: string, changed: bool)
    ensures Renamed(id, former, newPrefix, r) && (changed <==> Matched(id, former))
  {
    changed := exists p :: p in former && p <= id;
    if changed {
      var p :| p in former && p <= id;
      r := newPrefix + id[|p|..];
    } else {
      r := id;
    }
  }

  lemma OneMoreRelated<T>(a: set<T>, rel: (T, T) -> bool, b: set<T>, x: T, y: T)
    requires Related(a, rel, b) && rel(x, y)
    ensures Related(a + {x}, rel, b + {y})
  {
    forall u | u in a + {x}
      ensures HasImage(u, rel, b + {y})
    {
      assert u in a ==> HasImage(u, rel, b);
    }
    forall v | v in b + {y}
      ensures HasSource(a + {x}, rel, v)
    {
      assert v in b ==> HasSource(a, rel, v);
    }
  }

  method RenameIdentifier(x: Identifier, former: set<string>, newPrefix: string) returns (y: Identifier, changed: bool)
    ensures RenamedIdentifier(x, former, newPrefix, y)
    ensures !changed ==> y == x
  {
    if x.0 == DOMAIN {
      var ident, matched := RenameId(x.1, former, newPrefix);
      return (x.0, ident), matched;
    }
    return x, false;
  }

  /** The loop over the identifiers of one device. */
  method RenameIdentifiers(identifiers: set<Identifier>, former: set<string>, newPrefix: string)
    returns (r: set<Identifier>, changed: bool)
    ensures RenamedAll(identifiers, former, newPrefix, r)
    ensures !changed ==> r == identifiers
  {
    var rest := identifiers;
    ghost var done: set<Identifier> := {};
    ghost var rel := Renaming(former, newPrefix);
    r, changed := {}, false;
    while rest != {}
      invariant done + rest == identifiers
      invariant Related(done, rel, r)
      invariant !changed ==> r == done
      decreases |rest|
    {
      var x :| x in rest;
      var y, matched := RenameIdentifier(x, former, newPrefix);
      assert rel(x, y);
      OneMoreRelated(done, rel, r, x, y);
      rest, done := rest - {x}, done + {x};
      r, changed := r + {y}, changed || matched;
    }
    assert done == identifiers;
  }

  class Integration {
    var entry: Entry
    /** The unique ids of the entry's entities. */
    var entities: seq<string>
    /** The identifiers of the entry's devices. */
    var devices: seq<set<Identifier>>

    constructor (entry: Entry, entities: seq<string>, devices: seq<set<Identifier>>)
      ensures this.entry == entry && this.entities == entities && this.devices == devices
    {
      this.entry, this.entities, this.devices := entry, entities, devices;
    }

    method MigrateDevices(former: set<string>, newPrefix: string)
      modifies `devices
      ensures |devices| == |old(devices)|
      ensures forall i :: 0 <= i < |devices| ==> RenamedAll(old(devices)[i], former, newPrefix, devices[i])
    {
      ghost var before := devices;
      for i := 0 to |devices|
        invariant |devices| == |before|
        invariant forall k :: 0 <= k < i ==> RenamedAll(before[k], former, newPrefix, devices[k])
        invariant forall k :: i <= k < |devices| ==> devices[k] == before[k]
      {
        var renamed, changed := RenameIdentifiers(devices[i], former, newPrefix);
        if changed {
          devices := devices[i := renamed];
        }
      }
    }

    method MigrateEntities(former: set<string>, newPrefix: string)
      modifies `entities
      ensures |entities| == |old(entities)|
      ensures forall i :: 0 <= i < |entities| ==>
                if old(entities)[i] == "" then entities[i] == "" else Renamed(old(entities)[i], former, newPrefix, entities[i])
    {
      ghost var before := entities;
      for i := 0 to |entities|
        invariant |entities| == |before|
        invariant forall k :: 0 <= k < i ==>
                    if before[k] == "" then entities[k] == "" else Renamed(before[k], former, newPrefix, entities[k])
        invariant forall k :: i <= k < |entities| ==> entities[k] == before[k]
      {
        if entities[i] != "" {
          var renamed, _ := RenameId(entities[i], former, newPrefix);
          entities := entities[i := renamed];
        }
      }
    }

    /** _migrate_registry_identity */
    method MigrateRegistryIdentity(hash: Hash)
      modifies this
      ensures entry == old(entry).(stackId := Some(StackIdOf(entry, hash)))
      ensures SetUp(Registry(old(entry), old(entities), old(devices)), Registry(entry, entities, devices), hash)
    {
      var newStackId := StackIdOf(entry, hash);
      var newPrefix := newStackId + "_";
      var oldPrefixes := OldPrefixes(entry, newPrefix);
      ghost var before := Registry(entry, entities, devices);
      if oldPrefixes != {} {
        MigrateDevices(oldPrefixes, newPrefix);
        MigrateEntities(oldPrefixes, newPrefix);
      } else {
        NothingMatches(before.devices, newPrefix);
      }
      if entry.stackId != Some(newStackId) {
        entry := entry.(stackId := Some(newStackId));
      }
    }

    /** A reconfigure merges the form's values over the entry's data; the hidden key survives. */
    method Reconfigure(host: string, port: nat, topic: string)
      modifies `entry
      ensures entry == Entry(old(entry).entryId, host, port, topic, old(entry).stackId)
    {
      entry := entry.(host := host, port := port, topic := topic);
    }
  }

  lemma NothingMatches(devices: seq<set<Identifier>>, newPrefix: string)
    ensures forall i :: 0 <= i < |devices| ==> RenamedAll(devices[i], {}, newPrefix, devices[i])
  {
    forall i | 0 <= i < |devices|
      ensures RenamedAll(devices[i], {}, newPrefix, devices[i])
    {
      forall x | x in devices[i]
        ensures RenamedIdentifier(x, {}, newPrefix, x)
      {
      }
    }
  }

  /** The entry with everything registered for it. */
  datatype Registry = Registry(entry: Entry, entities: seq<string>, devices: seq<set<Identifier>>)

  /** What one setup may do. */
  predicate SetUp(r: Registry, s: Registry, hash: Hash) {
    var newPrefix := StackIdOf(r.entry, hash) + "_";
    var former := OldPrefixes(r.entry, newPrefix);
    && s.entry == r.entry.(stackId := Some(StackIdOf(r.entry, hash)))
    && |s.entities| == |r.entities| && |s.devices| == |r.devices|
    && (forall i :: 0 <= i < |r.entities| ==>
          if r.entities[i] == "" then s.entities[i] == "" else Renamed(r.entities[i], former, newPrefix, s.entities[i]))
    && (forall i :: 0 <= i < |r.devices| ==> RenamedAll(r.devices[i], former, newPrefix, s.devices[i]))
  }
}
