/** The agent's caches keyed by server and name, and the sync messages that feed them. */
module ServerCaches {
  import opened Prelude

  datatype Named<+V> = Named(name: string, value: V)

  type Cache<V> = map<(int, string), V>

  datatype Sync<+V> =
    | Full(server: int, entries: seq<Named<V>>)
    | Incremental(server: int, entries: seq<Named<V>>, removed: seq<string>)

  function Find<V>(cache: Cache<V>, server: int, name: string): Option<V> {
    if (server, name) in cache then Some(cache[(server, name)]) else None
  }

  // ----- the writes of one message, in order -----

  function Dropped<V>(cache: Cache<V>, server: int): Cache<V> {
    map key | key in cache && key.0 != server :: cache[key]
  }

  function Written<V>(cache: Cache<V>, server: int, entries: seq<Named<V>>): Cache<V> {
    if entries == [] then cache
    else
      var last := entries[|entries| - 1];
      Written(cache, server, entries[..|entries| - 1])[(server, last.name) := last.value]
  }

  function Removed<V>(cache: Cache<V>, server: int, names: seq<string>): Cache<V> {
    if names == [] then cache
    else Removed(cache, server, names[..|names| - 1]) - {(server, names[|names| - 1])}
  }

  function Applied<V>(cache: Cache<V>, sync: Sync<V>): Cache<V> {
    match sync
    case Full(server, entries) => Written(Dropped(cache, server), server, entries)
    case Incremental(server, entries, removed) => Removed(Written(cache, server, entries), server, removed)
  }

  function AfterSyncs<V>(syncs: seq<Sync<V>>): Cache<V> {
    if syncs == [] then map[] else Applied(AfterSyncs(syncs[..|syncs| - 1]), syncs[|syncs| - 1])
  }

  // ----- the same writes as loops -----

  method DropServer<V>(cache: Cache<V>, server: int) returns (r: Cache<V>)
    ensures r == Dropped(cache, server)
  {
    r := cache;
    var keys := set key | key in cache && key.0 == server;
    while keys != {}
      invariant forall key :: key in keys ==> key in r && key.0 == server
      invariant forall key :: key in r <==> key in cache && (key.0 != server || key in keys)
      invariant forall key :: key in r ==> r[key] == cache[key]
      decreases |keys|
    {
      var key :| key in keys;
      r := r - {key};
      keys := keys - {key};
    }
  }

  method WriteEntries<V>(cache: Cache<V>, server: int, entries: seq<Named<V>>) returns (r: Cache<V>)
    ensures r == Written(cache, server, entries)
  {
    r := cache;
    for k := 0 to |entries|
      invariant r == Written(cache, server, entries[..k])
    {
      r := r[(server, entries[k].name) := entries[k].value];
      assert entries[..k + 1][..k] == entries[..k];
    }
    assert entries[..|entries|] == entries;
  }

  method RemoveNames<V>(cache: Cache<V>, server: int, names: seq<string>) returns (r: Cache<V>)
    ensures r == Removed(cache, server, names)
  {
    r := cache;
    for k := 0 to |names|
      invariant r == Removed(cache, server, names[..k])
    {
      r := r - {(server, names[k])};
      assert names[..k + 1][..k] == names[..k];
    }
    assert names[..|names|] == names;
  }

  // ----- what a history of messages means -----

  /** The last entry of one message with this name. */
  function LastNaming<V>(entries: seq<Named<V>>, name: string): (r: Option<V>)
    ensures r.Some? ==> Named(name, r.value) in entries
    ensures r.None? <==> forall k :: 0 <= k < |entries| ==> entries[k].name != name
  {
    if entries == [] then None
    else
      var last := entries[|entries| - 1];
      if last.name == name then Some(last.value) else LastNaming(entries[..|entries| - 1], name)
  }

  /**
   * What the messages say about one name of one server: the last message that names it decides, a removal
   * wins over an entry of the same message, and a full snapshot speaks about every name.
   */
  function Latest<V>(syncs: seq<Sync<V>>, server: int, name: string): Option<V> {
    if syncs == [] then None
    else
      var before, sync := syncs[..|syncs| - 1], syncs[|syncs| - 1];
      if sync.server != server then Latest(before, server, name)
      else if sync.Incremental? && name in sync.removed then None
      else if sync.Full? || LastNaming(sync.entries, name).Some? then LastNaming(sync.entries, name)
      else Latest(before, server, name)
  }

  lemma {:induction false} FindWritten<V>(cache: Cache<V>, server: int, entries: seq<Named<V>>, s: int, name: string)
    ensures Find(Written(cache, server, entries), s, name)
            == if s == server && LastNaming(entries, name).Some? then LastNaming(entries, name) else Find(cache, s, name)
  {
    if entries != [] {
      FindWritten(cache, server, entries[..|entries| - 1], s, name);
    }
  }

  lemma {:induction false} FindRemoved<V>(cache: Cache<V>, server: int, names: seq<string>, s: int, name: string)
    ensures Find(Removed(cache, server, names), s, name)
            == if s == server && name in names then None else Find(cache, s, name)
  {
    if names != [] {
      FindRemoved(cache, server, names[..|names| - 1], s, name);
      assert name in names <==> name in names[..|names| - 1] || name == names[|names| - 1];
    }
  }

  /** One message changes its own server's names as it says, and nothing of any other server. */
  lemma AppliedMeans<V>(cache: Cache<V>, sync: Sync<V>, server: int, name: string)
    ensures Find(Applied(cache, sync), server, name)
            == if sync.server != server then Find(cache, server, name)
               else if sync.Incremental? && name in sync.removed then None
               else if sync.Full? || LastNaming(sync.entries, name).Some? then LastNaming(sync.entries, name)
               else Find(cache, server, name)
  {
    match sync {
      case Full(s, entries) => FindWritten(Dropped(cache, s), s, entries, server, name);
      case Incremental(s, entries, removed) =>
        FindWritten(cache, s, entries, server, name);
        FindRemoved(Written(cache, s, entries), s, removed, server, name);
    }
  }

  /** After any history of messages the cache answers every lookup as the history says. */
  lemma {:induction false} CacheIsLatest<V>(syncs: seq<Sync<V>>, server: int, name: string)
    ensures Find(AfterSyncs(syncs), server, name) == Latest(syncs, server, name)
  {
    if syncs != [] {
      CacheIsLatest(syncs[..|syncs| - 1], server, name);
      AppliedMeans(AfterSyncs(syncs[..|syncs| - 1]), syncs[|syncs| - 1], server, name);
    }
  }

  /** A full snapshot makes everything before it irrelevant to its server. */
  lemma SnapshotForgets<V>(before: seq<Sync<V>>, other: seq<Sync<V>>, snapshot: Sync<V>, after: seq<Sync<V>>, name: string)
    requires snapshot.Full?
    ensures Find(AfterSyncs(before + [snapshot] + after), snapshot.server, name)
            == Find(AfterSyncs(other + [snapshot] + after), snapshot.server, name)
  {
    CacheIsLatest(before + [snapshot] + after, snapshot.server, name);
    CacheIsLatest(other + [snapshot] + after, snapshot.server, name);
    LatestAfterSnapshot(before, snapshot, after, name);
    LatestAfterSnapshot(other, snapshot, after, name);
  }

  lemma {:induction false} LatestAfterSnapshot<V>(before: seq<Sync<V>>, snapshot: Sync<V>, after: seq<Sync<V>>, name: string)
    requires snapshot.Full?
    ensures Latest(before + [snapshot] + after, snapshot.server, name) == Latest([snapshot] + after, snapshot.server, name)
  {
    var long, short := before + [snapshot] + after, [snapshot] + after;
    if after == [] {
      assert long[|long| - 1] == snapshot == short[|short| - 1];
    } else {
      var init := after[..|after| - 1];
      LatestAfterSnapshot(before, snapshot, init, name);
      assert long[..|long| - 1] == before + [snapshot] + init && short[..|short| - 1] == [snapshot] + init;
    }
  }
}
