/**
 The public-key cache: an incremental sync driven by file stat data, proved
 equal to the full reload that init does.
 */
module KeyCache {
  import opened Options

  type Hash = string
  type Key = string

  datatype Stat = Stat(modTime: int, size: int)

  datatype KeyEntry = KeyEntry(filename: string, stat: Stat, hash: Hash, key: Key)

  /** A directory entry as one sync sees it; `content` is the hash and key of a file that can be read and parsed. */
  datatype File = File(name: string, regular: bool, info: Option<Stat>, content: Option<(Hash, Key)>)

  datatype Listing = Unreadable | Files(files: seq<File>)

  type Cache = map<Hash, KeyEntry>

  predicate DistinctNames(files: seq<File>) {
    forall i, j :: 0 <= i < j < |files| ==> files[i].name != files[j].name
  }

  predicate WellFormed(listing: Listing) {
    listing.Files? ==> DistinctNames(listing.files)
  }

  function FileToKeyEntry(f: File): Option<KeyEntry> {
    if f.info.None? || f.content.None? then None
    else Some(KeyEntry(f.name, f.info.value, f.content.value.0, f.content.value.1))
  }

  // ---- The reference: what a reload from scratch serves.

  predicate Serves(f: File, h: Hash, k: Key) {
    f.regular && f.info.Some? && f.content == Some((h, k))
  }

  /** The lookup table of a directory: hash h gives key k exactly when a regular, readable, valid file says so. */
  ghost predicate IsFresh(files: seq<File>, keys: map<Hash, Key>) {
    forall h, k :: (h in keys && keys[h] == k) <==> Offered(files, h, k)
  }

  ghost predicate Offered(files: seq<File>, h: Hash, k: Key) {
    exists f :: f in files && Serves(f, h, k)
  }

  ghost predicate Reloaded(listing: Listing, keys: map<Hash, Key>) {
    if listing.Unreadable? then keys == map[] else IsFresh(listing.files, keys)
  }

  function KeysOf(cache: Cache): map<Hash, Key> {
    map h | h in cache :: cache[h].key
  }

  // ---- The cache itself.

  ghost predicate WellIndexed(cache: Cache) {
    && (forall h :: h in cache ==> cache[h].hash == h)
    && (forall h, h' :: h in cache && h' in cache && cache[h].filename == cache[h'].filename ==> h == h')
  }

  ghost function ByName(cache: Cache): (byName: map<string, KeyEntry>)
    requires WellIndexed(cache)
  {
    map h | h in cache :: cache[h].filename := cache[h]
  }

  /** The entry a sync ends up with for one file, from the entries known by file name. */
  function Resolve(f: File, known: map<string, KeyEntry>): Option<KeyEntry> {
    if !f.regular then None
    else if f.name in known && f.info.None? then None
    else if f.name in known && f.info.value == known[f.name].stat then Some(known[f.name])
    else FileToKeyEntry(f)
  }

  ghost predicate Resolved(files: seq<File>, known: map<string, KeyEntry>, e: KeyEntry) {
    exists f :: f in files && Resolve(f, known) == Some(e)
  }

  /** The cache holds, under its own hash, an entry of every file that resolves and of no other. */
  ghost predicate Rebuilt(files: seq<File>, known: map<string, KeyEntry>, cache: Cache) {
    && (forall h :: h in cache ==> Resolved(files, known, cache[h]))
    && (forall f :: f in files && Resolve(f, known).Some? ==> Resolve(f, known).value.hash in cache)
  }

  /** The second loop of both methods: entries under their hashes, a later one replacing an earlier one. */
  method IndexByHash(byName: map<string, KeyEntry>) returns (cache: Cache)
    requires forall n :: n in byName ==> byName[n].filename == n
    ensures WellIndexed(cache)
    ensures forall h :: h in cache ==> cache[h].filename in byName && byName[cache[h].filename] == cache[h]
    ensures forall n :: n in byName ==> byName[n].hash in cache
  {
    cache := map[];
    var todo := byName.Keys;
    while todo != {}
      invariant todo <= byName.Keys
      invariant forall h :: h in cache ==>
        cache[h].hash == h && cache[h].filename in byName && byName[cache[h].filename] == cache[h]
      invariant forall n :: n in byName && n !in todo ==> byName[n].hash in cache
      decreases |todo|
    {
      var n :| n in todo;
      todo := todo - {n};
      cache := cache[byName[n].hash := byName[n]];
    }
  }

  /** How often an undisturbed sync asks whether its context was cancelled. */
  function Polls(listing: Listing): nat {
    if listing.Unreadable? || listing.files == [] then 1 else 2 + |listing.files|
  }

  ghost predicate Visited(files: seq<File>, i: nat, n: string) {
    exists j :: 0 <= j < i && j < |files| && files[j].name == n
  }

  /** A file already visited: its entry is in place, or its name is marked for deletion or was never there. */
  ghost predicate Treated(f: File, known: map<string, KeyEntry>, current: map<string, KeyEntry>, deletes: set<string>) {
    if Resolve(f, known).Some? then
      f.name in current && current[f.name] == Resolve(f, known).value && f.name !in deletes
    else f.name in current ==> f.name in deletes
  }

  ghost predicate Untouched(
    n: string, known: map<string, KeyEntry>, current: map<string, KeyEntry>, deletes: set<string>)
  {
    && (n in current <==> n in known) && (n in current ==> current[n] == known[n])
    && (n in deletes <==> n in known)
  }

  /** The state of the scan after `i` files. */
  ghost predicate Scanned(
    files: seq<File>, i: nat, known: map<string, KeyEntry>, current: map<string, KeyEntry>, deletes: set<string>)
  {
    && i <= |files|
    && (forall j :: 0 <= j < i ==> Treated(files[j], known, current, deletes))
    && (forall n :: n in known || n in current || n in deletes ==>
        Visited(files, i, n) || Untouched(n, known, current, deletes))
  }

  /** The scan of sync over the directory entries; `ok` is false when the context was cancelled on the way. */
  method Scan(files: seq<File>, known: map<string, KeyEntry>, cancelAt: Option<nat>)
    returns (ok: bool, currentKeys: map<string, KeyEntry>, deletes: set<string>, keysAdded: nat, keysUpdated: nat)
    requires DistinctNames(files) && (cancelAt.Some? ==> cancelAt.value >= 2)
    ensures !ok <==> cancelAt.Some? && cancelAt.value < 2 + |files|
    ensures ok ==> Scanned(files, |files|, known, currentKeys, deletes)
    ensures ok && keysAdded == 0 && keysUpdated == 0 ==> currentKeys == known
  {
    ok, currentKeys, deletes, keysAdded, keysUpdated := true, known, known.Keys, 0, 0;
    for i := 0 to |files|
      invariant cancelAt.Some? ==> cancelAt.value >= 2 + i
      invariant Scanned(files, i, known, currentKeys, deletes)
      invariant keysAdded == 0 && keysUpdated == 0 ==> currentKeys == known
    {
      if cancelAt == Some(2 + i) {
        return false, currentKeys, deletes, keysAdded, keysUpdated;
      }
      var file := files[i];
      assert !Visited(files, i, file.name);
      ghost var current0, deletes0 := currentKeys, deletes;
      assert Untouched(file.name, known, currentKeys, deletes);
      if file.regular {
        var seen := file.name in currentKeys;
        if seen && file.info.None? {
          // cannot be compared: the entry stays marked for deletion
        } else if seen && file.info.value == currentKeys[file.name].stat {
          deletes := deletes - {file.name};
        } else {
          var key := FileToKeyEntry(file);
          if key.Some? {
            currentKeys := currentKeys[file.name := key.value];
            if seen {
              keysUpdated := keysUpdated + 1;
            } else {
              keysAdded := keysAdded + 1;
            }
            deletes := deletes - {file.name};
          }
        }
      }
      assert Treated(file, known, currentKeys, deletes);
      ScanAdvances(files, i, known, current0, deletes0, currentKeys, deletes);
    }
  }

  lemma ScanAdvances(
    files: seq<File>, i: nat, known: map<string, KeyEntry>, current: map<string, KeyEntry>, deletes: set<string>,
    current': map<string, KeyEntry>, deletes': set<string>)
    requires DistinctNames(files) && i < |files| && Scanned(files, i, known, current, deletes)
    requires Treated(files[i], known, current', deletes')
    requires current' - {files[i].name} == current - {files[i].name}
    requires deletes' - {files[i].name} == deletes - {files[i].name}
    ensures Scanned(files, i + 1, known, current', deletes')
  {
    var name := files[i].name;
    assert forall n :: n != name ==>
      (n in current' <==> n in current' - {name}) && (n in current <==> n in current - {name});
    assert forall n :: n != name && n in current ==>
      current'[n] == (current' - {name})[n] == (current - {name})[n] == current[n];
    assert forall n :: n != name ==>
      (n in deletes' <==> n in deletes' - {name}) && (n in deletes <==> n in deletes - {name});
    forall j | 0 <= j < i + 1
      ensures Treated(files[j], known, current', deletes')
    {
      if j < i {
        assert Treated(files[j], known, current, deletes) && files[j].name != name;
      }
    }
    forall n | n in known || n in current' || n in deletes'
      ensures Visited(files, i + 1, n) || Untouched(n, known, current', deletes')
    {
      if n == name {
        assert files[i].name == n;
      } else if Visited(files, i, n) {
        var j :| 0 <= j < i && files[j].name == n;
        assert 0 <= j < i + 1;
      }
    }
  }

  class PublicKeyMap {
    var keysByHashes: Cache

    constructor ()
      ensures keysByHashes == map[]
    {
      keysByHashes := map[];
    }

    /** The full reload; an unreadable directory is an error and changes nothing. */
    method Init(listing: Listing) returns (ok: bool)
      requires WellFormed(listing)
      modifies this
      ensures ok <==> listing.Files?
      ensures !ok ==> keysByHashes == old(keysByHashes)
      ensures ok ==> WellIndexed(keysByHashes) && Rebuilt(listing.files, map[], keysByHashes)
    {
      if listing.Unreadable? {
        return false;
      }
      var files := listing.files;
      var cache: Cache := map[];
      for i := 0 to |files|
        invariant WellIndexed(cache)
        invariant forall h :: h in cache ==> Resolved(files, map[], cache[h]) && Visited(files, i, cache[h].filename)
        invariant forall j :: 0 <= j < i && Resolve(files[j], map[]).Some? ==>
          Resolve(files[j], map[]).value.hash in cache
      {
        if files[i].regular {
          var key := FileToKeyEntry(files[i]);
          if key.Some? {
            assert Resolve(files[i], map[]) == key;
            cache := cache[key.value.hash := key.value];
          }
        }
      }
      keysByHashes := cache;
      return true;
    }

    method Clear()
      modifies this
      ensures keysByHashes == map[]
    {
      keysByHashes := map[];
    }

    /** Clones the cache into a map by file name. */
    method KnownKeys() returns (known: map<string, KeyEntry>)
      requires WellIndexed(keysByHashes)
      ensures known == ByName(keysByHashes)
    {
      known := map[];
      var todo := keysByHashes.Keys;
      while todo != {}
        invariant todo <= keysByHashes.Keys
        invariant known.Keys == set h | h in keysByHashes && h !in todo :: keysByHashes[h].filename
        invariant forall h :: h in keysByHashes && h !in todo ==> known[keysByHashes[h].filename] == keysByHashes[h]
        decreases |todo|
      {
        var h :| h in todo;
        todo := todo - {h};
        known := known[keysByHashes[h].filename := keysByHashes[h]];
      }
    }

    /**
     One pass over the directory.  `cancelAt` is the number of the first poll of
     the context that reports an error; the polls are one before reading the
     directory, one after it and one per file.
     */
    method Sync(listing: Listing, cancelAt: Option<nat>) returns (ok: bool)
      requires WellIndexed(keysByHashes) && WellFormed(listing)
      modifies this
      ensures !ok <==> cancelAt.Some? && cancelAt.value < Polls(listing)
      ensures !ok <==>
        && cancelAt.Some?
        && cancelAt.value < if listing.Unreadable? || listing.files == [] then 1 else 2 + |listing.files|
      ensures !ok ==> keysByHashes == old(keysByHashes)
      ensures WellIndexed(keysByHashes)
      ensures ok ==>
        if listing.Unreadable? then keysByHashes == map[]
        else Rebuilt(listing.files, ByName(old(keysByHashes)), keysByHashes)
    {
      if cancelAt == Some(0) {
        return false;
      }
      if listing.Unreadable? {
        Clear();
        return true;
      }
      var files := listing.files;
      if |files| == 0 {
        Clear();
        return true;
      }
      if cancelAt.Some? && cancelAt.value <= 1 {
        return false;
      }
      var known := KnownKeys();
      var more, currentKeys, deletes, keysAdded, keysUpdated := Scan(files, known, cancelAt);
      if !more {
        return false;
      }
      if keysAdded == 0 && keysUpdated == 0 && |deletes| == 0 {
        UnchangedIsRebuilt(files, keysByHashes);
        return true;
      }
      ScannedIsKept(files, known, currentKeys, deletes);
      currentKeys := currentKeys - deletes;
      keysByHashes := IndexByHash(currentKeys);
      KeptIsRebuilt(files, known, currentKeys, keysByHashes);
      return true;
    }
  }

  // ---- From the finished scan to the new cache.

  lemma UnchangedIsRebuilt(files: seq<File>, cache: Cache)
    requires WellIndexed(cache) && Scanned(files, |files|, ByName(cache), ByName(cache), {})
    ensures Rebuilt(files, ByName(cache), cache)
  {
    var known := ByName(cache);
    forall h | h in cache
      ensures Resolved(files, known, cache[h])
    {
      var n := cache[h].filename;
      assert n in known && known[n] == cache[h];
      assert Visited(files, |files|, n);
      var j :| 0 <= j < |files| && files[j].name == n;
      assert Treated(files[j], known, known, {});
    }
    forall f | f in files && Resolve(f, known).Some?
      ensures Resolve(f, known).value.hash in cache
    {
      var j :| 0 <= j < |files| && files[j] == f;
      assert Treated(files[j], known, known, {});
    }
  }

  /** After the deletions the entries by name are exactly those of the files that resolve. */
  ghost predicate Kept(files: seq<File>, known: map<string, KeyEntry>, kept: map<string, KeyEntry>) {
    && (forall j :: 0 <= j < |files| && Resolve(files[j], known).Some? ==>
        files[j].name in kept && kept[files[j].name] == Resolve(files[j], known).value)
    && (forall n :: n in kept ==> Resolved(files, known, kept[n]) && kept[n].filename == n)
  }

  lemma ScannedIsKept(
    files: seq<File>, known: map<string, KeyEntry>, current: map<string, KeyEntry>, deletes: set<string>)
    requires Scanned(files, |files|, known, current, deletes)
    requires forall n :: n in known ==> known[n].filename == n
    ensures Kept(files, known, current - deletes)
  {
    var kept := current - deletes;
    forall n | n in kept
      ensures Resolved(files, known, kept[n]) && kept[n].filename == n
    {
      assert Visited(files, |files|, n);
      var j :| 0 <= j < |files| && files[j].name == n;
      assert Treated(files[j], known, current, deletes);
      assert files[j] in files;
    }
    forall j | 0 <= j < |files| && Resolve(files[j], known).Some?
      ensures files[j].name in kept && kept[files[j].name] == Resolve(files[j], known).value
    {
      assert Treated(files[j], known, current, deletes);
    }
  }

  lemma KeptIsRebuilt(files: seq<File>, known: map<string, KeyEntry>, kept: map<string, KeyEntry>, cache: Cache)
    requires Kept(files, known, kept)
    requires forall h :: h in cache ==> cache[h].filename in kept && kept[cache[h].filename] == cache[h]
    requires forall n :: n in kept ==> kept[n].hash in cache
    ensures Rebuilt(files, known, cache)
  {
    forall f | f in files && Resolve(f, known).Some?
      ensures Resolve(f, known).value.hash in cache
    {
      var j :| 0 <= j < |files| && files[j] == f;
      assert kept[files[j].name] == Resolve(f, known).value;
    }
  }

  // ---- The refinement: sync serves what a reload would.

  /** Hashes do not collide: equal hashes come with equal keys. */
  ghost predicate HashesAgree(files: seq<File>) {
    forall h, k, k' :: Offered(files, h, k) && Offered(files, h, k') ==> k == k'
  }

  /** A file that still has the stat data of its cached entry still has its content. */
  ghost predicate Honest(files: seq<File>, known: map<string, KeyEntry>) {
    forall f :: f in files && f.regular && f.name in known && f.info == Some(known[f.name].stat) ==>
      FileToKeyEntry(f) == Some(known[f.name])
  }

  lemma RebuiltIsFresh(files: seq<File>, known: map<string, KeyEntry>, cache: Cache)
    requires Rebuilt(files, known, cache) && WellIndexed(cache) && Honest(files, known) && HashesAgree(files)
    ensures IsFresh(files, KeysOf(cache))
  {
    forall f | f in files
      ensures Resolve(f, known) == if f.regular then FileToKeyEntry(f) else None
    {
    }
    var keys := KeysOf(cache);
    forall h | h in cache
      ensures Offered(files, h, keys[h])
    {
      var f :| f in files && Resolve(f, known) == Some(cache[h]);
      assert Serves(f, h, keys[h]);
    }
    forall h, k | Offered(files, h, k)
      ensures h in keys && keys[h] == k
    {
      var f :| f in files && Serves(f, h, k);
      assert Resolve(f, known).value.hash == h;
    }
  }

  // ---- Exactly when a sync serves what a reload would.

  /** The file has the stat data of its cached entry, so that it is not read again. */
  predicate LookAlike(f: File, known: map<string, KeyEntry>) {
    f.regular && f.name in known && f.info == Some(known[f.name].stat)
  }

  /** Each hash, whether cached or in a file, is that of one key. */
  ghost predicate KeyedBy(files: seq<File>, known: map<string, KeyEntry>, keyOf: Hash -> Key) {
    && (forall f :: f in files && f.content.Some? ==> f.content.value.1 == keyOf(f.content.value.0))
    && (forall n :: n in known ==> known[n].key == keyOf(known[n].hash))
  }

  ghost predicate OfferedHash(files: seq<File>, h: Hash) {
    exists f :: f in files && f.regular && f.info.Some? && f.content.Some? && f.content.value.0 == h
  }

  ghost predicate KeptHash(files: seq<File>, known: map<string, KeyEntry>, h: Hash) {
    exists f :: f in files && Resolve(f, known).Some? && Resolve(f, known).value.hash == h
  }

  /** Neither the old hash of the look-alike is gone from the directory, nor is its present one missed. */
  ghost predicate Harmless(files: seq<File>, known: map<string, KeyEntry>, f: File)
    requires LookAlike(f, known)
  {
    && OfferedHash(files, known[f.name].hash)
    && (f.content.Some? ==> KeptHash(files, known, f.content.value.0))
  }

  /** The rebuilt cache has the hashes of the entries kept, each with its key. */
  lemma RebuiltKeys(files: seq<File>, known: map<string, KeyEntry>, cache: Cache, keyOf: Hash -> Key)
    requires Rebuilt(files, known, cache) && WellIndexed(cache) && KeyedBy(files, known, keyOf)
    ensures forall h :: h in cache <==> KeptHash(files, known, h)
    ensures forall h :: h in cache ==> cache[h].key == keyOf(h)
  {
    forall h | h in cache
      ensures KeptHash(files, known, h) && cache[h].key == keyOf(h)
    {
      var f :| f in files && Resolve(f, known) == Some(cache[h]);
    }
  }

  lemma OfferedIsKeyed(files: seq<File>, known: map<string, KeyEntry>, keyOf: Hash -> Key)
    requires KeyedBy(files, known, keyOf)
    ensures forall h, k :: Offered(files, h, k) <==> OfferedHash(files, h) && k == keyOf(h)
  {
    forall h, k | OfferedHash(files, h) && k == keyOf(h)
      ensures Offered(files, h, k)
    {
      var f :| f in files && f.regular && f.info.Some? && f.content.Some? && f.content.value.0 == h;
      assert Serves(f, h, k);
    }
  }

  lemma FreshMeansSameHashes(files: seq<File>, known: map<string, KeyEntry>, cache: Cache, keyOf: Hash -> Key)
    requires Rebuilt(files, known, cache) && WellIndexed(cache) && KeyedBy(files, known, keyOf)
    ensures IsFresh(files, KeysOf(cache)) <==>
      forall h :: KeptHash(files, known, h) <==> OfferedHash(files, h)
  {
    RebuiltKeys(files, known, cache, keyOf);
    OfferedIsKeyed(files, known, keyOf);
    var keys := KeysOf(cache);
    if IsFresh(files, keys) {
      forall h
        ensures KeptHash(files, known, h) <==> OfferedHash(files, h)
      {
        assert (h in keys && keys[h] == keyOf(h)) <==> Offered(files, h, keyOf(h));
      }
    }
  }

  /**
   A sync serves the table of a reload exactly when every look-alike file is
   harmless, whether or not it still holds what it held when it was read.
   */
  lemma SyncIsFreshIff(files: seq<File>, known: map<string, KeyEntry>, cache: Cache, keyOf: Hash -> Key)
    requires Rebuilt(files, known, cache) && WellIndexed(cache) && KeyedBy(files, known, keyOf)
    ensures IsFresh(files, KeysOf(cache)) <==>
      forall f :: f in files && LookAlike(f, known) ==> Harmless(files, known, f)
  {
    FreshMeansSameHashes(files, known, cache, keyOf);
    if forall h :: KeptHash(files, known, h) <==> OfferedHash(files, h) {
      forall f | f in files && LookAlike(f, known)
        ensures Harmless(files, known, f)
      {
        assert KeptHash(files, known, known[f.name].hash);
      }
    }
    if forall f :: f in files && LookAlike(f, known) ==> Harmless(files, known, f) {
      forall h
        ensures KeptHash(files, known, h) <==> OfferedHash(files, h)
      {
        HarmlessHash(files, known, h);
      }
    }
  }

  lemma HarmlessHash(files: seq<File>, known: map<string, KeyEntry>, h: Hash)
    requires forall f :: f in files && LookAlike(f, known) ==> Harmless(files, known, f)
    ensures KeptHash(files, known, h) <==> OfferedHash(files, h)
  {
    if KeptHash(files, known, h) {
      var f :| f in files && Resolve(f, known).Some? && Resolve(f, known).value.hash == h;
      assert LookAlike(f, known) || FileToKeyEntry(f) == Resolve(f, known);
    }
    if OfferedHash(files, h) {
      var f :| f in files && f.regular && f.info.Some? && f.content.Some? && f.content.value.0 == h;
      assert LookAlike(f, known) || FileToKeyEntry(f) == Resolve(f, known);
    }
  }

  /** A file rewritten with its old modification time and size keeps being served under its old hash. */
  method RewriteInPlaceIsMissed(before: File, after: File) returns (m: PublicKeyMap)
    requires before.regular && before.info.Some? && before.content.Some?
    requires after == before.(content := after.content) && after.content.Some?
    requires after.content.value.0 != before.content.value.0
    ensures before.content.value.0 in m.keysByHashes && !IsFresh([after], KeysOf(m.keysByHashes))
  {
    m := new PublicKeyMap();
    var loaded := m.Init(Files([before]));
    ghost var hash := before.content.value.0;
    assert before in [before] && Resolve(before, map[]) == FileToKeyEntry(before);
    assert hash in m.keysByHashes;
    ghost var entry := m.keysByHashes[hash];
    assert Resolved([before], map[], entry) && entry == FileToKeyEntry(before).value;
    ghost var known := ByName(m.keysByHashes);
    assert known[before.name] == entry;
    var synced := m.Sync(Files([after]), None);
    assert after in [after] && Resolve(after, known) == Some(entry);
    assert hash in m.keysByHashes && KeysOf(m.keysByHashes)[hash] == m.keysByHashes[hash].key;
    assert !Offered([after], hash, m.keysByHashes[hash].key);
  }

  // ---- Over any history, if the stat data can be trusted.

  /** The load result of a file name and its stat data, if these determine it. */
  type Loader = (string, Stat) -> Option<(Hash, Key)>

  ghost predicate LoadsBy(files: seq<File>, load: Loader) {
    forall f :: f in files && f.regular && f.info.Some? ==> f.content == load(f.name, f.info.value)
  }

  ghost predicate LoadedBy(cache: Cache, load: Loader) {
    forall h :: h in cache ==> load(cache[h].filename, cache[h].stat) == Some((cache[h].hash, cache[h].key))
  }

  ghost predicate CollisionFree(load: Loader) {
    forall n, s, n', s' :: load(n, s).Some? && load(n', s').Some? && load(n, s).value.0 == load(n', s').value.0 ==>
      load(n, s) == load(n', s')
  }

  /** If name and stat data determine the load result, a file that looks like its cached entry still is. */
  lemma DeterminismIsHonest(files: seq<File>, cache: Cache, load: Loader)
    requires LoadsBy(files, load) && LoadedBy(cache, load) && WellIndexed(cache)
    ensures Honest(files, ByName(cache))
  {
    var known := ByName(cache);
    forall f | f in files && f.regular && f.name in known && f.info == Some(known[f.name].stat)
      ensures FileToKeyEntry(f) == Some(known[f.name])
    {
      var h :| h in cache && cache[h].filename == f.name;
      assert f.content == load(f.name, f.info.value);
    }
  }

  lemma DeterminismAgrees(files: seq<File>, load: Loader)
    requires LoadsBy(files, load) && CollisionFree(load)
    ensures HashesAgree(files)
  {
    forall h, k, k' | Offered(files, h, k) && Offered(files, h, k')
      ensures k == k'
    {
      var f :| f in files && Serves(f, h, k);
      var g :| g in files && Serves(g, h, k');
      assert load(f.name, f.info.value) == load(g.name, g.info.value);
    }
  }

  lemma KnownIsLoaded(cache: Cache, load: Loader, n: string)
    requires WellIndexed(cache) && LoadedBy(cache, load) && n in ByName(cache)
    ensures var e := ByName(cache)[n]; load(n, e.stat) == Some((e.hash, e.key)) && e.filename == n
  {
    var h :| h in cache && cache[h].filename == n;
    assert ByName(cache)[n] == cache[h];
  }

  lemma ResolvedIsLoaded(f: File, known: map<string, KeyEntry>, e: KeyEntry, load: Loader)
    requires Resolve(f, known) == Some(e) && (f.info.Some? ==> f.content == load(f.name, f.info.value))
    requires f.name in known ==>
      known[f.name].filename == f.name &&
      load(f.name, known[f.name].stat) == Some((known[f.name].hash, known[f.name].key))
    ensures load(e.filename, e.stat) == Some((e.hash, e.key))
  {
  }

  lemma RebuiltIsLoaded(files: seq<File>, earlier: Cache, cache: Cache, load: Loader)
    requires LoadsBy(files, load) && LoadedBy(earlier, load) && WellIndexed(earlier)
    requires Rebuilt(files, ByName(earlier), cache)
    ensures LoadedBy(cache, load)
  {
    var known := ByName(earlier);
    forall h | h in cache
      ensures load(cache[h].filename, cache[h].stat) == Some((cache[h].hash, cache[h].key))
    {
      assert Resolved(files, known, cache[h]);
      var f :| f in files && Resolve(f, known) == Some(cache[h]);
      if f.name in known {
        KnownIsLoaded(earlier, load, f.name);
      }
      ResolvedIsLoaded(f, known, cache[h], load);
    }
  }

  datatype Tick = Tick(listing: Listing, cancelAt: Option<nat>)

  ghost predicate TickLoadsBy(t: Tick, load: Loader) {
    WellFormed(t.listing) && (t.listing.Files? ==> LoadsBy(t.listing.files, load))
  }

  /** A sync that is not cancelled serves what a reload would. */
  lemma SyncIsReload(listing: Listing, before: Cache, after: Cache, load: Loader)
    requires WellIndexed(before) && WellIndexed(after) && LoadedBy(before, load) && CollisionFree(load)
    requires listing.Unreadable? ==> after == map[]
    requires listing.Files? ==> LoadsBy(listing.files, load) && Rebuilt(listing.files, ByName(before), after)
    ensures LoadedBy(after, load) && Reloaded(listing, KeysOf(after))
  {
    if listing.Files? {
      DeterminismIsHonest(listing.files, before, load);
      DeterminismAgrees(listing.files, load);
      RebuiltIsFresh(listing.files, ByName(before), after);
      RebuiltIsLoaded(listing.files, before, after, load);
    }
  }

  /**
   The synchronisation loop over any history of directory states.  As long as
   no sync was cancelled, the cache serves after each tick what a reload of that
   tick's directory would; a cancelled sync ends the loop and changes nothing.
   */
  method MaintainCache(m: PublicKeyMap, ticks: seq<Tick>, ghost load: Loader) returns (ok: bool, done: nat)
    requires WellIndexed(m.keysByHashes) && LoadedBy(m.keysByHashes, load) && CollisionFree(load)
    requires forall i :: 0 <= i < |ticks| ==> TickLoadsBy(ticks[i], load)
    modifies m
    ensures WellIndexed(m.keysByHashes) && LoadedBy(m.keysByHashes, load)
    ensures done <= |ticks| && (ok <==> done == |ticks|)
    ensures forall i :: 0 <= i < done ==> !Cancelled(ticks[i])
    ensures done < |ticks| ==> Cancelled(ticks[done])
    ensures done > 0 ==> Reloaded(ticks[done - 1].listing, KeysOf(m.keysByHashes))
    ensures done == 0 ==> m.keysByHashes == old(m.keysByHashes)
  {
    for i := 0 to |ticks|
      invariant WellIndexed(m.keysByHashes) && LoadedBy(m.keysByHashes, load)
      invariant forall j :: 0 <= j < i ==> !Cancelled(ticks[j])
      invariant i > 0 ==> Reloaded(ticks[i - 1].listing, KeysOf(m.keysByHashes))
      invariant i == 0 ==> m.keysByHashes == old(m.keysByHashes)
    {
      var t := ticks[i];
      assert TickLoadsBy(t, load);
      var synced := SyncTick(m, t, load);
      if !synced {
        return false, i;
      }
    }
    return true, |ticks|;
  }

  /** A new cache is loaded by init and then maintained, with nothing assumed of it. */
  method ServeKeys(listing: Listing, ticks: seq<Tick>, ghost load: Loader)
    returns (m: PublicKeyMap, ready: bool, ok: bool, done: nat)
    requires CollisionFree(load) && TickLoadsBy(Tick(listing, None), load)
    requires forall i :: 0 <= i < |ticks| ==> TickLoadsBy(ticks[i], load)
    ensures ready <==> listing.Files?
    ensures done <= |ticks| && (ok <==> done == |ticks|)
    ensures forall i :: 0 <= i < done ==> !Cancelled(ticks[i])
    ensures done < |ticks| ==> Cancelled(ticks[done])
    ensures Reloaded(if done == 0 then listing else ticks[done - 1].listing, KeysOf(m.keysByHashes))
  {
    m := new PublicKeyMap();
    ready := m.Init(listing);
    if ready {
      SyncIsReload(listing, map[], m.keysByHashes, load);
    }
    ok, done := MaintainCache(m, ticks, load);
  }

  method SyncTick(m: PublicKeyMap, t: Tick, ghost load: Loader) returns (ok: bool)
    requires WellIndexed(m.keysByHashes) && LoadedBy(m.keysByHashes, load)
    requires CollisionFree(load) && TickLoadsBy(t, load)
    modifies m
    ensures WellIndexed(m.keysByHashes) && LoadedBy(m.keysByHashes, load)
    ensures ok <==> !Cancelled(t)
    ensures if ok then Reloaded(t.listing, KeysOf(m.keysByHashes)) else m.keysByHashes == old(m.keysByHashes)
  {
    ghost var before := m.keysByHashes;
    ok := m.Sync(t.listing, t.cancelAt);
    if ok {
      SyncIsReload(t.listing, before, m.keysByHashes, load);
    }
  }

  predicate Cancelled(t: Tick) {
    t.cancelAt.Some? && t.cancelAt.value < Polls(t.listing)
  }

  /** The same holds right after init, with no assumption but the absence of collisions. */
  lemma InitIsFresh(files: seq<File>, cache: Cache)
    requires Rebuilt(files, map[], cache) && WellIndexed(cache) && HashesAgree(files)
    ensures IsFresh(files, KeysOf(cache))
  {
    RebuiltIsFresh(files, map[], cache);
  }

  /** Two lookup tables for one directory are the same table. */
  lemma FreshIsUnique(files: seq<File>, keys: map<Hash, Key>, keys': map<Hash, Key>)
    requires IsFresh(files, keys) && IsFresh(files, keys')
    ensures keys == keys'
  {
    forall h
      ensures h in keys <==> h in keys'
      ensures h in keys ==> keys[h] == keys'[h]
    {
      if h in keys {
        assert Offered(files, h, keys[h]);
      }
      if h in keys' {
        assert Offered(files, h, keys'[h]);
      }
    }
  }

  // ---- Using the cache.

  datatype Token = Token(rsa: bool, kid: Option<string>)

  datatype KeyReply = Found(key: Key) | ErrUnsupportedSigningMethod | ErrMalformedKeyID | ErrKeyNotFound

  method KeyFunction(m: PublicKeyMap, token: Token) returns (reply: KeyReply)
    ensures reply == ErrUnsupportedSigningMethod <==> !token.rsa
    ensures reply == ErrMalformedKeyID <==> token.rsa && token.kid.None?
    ensures forall files, k :: token.rsa && token.kid.Some? && IsFresh(files, KeysOf(m.keysByHashes)) ==>
      (reply == Found(k) <==> Offered(files, token.kid.value, k))
  {
    if !token.rsa {
      return ErrUnsupportedSigningMethod;
    }
    if token.kid.None? {
      return ErrMalformedKeyID;
    }
    if token.kid.value !in m.keysByHashes {
      return ErrKeyNotFound;
    }
    return Found(m.keysByHashes[token.kid.value].key);
  }
}
