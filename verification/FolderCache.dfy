/** `automation/drive_client_cache.py`: resolving a folder path through a cache of ids keyed by
    slash-joined path. */
module FolderCache {
  import opened DriveNames
  import opened Text
  import opened FolderStore

  type Cache = map<string, Id>

  predicate SlashFree(parts: seq<string>) { forall i :: 0 <= i < |parts| ==> '/' !in parts[i] }

  /** `"/".join(walked)` */
  function Key(walked: seq<string>): string { Join(walked, '/') }

  lemma {:induction false} KeyAppend(walked: seq<string>, name: string)
    ensures Key(walked + [name]) == if walked == [] then name else Key(walked) + "/" + name
  {
    if |walked| >= 1 {
      var first, rest := walked[0], walked[1..];
      assert walked + [name] == [first] + (rest + [name]);
      JoinCons(first, rest + [name], '/');
      KeyAppend(rest, name);
      if rest != [] {
        assert walked == [first] + rest;
        JoinCons(first, rest, '/');
        assert first + "/" + (Key(rest) + "/" + name) == first + "/" + Key(rest) + "/" + name;
      }
    }
  }

  predicate Extends(key: string, base: string) { |base| < |key| && key[..|base|] == base && key[|base|] == '/' }

  // ---------------------------------------------------------------- what the cache may hold

  /** The entry `key` is a folder that is named by the key's last segment and sits in the folder that
      the entry for the rest of the key names, or in the root. */
  ghost predicate EntryValid(cache: Cache, t: Tree, key: string) {
    && key in cache
    && var id := cache[key];
    && id in t
    && if '/' !in key then t[id].name == key && t[id].parent == ROOT
       else exists base, name :: Child(key, base, name) && base in cache
                              && t[id].name == name && t[id].parent == cache[base]
  }

  ghost predicate Child(key: string, base: string, name: string) { '/' !in name && key == base + "/" + name }

  ghost predicate CacheValid(cache: Cache, t: Tree) {
    forall key {:trigger EntryValid(cache, t, key)} :: key in cache ==> EntryValid(cache, t, key)
  }

  lemma ChildUnique(key: string, a: string, x: string, b: string, y: string)
    requires Child(key, a, x) && Child(key, b, y)
    ensures a == b && x == y
  {
    assert forall i :: |a| < i < |key| ==> key[i] == x[i - |a| - 1];
    assert forall i :: |b| < i < |key| ==> key[i] == y[i - |b| - 1];
    assert key[|a|] == '/' && key[|b|] == '/';
    assert a == key[..|a|] && b == key[..|b|];
    assert x == key[|a| + 1..] && y == key[|b| + 1..];
  }

  /** Other people's trashing never invalidates the cache. */
  lemma TrashingKeepsCache(cache: Cache, t: Tree, u: Tree)
    requires CacheValid(cache, t) && TrashedOutside(t, u)
    ensures CacheValid(cache, u)
  {
    forall key | key in cache ensures EntryValid(cache, u, key) {
      assert EntryValid(cache, t, key);
    }
  }

  lemma GrowthKeepsCache(cache: Cache, t: Tree, u: Tree)
    requires CacheValid(cache, t) && forall x :: x in t ==> x in u && u[x] == t[x]
    ensures CacheValid(cache, u)
  {
    forall key | key in cache ensures EntryValid(cache, u, key) {
      assert EntryValid(cache, t, key);
    }
  }

  // ---------------------------------------------------------------- the client

  method DropCachedPath(cache: Cache, key: string) returns (r: Cache)
    ensures r == map k | k in cache && k != key && !Extends(k, key) :: cache[k]
  {
    r := cache;
    var todo := cache.Keys;
    while todo != {}
      invariant todo <= cache.Keys
      invariant forall k :: k in r <==> k in cache && (k in todo || (k != key && !Extends(k, key)))
      invariant forall k :: k in r ==> r[k] == cache[k]
      decreases todo
    {
      var k :| k in todo;
      todo := todo - {k};
      if k == key || Extends(k, key) {
        r := r - {k};
      }
    }
  }

  lemma ExtendsChild(key: string, base: string, name: string, top: string)
    requires Child(key, base, name)
    ensures Extends(key, base)
    ensures Extends(base, top) ==> Extends(key, top)
  {
    assert key[..|base|] == base;
    if Extends(base, top) {
      assert key[..|top|] == base[..|top|] && key[|top|] == base[|top|];
    }
  }

  /** Dropping a subtree of keys keeps the cache closed under prefixes. */
  lemma DropKeepsCache(cache: Cache, t: Tree, key: string)
    requires CacheValid(cache, t)
    ensures CacheValid(map k | k in cache && k != key && !Extends(k, key) :: cache[k], t)
  {
    var r := map k | k in cache && k != key && !Extends(k, key) :: cache[k];
    forall k | k in r ensures EntryValid(r, t, k) {
      assert EntryValid(cache, t, k);
      if '/' in k {
        var base, name :| Child(k, base, name) && base in cache && t[cache[k]].name == name
          && t[cache[k]].parent == cache[base];
        ExtendsChild(k, base, name, key);
      }
    }
  }

  lemma ChildKey(walked: seq<string>, name: string)
    requires SlashFree(walked + [name])
    ensures walked == [] ==> Key(walked + [name]) == name && '/' !in name
    ensures walked != [] ==> Child(Key(walked + [name]), Key(walked), name) && '/' in Key(walked + [name])
  {
    KeyAppend(walked, name);
    assert (walked + [name])[|walked|] == name;
    if walked != [] {
      assert Key(walked + [name])[|Key(walked)|] == '/';
    }
  }

  lemma EntryStays(cache: Cache, t: Tree, key: string, id: Id, k: string)
    requires k in cache && EntryValid(cache, t, k) && key !in cache
    ensures EntryValid(cache[key := id], t, k)
  {
    if '/' in k {
      var base, name :| Child(k, base, name) && base in cache && t[cache[k]].name == name
        && t[cache[k]].parent == cache[base];
      assert cache[key := id][base] == cache[base];
    }
  }

  /** Adding an entry whose own key and extensions are absent. */
  lemma AddKeepsCache(cache: Cache, t: Tree, walked: seq<string>, name: string, parent: Id, id: Id)
    requires CacheValid(cache, t) && SlashFree(walked + [name]) && LiveChild(t, name, parent, id)
    requires Reached(cache, walked, parent)
    requires Key(walked + [name]) !in cache
    ensures CacheValid(cache[Key(walked + [name]) := id], t)
  {
    var key := Key(walked + [name]);
    ChildKey(walked, name);
    forall k | k in cache ensures EntryValid(cache[key := id], t, k) {
      EntryStays(cache, t, key, id, k);
    }
  }

  /** A live cached entry is what a search in its parent would find. */
  lemma CachedIsFound(cache: Cache, t: Tree, walked: seq<string>, name: string, parent: Id)
    requires CacheValid(cache, t) && SlashFree(walked + [name])
    requires Reached(cache, walked, parent)
    requires Key(walked + [name]) in cache && EntryValid(cache, t, Key(walked + [name]))
    requires !t[cache[Key(walked + [name])]].trashed
    ensures LiveChild(t, name, parent, cache[Key(walked + [name])])
  {
    var key := Key(walked + [name]);
    KeyAppend(walked, name);
    assert (walked + [name])[|walked|] == name;
    assert EntryValid(cache, t, key);
    if walked != [] {
      assert key[|Key(walked)|] == '/';
      var base, leaf :| Child(key, base, leaf) && base in cache
                     && t[cache[key]].name == leaf && t[cache[key]].parent == cache[base];
      assert Child(key, Key(walked), name);
      ChildUnique(key, base, leaf, Key(walked), name);
    }
  }

  class Client {
    /** The account's folders, as the service holds them. */
    var tree: Tree
    /** The cache file. */
    var saved: Cache
    /** How often the service was asked to search or to create. */
    var requests: nat
    /** Requests that do not fail. */
    const reliable: bool

    ghost predicate Valid()
      reads this
    {
      TreeValid(tree) && CacheValid(saved, tree)
    }

    constructor (sound: bool)
      ensures Valid() && tree == map[] && saved == map[] && requests == 0 && reliable == sound
    {
      tree, saved, requests, reliable := map[], map[], 0, sound;
    }

    /** Between two calls, anyone else trashes subtrees: the cache may go stale but not wrong. */
    method TrashOutside(after: Tree)
      requires Valid() && TrashedOutside(tree, after)
      modifies this`tree
      ensures Valid() && tree == after
    {
      TrashingKeepsTree(tree, after);
      TrashingKeepsCache(saved, tree, after);
      tree := after;
    }

    /** A search; `Err` when the request fails. */
    method FindFolder(name: string, parent: Id) returns (r: Result<Option<Id>>)
      modifies this`requests
      ensures requests == old(requests) + 1 && (reliable ==> r.Ok?)
      ensures r.Ok? && r.value.Some? ==> LiveChild(tree, name, parent, r.value.value)
      ensures r.Ok? && r.value.None? ==> forall id :: !LiveChild(tree, name, parent, id)
    {
      requests := requests + 1;
      var fails: bool := *;
      if fails && !reliable {
        return Err;
      }
      if id :| id in tree && LiveChild(tree, name, parent, id) {
        r := Ok(Some(id));
      } else {
        r := Ok(None);
      }
    }

    /** A new folder under an id the service chooses; `Err` when the request fails. */
    method CreateFolder(name: string, parent: Id) returns (r: Result<Id>)
      modifies this`tree, this`requests
      ensures requests == old(requests) + 1 && (reliable ==> r.Ok?)
      ensures r.Ok? ==> r.value !in old(tree) && r.value != "" && r.value != ROOT
      ensures r.Ok? ==> tree == old(tree)[r.value := Folder(name, parent, false)]
      ensures r.Err? ==> tree == old(tree)
    {
      requests := requests + 1;
      var fails: bool := *;
      if fails && !reliable {
        return Err;
      }
      var id := "folder";
      var todo := tree.Keys;
      while todo != {}
        invariant todo <= tree.Keys && |id| >= 6
        invariant forall k :: k in tree && k !in todo ==> |k| < |id|
        decreases todo
      {
        var k :| k in todo;
        todo := todo - {k};
        id := id + k + "-";
      }
      tree := tree[id := Folder(name, parent, false)];
      r := Ok(id);
    }

    /** `find_folder(name, parent) or create_folder(name, parent)` */
    method FindOrCreate(name: string, parent: Id) returns (r: Result<Id>)
      modifies this`tree, this`requests
      ensures requests > old(requests) && (reliable ==> r.Ok?)
      ensures r.Ok? ==> Step(old(tree), parent, name, tree, r.value)
      ensures r.Err? ==> tree == old(tree)
    {
      var found := FindFolder(name, parent);
      if found.Err? {
        return Err;
      }
      if found.value.Some? {
        return Ok(found.value.value);
      }
      r := CreateFolder(name, parent);
    }

    /** One segment of the walk: a live cached folder, or a search and the cache brought up to date. */
    method EnterFolder(cache: Cache, walked: seq<string>, name: string, parent: Id)
      returns (r: Result<Id>, next: Cache, changed: bool)
      requires Valid() && CacheValid(cache, tree) && SlashFree(walked + [name])
      requires Reached(cache, walked, parent) && Alive(tree, parent)
      modifies this`tree, this`requests
      ensures Valid() && (r.Err? ==> tree == old(tree)) && (reliable ==> r.Ok?) && requests >= old(requests)
      ensures requests == old(requests) <==> KnownLive(cache, old(tree), Key(walked + [name]))
      ensures requests == old(requests) ==> r.Ok? && !changed && tree == old(tree)
      ensures r.Ok? ==> Step(old(tree), parent, name, tree, r.value) && CacheValid(next, tree)
      ensures r.Ok? ==> Reached(next, walked + [name], r.value) && Alive(tree, r.value) && (!changed ==> next == cache)
    {
      var key := Key(walked + [name]);
      next, changed := cache, false;
      assert key in cache ==> EntryValid(cache, tree, key);
      if key in cache && !tree[cache[key]].trashed {
        CachedIsFound(cache, tree, walked, name, parent);
        return Ok(cache[key]), next, changed;
      }
      if key in cache {
        DropKeepsCache(cache, tree, key);
        DropKeepsPrefix(cache, walked, name, parent);
        next := DropCachedPath(cache, key);
      }
      ghost var before := tree;
      r := FindOrCreate(name, parent);
      if r.Ok? {
        Settle(next, saved, before, tree, walked, name, parent, r.value);
        next, changed := next[key := r.value], true;
      }
    }

    /** `ensure_folder_path`: the cached walk is a walk without a cache, whatever the cache held.  It asks the service
        for nothing exactly when every folder of the path is cached and alive. */
    method EnsureFolderPath(parts: seq<string>) returns (r: Result<Id>)
      requires Valid() && SlashFree(parts)
      modifies this
      ensures Valid()
      ensures r.Ok? ==> Walks(old(tree), parts, tree, r.value) && Reached(saved, parts, r.value)
      ensures reliable ==> r.Ok?
      ensures requests == old(requests) <==> old(Warm(saved, tree, parts))
      ensures requests == old(requests) ==> r.Ok? && tree == old(tree) && saved == old(saved)
      ensures r.Err? ==> saved == old(saved)
      ensures r.Err? ==> exists k, id :: 0 <= k <= |parts| && Walks(old(tree), parts[..k], tree, id)
    {
      var cache, parent, changed := saved, ROOT, false;
      for i := 0 to |parts|
        invariant Valid() && CacheValid(cache, tree) && Alive(tree, parent)
        invariant Walks(old(tree), parts[..i], tree, parent)
        invariant Reached(cache, parts[..i], parent)
        invariant !changed ==> cache == saved
        invariant saved == old(saved) && requests >= old(requests)
        invariant requests == old(requests) ==> !changed && tree == old(tree)
        invariant requests == old(requests) <==> old(Warm(saved, tree, parts[..i]))
      {
        ghost var before, from, walked := tree, parent, parts[..i];
        assert parts[..i + 1] == walked + [parts[i]];
        WarmStep(old(saved), old(tree), parts, i);
        var entered, next, updated := EnterFolder(cache, parts[..i], parts[i], parent);
        if entered.Err? {
          if old(Warm(saved, tree, parts)) {
            WarmPrefix(old(saved), old(tree), parts, i + 1);
          }
          return Err;
        }
        cache, parent, changed := next, entered.value, changed || updated;
        WalkOn(old(tree), walked, parts[i], before, from, tree, parent);
      }
      assert parts[..|parts|] == parts;
      if changed {
        saved := cache;
      }
      r := Ok(parent);
    }
  }

  /** A cached folder that is alive. */
  predicate KnownLive(cache: Cache, t: Tree, key: string) {
    key in cache && cache[key] in t && !t[cache[key]].trashed
  }

  /** Every folder along the path is cached and alive. */
  predicate Warm(cache: Cache, t: Tree, parts: seq<string>) {
    forall k :: 0 < k <= |parts| ==> WarmAt(cache, t, parts, k)
  }

  predicate WarmAt(cache: Cache, t: Tree, parts: seq<string>, k: nat)
    requires k <= |parts|
  {
    KnownLive(cache, t, Key(parts[..k]))
  }

  lemma WarmAlong(cache: Cache, t: Tree, parts: seq<string>, i: nat)
    requires i <= |parts|
    ensures Warm(cache, t, parts[..i]) <==> forall k :: 0 < k <= i ==> WarmAt(cache, t, parts, k)
  {
    forall k | 0 < k <= i ensures WarmAt(cache, t, parts[..i], k) <==> WarmAt(cache, t, parts, k) {
      assert parts[..i][..k] == parts[..k];
    }
  }

  lemma WarmStep(cache: Cache, t: Tree, parts: seq<string>, i: nat)
    requires i < |parts|
    ensures Warm(cache, t, parts[..i + 1]) <==> Warm(cache, t, parts[..i]) && KnownLive(cache, t, Key(parts[..i + 1]))
  {
    WarmAlong(cache, t, parts, i);
    WarmAlong(cache, t, parts, i + 1);
    assert WarmAt(cache, t, parts, i + 1) <==> KnownLive(cache, t, Key(parts[..i + 1]));
  }

  lemma WarmPrefix(cache: Cache, t: Tree, parts: seq<string>, i: nat)
    requires i <= |parts| && Warm(cache, t, parts)
    ensures Warm(cache, t, parts[..i])
  {
    WarmAlong(cache, t, parts, i);
  }

  /** The walk stands at the folder that the cache names for the walked path. */
  ghost predicate Reached(cache: Cache, walked: seq<string>, parent: Id) {
    if walked == [] then parent == ROOT else Key(walked) in cache && cache[Key(walked)] == parent
  }

  lemma DropKeepsPrefix(cache: Cache, walked: seq<string>, name: string, parent: Id)
    requires Reached(cache, walked, parent)
    ensures var key := Key(walked + [name]);
            Reached(map k | k in cache && k != key && !Extends(k, key) :: cache[k], walked, parent)
  {
    KeyAppend(walked, name);
  }

  lemma Settle(cache: Cache, saved: Cache, t: Tree, u: Tree, walked: seq<string>, name: string, parent: Id, id: Id)
    requires TreeValid(t) && CacheValid(cache, t) && CacheValid(saved, t) && SlashFree(walked + [name])
    requires Reached(cache, walked, parent) && Alive(t, parent)
    requires Key(walked + [name]) !in cache && Step(t, parent, name, u, id)
    ensures TreeValid(u) && CacheValid(saved, u)
    ensures CacheValid(cache[Key(walked + [name]) := id], u)
  {
    StepKeepsTree(t, parent, name, u, id);
    GrowthKeepsCache(cache, t, u);
    GrowthKeepsCache(saved, t, u);
    AddKeepsCache(cache, u, walked, name, parent, id);
  }

  lemma WalkOn(t: Tree, walked: seq<string>, name: string, mid: Tree, parent: Id, u: Tree, id: Id)
    requires Walks(t, walked, mid, parent) && Step(mid, parent, name, u, id)
    ensures Walks(t, walked + [name], u, id)
  {
    assert Front(walked + [name]) == walked && Last(walked + [name]) == name;
  }
}
