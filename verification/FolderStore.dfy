/** The folders of a Drive account, and the find-or-create walk along a path of names. */
module FolderStore {
  import opened DriveNames
  import opened Text

  datatype Folder = Folder(name: string, parent: Id, trashed: bool)

  type Tree = map<Id, Folder>

  /** `id` is an untrashed folder `name` directly under `parent`. */
  predicate LiveChild(t: Tree, name: string, parent: Id, id: Id) {
    id in t && t[id] == Folder(name, parent, false)
  }

  /** Trashing takes a whole subtree, ids are real, and no live folder has a live namesake beside it. */
  ghost predicate TreeValid(t: Tree) {
    && "" !in t && ROOT !in t
    && (forall id :: id in t ==> t[id].parent == ROOT || t[id].parent in t)
    && (forall id :: id in t && !t[id].trashed && t[id].parent != ROOT ==> !t[t[id].parent].trashed)
    && (forall a, b :: a in t && b in t && !t[a].trashed && t[a] == t[b] ==> a == b)
  }

  /** What anyone else may do between two calls: trash subtrees. */
  ghost predicate TrashedOutside(t: Tree, u: Tree) {
    && u.Keys == t.Keys
    && (forall id :: id in t ==> u[id].name == t[id].name && u[id].parent == t[id].parent)
    && (forall id :: id in t && t[id].trashed ==> u[id].trashed)
    && (forall id ::
          id in u && !u[id].trashed && u[id].parent != ROOT && u[id].parent in u ==> !u[u[id].parent].trashed)
  }

  lemma TrashingKeepsTree(t: Tree, u: Tree)
    requires TreeValid(t) && TrashedOutside(t, u)
    ensures TreeValid(u)
  {
    forall a, b | a in u && b in u && !u[a].trashed && u[a] == u[b] ensures a == b {
      assert !t[a].trashed && t[a] == t[b];
    }
  }

  // ---------------------------------------------------------------- the walk without a cache

  /** `find_folder(name, parent) or create_folder(name, parent)` */
  ghost predicate Step(t: Tree, parent: Id, name: string, u: Tree, id: Id) {
    if exists x :: LiveChild(t, name, parent, x) then u == t && LiveChild(t, name, parent, id)
    else id !in t && id != "" && id != ROOT && u == t[id := Folder(name, parent, false)]
  }

  /** Walking `parts` from the root takes tree `t` to `u` and ends at `id`. */
  ghost predicate Walks(t: Tree, parts: seq<string>, u: Tree, id: Id) {
    if parts == [] then u == t && id == ROOT
    else exists mid, parent :: Walks(t, Front(parts), mid, parent) && Step(mid, parent, Last(parts), u, id)
  }

  /** `id` is reached from the root by live folders named `parts`: a lookup that creates nothing. */
  ghost predicate Resolves(t: Tree, parts: seq<string>, id: Id) {
    if parts == [] then id == ROOT
    else exists parent :: Resolves(t, Front(parts), parent) && LiveChild(t, Last(parts), parent, id)
  }

  ghost predicate Alive(t: Tree, id: Id) { id == ROOT || (id in t && !t[id].trashed) }

  lemma StepKeepsTree(t: Tree, parent: Id, name: string, u: Tree, id: Id)
    requires TreeValid(t) && Alive(t, parent) && Step(t, parent, name, u, id)
    ensures TreeValid(u) && LiveChild(u, name, parent, id)
    ensures forall x :: x in t ==> x in u && u[x] == t[x]
    ensures forall x :: x in u ==> x in t || x == id
  {
    if !exists x :: LiveChild(t, name, parent, x) {
      forall x | x in t ensures t[x] != Folder(name, parent, false) {
        assert !LiveChild(t, name, parent, x);
      }
    }
  }

  lemma {:induction false} ResolvesGrows(t: Tree, u: Tree, parts: seq<string>, id: Id)
    requires Resolves(t, parts, id) && forall x :: x in t ==> x in u && u[x] == t[x]
    ensures Resolves(u, parts, id)
  {
    if parts != [] {
      var parent :| Resolves(t, Front(parts), parent) && LiveChild(t, Last(parts), parent, id);
      ResolvesGrows(t, u, Front(parts), parent);
    }
  }

  lemma {:induction false} ResolvesUnique(t: Tree, parts: seq<string>, a: Id, b: Id)
    requires TreeValid(t) && Resolves(t, parts, a) && Resolves(t, parts, b)
    ensures a == b
  {
    if parts != [] {
      var p :| Resolves(t, Front(parts), p) && LiveChild(t, Last(parts), p, a);
      var q :| Resolves(t, Front(parts), q) && LiveChild(t, Last(parts), q, b);
      ResolvesUnique(t, Front(parts), p, q);
    }
  }

  /** A walk keeps every folder it meets, adds no live namesake, and leaves the path resolving to its result. */
  lemma {:induction false} WalkOutcome(t: Tree, parts: seq<string>, u: Tree, id: Id)
    requires TreeValid(t) && Walks(t, parts, u, id)
    ensures TreeValid(u) && Alive(u, id) && Resolves(u, parts, id)
    ensures forall x :: x in t ==> x in u && u[x] == t[x]
    ensures forall x :: x in u && x !in t ==> !u[x].trashed
  {
    if parts != [] {
      var mid, parent :| Walks(t, Front(parts), mid, parent) && Step(mid, parent, Last(parts), u, id);
      WalkOutcome(t, Front(parts), mid, parent);
      StepKeepsTree(mid, parent, Last(parts), u, id);
      ResolvesGrows(mid, u, Front(parts), parent);
    }
  }

  /** Where the path already resolves, the walk creates nothing and ends exactly there. */
  lemma {:induction false} WalkFinds(t: Tree, parts: seq<string>, u: Tree, id: Id, there: Id)
    requires TreeValid(t) && Walks(t, parts, u, id) && Resolves(t, parts, there)
    ensures u == t && id == there
  {
    if parts != [] {
      var mid, parent :| Walks(t, Front(parts), mid, parent) && Step(mid, parent, Last(parts), u, id);
      var p :| Resolves(t, Front(parts), p) && LiveChild(t, Last(parts), p, there);
      WalkFinds(t, Front(parts), mid, parent, p);
    }
  }
}
