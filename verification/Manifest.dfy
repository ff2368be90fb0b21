// The manifest trie: filtering by a path and looking paths up
// (shared/manifest.go).
module Manifest {
  import opened Wrappers
  import opened Strings

  // A JSON value; every value that is neither null nor an object is a leaf.
  datatype Json = Null | Leaf(text: string) | Obj(members: map<string, Json>)

  datatype ManifestError = NotAnObject

  type Path = seq<string>

  // ---- looking up ----

  function Member(t: Json, name: string): Option<Json>
    requires t.Obj?
  {
    if name in t.members then Some(t.members[name]) else None
  }

  // What stands at a path, null or not.
  function At(t: Option<Json>, path: Path): Option<Json>
    decreases path
  {
    if path == [] then t
    else if t.Some? && t.value.Obj? then At(Member(t.value, path[0]), path[1..])
    else None
  }

  // findNode: a null is as good as nothing.
  function FindNode(t: Option<Json>, path: Path): Option<Json>
    decreases path
  {
    if path == [] then if t == Some(Null) then None else t
    else if t.Some? && t.value.Obj? then FindNode(Member(t.value, path[0]), path[1..])
    else None
  }

  lemma {:induction false} FindNodeIsAt(t: Option<Json>, path: Path)
    ensures FindNode(t, path) == if At(t, path) == Some(Null) then None else At(t, path)
    decreases path
  {
    if path != [] && t.Some? && t.value.Obj? {
      FindNodeIsAt(Member(t.value, path[0]), path[1..]);
    }
  }

  // ---- filtering ----

  // rawManifestTrie.FilterByPath: one layer is parsed at a time.
  function FilterByPath(t: Option<Json>, path: Path): Result<Option<Json>, ManifestError>
    decreases path
  {
    if t.None? || path == [] then Ok(t)
    else match t.value
      case Leaf(_) => Err(NotAnObject)
      case Null => Ok(None)
      case Obj(_) =>
        var sub :- FilterByPath(Member(t.value, path[0]), path[1..]);
        if sub.None? then Ok(None) else Ok(Some(Obj(map[path[0] := sub.value])))
  }

  ghost predicate Comparable(p: Path, q: Path) {
    p <= q || q <= p
  }

  // Filtering fails exactly when the path goes through a leaf.
  lemma {:induction false} FilterFailsIff(t: Option<Json>, path: Path)
    ensures FilterByPath(t, path).Err? <==> exists n :: LeafOnTheWay(t, path, n)
    decreases path
  {
    if path != [] && t.Some? {
      if t.value.Obj? {
        var sub := Member(t.value, path[0]);
        FilterFailsIff(sub, path[1..]);
        if n :| LeafOnTheWay(sub, path[1..], n) {
          assert path[..n + 1][1..] == path[1..][..n];
          assert LeafOnTheWay(t, path, n + 1);
        }
        if n :| LeafOnTheWay(t, path, n) {
          assert n > 0 && path[..n][1..] == path[1..][..n - 1];
          assert LeafOnTheWay(sub, path[1..], n - 1);
        }
      } else if t.value.Leaf? {
        assert LeafOnTheWay(t, path, 0);
      } else {
        assert forall n: nat :: n <= |path| ==> At(t, path[..n]) == if n == 0 then t else None;
      }
    } else if t.None? {
      assert forall n: nat :: n <= |path| ==> At(t, path[..n]) == None;
    }
  }

  ghost predicate LeafOnTheWay(t: Option<Json>, path: Path, n: int) {
    0 <= n < |path| && At(t, path[..n]).Some? && At(t, path[..n]).value.Leaf?
  }

  // At the path and below it nothing changes.
  lemma {:induction false} FilterKeepsSubtree(t: Option<Json>, path: Path, q: Path)
    requires FilterByPath(t, path).Ok? && path <= q
    ensures FindNode(FilterByPath(t, path).value, q) == FindNode(t, q)
    decreases path
  {
    if path != [] && t.Some? {
      var sub := if t.value.Obj? then Member(t.value, path[0]) else None;
      if t.value.Obj? {
        FilterKeepsSubtree(sub, path[1..], q[1..]);
      }
    }
  }

  // Off the path nothing is left.
  lemma {:induction false} FilterDropsTheRest(t: Option<Json>, path: Path, q: Path)
    requires FilterByPath(t, path).Ok? && !Comparable(path, q)
    ensures FindNode(FilterByPath(t, path).value, q) == None
    decreases path
  {
    if t.Some? && t.value.Obj? && q[0] == path[0] {
      FilterDropsTheRest(Member(t.value, path[0]), path[1..], q[1..]);
    }
  }

  lemma {:induction false} FilterTwice(t: Option<Json>, path: Path)
    requires FilterByPath(t, path).Ok?
    ensures FilterByPath(FilterByPath(t, path).value, path) == FilterByPath(t, path)
    decreases path
  {
    if path != [] && t.Some? && t.value.Obj? {
      FilterTwice(Member(t.value, path[0]), path[1..]);
    }
  }

  // Something is left exactly when something, if only a null, is at the path.
  lemma {:induction false} FilterFindsIff(t: Option<Json>, path: Path)
    requires FilterByPath(t, path).Ok?
    ensures FilterByPath(t, path).value.Some? <==> At(t, path).Some?
    decreases path
  {
    if path != [] && t.Some? && t.value.Obj? {
      FilterFindsIff(Member(t.value, path[0]), path[1..]);
    }
  }

  // ---- the manifest ----

  type Items = map<string, Json>

  // strings.Trim of the slashes.
  function TrimSlashes(path: string): string {
    TrimRight(TrimLeft(path, IsSlash), IsSlash)
  }

  predicate IsSlash(c: char) {
    c == '/'
  }

  function PartsOf(path: string): Path {
    Split(TrimSlashes(path), '/')
  }

  // The parts are the names between slashes, those at the ends of the path left out.
  lemma PartsAreExact(path: string)
    ensures var kept := Join(PartsOf(path), "/");
      && (exists i: nat :: Surrounded(path, i, kept, IsSlash))
      && (kept != "" ==> kept[0] != '/' && kept[|kept| - 1] != '/')
    ensures forall part | part in PartsOf(path) :: '/' !in part
  {
    TrimIsExact(path, IsSlash);
    JoinSplit(TrimSlashes(path), '/');
  }

  // The root always exists.
  predicate HasFile(items: Items, path: string) {
    TrimSlashes(path) == "" || exists k :: k in items && FindNode(Some(items[k]), PartsOf(path)).Some?
  }

  // Only an object or null can be decoded into a map of test types.
  predicate Decodes(items: Items) {
    forall k :: k in items ==> !items[k].Leaf?
  }

  predicate Filters(items: Items, path: Path) {
    forall k :: k in items ==> FilterByPath(Some(items[k]), path).Ok?
  }

  function Filtered(items: Items, path: Path): Items
    requires Filters(items, path)
  {
    map k | k in items && FilterByPath(Some(items[k]), path).value.Some? ::
      FilterByPath(Some(items[k]), path).value.value
  }

  ghost function Restricted(items: Items, keys: set<string>): Items {
    map k | k in keys && k in items :: items[k]
  }

  lemma RestrictedOneMore(items: Items, keys: set<string>, k: string)
    requires k in items
    ensures Restricted(items, keys + {k}) == Restricted(items, keys)[k := items[k]]
  {
  }

  lemma RestrictedAll(items: Items)
    ensures Restricted(items, items.Keys) == items
  {
  }

  class Manifest {
    var items: Items
    var version: int
    // The decoded items, once they were needed.
    var decoded: Option<Items>

    constructor (items: Items, version: int)
      ensures this.items == items && this.version == version && decoded == None
    {
      this.items, this.version, decoded := items, version, None;
    }

    // unmarshalAll. A failure leaves a part of the items decoded, and later calls
    // do not try again.
    method UnmarshalAll() returns (ok: bool)
      modifies this`decoded
      ensures old(decoded).Some? ==> ok && decoded == old(decoded)
      ensures old(decoded).None? ==> (ok <==> Decodes(items))
      ensures old(decoded).None? && ok ==> decoded == Some(items)
      ensures !ok ==> decoded.Some? && decoded.value.Keys < items.Keys
      ensures !ok ==> forall k | k in decoded.value :: decoded.value[k] == items[k]
    {
      if decoded.Some? {
        return true;
      }
      decoded := Some(map[]);
      var todo := items.Keys;
      while todo != {}
        invariant todo <= items.Keys
        invariant decoded == Some(Restricted(items, items.Keys - todo))
        invariant forall k | k in items.Keys - todo :: !items[k].Leaf?
        decreases todo
      {
        var k :| k in todo;
        if items[k].Leaf? {
          return false;
        }
        decoded := Some(decoded.value[k := items[k]]);
        RestrictedOneMore(items, items.Keys - todo, k);
        assert items.Keys - (todo - {k}) == items.Keys - todo + {k};
        todo := todo - {k};
      }
      assert items.Keys - todo == items.Keys;
      RestrictedAll(items);
      return true;
    }

    // ContainsFile.
    method ContainsFile(path: string) returns (r: Result<bool, ManifestError>)
      modifies this`decoded
      ensures old(decoded).Some? ==> r == Ok(HasFile(old(decoded).value, path))
      ensures old(decoded).None? ==> r == if Decodes(items) then Ok(HasFile(items, path)) else Err(NotAnObject)
    {
      var ok := UnmarshalAll();
      if !ok {
        return Err(NotAnObject);
      }
      if TrimSlashes(path) == "" {
        return Ok(true);
      }
      var parts := PartsOf(path);
      var todo := decoded.value.Keys;
      while todo != {}
        invariant decoded.Some? && todo <= decoded.value.Keys
        invariant forall k | k in decoded.value.Keys - todo :: FindNode(Some(decoded.value[k]), parts).None?
        decreases todo
      {
        var k :| k in todo;
        if FindNode(Some(decoded.value[k]), parts).Some? {
          return Ok(true);
        }
        todo := todo - {k};
      }
      return Ok(false);
    }

    // FilterByPath with one path.
    method FilterOnePath(p: string) returns (r: Result<Manifest, ManifestError>)
      ensures r.Ok? <==> Filters(items, PartsOf(p))
      ensures r.Ok? ==> fresh(r.value) && r.value.version == version && r.value.decoded == None
      ensures r.Ok? ==> r.value.items == Filtered(items, PartsOf(p))
    {
      var parts := PartsOf(p);
      var kept: Items := map[];
      var todo := items.Keys;
      while todo != {}
        invariant todo <= items.Keys
        invariant forall k | k in items.Keys - todo :: FilterByPath(Some(items[k]), parts).Ok?
        invariant kept == map k | k in items.Keys - todo && FilterByPath(Some(items[k]), parts).value.Some?
          :: FilterByPath(Some(items[k]), parts).value.value
        decreases todo
      {
        var k :| k in todo;
        var filtered := FilterByPath(Some(items[k]), parts);
        if filtered.Err? {
          return Err(filtered.error);
        }
        if filtered.value.Some? {
          kept := kept[k := filtered.value.value];
        }
        todo := todo - {k};
      }
      var manifest := new Manifest(kept, version);
      return Ok(manifest);
    }
  }

  // At and below the path the filtered manifest has the same files.
  lemma FilteredHasSameFiles(items: Items, path: string, q: string)
    requires Filters(items, PartsOf(path)) && PartsOf(path) <= PartsOf(q)
    ensures HasFile(Filtered(items, PartsOf(path)), q) <==> HasFile(items, q)
  {
    hide FindNode, FilterByPath, PartsOf;
    var p, filtered := PartsOf(path), Filtered(items, PartsOf(path));
    forall k | k in items
      ensures FindNode(Some(items[k]), PartsOf(q)).Some?
        <==> k in filtered && FindNode(Some(filtered[k]), PartsOf(q)).Some?
    {
      FilterKeepsSubtree(Some(items[k]), p, PartsOf(q));
      NothingInNothing(PartsOf(q));
    }
  }

  lemma NothingInNothing(path: Path)
    ensures FindNode(None, path) == None
  {
  }

  // Files neither on the way to the path nor below it are gone.
  lemma FilteredHasNoOthers(items: Items, path: string, q: string)
    requires Filters(items, PartsOf(path)) && !Comparable(PartsOf(path), PartsOf(q)) && TrimSlashes(q) != ""
    ensures !HasFile(Filtered(items, PartsOf(path)), q)
  {
    hide FindNode, FilterByPath, PartsOf, TrimSlashes;
    var p, filtered := PartsOf(path), Filtered(items, PartsOf(path));
    forall k | k in filtered ensures FindNode(Some(filtered[k]), PartsOf(q)) == None {
      FilterDropsTheRest(Some(items[k]), p, PartsOf(q));
    }
  }

  lemma FilteredTwice(items: Items, path: Path)
    requires Filters(items, path)
    ensures Filters(Filtered(items, path), path) && Filtered(Filtered(items, path), path) == Filtered(items, path)
  {
    hide FilterByPath;
    var once := Filtered(items, path);
    forall k | k in once ensures FilterByPath(Some(once[k]), path) == Ok(Some(once[k])) {
      FilterTwice(Some(items[k]), path);
    }
  }
}
