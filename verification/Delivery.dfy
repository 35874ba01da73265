/** The delivery index: the two maps every read is served from (internal/delivery). */
module Delivery {
  import opened Base

  /** Image ids, storage keys and alias ids are UUIDs; only their freshness matters. */
  type Uuid = nat

  type Path = Bytes

  datatype Visibility = Public | Private

  /** One row of the images table. Times are whole seconds. */
  datatype Row = Row(
    key: Uuid, mime: string, hash: Bytes, size: nat,
    created: nat, updated: nat, visibility: Visibility, name: string)

  datatype AliasRow = AliasRow(id: Uuid, image: Uuid)

  datatype File = File(size: nat, written: Instant)

  /** One served image. `etag` stands for the quoted hexadecimal form of the stored hash. */
  datatype Target = Target(
    key: Uuid, mime: string, etag: Bytes, size: nat,
    lastModified: Instant, visibility: Visibility, name: string)

  datatype View = View(byID: map<Uuid, Target>, aliases: map<Path, Uuid>) {

    function Add(id: Uuid, target: Target): View {
      this.(byID := byID[id := target])
    }

    function UpdateVisibility(id: Uuid, v: Visibility): View {
      if id in byID then this.(byID := byID[id := byID[id].(visibility := v)]) else this
    }

    function AddAlias(path: Path, id: Uuid): View {
      if id in byID then this.(aliases := aliases[path := id]) else this
    }

    function RemoveAlias(path: Path): View {
      this.(aliases := aliases - {path})
    }

    function RemoveImage(id: Uuid): View {
      View(byID - {id}, map p | p in aliases && aliases[p] != id :: aliases[p])
    }

    function GetAlias(path: Path): Option<Target> {
      if path in aliases then Lookup(byID, aliases[path]) else None
    }
  }

  /** The index object: two maps changed in place under one mutex, so each method is one step. */
  class Index {
    var byID: map<Uuid, Target>
    var aliases: map<Path, Uuid>

    function Contents(): View
      reads this
    {
      View(byID, aliases)
    }

    constructor ()
      ensures Contents() == View(map[], map[])
    {
      byID, aliases := map[], map[];
    }

    method ReplaceAll(targets: map<Uuid, Target>, paths: map<Path, Uuid>)
      modifies this
      ensures Contents() == View(targets, paths)
    {
      byID, aliases := targets, paths;
    }

    method Add(id: Uuid, target: Target)
      modifies this
      ensures Contents() == old(Contents()).Add(id, target)
      ensures byID == old(byID)[id := target] && aliases == old(aliases)
    {
      byID := byID[id := target];
    }

    method UpdateVisibility(id: Uuid, v: Visibility) returns (ok: bool)
      modifies this
      ensures Contents() == old(Contents()).UpdateVisibility(id, v)
      ensures ok <==> id in old(byID)
      ensures byID == (if ok then old(byID)[id := old(byID)[id].(visibility := v)] else old(byID)) && aliases == old(aliases)
    {
      ok := id in byID;
      if ok {
        var target := byID[id];
        target := target.(visibility := v);
        byID := byID[id := target];
      }
    }

    method AddAlias(path: Path, id: Uuid)
      modifies this
      ensures Contents() == old(Contents()).AddAlias(path, id)
      ensures byID == old(byID) && aliases == if id in old(byID) then old(aliases)[path := id] else old(aliases)
    {
      if id in byID { aliases := aliases[path := id]; }
    }

    method RemoveAlias(path: Path)
      modifies this
      ensures Contents() == old(Contents()).RemoveAlias(path)
      ensures byID == old(byID) && aliases == old(aliases) - {path}
    {
      aliases := aliases - {path};
    }

    /** Deletes while ranging over the aliases, in any order. */
    method RemoveImage(id: Uuid)
      modifies this
      ensures Contents() == old(Contents()).RemoveImage(id)
      ensures byID == old(byID) - {id}
      ensures forall p :: p in aliases <==> p in old(aliases) && old(aliases)[p] != id
      ensures forall p :: p in aliases ==> aliases[p] == old(aliases)[p]
    {
      byID := byID - {id};
      var paths := aliases.Keys;
      ghost var kept := old(Contents()).RemoveImage(id).aliases;
      while paths != {}
        invariant paths <= old(aliases.Keys)
        invariant byID == old(byID) - {id}
        invariant forall p :: p in aliases <==> p in old(aliases) && (p in paths || p in kept)
        invariant forall p :: p in aliases ==> aliases[p] == old(aliases)[p]
        decreases paths
      {
        var path :| path in paths;
        if aliases[path] == id { aliases := aliases - {path}; }
        paths := paths - {path};
      }
      assert aliases == kept;
    }

    method GetAlias(path: Path) returns (target: Option<Target>)
      ensures target == Contents().GetAlias(path)
      ensures target.Some? <==> path in aliases && aliases[path] in byID
      ensures target.Some? ==> target.value == byID[aliases[path]]
    {
      if path in aliases {
        var id := aliases[path];
        target := Lookup(byID, id);
      } else {
        target := None;
      }
    }
  }

  /** After a deletion nothing resolves to the image, and every other alias resolves as before. */
  lemma RemovedImageIsUnreachable(v: View, id: Uuid, path: Path)
    ensures id !in v.RemoveImage(id).byID
    ensures path in v.RemoveImage(id).aliases ==> v.RemoveImage(id).aliases[path] != id
    ensures !(path in v.aliases && v.aliases[path] == id) ==> v.RemoveImage(id).GetAlias(path) == v.GetAlias(path)
  {
  }

  /** The second a row was last modified: updated_at when positive, created_at otherwise. */
  function ModifiedSecond(row: Row): nat {
    if row.updated > 0 then row.updated else row.created
  }

  /** The target a rebuild derives from a row. */
  function Rebuilt(row: Row): Target {
    Target(row.key, row.mime, row.hash, row.size, FromUnix(ModifiedSecond(row)), row.visibility, row.name)
  }

  /** The target a service publishes right after writing a row at instant `at`. */
  function Published(row: Row, at: Instant): Target {
    Target(row.key, row.mime, row.hash, row.size, at, row.visibility, row.name)
  }

  /** A served target says what its row says, times compared in whole seconds. */
  predicate Agrees(t: Target, row: Row) {
    && t.key == row.key && t.mime == row.mime && t.etag == row.hash && t.size == row.size
    && t.visibility == row.visibility && t.name == row.name
    && Unix(t.lastModified) == ModifiedSecond(row)
  }

  function InSeconds(t: Target): Target {
    t.(lastModified := FromUnix(Unix(t.lastModified)))
  }

  /** The index with every time truncated to the second. */
  function ViewInSeconds(v: View): View {
    v.(byID := map id | id in v.byID :: InSeconds(v.byID[id]))
  }

  lemma AgreesInSeconds(t: Target, row: Row)
    ensures Agrees(t, row) <==> InSeconds(t) == Rebuilt(row)
  {
    UnixOfFromUnix(ModifiedSecond(row));
    UnixOfFromUnix(Unix(t.lastModified));
  }
}
