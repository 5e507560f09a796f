/** The local database: event mappings with tombstones, and source states. */
module Storage {
  import opened Text
  import opened Records

  /** What a lookup reports; `NO_MAPPING` when there is no row. */
  datatype Mapping = Mapping(destUid: string, href: string, etag: string, deleted: bool)

  const NO_MAPPING := Mapping("", "", "", false)

  function Lookup(rows: map<Key, Row>, uid: string, dest: string): Mapping {
    var k := Key(uid, dest);
    if k in rows then Mapping(rows[k].destUid, rows[k].href, rows[k].etag, rows[k].deleted) else NO_MAPPING
  }

  predicate IsListed(k: Key, row: Row, dest: string, prefix: string) {
    k.dest == dest && !row.deleted && Selected(k.uid, prefix)
  }

  /** The active mappings of a destination under a prefix. */
  function ActiveMappings(rows: map<Key, Row>, dest: string, prefix: string): map<string, Digest> {
    map k | k in rows && IsListed(k, rows[k], dest, prefix) :: k.uid := rows[k].hash
  }

  lemma ActiveMappingsAt(rows: map<Key, Row>, dest: string, prefix: string, uid: string)
    ensures var m := ActiveMappings(rows, dest, prefix);
            var k := Key(uid, dest);
            && (uid in m <==> k in rows && !rows[k].deleted && Selected(uid, prefix))
            && (uid in m ==> m[uid] == rows[k].hash)
  {
    var m, k := ActiveMappings(rows, dest, prefix), Key(uid, dest);
    if k in rows && IsListed(k, rows[k], dest, prefix) {
      assert k.uid in m;
    }
  }

  /** How a listing query goes: it fails, or its cursor breaks off before
      delivering the rows of `lost`. The caller is not told about the latter. */
  datatype Listing = ListError | Rows(lost: set<string>)

  class Store {
    var mappings: map<Key, Row>
    var states: map<string, CalendarState>

    constructor ()
      ensures mappings == map[] && states == map[]
    {
      mappings, states := map[], map[];
    }

    method GetMapping(uid: string, dest: string, readable: bool) returns (ok: bool, m: Mapping)
      ensures ok == readable
      ensures ok ==> m == Lookup(mappings, uid, dest)
    {
      if !readable {
        return false, NO_MAPPING;
      }
      ok, m := true, Lookup(mappings, uid, dest);
    }

    /** Upsert on the primary key. */
    method SetMapping(uid: string, dest: string, row: Row, fate: Fate) returns (ok: bool)
      modifies this`mappings
      ensures ok == fate.Done?
      ensures mappings == if fate.TakesEffect() then old(mappings)[Key(uid, dest) := row] else old(mappings)
    {
      if fate.TakesEffect() {
        mappings := mappings[Key(uid, dest) := row];
      }
      ok := fate.Done?;
    }

    method ListMappings(dest: string, prefix: string, listing: Listing) returns (ok: bool, m: map<string, Digest>)
      ensures ok == listing.Rows?
      ensures ok ==> m == ActiveMappings(mappings, dest, prefix) - listing.lost
    {
      m := map[];
      if listing.ListError? {
        return false, m;
      }
      ok := true;
      ghost var whole := ActiveMappings(mappings, dest, prefix);
      var cursor := mappings.Keys;
      while cursor != {}
        invariant cursor <= mappings.Keys
        invariant forall u :: u in m <==> u in whole && u !in listing.lost && Key(u, dest) !in cursor
        invariant forall u :: u in m ==> m[u] == whole[u]
      {
        var k :| k in cursor;
        ActiveMappingsAt(mappings, dest, prefix, k.uid);
        if IsListed(k, mappings[k], dest, prefix) && k.uid !in listing.lost {
          m := m[k.uid := mappings[k].hash];
        }
        cursor := cursor - {k};
      }
    }

    method GetSourceState(url: string, readable: bool) returns (ok: bool, st: CalendarState)
      ensures ok == readable
      ensures ok ==> st == if url in states then states[url] else NO_STATE
    {
      if !readable {
        return false, NO_STATE;
      }
      ok, st := true, if url in states then states[url] else NO_STATE;
    }

    method SetSourceState(url: string, st: CalendarState, fate: Fate) returns (ok: bool)
      modifies this`states
      ensures ok == fate.Done?
      ensures states == if fate.TakesEffect() then old(states)[url := st] else old(states)
    {
      if fate.TakesEffect() {
        states := states[url := st];
      }
      ok := fate.Done?;
    }
  }
}
