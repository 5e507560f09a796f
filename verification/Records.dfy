/** The values the synchroniser stores, compares and sends. */
module Records {

  datatype Option<+T> = None | Some(value: T)

  function Get<K, V>(m: map<K, V>, k: K): (r: Option<V>)
    ensures r.Some? <==> k in m
    ensures k in m ==> r.value == m[k]
  {
    if k in m then Some(m[k]) else None
  }

  lemma SameMap<K(!new), V>(a: map<K, V>, b: map<K, V>)
    requires forall k :: Get(a, k) == Get(b, k)
    ensures a == b
  {
    forall k
      ensures k in a <==> k in b
      ensures k in a ==> a[k] == b[k]
    {
      assert Get(a, k) == Get(b, k);
    }
  }

  /** One encoded single-event calendar, as it is sent to a destination. */
  datatype Content = Content(uid: string, body: string)

  /** The content digest, taken to be free of collisions. */
  datatype Digest = Sha256(data: Content)

  function HashContent(data: Content): Digest {
    Sha256(data)
  }

  /** Primary key and columns of table `event_mapping`; `synced_at` is left out. */
  datatype Key = Key(uid: string, dest: string)
  datatype Row = Row(destUid: string, href: string, etag: string, hash: Digest, deleted: bool)

  /** A row of table `source_state`. */
  datatype CalendarState = CalendarState(ctag: string, syncToken: string, etag: string)

  const NO_STATE := CalendarState("", "", "")

  /** What becomes of one remote call or store write: it succeeds; it fails
      without effect; or it takes effect although the caller is told it failed. */
  datatype Fate = Done | Refused | Unacked {
    predicate TakesEffect() { !Refused? }
  }
}
