/** One run of `syncDestination` as a function of everything it depends on:
    the store, the remote calendar, the fetched events, the orders in which Go
    happens to walk the two maps, and the fate of every call.

    Each map key is visited at most once per loop, so the fates of a run are
    given per UID: no two calls of a run share one. */
module Reconcile {
  import opened Text
  import opened Records
  import opened Storage
  import opened Remote

  datatype World = World(rows: map<Key, Row>, remote: map<string, Content>)

  /** One destination as the engine sees it: its name, its collection URL, the
      UID prefix of its source, and whether `delete_mode` is "hard". */
  datatype Target = Target(name: string, base: string, prefix: string, hard: bool)

  datatype UidFates = UidFates(readable: bool, call: Fate, write: Fate)

  /** The fates of a run: its listing, then those of the event loop and of the stale loop. */
  datatype Faults = Faults(listing: Listing, event: string -> UidFates, stale: string -> UidFates)

  /** The inputs of a run. */
  datatype Plan = Plan(t: Target, events: map<string, Content>, faults: Faults)

  datatype Verdict =
    | Unchanged    // hash matches, nothing to do
    | Created | Updated | Tombstoned
    | PassedOver   // stale, but unreadable or already deleted
    | ReadFailed | CallFailed | WriteFailed
  {
    /** The run stops here with an error. */
    predicate Fatal() { ReadFailed? || CallFailed? || WriteFailed? }
  }

  datatype Entry = Entry(uid: string, verdict: Verdict)
  datatype Run = Run(world: World, trace: seq<Entry>, ok: bool)

  // ---------------------------------------------------------------- steps

  function EventStep(w: World, t: Target, uid: string, data: Content, listed: map<string, Digest>, f: UidFates): (World, Verdict)
  {
    var m := Lookup(w.rows, uid, t.name);
    var hash := HashContent(data);
    if !f.readable then (w, ReadFailed)
    else if uid in listed && listed[uid] == hash && !m.deleted then (w, Unchanged)
    else
      var isNew := m.destUid == "";
      var href := if isNew then HrefFor(t.base, data.uid) else m.href;
      var w1 := w.(remote := Put(w.remote, href, data, f.call));
      if !f.call.Done? then (w1, CallFailed)
      else
        var row := Row(if isNew then uid else m.destUid, href, "", hash, false);
        var w2 := if f.write.TakesEffect() then w1.(rows := w1.rows[Key(uid, t.name) := row]) else w1;
        (w2, if !f.write.Done? then WriteFailed else if isNew then Created else Updated)
  }

  function StaleStep(w: World, t: Target, uid: string, hash: Digest, f: UidFates): (World, Verdict)
  {
    var m := Lookup(w.rows, uid, t.name);
    if !f.readable || m.deleted then (w, PassedOver)
    else
      var w1 := if t.hard then w.(remote := Delete(w.remote, m.href, f.call)) else w;
      var row := Row(m.destUid, m.href, m.etag, hash, true);
      var w2 := if f.write.TakesEffect() then w1.(rows := w1.rows[Key(uid, t.name) := row]) else w1;
      (w2, if f.write.Done? then Tombstoned else WriteFailed)
  }

  // ---------------------------------------------------------------- loops

  function Before(e: Entry, r: Run): Run {
    Run(r.world, [e] + r.trace, r.ok)
  }

  function EventLoop(w: World, p: Plan, order: seq<string>, listed: map<string, Digest>): Run
    requires forall u <- order :: u in p.events
    decreases |order|
  {
    if order == [] then Run(w, [], true)
    else
      var u := order[0];
      var (w', v) := EventStep(w, p.t, u, p.events[u], listed, p.faults.event(u));
      var e := Entry(u, v);
      if v.Fatal() then Run(w', [e], false) else Before(e, EventLoop(w', p, order[1..], listed))
  }

  function StaleLoop(w: World, p: Plan, order: seq<string>, listed: map<string, Digest>): Run
    requires forall u <- order :: u in listed
    decreases |order|
  {
    if order == [] then Run(w, [], true)
    else if order[0] in p.events then StaleLoop(w, p, order[1..], listed)
    else
      var u := order[0];
      var (w', v) := StaleStep(w, p.t, u, listed[u], p.faults.stale(u));
      var e := Entry(u, v);
      if v.Fatal() then Run(w', [e], false) else Before(e, StaleLoop(w', p, order[1..], listed))
  }

  predicate NoDup<T(==)>(s: seq<T>) {
    forall i, j :: 0 <= i < j < |s| ==> s[i] != s[j]
  }

  function Elements<T(==)>(s: seq<T>): set<T> {
    set x <- s
  }

  /** One way of walking a map: every key once. */
  predicate Enumerates<T(==)>(order: seq<T>, keys: set<T>) {
    NoDup(order) && (forall u <- order :: u in keys) && (forall u <- keys :: u in order)
  }

  /** The listing a run works with. */
  function ListedBy(w: World, p: Plan): map<string, Digest> {
    match p.faults.listing
    case ListError => map[]
    case Rows(lost) => ActiveMappings(w.rows, p.t.name, p.t.prefix) - lost
  }

  /** The two orders are possible walks of the two maps. */
  predicate Walks(w: World, p: Plan, order: seq<string>, staleOrder: seq<string>) {
    Enumerates(order, p.events.Keys) && Enumerates(staleOrder, ListedBy(w, p).Keys)
  }

  function SyncDestination(w: World, p: Plan, order: seq<string>, staleOrder: seq<string>): Run
    requires Walks(w, p, order, staleOrder)
  {
    if p.faults.listing.ListError? then Run(w, [], false)
    else
      var listed := ListedBy(w, p);
      var r1 := EventLoop(w, p, order, listed);
      if !r1.ok then r1
      else
        var r2 := StaleLoop(r1.world, p, staleOrder, listed);
        Run(r2.world, r1.trace + r2.trace, r2.ok)
  }

  function CountOf(trace: seq<Entry>, v: Verdict): nat {
    if trace == [] then 0 else (if trace[0].verdict == v then 1 else 0) + CountOf(trace[1..], v)
  }

  function Uids(trace: seq<Entry>): set<string> {
    set e <- trace :: e.uid
  }

  // ---------------------------------------------------------------- well-formed inputs

  /** What `parseEventsWithPipeline` hands over: no empty UID, and each event under its own. */
  ghost predicate ProperEvents(events: map<string, Content>) {
    forall u <- events :: u != "" && events[u].uid == u
  }

  /** The rows of one destination as its own runs write them. */
  ghost predicate ProperRow(t: Target, uid: string, row: Row) {
    uid != "" && row.destUid == uid && row.href == HrefFor(t.base, uid) && row.etag == ""
  }

  ghost predicate ProperRows(rows: map<Key, Row>, t: Target) {
    forall k <- rows :: k.dest == t.name ==> ProperRow(t, k.uid, rows[k])
  }

  // ---------------------------------------------------------------- locality

  /** All that a run can see or change of one UID. */
  datatype Cell = Cell(row: Option<Row>, res: Option<Content>)

  function CellAt(w: World, t: Target, uid: string): Cell {
    Cell(Get(w.rows, Key(uid, t.name)), Get(w.remote, HrefFor(t.base, uid)))
  }

  predicate ActiveCell(c: Cell) {
    c.row.Some? && !c.row.value.deleted
  }

  /** The row a successful put leaves behind, for created and updated events alike. */
  function FreshRow(t: Target, uid: string, data: Content): Row {
    Row(uid, HrefFor(t.base, uid), "", HashContent(data), false)
  }

  function EventCell(c: Cell, t: Target, uid: string, data: Content, listed: Option<Digest>, f: UidFates): (Cell, Verdict)
  {
    if !f.readable then (c, ReadFailed)
    else if listed == Some(HashContent(data)) && !(c.row.Some? && c.row.value.deleted) then (c, Unchanged)
    else
      var c1 := if f.call.TakesEffect() then c.(res := Some(data)) else c;
      if !f.call.Done? then (c1, CallFailed)
      else
        (if f.write.TakesEffect() then c1.(row := Some(FreshRow(t, uid, data))) else c1,
         if !f.write.Done? then WriteFailed else if c.row.None? then Created else Updated)
  }

  function StaleCell(c: Cell, t: Target, hash: Digest, f: UidFates): (Cell, Verdict)
  {
    if !f.readable || !ActiveCell(c) then (c, PassedOver)
    else
      var c1 := if t.hard && f.call.TakesEffect() then c.(res := None) else c;
      (if f.write.TakesEffect() then c1.(row := Some(c.row.value.(hash := hash, deleted := true))) else c1,
       if f.write.Done? then Tombstoned else WriteFailed)
  }

  /** A step may differ from its start in one row and one resource only. */
  ghost predicate OnlyAt(w: World, w': World, t: Target, uid: string) {
    && w'.rows - {Key(uid, t.name)} == w.rows - {Key(uid, t.name)}
    && w'.remote - {HrefFor(t.base, uid)} == w.remote - {HrefFor(t.base, uid)}
  }

  lemma RowWriteIsLocal(w: World, t: Target, uid: string, row: Row)
    ensures var w' := w.(rows := w.rows[Key(uid, t.name) := row]);
            && OnlyAt(w, w', t, uid)
            && CellAt(w', t, uid) == CellAt(w, t, uid).(row := Some(row))
            && (ProperRows(w.rows, t) && ProperRow(t, uid, row) ==> ProperRows(w'.rows, t))
  {
  }

  lemma PutIsLocal(w: World, t: Target, uid: string, data: Content, fate: Fate)
    ensures var w' := w.(remote := Put(w.remote, HrefFor(t.base, uid), data, fate));
            && OnlyAt(w, w', t, uid)
            && CellAt(w', t, uid) == if fate.TakesEffect() then CellAt(w, t, uid).(res := Some(data)) else CellAt(w, t, uid)
  {
  }

  lemma DeleteIsLocal(w: World, t: Target, uid: string, fate: Fate)
    ensures var w' := w.(remote := Delete(w.remote, HrefFor(t.base, uid), fate));
            && OnlyAt(w, w', t, uid)
            && CellAt(w', t, uid) == if fate.TakesEffect() then CellAt(w, t, uid).(res := None) else CellAt(w, t, uid)
  {
  }

  lemma EventStepIsLocal(w: World, t: Target, uid: string, data: Content, listed: map<string, Digest>, f: UidFates)
    requires ProperRows(w.rows, t) && uid != "" && data.uid == uid
    ensures var (w', v) := EventStep(w, t, uid, data, listed, f);
            && (CellAt(w', t, uid), v) == EventCell(CellAt(w, t, uid), t, uid, data, Get(listed, uid), f)
            && OnlyAt(w, w', t, uid)
            && ProperRows(w'.rows, t)
  {
    var w1 := w.(remote := Put(w.remote, HrefFor(t.base, uid), data, f.call));
    PutIsLocal(w, t, uid, data, f.call);
    RowWriteIsLocal(w1, t, uid, FreshRow(t, uid, data));
  }

  lemma StaleStepIsLocal(w: World, t: Target, uid: string, hash: Digest, f: UidFates)
    requires ProperRows(w.rows, t) && Key(uid, t.name) in w.rows
    ensures var (w', v) := StaleStep(w, t, uid, hash, f);
            && (CellAt(w', t, uid), v) == StaleCell(CellAt(w, t, uid), t, hash, f)
            && OnlyAt(w, w', t, uid)
            && ProperRows(w'.rows, t)
  {
    var w1 := if t.hard then w.(remote := Delete(w.remote, HrefFor(t.base, uid), f.call)) else w;
    DeleteIsLocal(w, t, uid, f.call);
    RowWriteIsLocal(w1, t, uid, w.rows[Key(uid, t.name)].(hash := hash, deleted := true));
  }

  /** A step at one UID is not seen at another. */
  lemma OnlyAtKeepsOthers(w: World, w': World, t: Target, uid: string, other: string)
    requires OnlyAt(w, w', t, uid) && other != uid
    ensures CellAt(w', t, other) == CellAt(w, t, other)
  {
    HrefInjective(t.base, uid, t.base, other);
    KeptOutside(w.rows, w'.rows, Key(uid, t.name), Key(other, t.name));
    KeptOutside(w.remote, w'.remote, HrefFor(t.base, uid), HrefFor(t.base, other));
  }

  lemma KeptOutside<K, V>(m: map<K, V>, m': map<K, V>, k: K, other: K)
    requires m' - {k} == m - {k} && other != k
    ensures Get(m', other) == Get(m, other)
  {
    assert other in m' <==> other in m' - {k};
    assert other in m <==> other in m - {k};
  }
}
