/** The first synchronisation after a database was restored from a backup: what the table, the
    saved source states and the calendar must be like for it to bring the destination up to date. */
module Restore {
  import opened Text
  import opened Records
  import opened Remote
  import opened Reconcile
  import opened Pointwise
  import opened Convergence
  import opened Pipeline
  import opened Feed
  import opened SyncLoop
  import opened Connections

  // ---------------------------------------------------------------- rows of any collection

  /** Under the prefix the collection holds the events, nothing missing, outdated or left over. */
  ghost predicate Aligned(w: World, t: Target, events: map<string, Content>) {
    forall u :: Selected(u, t.prefix) ==> CellAt(w, t, u).res == Get(events, u)
  }

  /** A row as runs write it, for whatever collection URL the destination had at the time. */
  ghost predicate OwnRow(uid: string, row: Row) {
    uid != "" && row.destUid == uid && exists base :: row.href == HrefFor(base, uid)
  }

  ghost predicate OwnRows(rows: map<Key, Row>, name: string) {
    forall k <- rows :: k.dest == name ==> OwnRow(k.uid, rows[k])
  }

  /** The row points into the collection that the destination has now. */
  predicate AtHome(row: Row, t: Target, u: string) {
    row.href == HrefFor(t.base, u)
  }

  /** What a visit without failures makes of an event's row, and of its resource in the present collection. */
  function EventEnd(c: Cell, t: Target, u: string, data: Content, listed: Option<Digest>): Cell {
    if listed == Some(HashContent(data)) && !(c.row.Some? && c.row.value.deleted) then c
    else if c.row.None? then Cell(Some(FreshRow(t, u, data)), Some(data))
    else Cell(Some(c.row.value.(etag := "", hash := HashContent(data), deleted := false)),
              if AtHome(c.row.value, t, u) then Some(data) else c.res)
  }

  /** The same for a stale mapping. */
  function StaleEnd(c: Cell, t: Target, u: string, hash: Digest): Cell {
    if !ActiveCell(c) then c
    else Cell(Some(c.row.value.(hash := hash, deleted := true)), if t.hard && AtHome(c.row.value, t, u) then None else c.res)
  }

  /** From `w` to `w'` no row was lost, all are still the engine's own, and the cell of `u` became `c`. */
  ghost predicate Leaves(w: World, w': World, t: Target, u: string, c: Cell) {
    && OwnRows(w'.rows, t.name) && (forall k <- w.rows :: k in w'.rows)
    && CellAt(w', t, u) == c
  }

  lemma HomeOnly(row: Row, t: Target, x: string, u: string)
    requires OwnRow(x, row) && row.href == HrefFor(t.base, u)
    ensures x == u
  {
    var base :| row.href == HrefFor(base, x);
    HrefInjective(base, x, t.base, u);
  }

  lemma RowWriteLeaves(w: World, t: Target, x: string, row: Row, u: string)
    requires OwnRows(w.rows, t.name) && OwnRow(x, row)
    ensures Leaves(w, w.(rows := w.rows[Key(x, t.name) := row]), t, u,
                   if x == u then CellAt(w, t, u).(row := Some(row)) else CellAt(w, t, u))
  {
  }

  lemma PutLeaves(w: World, t: Target, href: string, data: Content, u: string)
    ensures CellAt(w.(remote := Put(w.remote, href, data, Done)), t, u) ==
            if href == HrefFor(t.base, u) then CellAt(w, t, u).(res := Some(data)) else CellAt(w, t, u)
    ensures CellAt(w.(remote := Delete(w.remote, href, Done)), t, u) ==
            if href == HrefFor(t.base, u) then CellAt(w, t, u).(res := None) else CellAt(w, t, u)
  {
  }

  lemma {:induction false} EventStepLeaves(w: World, t: Target, x: string, data: Content, listed: map<string, Digest>, u: string)
    requires OwnRows(w.rows, t.name) && x != "" && data.uid == x
    ensures var (w', v) := EventStep(w, t, x, data, listed, GOOD);
            && !v.Fatal()
            && Leaves(w, w', t, u, if x == u then EventEnd(CellAt(w, t, u), t, u, data, Get(listed, u)) else CellAt(w, t, u))
  {
    var c, home := CellAt(w, t, x), HrefFor(t.base, x);
    var href := if c.row.Some? then c.row.value.href else home;
    var row := if c.row.Some? then c.row.value.(etag := "", hash := HashContent(data), deleted := false) else FreshRow(t, x, data);
    assert OwnRow(x, row) by {
      if c.row.Some? {
        var base :| c.row.value.href == HrefFor(base, x);
        assert row.href == HrefFor(base, x);
      } else {
        assert row.href == HrefFor(t.base, x);
      }
    }
    if href == HrefFor(t.base, u) {
      HomeOnly(row, t, x, u);
    }
    PutLeaves(w, t, href, data, u);
    RowWriteLeaves(w.(remote := Put(w.remote, href, data, Done)), t, x, row, u);
  }

  lemma {:induction false} StaleStepLeaves(w: World, t: Target, x: string, hash: Digest, u: string)
    requires OwnRows(w.rows, t.name) && Key(x, t.name) in w.rows
    ensures var (w', v) := StaleStep(w, t, x, hash, GOOD);
            && !v.Fatal()
            && Leaves(w, w', t, u, if x == u then StaleEnd(CellAt(w, t, u), t, u, hash) else CellAt(w, t, u))
  {
    var was := w.rows[Key(x, t.name)];
    var row := was.(hash := hash, deleted := true);
    assert OwnRow(x, row) by {
      var base :| was.href == HrefFor(base, x);
      assert row.href == HrefFor(base, x);
    }
    if row.href == HrefFor(t.base, u) {
      HomeOnly(row, t, x, u);
    }
    var w1 := if t.hard then w.(remote := Delete(w.remote, was.href, Done)) else w;
    PutLeaves(w, t, was.href, Content("", ""), u);
    RowWriteLeaves(w1, t, x, row, u);
  }

  lemma LeavesTrans(w: World, w': World, w'': World, t: Target, u: string, c: Cell, c': Cell)
    requires Leaves(w, w', t, u, c) && Leaves(w', w'', t, u, c')
    ensures Leaves(w, w'', t, u, c')
  {
  }

  lemma {:induction false} EventLoopLeaves(w: World, p: Plan, order: seq<string>, listed: map<string, Digest>, u: string)
    requires OwnRows(w.rows, p.t.name) && ProperEvents(p.events) && AllGood(p.faults)
    requires NoDup(order) && forall x <- order :: x in p.events
    ensures var r := EventLoop(w, p, order, listed);
            && r.ok
            && Leaves(w, r.world, p.t, u,
                      if u in order then EventEnd(CellAt(w, p.t, u), p.t, u, p.events[u], Get(listed, u)) else CellAt(w, p.t, u))
    decreases |order|
  {
    if order != [] {
      var x, rest := order[0], order[1..];
      assert order == [x] + rest && (forall y <- rest :: y in p.events) && NoDup(rest) && x !in rest;
      assert p.faults.event(x) == GOOD;
      var (w', v) := EventStep(w, p.t, x, p.events[x], listed, p.faults.event(x));
      EventStepLeaves(w, p.t, x, p.events[x], listed, u);
      EventLoopLeaves(w', p, rest, listed, u);
      LeavesTrans(w, w', EventLoop(w', p, rest, listed).world, p.t, u, CellAt(w', p.t, u), CellAt(EventLoop(w', p, rest, listed).world, p.t, u));
    }
  }

  lemma {:induction false} StaleLoopLeaves(w: World, p: Plan, order: seq<string>, listed: map<string, Digest>, u: string)
    requires OwnRows(w.rows, p.t.name) && AllGood(p.faults)
    requires NoDup(order) && forall x <- order :: x in listed && Key(x, p.t.name) in w.rows
    ensures var r := StaleLoop(w, p, order, listed);
            && r.ok
            && Leaves(w, r.world, p.t, u,
                      if u in order && u !in p.events then StaleEnd(CellAt(w, p.t, u), p.t, u, listed[u]) else CellAt(w, p.t, u))
    decreases |order|
  {
    if order != [] {
      var x, rest := order[0], order[1..];
      assert order == [x] + rest && (forall y <- rest :: y in order) && NoDup(rest) && x !in rest;
      if x in p.events {
        StaleLoopLeaves(w, p, rest, listed, u);
      } else {
        assert p.faults.stale(x) == GOOD;
        var (w', v) := StaleStep(w, p.t, x, listed[x], p.faults.stale(x));
        StaleStepLeaves(w, p.t, x, listed[x], u);
        StaleLoopLeaves(w', p, rest, listed, u);
        LeavesTrans(w, w', StaleLoop(w', p, rest, listed).world, p.t, u, CellAt(w', p.t, u), CellAt(StaleLoop(w', p, rest, listed).world, p.t, u));
      }
    }
  }

  /** What an undisturbed run makes of the cell of a UID. */
  function RunEnd(c: Cell, p: Plan, u: string): Cell {
    var listed := if ActiveCell(c) && Selected(u, p.t.prefix) then Some(c.row.value.hash) else None;
    if u in p.events then EventEnd(c, p.t, u, p.events[u], listed)
    else if listed.Some? then StaleEnd(c, p.t, u, listed.value)
    else c
  }

  lemma {:induction false} RunLeaves(w: World, p: Plan, order: seq<string>, staleOrder: seq<string>, u: string)
    requires OwnRows(w.rows, p.t.name) && ProperEvents(p.events) && AllGood(p.faults) && Walks(w, p, order, staleOrder)
    ensures var r := SyncDestination(w, p, order, staleOrder);
            r.ok && CellAt(r.world, p.t, u) == RunEnd(CellAt(w, p.t, u), p, u)
  {
    var listed := ListedBy(w, p);
    var w1 := EventLoop(w, p, order, listed).world;
    EventLoopLeaves(w, p, order, listed, u);
    forall x <- staleOrder ensures Key(x, p.t.name) in w1.rows {
      ListedHasRow(w, p, x);
    }
    StaleLoopLeaves(w1, p, staleOrder, listed, u);
    ActiveIs(w, p.t, u);
    ListedIs(w, p, u);
  }

  // ---------------------------------------------------------------- one run

  /** The row keeps a run from repairing the resource: it vouches for an event that is not there, or points elsewhere; or there
      is no row to have a left-over deleted. */
  predicate Misleads(c: Cell, t: Target, events: map<string, Content>, u: string) {
    if u in events then
      c.res != Some(events[u]) && c.row.Some?
      && (!AtHome(c.row.value, t, u) || (!c.row.value.deleted && c.row.value.hash == HashContent(events[u])))
    else c.res.Some? && !(t.hard && ActiveCell(c) && AtHome(c.row.value, t, u))
  }

  lemma EndAligns(c: Cell, p: Plan, u: string)
    requires Selected(u, p.t.prefix)
    ensures RunEnd(c, p, u).res == Get(p.events, u) <==> !Misleads(c, p.t, p.events, u)
  {
  }

  ghost predicate NoneMisleads(w: World, t: Target, events: map<string, Content>) {
    forall u :: Selected(u, t.prefix) ==> !Misleads(CellAt(w, t, u), t, events, u)
  }

  /** Whatever table of its own a run starts with, and whatever the collection holds by then: an undisturbed run aligns the
      destination exactly if no row misleads it. */
  lemma RunAligns(w: World, p: Plan, order: seq<string>, staleOrder: seq<string>)
    requires OwnRows(w.rows, p.t.name) && ProperEvents(p.events) && AllGood(p.faults) && Walks(w, p, order, staleOrder)
    ensures Aligned(SyncDestination(w, p, order, staleOrder).world, p.t, p.events) <==> NoneMisleads(w, p.t, p.events)
  {
    forall u | Selected(u, p.t.prefix)
      ensures CellAt(SyncDestination(w, p, order, staleOrder).world, p.t, u).res == Get(p.events, u) <==>
              !Misleads(CellAt(w, p.t, u), p.t, p.events, u)
    {
      RunLeaves(w, p, order, staleOrder, u);
      EndAligns(CellAt(w, p.t, u), p, u);
    }
  }

  // ---------------------------------------------------------------- one turn

  /** A turn in which nothing fails. */
  ghost predicate NothingFails(c: Connection, r: Round) {
    c.known && r.stateReadable && r.probe.Some? && r.fetch.Some? && r.fetch.value.feed.Some? && AllGood(r.faults)
  }

  /** The turn finds the source changed, and no row misleads it; or it does nothing, and nothing is to be done. */
  ghost predicate WillAlign(s: System, c: Connection, r: Round, encode: Comp -> Option<string>)
    requires NothingFails(c, r)
  {
    var events := PlanFor(c, r, encode).events;
    if HasChanged(r.probe.value, LastState(s, c, r)) then NoneMisleads(s.w, c.t, events) else Aligned(s.w, c.t, events)
  }

  /** After a restore. The database comes back with its table and its source states, the calendars are as they are. An undisturbed turn
      aligns the destination with the fetched events exactly if it finds the source changed against the restored state and no
      row misleads it, or finds it unchanged and all is aligned already. */
  lemma TurnAligns(s: System, c: Connection, r: Round, encode: Comp -> Option<string>)
    requires NothingFails(c, r) && OwnRows(s.w.rows, c.t.name) && ValidRound(s, c, r, encode)
    ensures Aligned(SyncConnection(s, c, r, encode).s.w, c.t, PlanFor(c, r, encode).events) <==> WillAlign(s, c, r, encode)
  {
    if ReachesDestination(s, c, r) {
      ParsedIsProper(r.fetch.value.feed.value, c.trs, encode);
      RunAligns(s.w, PlanFor(c, r, encode), r.order, r.staleOrder);
    }
  }

  /** A restored state that the source still shows keeps the turn from doing anything, be the table and the calendar empty. */
  lemma RestoredStateBlocks(c: Connection, st: CalendarState, r: Round, encode: Comp -> Option<string>, u: string)
    requires NothingFails(c, r) && HasTokens(st) && r.probe == Some(st)
    requires u in PlanFor(c, r, encode).events && Selected(u, c.t.prefix)
    ensures var s := System(World(map[], map[]), map[c.url := st]);
            && NoneMisleads(s.w, c.t, PlanFor(c, r, encode).events)
            && ValidRound(s, c, r, encode) && SyncConnection(s, c, r, encode) == Visit(s, NotChanged, [])
            && !Aligned(s.w, c.t, PlanFor(c, r, encode).events)
  {
    var s := System(World(map[], map[]), map[c.url := st]);
    assert CellAt(s.w, c.t, u) == Cell(None, None);
  }

  // ---------------------------------------------------------------- a whole Sync

  lemma SameViewAligned(c: Connection, s1: System, s2: System, events: map<string, Content>)
    requires SameView(c, s1, s2)
    ensures Aligned(s1.w, c.t, events) <==> Aligned(s2.w, c.t, events)
  {
    forall u | Selected(u, c.t.prefix) ensures CellAt(s1.w, c.t, u).res == CellAt(s2.w, c.t, u).res {
      UidOfHrefInverts(c.t.base, u);
      assert Footprint(c)(HrefFor(c.t.base, u));
    }
  }

  /** The same for each of several independent connections in one `Sync`, whatever becomes of the others. */
  lemma SyncAligns(s: System, cs: seq<Connection>, os: seq<Outlook>, encode: Comp -> Option<string>, i: nat)
    requires |cs| == |os| && AllWalking(os) && AllProper(s, cs) && PairwiseIndependent(cs) && i < |cs|
    requires NothingFails(cs[i], RoundIn(s, cs[i], os[i], encode))
    ensures var rs, r := RoundsIn(s, cs, os, encode), RoundIn(s, cs[i], os[i], encode);
            && ValidRounds(s, cs, rs, encode)
            && (Aligned(SystemAfter(s, SyncAll(s, cs, rs, encode)).w, cs[i].t, PlanFor(cs[i], r, encode).events) <==>
                WillAlign(s, cs[i], r, encode))
  {
    var c, rs, r := cs[i], RoundsIn(s, cs, os, encode), RoundIn(s, cs[i], os[i], encode);
    Alone(s, cs, os, encode, i);
    ProperIsOwn(s.w, c.t);
    TurnAligns(s, c, r, encode);
    SameViewAligned(c, SyncConnection(s, c, r, encode).s, SystemAfter(s, SyncAll(s, cs, rs, encode)), PlanFor(c, r, encode).events);
  }

  lemma ProperIsOwn(w: World, t: Target)
    requires ProperRows(w.rows, t)
    ensures OwnRows(w.rows, t.name)
  {
    forall k <- w.rows | k.dest == t.name ensures OwnRow(k.uid, w.rows[k]) {
      assert w.rows[k].href == HrefFor(t.base, k.uid);
    }
  }
}
