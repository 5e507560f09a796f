/** Crash recovery: whatever goes wrong in a run, and however often, a later
    undisturbed run over the same events brings the destination to where an
    undisturbed run would have brought it in the first place. */
module Recovery {
  import opened Text
  import opened Records
  import opened Storage
  import opened Reconcile
  import opened Pointwise
  import opened Convergence

  ghost function Undisturbed(t: Target, events: map<string, Content>): Plan {
    Plan(t, events, Faults(Rows({}), _ => GOOD, _ => GOOD))
  }

  /** What an undisturbed run makes of a cell. */
  function CleanCell(c: Cell, t: Target, events: map<string, Content>, u: string): Cell {
    var live := ActiveCell(c) && Selected(u, t.prefix);
    if u in events then
      if live && c.row.value.hash == HashContent(events[u]) then c
      else Cell(Some(FreshRow(t, u, events[u])), Some(events[u]))
    else if live then Cell(Some(c.row.value.(deleted := true)), if t.hard then None else c.res)
    else c
  }

  lemma CleanListed(w: World, t: Target, events: map<string, Content>, u: string)
    ensures var c := CellAt(w, t, u);
            Get(ListedBy(w, Undisturbed(t, events)), u) ==
            if ActiveCell(c) && Selected(u, t.prefix) then Some(c.row.value.hash) else None
  {
    ActiveIs(w, t, u);
    ListedIs(w, Undisturbed(t, events), u);
  }

  lemma CleanExpected(w: World, t: Target, events: map<string, Content>, u: string)
    ensures Expected(w, Undisturbed(t, events), u).0 == CleanCell(CellAt(w, t, u), t, events, u)
    ensures !Expected(w, Undisturbed(t, events), u).1.Fatal()
  {
    CleanListed(w, t, events, u);
  }

  /** An undisturbed run always succeeds. */
  lemma UndisturbedSettles(w: World, t: Target, events: map<string, Content>, order: seq<string>, staleOrder: seq<string>)
    requires ProperRows(w.rows, t) && ProperEvents(events) && Walks(w, Undisturbed(t, events), order, staleOrder)
    ensures var r := SyncDestination(w, Undisturbed(t, events), order, staleOrder);
            r.ok && Settles(w, Undisturbed(t, events), r.world)
            && forall u :: CellAt(r.world, t, u) == CleanCell(CellAt(w, t, u), t, events, u)
  {
    forall u ensures Expected(w, Undisturbed(t, events), u).0 == CleanCell(CellAt(w, t, u), t, events, u)
             ensures !Expected(w, Undisturbed(t, events), u).1.Fatal() {
      CleanExpected(w, t, events, u);
    }
    SuccessIs(w, Undisturbed(t, events), order, staleOrder);
    RunSettles(w, Undisturbed(t, events), order, staleOrder);
  }

  /** Every active row's resource exists and has the content the row says. */
  predicate CellAgrees(c: Cell) {
    ActiveCell(c) ==> c.res.Some? && c.row.value.hash == HashContent(c.res.value)
  }

  ghost predicate Agrees(w: World, t: Target) {
    forall u :: CellAgrees(CellAt(w, t, u))
  }

  // ---------------------------------------------------------------- one cell

  /** The event's row was not listed, so an event that an undisturbed run would leave alone is written again. */
  predicate Rewrites(c: Cell, t: Target, u: string, data: Content, listed: Option<Digest>, f: UidFates) {
    && listed.None? && ActiveCell(c) && Selected(u, t.prefix) && c.row.value.hash == HashContent(data)
    && f.readable && f.call.TakesEffect()
  }

  lemma EventRecovers(c: Cell, t: Target, events: map<string, Content>, u: string, listed: Option<Digest>, f: UidFates)
    requires u in events && (c.row.Some? ==> ProperRow(t, u, c.row.value))
    requires listed.Some? ==> ActiveCell(c) && listed.value == c.row.value.hash
    ensures var c' := CleanCell(EventCell(c, t, u, events[u], listed, f).0, t, events, u);
            c' == if Rewrites(c, t, u, events[u], listed, f) then CleanCell(c, t, events, u).(res := Some(events[u]))
                  else CleanCell(c, t, events, u)
  {
  }

  /** The stale loop marks a row deleted although its resource is still there, and never comes back to it. */
  predicate GivesUp(t: Target, f: UidFates) {
    t.hard && f.readable && !f.call.TakesEffect() && f.write.TakesEffect()
  }

  lemma StaleRecovers(c: Cell, t: Target, events: map<string, Content>, u: string, f: UidFates)
    requires u !in events && ActiveCell(c) && Selected(u, t.prefix)
    ensures var c' := CleanCell(StaleCell(c, t, c.row.value.hash, f).0, t, events, u);
            c' == if GivesUp(t, f) then CleanCell(c, t, events, u).(res := c.res) else CleanCell(c, t, events, u)
  {
  }

  // ---------------------------------------------------------------- one run

  /** The UIDs a run gave up on: their remote copies are orphaned behind tombstones. */
  ghost function Abandoned(p: Plan, r: Run): set<string> {
    set u <- Uids(r.trace) | u !in p.events && GivesUp(p.t, p.faults.stale(u))
  }

  /** The UIDs whose remote copies a run wrote although their rows already described the event. */
  ghost function Rewritten(w: World, p: Plan, r: Run): set<string> {
    set u <- Uids(r.trace) | u in p.events && Rewrites(CellAt(w, p.t, u), p.t, u, p.events[u], Get(ListedBy(w, p), u), p.faults.event(u))
  }

  lemma CellRecovers(w: World, p: Plan, u: string)
    requires ProperRows(w.rows, p.t) && p.faults.listing.Rows? && u in Due(w, p)
    ensures var c' := CleanCell(Expected(w, p, u).0, p.t, p.events, u);
            var c := CleanCell(CellAt(w, p.t, u), p.t, p.events, u);
            c' == if u !in p.events then if GivesUp(p.t, p.faults.stale(u)) then c.(res := CellAt(w, p.t, u).res) else c
                  else if Rewrites(CellAt(w, p.t, u), p.t, u, p.events[u], Get(ListedBy(w, p), u), p.faults.event(u))
                  then c.(res := Some(p.events[u]))
                  else c
  {
    var c := CellAt(w, p.t, u);
    ActiveIs(w, p.t, u);
    ListedIs(w, p, u);
    if u in p.events {
      EventRecovers(c, p.t, p.events, u, Get(ListedBy(w, p), u), p.faults.event(u));
    } else {
      StaleRecovers(c, p.t, p.events, u, p.faults.stale(u));
    }
  }

  /** Where recovery ends, UID by UID, compared with never having been disturbed. */
  lemma RunRecovers(w: World, p: Plan, order: seq<string>, staleOrder: seq<string>, u: string)
    requires ProperRows(w.rows, p.t) && ProperEvents(p.events) && Walks(w, p, order, staleOrder)
    ensures var r := SyncDestination(w, p, order, staleOrder);
            var c' := CleanCell(CellAt(r.world, p.t, u), p.t, p.events, u);
            var c := CleanCell(CellAt(w, p.t, u), p.t, p.events, u);
            c' == if u in Abandoned(p, r) then c.(res := CellAt(w, p.t, u).res)
                  else if u in Rewritten(w, p, r) then c.(res := Some(p.events[u]))
                  else c
  {
    if p.faults.listing.Rows? {
      RunFollows(w, p, order, staleOrder);
      var r := SyncDestination(w, p, order, staleOrder);
      assert RunRule(w, p)(u) == Expected(w, p, u);
      if u in Uids(r.trace) {
        CellRecovers(w, p, u);
      }
    }
  }

  lemma RunKeepsOutside(w: World, p: Plan, order: seq<string>, staleOrder: seq<string>)
    requires ProperRows(w.rows, p.t) && ProperEvents(p.events) && Walks(w, p, order, staleOrder)
    ensures var r := SyncDestination(w, p, order, staleOrder);
            ProperRows(r.world.rows, p.t) && Outside(w, r.world, p.t)
  {
    if p.faults.listing.Rows? {
      RunFollows(w, p, order, staleOrder);
    }
  }

  lemma OutsideTrans(a: World, b: World, c: World, t: Target)
    requires Outside(a, b, t) && Outside(b, c, t)
    ensures Outside(a, c, t)
  {
    forall k: Key | k.dest != t.name ensures Get(c.rows, k) == Get(a.rows, k) {
      assert Get(b.rows, k) == Get(a.rows, k);
    }
    forall h: string | h != HrefFor(t.base, UidOfHref(t.base, h)) ensures Get(c.remote, h) == Get(a.remote, h) {
      assert Get(b.remote, h) == Get(a.remote, h);
    }
  }

  lemma SameRows(w: World, w1: World, w2: World, t: Target)
    requires Outside(w, w1, t) && Outside(w, w2, t)
    requires forall u :: CellAt(w1, t, u).row == CellAt(w2, t, u).row
    ensures w1.rows == w2.rows
  {
    forall k: Key ensures Get(w1.rows, k) == Get(w2.rows, k) {
      if k.dest == t.name {
        assert CellAt(w1, t, k.uid).row == CellAt(w2, t, k.uid).row;
        assert k == Key(k.uid, t.name);
      }
    }
    SameMap(w1.rows, w2.rows);
  }

  /** Two ends of which only the resources in `apart` differ. */
  lemma CompareEnds(w: World, rec: World, dir: World, t: Target, apart: set<string>)
    requires Outside(w, rec, t) && Outside(w, dir, t)
    requires forall u :: CellAt(rec, t, u).row == CellAt(dir, t, u).row
    requires forall u :: u in apart <==> CellAt(rec, t, u) != CellAt(dir, t, u)
    ensures rec.rows == dir.rows && (rec == dir <==> apart == {})
  {
    SameRows(w, rec, dir, t);
    if apart == {} {
      SameWorld(w, rec, dir, t);
    }
  }

  lemma AbandonedIsGone(w: World, p: Plan, order: seq<string>, staleOrder: seq<string>, u: string)
    requires ProperRows(w.rows, p.t) && ProperEvents(p.events) && Walks(w, p, order, staleOrder)
    requires u in Abandoned(p, SyncDestination(w, p, order, staleOrder))
    ensures CleanCell(CellAt(w, p.t, u), p.t, p.events, u).res.None?
  {
    if p.faults.listing.Rows? {
      RunFollows(w, p, order, staleOrder);
      ListedHasRow(w, p, u);
    }
  }

  /** The UIDs at which a disturbed run makes a lasting difference: resources that exist and were given up, and resources that
      were not what their rows said and got written again. */
  ghost function Strays(w: World, p: Plan, r: Run): set<string> {
    (set u <- Abandoned(p, r) | HrefFor(p.t.base, u) in w.remote)
    + (set u <- Rewritten(w, p, r) | Get(w.remote, HrefFor(p.t.base, u)) != Some(p.events[u]))
  }

  /** Where an undisturbed run would bring two cells: to one end, or at a stray one to ends of which only the second holds the event,
      or, without event, only the second still holds a resource. */
  ghost predicate EndsAlike(c: Cell, c': Cell, t: Target, events: map<string, Content>, u: string, stray: bool) {
    var e, e' := CleanCell(c, t, events, u), CleanCell(c', t, events, u);
    if !stray then e' == e
    else e'.row == e.row && if u in events then e'.res == Some(events[u]) != e.res else e'.res.Some? && e.res.None?
  }

  lemma RunEndsAlike(w: World, p: Plan, order: seq<string>, staleOrder: seq<string>, u: string)
    requires ProperRows(w.rows, p.t) && ProperEvents(p.events) && Walks(w, p, order, staleOrder)
    ensures var r := SyncDestination(w, p, order, staleOrder);
            EndsAlike(CellAt(w, p.t, u), CellAt(r.world, p.t, u), p.t, p.events, u, u in Strays(w, p, r))
  {
    RunRecovers(w, p, order, staleOrder, u);
    if u in Abandoned(p, SyncDestination(w, p, order, staleOrder)) {
      AbandonedIsGone(w, p, order, staleOrder, u);
    }
  }

  /** Crash recovery. A run cut short or disturbed in any way, then an undisturbed one over the same events,
      leaves the same rows as an undisturbed run alone, for all walks; and the same remote calendar exactly if no resource that
      exists was given up, that is, marked deleted by a hard delete without effect, and none that differs from
      what its row says was written again because the listing had lost the row. */
  lemma Recovers(w: World, p: Plan, o: seq<string>, s: seq<string>, o1: seq<string>, s1: seq<string>, o2: seq<string>, s2: seq<string>)
    requires ProperRows(w.rows, p.t) && ProperEvents(p.events) && Walks(w, p, o, s)
    requires var w1 := SyncDestination(w, p, o, s).world; Walks(w1, Undisturbed(p.t, p.events), o1, s1)
    requires Walks(w, Undisturbed(p.t, p.events), o2, s2)
    ensures var r := SyncDestination(w, p, o, s);
            var recovered := SyncDestination(r.world, Undisturbed(p.t, p.events), o1, s1);
            var direct := SyncDestination(w, Undisturbed(p.t, p.events), o2, s2);
            && recovered.ok && direct.ok
            && recovered.world.rows == direct.world.rows
            && (recovered.world == direct.world <==> Strays(w, p, r) == {})
  {
    var clean := Undisturbed(p.t, p.events);
    var r := SyncDestination(w, p, o, s);
    RunKeepsOutside(w, p, o, s);
    UndisturbedSettles(r.world, p.t, p.events, o1, s1);
    UndisturbedSettles(w, p.t, p.events, o2, s2);
    var rec, dir := SyncDestination(r.world, clean, o1, s1).world, SyncDestination(w, clean, o2, s2).world;
    OutsideTrans(w, r.world, rec, p.t);
    forall u
      ensures CellAt(rec, p.t, u).row == CellAt(dir, p.t, u).row
      ensures u in Strays(w, p, r) <==> CellAt(rec, p.t, u) != CellAt(dir, p.t, u)
    {
      RunEndsAlike(w, p, o, s, u);
    }
    CompareEnds(w, rec, dir, p.t, Strays(w, p, r));
  }

  /** Nothing strays when deletes are soft and the listing delivered the rows of the events, or active rows describe their resources. */
  lemma SoftNeverStrays(w: World, p: Plan, r: Run)
    requires !p.t.hard && ((p.faults.listing.Rows? && p.faults.listing.lost !! p.events.Keys) || Agrees(w, p.t))
    ensures Strays(w, p, r) == {}
  {
    forall u ensures u !in Strays(w, p, r) {
      if u in Rewritten(w, p, r) {
        ActiveIs(w, p.t, u);
        if p.faults.listing.Rows? {
          ListedIs(w, p, u);
        }
        assert Agrees(w, p.t) ==> CellAgrees(CellAt(w, p.t, u));
      }
    }
  }

  // ---------------------------------------------------------------- a second run

  lemma {:induction false} WriteAgain(c: Cell, t: Target, u: string, data: Content, listed: Option<Digest>, f: UidFates)
    requires ActiveCell(c) && c.row.value.hash == HashContent(data) && ProperRow(t, u, c.row.value)
    requires Selected(u, t.prefix) || c.res == Some(data)
    requires listed.Some? ==> listed.value == c.row.value.hash
    ensures EventCell(c, t, u, data, listed, f).0 == if Rewrites(c, t, u, data, listed, f) then c.(res := Some(data)) else c
  {
  }

  lemma UnlistedIsWritten(c: Cell, t: Target, u: string, data: Content, f: UidFates)
    requires !EventCell(c, t, u, data, None, f).1.Fatal()
    ensures EventCell(c, t, u, data, None, f).0.res == Some(data)
  {
  }

  lemma {:induction false} UnselectedIsWritten(w: World, p1: Plan, w1: World, u: string)
    requires Settles(w, p1, w1) && u in p1.events && !Selected(u, p1.t.prefix)
    ensures CellAt(w1, p1.t, u).res == Some(p1.events[u])
  {
    assert Get(ListedBy(w, p1), u) == None by {
      ActiveIs(w, p1.t, u);
      ListedIs(w, p1, u);
    }
    assert CellAt(w1, p1.t, u) == Expected(w, p1, u).0 && !Expected(w, p1, u).1.Fatal();
    UnlistedIsWritten(CellAt(w, p1.t, u), p1.t, u, p1.events[u], p1.faults.event(u));
  }

  lemma {:induction false} SecondVisit(w: World, p1: Plan, w1: World, p2: Plan, u: string)
    requires Settles(w, p1, w1) && ProperRows(w1.rows, p1.t) && u in p1.events
    requires p2.t.(hard := p1.t.hard) == p1.t && p2.events == p1.events && p2.faults.listing.Rows?
    ensures var c := CellAt(w1, p2.t, u);
            Expected(w1, p2, u).0 ==
            if Rewrites(c, p2.t, u, p2.events[u], Get(ListedBy(w1, p2), u), p2.faults.event(u)) then c.(res := Some(p2.events[u])) else c
  {
    var c := CellAt(w1, p2.t, u);
    assert ActiveCell(c) && c.row.value.hash == HashContent(p2.events[u]) by {
      EventSettled(w, p1, u);
    }
    assert ProperRow(p2.t, u, c.row.value);
    if !Selected(u, p2.t.prefix) {
      UnselectedIsWritten(w, p1, w1, u);
    }
    if u in ListedBy(w1, p2) {
      ListedHasRow(w1, p2, u);
    }
    WriteAgain(c, p2.t, u, p2.events[u], Get(ListedBy(w1, p2), u), p2.faults.event(u));
  }

  lemma NothingStale(w: World, p1: Plan, w1: World, p2: Plan, u: string)
    requires Settles(w, p1, w1) && Missed(w, p1) == {}
    requires p2.t.(hard := p1.t.hard) == p1.t && p2.events == p1.events && p2.faults.listing.Rows?
    ensures u in Due(w1, p2) <==> u in p1.events
  {
    if u !in p1.events {
      ActiveIs(w1, p2.t, u);
      ListedIs(w1, p2, u);
      if Selected(u, p1.t.prefix) {
        StaleSettled(w, p1, u);
      }
    }
  }

  /** Among events, what strays. */
  lemma {:induction false} StrayEvent(w: World, p: Plan, r: Run, u: string)
    requires u in p.events
    ensures u in Strays(w, p, r) <==>
            && u in Uids(r.trace) && CellAt(w, p.t, u).res != Some(p.events[u])
            && Rewrites(CellAt(w, p.t, u), p.t, u, p.events[u], Get(ListedBy(w, p), u), p.faults.event(u))
  {
  }

  /** What the second run does to a UID it reaches, told by the event alone. */
  ghost predicate SecondLeaves(c: Cell, c': Cell, p: Plan, u: string, visited: bool, rewrites: bool) {
    c' == if u in p.events && visited && rewrites then c.(res := Some(p.events[u])) else c
  }

  lemma {:induction false} SecondCell(w: World, p1: Plan, w1: World, p2: Plan, w2: World, visited: set<string>, u: string)
    requires Settles(w, p1, w1) && ProperRows(w1.rows, p1.t) && Missed(w, p1) == {}
    requires p2.t.(hard := p1.t.hard) == p1.t && p2.events == p1.events && p2.faults.listing.Rows?
    requires visited <= Due(w1, p2)
    requires CellAt(w2, p2.t, u) == if u in visited then Expected(w1, p2, u).0 else CellAt(w1, p2.t, u)
    ensures SecondLeaves(CellAt(w1, p2.t, u), CellAt(w2, p2.t, u), p2, u, u in visited,
                         u in p2.events && Rewrites(CellAt(w1, p2.t, u), p2.t, u, p2.events[u], Get(ListedBy(w1, p2), u), p2.faults.event(u)))
  {
    NothingStale(w, p1, w1, p2, u);
    if u in p1.events {
      SecondVisit(w, p1, w1, p2, u);
    }
  }

  lemma {:induction false} SecondStrays(w1: World, p2: Plan, r2: Run, u: string)
    requires u !in p2.events ==> u !in Uids(r2.trace)
    requires SecondLeaves(CellAt(w1, p2.t, u), CellAt(r2.world, p2.t, u), p2, u, u in Uids(r2.trace),
                          u in p2.events && Rewrites(CellAt(w1, p2.t, u), p2.t, u, p2.events[u], Get(ListedBy(w1, p2), u), p2.faults.event(u)))
    ensures CellAt(r2.world, p2.t, u) == CellAt(w1, p2.t, u) <==> u !in Strays(w1, p2, r2)
  {
    if u in p2.events {
      StrayEvent(w1, p2, r2, u);
    }
  }

  lemma {:induction false} ApartIs(w: World, w': World, t: Target, apart: set<string>)
    requires Outside(w, w', t) && Outside(w, w, t) && forall u :: CellAt(w', t, u) == CellAt(w, t, u) <==> u !in apart
    ensures w' == w <==> apart == {}
  {
    if apart == {} {
      SameWorld(w, w', w, t);
    }
  }

  lemma {:induction false} SecondAt(w: World, p1: Plan, w1: World, p2: Plan, r2: Run, u: string)
    requires Settles(w, p1, w1) && ProperRows(w1.rows, p1.t) && Missed(w, p1) == {}
    requires p2.t.(hard := p1.t.hard) == p1.t && p2.events == p1.events && p2.faults.listing.Rows?
    requires Uids(r2.trace) <= Due(w1, p2)
    requires CellAt(r2.world, p2.t, u) == if u in Uids(r2.trace) then Expected(w1, p2, u).0 else CellAt(w1, p2.t, u)
    ensures CellAt(r2.world, p2.t, u) == CellAt(w1, p2.t, u) <==> u !in Strays(w1, p2, r2)
  {
    NothingStale(w, p1, w1, p2, u);
    SecondCell(w, p1, w1, p2, r2.world, Uids(r2.trace), u);
    SecondStrays(w1, p2, r2, u);
  }

  lemma {:induction false} SecondEnd(w: World, p1: Plan, w1: World, p2: Plan, r2: Run)
    requires Settles(w, p1, w1) && ProperRows(w1.rows, p1.t) && Missed(w, p1) == {}
    requires p2.t.(hard := p1.t.hard) == p1.t && p2.events == p1.events && p2.faults.listing.Rows?
    requires Uids(r2.trace) <= Due(w1, p2) && CellsFollow(w1, r2.world, p2.t, Uids(r2.trace), RunRule(w1, p2))
    ensures r2.world == w1 <==> Strays(w1, p2, r2) == {}
  {
    forall u ensures CellAt(r2.world, p2.t, u) == CellAt(w1, p2.t, u) <==> u !in Strays(w1, p2, r2) {
      assert RunRule(w1, p2)(u) == Expected(w1, p2, u);
      SecondAt(w, p1, w1, p2, r2, u);
    }
    ApartIs(w1, r2.world, p2.t, Strays(w1, p2, r2));
  }

  lemma {:induction false} SecondFrom(w: World, p1: Plan, w1: World, p2: Plan, o2: seq<string>, s2: seq<string>)
    requires Settles(w, p1, w1) && ProperRows(w1.rows, p1.t) && Missed(w, p1) == {} && ProperEvents(p1.events)
    requires p2.t.(hard := p1.t.hard) == p1.t && p2.events == p1.events && Walks(w1, p2, o2, s2)
    ensures var r2 := SyncDestination(w1, p2, o2, s2); r2.world == w1 <==> Strays(w1, p2, r2) == {}
  {
    if p2.faults.listing.Rows? {
      RunFollows(w1, p2, o2, s2);
      SecondEnd(w, p1, w1, p2, SyncDestination(w1, p2, o2, s2));
    }
  }

  /** A second run over the same events, whatever fails in it and whatever its listing loses: it leaves store and calendar as they
      were exactly if it has no stray, that is, if it writes no resource again that is not what its row says. */
  lemma {:induction false} SecondRun(w: World, p1: Plan, o1: seq<string>, s1: seq<string>, p2: Plan, o2: seq<string>, s2: seq<string>)
    requires ProperRows(w.rows, p1.t) && ProperEvents(p1.events) && Walks(w, p1, o1, s1)
    requires SyncDestination(w, p1, o1, s1).ok && Missed(w, p1) == {}
    requires p2.t.(hard := p1.t.hard) == p1.t && p2.events == p1.events
    requires Walks(SyncDestination(w, p1, o1, s1).world, p2, o2, s2)
    ensures var w1 := SyncDestination(w, p1, o1, s1).world;
            var r2 := SyncDestination(w1, p2, o2, s2);
            r2.world == w1 <==> Strays(w1, p2, r2) == {}
  {
    RunSettles(w, p1, o1, s1);
    RunKeepsOutside(w, p1, o1, s1);
    SecondFrom(w, p1, SyncDestination(w, p1, o1, s1).world, p2, o2, s2);
  }

  // ---------------------------------------------------------------- any number of runs

  /** One disturbed run: its fates and its walks. */
  datatype Attempt = Attempt(faults: Faults, order: seq<string>, staleOrder: seq<string>)

  ghost predicate ValidAttempts(w: World, t: Target, events: map<string, Content>, attempts: seq<Attempt>)
    decreases |attempts|
  {
    attempts == [] ||
    var a := attempts[0];
    var p := Plan(t, events, a.faults);
    && Walks(w, p, a.order, a.staleOrder)
    && ValidAttempts(SyncDestination(w, p, a.order, a.staleOrder).world, t, events, attempts[1..])
  }

  ghost function AfterAttempts(w: World, t: Target, events: map<string, Content>, attempts: seq<Attempt>): World
    requires ValidAttempts(w, t, events, attempts)
    decreases |attempts|
  {
    if attempts == [] then w
    else
      var a := attempts[0];
      AfterAttempts(SyncDestination(w, Plan(t, events, a.faults), a.order, a.staleOrder).world, t, events, attempts[1..])
  }

  /** The strays of all the runs. */
  ghost function AllStrays(w: World, t: Target, events: map<string, Content>, attempts: seq<Attempt>): set<string>
    requires ValidAttempts(w, t, events, attempts)
    decreases |attempts|
  {
    if attempts == [] then {}
    else
      var a := attempts[0];
      var p := Plan(t, events, a.faults);
      var r := SyncDestination(w, p, a.order, a.staleOrder);
      Strays(w, p, r) + AllStrays(r.world, t, events, attempts[1..])
  }

  lemma {:induction false} AttemptsRecover(w: World, t: Target, events: map<string, Content>, attempts: seq<Attempt>, u: string)
    requires ProperRows(w.rows, t) && ProperEvents(events) && ValidAttempts(w, t, events, attempts)
    ensures var w' := AfterAttempts(w, t, events, attempts);
            && ProperRows(w'.rows, t) && Outside(w, w', t)
            && EndsAlike(CellAt(w, t, u), CellAt(w', t, u), t, events, u, u in AllStrays(w, t, events, attempts))
    decreases |attempts|
  {
    if attempts != [] {
      var a := attempts[0];
      var p := Plan(t, events, a.faults);
      var r := SyncDestination(w, p, a.order, a.staleOrder);
      RunKeepsOutside(w, p, a.order, a.staleOrder);
      RunEndsAlike(w, p, a.order, a.staleOrder, u);
      AttemptsRecover(r.world, t, events, attempts[1..], u);
      OutsideTrans(w, r.world, AfterAttempts(w, t, events, attempts), t);
    }
  }

  /** Any number of disturbed runs is forgotten by one undisturbed run: the rows are those of an undisturbed
      run alone, and so is the remote calendar exactly if none of the runs has a stray. */
  lemma AnyHistoryRecovers(w: World, t: Target, events: map<string, Content>, attempts: seq<Attempt>,
                           o1: seq<string>, s1: seq<string>, o2: seq<string>, s2: seq<string>)
    requires ProperRows(w.rows, t) && ProperEvents(events) && ValidAttempts(w, t, events, attempts)
    requires Walks(AfterAttempts(w, t, events, attempts), Undisturbed(t, events), o1, s1)
    requires Walks(w, Undisturbed(t, events), o2, s2)
    ensures var w' := AfterAttempts(w, t, events, attempts);
            ProperRows(w'.rows, t) &&
            var recovered := SyncDestination(w', Undisturbed(t, events), o1, s1).world;
            var direct := SyncDestination(w, Undisturbed(t, events), o2, s2).world;
            recovered.rows == direct.rows && (recovered == direct <==> AllStrays(w, t, events, attempts) == {})
  {
    var w' := AfterAttempts(w, t, events, attempts);
    AttemptsRecover(w, t, events, attempts, "");
    UndisturbedSettles(w', t, events, o1, s1);
    UndisturbedSettles(w, t, events, o2, s2);
    var rec := SyncDestination(w', Undisturbed(t, events), o1, s1).world;
    var dir := SyncDestination(w, Undisturbed(t, events), o2, s2).world;
    OutsideTrans(w, w', rec, t);
    forall u
      ensures CellAt(rec, t, u).row == CellAt(dir, t, u).row
      ensures u in AllStrays(w, t, events, attempts) <==> CellAt(rec, t, u) != CellAt(dir, t, u)
    {
      AttemptsRecover(w, t, events, attempts, u);
    }
    CompareEnds(w, rec, dir, t, AllStrays(w, t, events, attempts));
  }
}
