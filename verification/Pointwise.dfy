/** A run, UID by UID. Whatever the two walks are and wherever the run stops,
    every UID it reached ends in a cell that depends on that UID's own cell,
    event, listing and fates only, and every other UID keeps its cell. */
module Pointwise {
  import opened Text
  import opened Records
  import opened Storage
  import opened Reconcile

  /** What the event loop makes of a UID, judged from the world it started in. */
  ghost function EventAt(w: World, p: Plan, listed: map<string, Digest>, u: string): (Cell, Verdict) {
    var c := CellAt(w, p.t, u);
    if u in p.events then EventCell(c, p.t, u, p.events[u], Get(listed, u), p.faults.event(u)) else (c, Unchanged)
  }

  /** What the stale loop makes of a UID, judged from the world it started in. */
  ghost function StaleAt(w: World, p: Plan, listed: map<string, Digest>, u: string): (Cell, Verdict) {
    var c := CellAt(w, p.t, u);
    if u in listed then StaleCell(c, p.t, listed[u], p.faults.stale(u)) else (c, Unchanged)
  }

  /** What a whole run makes of a UID. */
  ghost function Expected(w: World, p: Plan, u: string): (Cell, Verdict) {
    if u in p.events then EventAt(w, p, ListedBy(w, p), u) else StaleAt(w, p, ListedBy(w, p), u)
  }

  ghost function EventRule(w: World, p: Plan, listed: map<string, Digest>): string -> (Cell, Verdict) {
    u => EventAt(w, p, listed, u)
  }

  ghost function StaleRule(w: World, p: Plan, listed: map<string, Digest>): string -> (Cell, Verdict) {
    u => StaleAt(w, p, listed, u)
  }

  ghost function RunRule(w: World, p: Plan): string -> (Cell, Verdict) {
    u => Expected(w, p, u)
  }

  /** Rows of other destinations and resources of other collections are untouched. */
  ghost predicate Outside(w: World, w': World, t: Target) {
    && (forall k: Key :: k.dest != t.name ==> Get(w'.rows, k) == Get(w.rows, k))
    && (forall h: string :: h != HrefFor(t.base, UidOfHref(t.base, h)) ==> Get(w'.remote, h) == Get(w.remote, h))
  }

  ghost predicate OnePerUid(trace: seq<Entry>) {
    forall i, j :: 0 <= i < j < |trace| ==> trace[i].uid != trace[j].uid
  }

  /** Only the last entry of a trace can be the one that stopped the run. */
  ghost predicate StopsAtFatal(trace: seq<Entry>) {
    forall i :: 0 <= i < |trace| - 1 ==> !trace[i].verdict.Fatal()
  }

  /** From `w` to `w'`, the cells of the visited UIDs became what `g` says and no other changed. */
  ghost predicate CellsFollow(w: World, w': World, t: Target, visited: set<string>, g: string -> (Cell, Verdict)) {
    && ProperRows(w'.rows, t)
    && Outside(w, w', t)
    && forall u :: CellAt(w', t, u) == if u in visited then g(u).0 else CellAt(w, t, u)
  }

  /** The trace of a run over `due` has the verdicts `g` says, and stops where and only where `g` is fatal. */
  ghost predicate TraceFollows(trace: seq<Entry>, ok: bool, due: set<string>, g: string -> (Cell, Verdict)) {
    && Uids(trace) <= due
    && (forall e <- trace :: e.verdict == g(e.uid).1)
    && OnePerUid(trace) && StopsAtFatal(trace)
    && (ok ==> Uids(trace) == due)
    && (!ok ==> trace != [] && trace[|trace| - 1].verdict.Fatal())
    && (ok ==> trace == [] || !trace[|trace| - 1].verdict.Fatal())
  }

  /** The run `r` from `w` visits UIDs of `due` and does to each what `g` says. */
  ghost predicate Follows(w: World, r: Run, t: Target, due: set<string>, g: string -> (Cell, Verdict)) {
    && CellsFollow(w, r.world, t, Uids(r.trace), g)
    && TraceFollows(r.trace, r.ok, due, g)
  }

  lemma OutsideStep(w: World, w': World, t: Target, u: string)
    requires OnlyAt(w, w', t, u)
    ensures Outside(w, w', t)
  {
    forall k: Key | k.dest != t.name
      ensures Get(w'.rows, k) == Get(w.rows, k)
    {
      assert k in w'.rows <==> k in w'.rows - {Key(u, t.name)};
      assert k in w.rows <==> k in w.rows - {Key(u, t.name)};
    }
    forall h: string | h != HrefFor(t.base, UidOfHref(t.base, h))
      ensures Get(w'.remote, h) == Get(w.remote, h)
    {
      UidOfHrefInverts(t.base, u);
      assert h in w'.remote <==> h in w'.remote - {HrefFor(t.base, u)};
      assert h in w.remote <==> h in w.remote - {HrefFor(t.base, u)};
    }
  }

  lemma CellsStep(w: World, w': World, t: Target, u: string, g: string -> (Cell, Verdict))
    requires OnlyAt(w, w', t, u) && ProperRows(w'.rows, t)
    requires CellAt(w', t, u) == g(u).0
    ensures CellsFollow(w, w', t, {u}, g)
  {
    OutsideStep(w, w', t, u);
    forall x | x != u ensures CellAt(w', t, x) == CellAt(w, t, x) {
      OnlyAtKeepsOthers(w, w', t, u, x);
    }
  }

  lemma CellsCompose(w: World, w': World, w'': World, t: Target, v1: set<string>, v2: set<string>, g: string -> (Cell, Verdict))
    requires CellsFollow(w, w', t, v1, g) && CellsFollow(w', w'', t, v2, g) && v1 !! v2
    ensures CellsFollow(w, w'', t, v1 + v2, g)
  {
    forall u ensures CellAt(w'', t, u) == if u in v1 + v2 then g(u).0 else CellAt(w, t, u) {
      assert CellAt(w', t, u) == if u in v1 then g(u).0 else CellAt(w, t, u);
    }
  }

  lemma UidsOfConcat(a: seq<Entry>, b: seq<Entry>)
    ensures Uids(a + b) == Uids(a) + Uids(b)
  {
    assert forall e :: e in a + b <==> e in a || e in b;
  }

  lemma TraceCompose(a: seq<Entry>, b: seq<Entry>, ok: bool, due1: set<string>, due2: set<string>, g: string -> (Cell, Verdict))
    requires TraceFollows(a, true, due1, g) && TraceFollows(b, ok, due2, g) && due1 !! due2
    ensures TraceFollows(a + b, ok, due1 + due2, g)
  {
    var c := a + b;
    UidsOfConcat(a, b);
    forall i, j | 0 <= i < j < |c| ensures c[i].uid != c[j].uid {
      if i < |a| <= j {
        assert c[i] in a && c[i].uid in Uids(a);
        assert c[j] in b && c[j].uid in Uids(b);
      }
    }
    forall i | 0 <= i < |c| - 1 ensures !c[i].verdict.Fatal() {
      if i >= |a| {
        assert c[i] == b[i - |a|];
      }
    }
  }

  lemma Compose(w: World, r1: Run, r2: Run, t: Target, due1: set<string>, due2: set<string>, g: string -> (Cell, Verdict))
    requires Follows(w, r1, t, due1, g) && r1.ok && Follows(r1.world, r2, t, due2, g)
    requires due1 !! due2
    ensures Follows(w, Run(r2.world, r1.trace + r2.trace, r2.ok), t, due1 + due2, g)
  {
    TraceCompose(r1.trace, r2.trace, r2.ok, due1, due2, g);
    UidsOfConcat(r1.trace, r2.trace);
    CellsCompose(w, r1.world, r2.world, t, Uids(r1.trace), Uids(r2.trace), g);
  }

  /** A single visit, as a run of its own. */
  lemma SingleStep(w: World, w': World, t: Target, u: string, v: Verdict, due: set<string>, g: string -> (Cell, Verdict))
    requires ProperRows(w'.rows, t) && OnlyAt(w, w', t, u) && (CellAt(w', t, u), v) == g(u)
    requires u in due && (!v.Fatal() ==> due == {u})
    ensures Follows(w, Run(w', [Entry(u, v)], !v.Fatal()), t, due, g)
  {
    assert Uids([Entry(u, v)]) == {u} by {
      assert [Entry(u, v)][0] in [Entry(u, v)];
    }
    CellsStep(w, w', t, u, g);
  }

  lemma SameOn(w: World, r: Run, t: Target, due: set<string>, g: string -> (Cell, Verdict), g': string -> (Cell, Verdict))
    requires Follows(w, r, t, due, g)
    requires forall u <- due :: g(u) == g'(u)
    ensures Follows(w, r, t, due, g')
  {
    forall x <- r.trace ensures x.uid in Uids(r.trace) {}
  }

  lemma FollowsNothing(w: World, t: Target, g: string -> (Cell, Verdict))
    requires ProperRows(w.rows, t)
    ensures Follows(w, Run(w, [], true), t, {}, g)
  {
  }

  lemma EventVisit(w: World, p: Plan, u: string, listed: map<string, Digest>)
    requires ProperRows(w.rows, p.t) && ProperEvents(p.events) && u in p.events
    ensures var (w', v) := EventStep(w, p.t, u, p.events[u], listed, p.faults.event(u));
            && ProperRows(w'.rows, p.t) && OnlyAt(w, w', p.t, u)
            && (CellAt(w', p.t, u), v) == EventAt(w, p, listed, u)
            && forall x :: x != u ==> EventAt(w', p, listed, x) == EventAt(w, p, listed, x)
  {
    EventStepIsLocal(w, p.t, u, p.events[u], listed, p.faults.event(u));
    var (w', v) := EventStep(w, p.t, u, p.events[u], listed, p.faults.event(u));
    forall x | x != u ensures EventAt(w', p, listed, x) == EventAt(w, p, listed, x) {
      OnlyAtKeepsOthers(w, w', p.t, u, x);
    }
  }

  lemma StaleVisit(w: World, p: Plan, u: string, listed: map<string, Digest>)
    requires ProperRows(w.rows, p.t) && u in listed && Key(u, p.t.name) in w.rows
    ensures var (w', v) := StaleStep(w, p.t, u, listed[u], p.faults.stale(u));
            && ProperRows(w'.rows, p.t) && OnlyAt(w, w', p.t, u)
            && (CellAt(w', p.t, u), v) == StaleAt(w, p, listed, u)
            && forall x :: x != u ==> CellAt(w', p.t, x) == CellAt(w, p.t, x) && StaleAt(w', p, listed, x) == StaleAt(w, p, listed, x)
  {
    StaleStepIsLocal(w, p.t, u, listed[u], p.faults.stale(u));
    var (w', v) := StaleStep(w, p.t, u, listed[u], p.faults.stale(u));
    forall x | x != u ensures CellAt(w', p.t, x) == CellAt(w, p.t, x) {
      OnlyAtKeepsOthers(w, w', p.t, u, x);
    }
  }

  /** One visit followed by a run over the rest, which sees the same rule at every UID still to come. */
  lemma VisitThenRun(w: World, w': World, t: Target, u: string, v: Verdict, tail: Run, due: set<string>,
                     g: string -> (Cell, Verdict), g': string -> (Cell, Verdict))
    requires ProperRows(w'.rows, t) && OnlyAt(w, w', t, u) && (CellAt(w', t, u), v) == g(u) && !v.Fatal()
    requires Follows(w', tail, t, due, g') && u !in due
    requires forall x <- due :: g'(x) == g(x)
    ensures Follows(w, Before(Entry(u, v), tail), t, {u} + due, g)
  {
    SameOn(w', tail, t, due, g', g);
    SingleStep(w, w', t, u, v, {u}, g);
    Compose(w, Run(w', [Entry(u, v)], true), tail, t, {u}, due, g);
  }

  lemma ElementsSplit(order: seq<string>)
    requires order != []
    ensures Elements(order) == {order[0]} + Elements(order[1..])
    ensures NoDup(order) ==> NoDup(order[1..]) && order[0] !in Elements(order[1..])
  {
  }

  lemma {:induction false} EventLoopFollows(w: World, p: Plan, order: seq<string>, listed: map<string, Digest>)
    requires ProperRows(w.rows, p.t) && ProperEvents(p.events)
    requires NoDup(order) && forall u <- order :: u in p.events
    ensures Follows(w, EventLoop(w, p, order, listed), p.t, Elements(order), EventRule(w, p, listed))
    decreases |order|
  {
    var g := EventRule(w, p, listed);
    if order == [] {
      FollowsNothing(w, p.t, g);
    } else {
      var u, rest := order[0], order[1..];
      ElementsSplit(order);
      var (w', v) := EventStep(w, p.t, u, p.events[u], listed, p.faults.event(u));
      EventVisit(w, p, u, listed);
      if v.Fatal() {
        SingleStep(w, w', p.t, u, v, Elements(order), g);
      } else {
        EventLoopFollows(w', p, rest, listed);
        VisitThenRun(w, w', p.t, u, v, EventLoop(w', p, rest, listed), Elements(rest), g, EventRule(w', p, listed));
      }
    }
  }

  /** The listed UIDs that the stale loop acts on, along a walk. */
  ghost function StaleAmong(order: seq<string>, p: Plan): set<string> {
    Elements(order) - p.events.Keys
  }

  lemma {:induction false} StaleLoopFollows(w: World, p: Plan, order: seq<string>, listed: map<string, Digest>)
    requires ProperRows(w.rows, p.t)
    requires NoDup(order) && forall u <- order :: u in listed && CellAt(w, p.t, u).row.Some?
    ensures Follows(w, StaleLoop(w, p, order, listed), p.t, StaleAmong(order, p), StaleRule(w, p, listed))
    decreases |order|
  {
    var g := StaleRule(w, p, listed);
    if order == [] {
      assert StaleAmong(order, p) == {};
      FollowsNothing(w, p.t, g);
    } else {
      var u, rest := order[0], order[1..];
      ElementsSplit(order);
      if u in p.events {
        StaleLoopFollows(w, p, rest, listed);
        assert StaleAmong(order, p) == StaleAmong(rest, p);
      } else {
        assert StaleAmong(order, p) == {u} + StaleAmong(rest, p);
        var (w', v) := StaleStep(w, p.t, u, listed[u], p.faults.stale(u));
        StaleVisit(w, p, u, listed);
        if v.Fatal() {
          SingleStep(w, w', p.t, u, v, StaleAmong(order, p), g);
        } else {
          StaleLoopFollows(w', p, rest, listed);
          VisitThenRun(w, w', p.t, u, v, StaleLoop(w', p, rest, listed), StaleAmong(rest, p), g, StaleRule(w', p, listed));
        }
      }
    }
  }

  /** The UIDs a run has to deal with. */
  ghost function Due(w: World, p: Plan): set<string> {
    p.events.Keys + (ListedBy(w, p).Keys - p.events.Keys)
  }

  lemma ListedHasRow(w: World, p: Plan, u: string)
    requires u in ListedBy(w, p)
    ensures ActiveCell(CellAt(w, p.t, u)) && CellAt(w, p.t, u).row.value.hash == ListedBy(w, p)[u]
    ensures Selected(u, p.t.prefix)
  {
    ActiveMappingsAt(w.rows, p.t.name, p.t.prefix, u);
  }

  lemma EventPart(w: World, p: Plan, order: seq<string>)
    requires ProperRows(w.rows, p.t) && ProperEvents(p.events) && Enumerates(order, p.events.Keys)
    ensures Follows(w, EventLoop(w, p, order, ListedBy(w, p)), p.t, p.events.Keys, RunRule(w, p))
  {
    var listed := ListedBy(w, p);
    EventLoopFollows(w, p, order, listed);
    assert Elements(order) == p.events.Keys;
    SameOn(w, EventLoop(w, p, order, listed), p.t, p.events.Keys, EventRule(w, p, listed), RunRule(w, p));
  }

  /** The events' visits leave the cells of stale UIDs as the run found them. */
  lemma StaleCellUnmoved(w: World, w1: World, p: Plan, u: string)
    requires CellsFollow(w, w1, p.t, p.events.Keys, RunRule(w, p)) && u in ListedBy(w, p)
    ensures u !in p.events ==> StaleAt(w1, p, ListedBy(w, p), u) == Expected(w, p, u)
    ensures CellAt(w1, p.t, u).row.Some?
  {
    ListedHasRow(w, p, u);
    assert CellAt(w1, p.t, u) == if u in p.events.Keys then Expected(w, p, u).0 else CellAt(w, p.t, u);
  }

  lemma StalePart(w1: World, p: Plan, staleOrder: seq<string>, listed: map<string, Digest>, g: string -> (Cell, Verdict))
    requires ProperRows(w1.rows, p.t) && Enumerates(staleOrder, listed.Keys)
    requires forall u <- listed.Keys :: CellAt(w1, p.t, u).row.Some?
    requires forall u <- listed.Keys :: u !in p.events ==> StaleAt(w1, p, listed, u) == g(u)
    ensures Follows(w1, StaleLoop(w1, p, staleOrder, listed), p.t, listed.Keys - p.events.Keys, g)
  {
    StaleLoopFollows(w1, p, staleOrder, listed);
    assert Elements(staleOrder) == listed.Keys;
    SameOn(w1, StaleLoop(w1, p, staleOrder, listed), p.t, listed.Keys - p.events.Keys, StaleRule(w1, p, listed), g);
  }

  lemma StoppedEarly(w: World, r: Run, t: Target, due: set<string>, all: set<string>, g: string -> (Cell, Verdict))
    requires Follows(w, r, t, due, g) && !r.ok && due <= all
    ensures Follows(w, r, t, all, g)
  {
  }

  lemma BothParts(w: World, p: Plan, r1: Run, staleOrder: seq<string>)
    requires Follows(w, r1, p.t, p.events.Keys, RunRule(w, p)) && r1.ok
    requires Enumerates(staleOrder, ListedBy(w, p).Keys)
    ensures var r2 := StaleLoop(r1.world, p, staleOrder, ListedBy(w, p));
            Follows(w, Run(r2.world, r1.trace + r2.trace, r2.ok), p.t, Due(w, p), RunRule(w, p))
  {
    var listed := ListedBy(w, p);
    forall u <- listed.Keys
      ensures CellAt(r1.world, p.t, u).row.Some?
      ensures u !in p.events ==> StaleAt(r1.world, p, listed, u) == RunRule(w, p)(u)
    {
      StaleCellUnmoved(w, r1.world, p, u);
    }
    StalePart(r1.world, p, staleOrder, listed, RunRule(w, p));
    Compose(w, r1, StaleLoop(r1.world, p, staleOrder, listed), p.t, p.events.Keys, listed.Keys - p.events.Keys, RunRule(w, p));
  }

  /** A run that got its listing does to every UID it reaches exactly what `Expected` says, for all walks. */
  lemma RunFollows(w: World, p: Plan, order: seq<string>, staleOrder: seq<string>)
    requires ProperRows(w.rows, p.t) && ProperEvents(p.events) && p.faults.listing.Rows?
    requires Walks(w, p, order, staleOrder)
    ensures Follows(w, SyncDestination(w, p, order, staleOrder), p.t, Due(w, p), RunRule(w, p))
  {
    EventPart(w, p, order);
    var r1 := EventLoop(w, p, order, ListedBy(w, p));
    if r1.ok {
      BothParts(w, p, r1, staleOrder);
    } else {
      assert p.events.Keys <= Due(w, p);
      StoppedEarly(w, r1, p.t, p.events.Keys, Due(w, p), RunRule(w, p));
    }
  }

  lemma TraceSuccess(trace: seq<Entry>, ok: bool, due: set<string>, g: string -> (Cell, Verdict))
    requires TraceFollows(trace, ok, due, g)
    ensures ok <==> forall u <- due :: !g(u).1.Fatal()
  {
    if ok {
      forall u <- due ensures !g(u).1.Fatal() {
        var i :| 0 <= i < |trace| && trace[i].uid == u;
        assert trace[i].verdict == g(u).1;
      }
    } else {
      var e := trace[|trace| - 1];
      assert e.uid in Uids(trace) && e.verdict == g(e.uid).1;
    }
  }

  /** A run succeeds exactly when no UID that is due meets a fatal fate: the walks do not matter. */
  lemma SuccessIs(w: World, p: Plan, order: seq<string>, staleOrder: seq<string>)
    requires ProperRows(w.rows, p.t) && ProperEvents(p.events) && Walks(w, p, order, staleOrder)
    ensures SyncDestination(w, p, order, staleOrder).ok <==>
            p.faults.listing.Rows? && forall u <- Due(w, p) :: !Expected(w, p, u).1.Fatal()
  {
    if p.faults.listing.Rows? {
      RunFollows(w, p, order, staleOrder);
      var r := SyncDestination(w, p, order, staleOrder);
      TraceSuccess(r.trace, r.ok, Due(w, p), RunRule(w, p));
      assert forall u <- Due(w, p) :: RunRule(w, p)(u) == Expected(w, p, u);
    }
  }
}
