/** What a run may touch, whatever fails in it and whatever its rows say; and what a hard delete takes away. */
module Confinement {
  import opened Text
  import opened Records
  import opened Storage
  import opened Remote
  import opened Reconcile
  import opened Convergence
  import opened Pipeline
  import opened SyncLoop

  /** The address belongs to no UID of the collection, and no row of the destination points to it. */
  ghost predicate Far(w: World, name: string, base: string, h: string) {
    && (forall u :: h != HrefFor(base, u))
    && (forall k <- w.rows :: k.dest == name ==> w.rows[k].href != h)
  }

  /** From `w` to `w'` only rows of the destination changed, none was lost, and what is far stayed as it was, and far. */
  ghost predicate Confined(w: World, w': World, name: string, base: string) {
    && (forall k <- w.rows :: k in w'.rows)
    && (forall k: Key :: k.dest != name ==> Get(w'.rows, k) == Get(w.rows, k))
    && (forall h :: Far(w, name, base, h) ==> Get(w'.remote, h) == Get(w.remote, h) && Far(w', name, base, h))
  }

  lemma ConfinedTrans(w: World, w': World, w'': World, name: string, base: string)
    requires Confined(w, w', name, base) && Confined(w', w'', name, base)
    ensures Confined(w, w'', name, base)
  {
  }

  lemma RowWriteConfined(w: World, t: Target, u: string, row: Row)
    requires (exists x :: row.href == HrefFor(t.base, x)) || (Key(u, t.name) in w.rows && w.rows[Key(u, t.name)].href == row.href)
    ensures Confined(w, w.(rows := w.rows[Key(u, t.name) := row]), t.name, t.base)
  {
  }

  lemma CallConfined(w: World, t: Target, href: string, data: Content, fate: Fate)
    requires !Far(w, t.name, t.base, href)
    ensures Confined(w, w.(remote := Put(w.remote, href, data, fate)), t.name, t.base)
    ensures Confined(w, w.(remote := Delete(w.remote, href, fate)), t.name, t.base)
  {
  }

  lemma {:induction false} EventStepConfined(w: World, t: Target, u: string, data: Content, listed: map<string, Digest>, f: UidFates)
    ensures var w' := EventStep(w, t, u, data, listed, f).0;
            Confined(w, w', t.name, t.base) && w.remote.Keys <= w'.remote.Keys
  {
    var m := Lookup(w.rows, u, t.name);
    var isNew := m.destUid == "";
    var href := if isNew then HrefFor(t.base, data.uid) else m.href;
    var row := Row(if isNew then u else m.destUid, href, "", HashContent(data), false);
    var w1 := w.(remote := Put(w.remote, href, data, f.call));
    CallConfined(w, t, href, data, f.call);
    RowWriteConfined(w1, t, u, row);
    ConfinedTrans(w, w1, w1.(rows := w1.rows[Key(u, t.name) := row]), t.name, t.base);
  }

  lemma {:induction false} StaleStepConfined(w: World, t: Target, u: string, hash: Digest, f: UidFates)
    requires Key(u, t.name) in w.rows
    ensures var w' := StaleStep(w, t, u, hash, f).0;
            && Confined(w, w', t.name, t.base) && w'.remote.Keys <= w.remote.Keys
            && (!t.hard ==> w'.remote == w.remote)
  {
    var m := Lookup(w.rows, u, t.name);
    var row := Row(m.destUid, m.href, m.etag, hash, true);
    var w1 := if t.hard then w.(remote := Delete(w.remote, m.href, f.call)) else w;
    CallConfined(w, t, m.href, Content("", ""), f.call);
    RowWriteConfined(w1, t, u, row);
    ConfinedTrans(w, w1, w1.(rows := w1.rows[Key(u, t.name) := row]), t.name, t.base);
  }

  lemma {:induction false} EventLoopConfined(w: World, p: Plan, order: seq<string>, listed: map<string, Digest>)
    requires forall u <- order :: u in p.events
    ensures var w' := EventLoop(w, p, order, listed).world;
            Confined(w, w', p.t.name, p.t.base) && w.remote.Keys <= w'.remote.Keys
    decreases |order|
  {
    if order != [] {
      var u := order[0];
      EventStepConfined(w, p.t, u, p.events[u], listed, p.faults.event(u));
      var w' := EventStep(w, p.t, u, p.events[u], listed, p.faults.event(u)).0;
      EventLoopConfined(w', p, order[1..], listed);
      ConfinedTrans(w, w', EventLoop(w', p, order[1..], listed).world, p.t.name, p.t.base);
    }
  }

  lemma {:induction false} StaleLoopConfined(w: World, p: Plan, order: seq<string>, listed: map<string, Digest>)
    requires forall u <- order :: u in listed && Key(u, p.t.name) in w.rows
    ensures var w' := StaleLoop(w, p, order, listed).world;
            && Confined(w, w', p.t.name, p.t.base) && w'.remote.Keys <= w.remote.Keys
            && (!p.t.hard ==> w'.remote == w.remote)
    decreases |order|
  {
    if order != [] {
      var u := order[0];
      if u in p.events {
        StaleLoopConfined(w, p, order[1..], listed);
      } else {
        StaleStepConfined(w, p.t, u, listed[u], p.faults.stale(u));
        var w' := StaleStep(w, p.t, u, listed[u], p.faults.stale(u)).0;
        StaleLoopConfined(w', p, order[1..], listed);
        ConfinedTrans(w, w', StaleLoop(w', p, order[1..], listed).world, p.t.name, p.t.base);
      }
    }
  }

  /** A run, whatever its rows say, changes nothing that is far from its destination; without hard deletes it removes nothing. */
  lemma {:induction false} RunConfined(w: World, p: Plan, order: seq<string>, staleOrder: seq<string>)
    requires Walks(w, p, order, staleOrder)
    ensures var w' := SyncDestination(w, p, order, staleOrder).world;
            Confined(w, w', p.t.name, p.t.base) && (!p.t.hard ==> w.remote.Keys <= w'.remote.Keys)
  {
    var listed := ListedBy(w, p);
    EventLoopConfined(w, p, order, listed);
    var r1 := EventLoop(w, p, order, listed);
    if p.faults.listing.Rows? && r1.ok {
      forall u <- staleOrder ensures Key(u, p.t.name) in r1.world.rows {
        ActiveMappingsAt(w.rows, p.t.name, p.t.prefix, u);
        assert Key(u, p.t.name) in w.rows;
      }
      StaleLoopConfined(r1.world, p, staleOrder, listed);
      ConfinedTrans(w, r1.world, StaleLoop(r1.world, p, staleOrder, listed).world, p.t.name, p.t.base);
    }
  }

  /** A turn, told by the names and addresses of its destination and its source. */
  lemma {:induction false} TurnConfined(s: System, c: Connection, r: Round, encode: Comp -> Option<string>, url: string)
    requires ValidRound(s, c, r, encode)
    ensures var s' := SyncConnection(s, c, r, encode).s;
            && Confined(s.w, s'.w, c.t.name, c.t.base)
            && (!c.t.hard ==> s.w.remote.Keys <= s'.w.remote.Keys)
            && (!c.known || url != c.url ==> Get(s'.states, url) == Get(s.states, url))
  {
    if ReachesDestination(s, c, r) {
      RunConfined(s.w, PlanFor(c, r, encode), r.order, r.staleOrder);
    }
  }

  // ---------------------------------------------------------------- hard deletes

  lemma {:induction false} EventLoopGood(w: World, p: Plan, order: seq<string>, listed: map<string, Digest>, u: string)
    requires AllGood(p.faults) && u !in p.events && forall x <- order :: x in p.events
    ensures var r := EventLoop(w, p, order, listed);
            r.ok && Get(r.world.rows, Key(u, p.t.name)) == Get(w.rows, Key(u, p.t.name))
    decreases |order|
  {
    if order != [] {
      var x := order[0];
      assert p.faults.event(x) == GOOD;
      EventLoopGood(EventStep(w, p.t, x, p.events[x], listed, p.faults.event(x)).0, p, order[1..], listed, u);
    }
  }

  lemma {:induction false} StaleLoopPurges(w: World, p: Plan, order: seq<string>, listed: map<string, Digest>, u: string)
    requires forall x <- order :: x in listed && Key(x, p.t.name) in w.rows
    requires AllGood(p.faults) && p.t.hard && u in order && u !in p.events && !w.rows[Key(u, p.t.name)].deleted
    ensures w.rows[Key(u, p.t.name)].href !in StaleLoop(w, p, order, listed).world.remote
    decreases |order|
  {
    var x := order[0];
    if x in p.events {
      StaleLoopPurges(w, p, order[1..], listed, u);
    } else {
      assert p.faults.stale(x) == GOOD;
      var w' := StaleStep(w, p.t, x, listed[x], p.faults.stale(x)).0;
      StaleStepConfined(w, p.t, x, listed[x], p.faults.stale(x));
      if x == u {
        StaleLoopConfined(w', p, order[1..], listed);
      } else {
        StaleLoopPurges(w', p, order[1..], listed, u);
      }
    }
  }

  /** Under hard deletes an undisturbed run leaves no resource where an active selected row without event points. */
  lemma {:induction false} RunPurges(w: World, p: Plan, order: seq<string>, staleOrder: seq<string>, u: string)
    requires AllGood(p.faults) && p.t.hard && u !in p.events && Walks(w, p, order, staleOrder)
    requires Key(u, p.t.name) in w.rows && !w.rows[Key(u, p.t.name)].deleted && Selected(u, p.t.prefix)
    ensures w.rows[Key(u, p.t.name)].href !in SyncDestination(w, p, order, staleOrder).world.remote
  {
    var listed := ListedBy(w, p);
    EventLoopGood(w, p, order, listed, u);
    EventLoopConfined(w, p, order, listed);
    ActiveMappingsAt(w.rows, p.t.name, p.t.prefix, u);
    var w1 := EventLoop(w, p, order, listed).world;
    assert Get(w1.rows, Key(u, p.t.name)) == Get(w.rows, Key(u, p.t.name));
    forall x <- staleOrder ensures Key(x, p.t.name) in w1.rows {
      ActiveMappingsAt(w.rows, p.t.name, p.t.prefix, x);
      assert Key(x, p.t.name) in w.rows;
    }
    StaleLoopPurges(w1, p, staleOrder, listed, u);
  }

  // ---------------------------------------------------------------- a whole Sync

  lemma FarStays(w: World, w': World, name: string, base: string, other: string, url: string, h: string)
    requires Confined(w, w', name, base) && Far(w, name, base, h) && Far(w, other, url, h)
    ensures Far(w', other, url, h)
  {
    if name != other {
      forall k <- w'.rows | k.dest == other ensures w'.rows[k].href != h {
        assert Get(w'.rows, k) == Get(w.rows, k);
      }
    }
  }

  /** All turns of a `Sync` together: rows, saved states, and what is not removed. */
  lemma {:induction false} SyncConfined(s: System, cs: seq<Connection>, rs: seq<Round>, encode: Comp -> Option<string>, k: Key, url: string)
    requires ValidRounds(s, cs, rs, encode)
    ensures var s' := SystemAfter(s, SyncAll(s, cs, rs, encode));
            && ((forall c <- cs :: c.t.name != k.dest) ==> Get(s'.w.rows, k) == Get(s.w.rows, k))
            && ((forall c <- cs :: c.known ==> c.url != url) ==> Get(s'.states, url) == Get(s.states, url))
            && ((forall c <- cs :: !c.t.hard) ==> s.w.remote.Keys <= s'.w.remote.Keys)
    decreases |cs|
  {
    if cs != [] {
      var v := SyncConnection(s, cs[0], rs[0], encode);
      TurnConfined(s, cs[0], rs[0], encode, url);
      SyncConfined(v.s, cs[1..], rs[1..], encode, k, url);
      assert forall x <- cs[1..] :: x in cs;
      LastAfter(s, cs, rs, encode);
    }
  }

  lemma LastAfter(s: System, cs: seq<Connection>, rs: seq<Round>, encode: Comp -> Option<string>)
    requires ValidRounds(s, cs, rs, encode) && cs != []
    ensures var s1 := SyncConnection(s, cs[0], rs[0], encode).s;
            SystemAfter(s, SyncAll(s, cs, rs, encode)) == SystemAfter(s1, SyncAll(s1, cs[1..], rs[1..], encode))
  {
  }

  /** And resources. */
  lemma {:induction false} SyncSparesFar(s: System, cs: seq<Connection>, rs: seq<Round>, encode: Comp -> Option<string>, h: string)
    requires ValidRounds(s, cs, rs, encode) && forall c <- cs :: Far(s.w, c.t.name, c.t.base, h)
    ensures Get(SystemAfter(s, SyncAll(s, cs, rs, encode)).w.remote, h) == Get(s.w.remote, h)
    decreases |cs|
  {
    if cs != [] {
      var c, v := cs[0], SyncConnection(s, cs[0], rs[0], encode);
      TurnConfined(s, c, rs[0], encode, "");
      forall x <- cs[1..] ensures Far(v.s.w, x.t.name, x.t.base, h) {
        assert x in cs;
        FarStays(s.w, v.s.w, c.t.name, c.t.base, x.t.name, x.t.base, h);
      }
      SyncSparesFar(v.s, cs[1..], rs[1..], encode, h);
      LastAfter(s, cs, rs, encode);
    }
  }
}
