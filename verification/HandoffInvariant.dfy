/** What holds in every run of the handoff, whatever the helpers answer and whoever is cut short. */
module HandoffInvariant {
  import opened Prelude
  import opened Locks
  import opened Handoff

  // ---------------------------------------------------------------------------
  // The invariant
  // ---------------------------------------------------------------------------

  ghost predicate Accounted(w: World, c: Card) {
    Recorded(w, c) || Open(w, c) || Astray(w, c)
  }

  /** A worker that nobody is working on and nothing has gone wrong with is on its endpoint's latest sighting. */
  ghost predicate Sighted(w: World, c: Card) {
    c.host in w.sightings && !Open(w, c) && c !in w.marks && !Astray(w, c) ==>
      c in w.sightings[c.host].busy
  }

  ghost predicate HistoryOk(w: World) {
    && w.astray.denied <= w.running && w.astray.late <= w.running
    && w.astray.unmarked <= w.running && w.astray.unmarked !! w.marks
    && forall c :: c in w.astray.dropped ==> c in w.running && !Recorded(w, c)
  }

  ghost predicate StampOk(s: Session, w: World) {
    s.stamp.Some? ==>
      && s.stamp.value < w.clock
      && forall c :: c in w.running && c.host in s.held && SeenSince(w, c.host, s.stamp.value) ==>
           c in w.sightings[c.host].busy || c in w.astray.late
  }

  ghost predicate CheckedOk(s: Session, w: World) {
    forall c :: c in s.checked ==>
      && c.host in s.held && s.checked[c] < w.nextLease
      && forall d :: HasLease(w, d, s.checked[c]) ==> d == c
  }

  ghost predicate SessionOk(s: Session, w: World) {
    && Within(s.open, s.held) && Within(s.proven, s.held) && Within(s.freed, s.held)
    && (forall c :: c in s.proven && c in w.running ==> c in w.astray.denied || c in w.astray.late)
    && (forall c :: c in s.freed && c in w.running ==> c in w.astray.late || c in w.astray.replayed)
    && (forall c :: c in s.freed && Kept(w, c) ==> c in w.astray.replayed)
    && StampOk(s, w)
    && CheckedOk(s, w)
  }

  ghost predicate TaskOk(w: World, t: TaskId)
    requires t < |w.sessions|
  {
    InsideTask(w, t) ==>
      && w.sessions[t].held == Elements(w.locks.tasks[t].order)
      && SessionOk(w.sessions[t], w)
  }

  ghost predicate Good(w: World) {
    && Inv(w.locks) && |w.sessions| == |w.locks.tasks|
    && (forall h :: h in w.sightings ==> w.sightings[h].time < w.clock)
    && LeasesOk(w)
    && (forall t: TaskId :: t < |w.sessions| ==> TaskOk(w, t))
    && (forall c :: c in w.running ==> Accounted(w, c) && Sighted(w, c))
    && HistoryOk(w)
  }

  /** What a session may rely on while other tasks and the environment move. */
  ghost predicate Rely(w: World, w': World, held: set<Endpoint>) {
    && w.clock <= w'.clock && w.nextLease <= w'.nextLease
    && (forall c :: c in w'.running && c.host in held ==> c in w.running || c in w'.astray.late)
    && (forall c :: c in w'.running && c.host in held && c in w.astray.late ==> c in w'.astray.late)
    && (forall c :: c in w'.running && c.host in held && c in w.astray.denied ==> c in w'.astray.denied)
    && (forall c: Card :: c.host in held && c in w.astray.replayed ==> c in w'.astray.replayed)
    && (forall c :: Kept(w', c) ==> w.nextLease <= w'.leases[c].id || HasLease(w, c, w'.leases[c].id))
    && (forall c :: Kept(w', c) && c.host in held ==> Kept(w, c))
    && (forall h :: h in held ==>
          || (h !in w.sightings && h !in w'.sightings)
          || (h in w.sightings && h in w'.sightings && w'.sightings[h] == w.sightings[h])
          || (h in w'.sightings && forall c :: c in w'.running && c.host == h ==>
                c in w'.sightings[h].busy || c in w'.astray.late))
  }

  lemma CheckedStays(s: Session, w: World, w': World)
    requires CheckedOk(s, w) && w.nextLease <= w'.nextLease
    requires forall c :: Kept(w', c) ==> w.nextLease <= w'.leases[c].id || HasLease(w, c, w'.leases[c].id)
    ensures CheckedOk(s, w')
  {
    forall c, d | c in s.checked && HasLease(w', d, s.checked[c]) ensures d == c {
      assert HasLease(w, d, s.checked[c]);
    }
  }

  lemma RelyKeepsSession(s: Session, w: World, w': World)
    requires SessionOk(s, w) && Rely(w, w', s.held)
    ensures SessionOk(s, w')
  {
    CheckedStays(s, w, w');
    if s.stamp.Some? {
      forall c | c in w'.running && c.host in s.held && SeenSince(w', c.host, s.stamp.value)
        ensures c in w'.sightings[c.host].busy || c in w'.astray.late
      {
        if c.host in w.sightings && w'.sightings[c.host] == w.sightings[c.host] {
          assert SeenSince(w, c.host, s.stamp.value);
        }
      }
    }
  }

  lemma HeldApart(w: World, t: TaskId, u: TaskId)
    requires Good(w) && InsideTask(w, t) && InsideTask(w, u) && t != u
    ensures w.sessions[t].held !! w.sessions[u].held
  {
    assert TaskOk(w, t) && TaskOk(w, u);
    forall e | e in w.sessions[t].held && e in w.sessions[u].held ensures false {
      var a, b := w.locks.tasks[t], w.locks.tasks[u];
      assert a.order[..|a.order|] == a.order && b.order[..|b.order|] == b.order;
      MutualExclusion(w.locks, t, u, e);
    }
  }

  lemma ActSparesOtherLeases(w: World, s: Session, ev: Event, w': World, held: set<Endpoint>)
    requires Allowed(s, ev) && Effect(w, ev, w') && s.held !! held
    ensures w.nextLease <= w'.nextLease
    ensures forall c :: Kept(w', c) ==> w.nextLease <= w'.leases[c].id || HasLease(w, c, w'.leases[c].id)
    ensures forall c :: Kept(w', c) && c.host in held ==> Kept(w, c)
  {}

  lemma ActSparesOtherHosts(w: World, s: Session, ev: Event, w': World, h: Endpoint)
    requires Allowed(s, ev) && Effect(w, ev, w') && h !in s.held
    ensures forall c: Card :: c.host == h ==> (c in w'.running <==> c in w.running) && !AsksToStart(ev, c)
    ensures h in w'.sightings <==> h in w.sightings
    ensures h in w.sightings ==> w'.sightings[h] == w.sightings[h]
  {}

  lemma ActSparesOtherReplays(w: World, s: Session, ev: Event, w': World, h: Endpoint)
    requires Allowed(s, ev) && w'.astray == ActHistory(w, s, ev, w') && h !in s.held
    ensures forall c: Card :: c.host == h && c in w.astray.replayed ==> c in w'.astray.replayed
  {}

  /** An event touches nothing that a session holding other endpoints relies on. */
  lemma ActIsRelied(w: World, s: Session, ev: Event, w': World, held: set<Endpoint>)
    requires Allowed(s, ev) && Effect(w, ev, w') && w'.astray == ActHistory(w, s, ev, w') && w'.clock == w.clock + 1
    requires s.held !! held
    ensures Rely(w, w', held)
  {
    hide Effect, Allowed, Renews, Replays, Concerned;
    ActSparesOtherLeases(w, s, ev, w', held);
    forall h | h in held
      ensures forall c: Card :: c.host == h ==> (c in w'.running <==> c in w.running) && !AsksToStart(ev, c)
      ensures h in w'.sightings <==> h in w.sightings
      ensures h in w.sightings ==> w'.sightings[h] == w.sightings[h]
      ensures forall c: Card :: c.host == h && c in w.astray.replayed ==> c in w'.astray.replayed
    {
      ActSparesOtherHosts(w, s, ev, w', h);
      ActSparesOtherReplays(w, s, ev, w', h);
    }
  }

  lemma FewerKeepersKeepLeases(w: World, w': World)
    requires LeasesOk(w) && w.nextLease <= w'.nextLease
    requires forall c :: Kept(w', c) ==> HasLease(w, c, w'.leases[c].id)
    ensures LeasesOk(w')
  {
    forall c, d | Kept(w', c) && HasLease(w', d, w'.leases[c].id) ensures c == d {
      assert HasLease(w, c, w'.leases[c].id) && HasLease(w, d, w'.leases[d].id);
    }
  }

  lemma ConfirmKeepsLeases(w: World, cards: set<Card>, notBefore: nat, w': World)
    requires LeasesOk(w) && Confirmed(w, cards, notBefore, w')
    ensures LeasesOk(w')
  {
    forall c, d | Kept(w', c) && HasLease(w', d, w'.leases[c].id) ensures c == d {
      if c in w.leases && d in w.leases {
        assert Kept(w, c) && HasLease(w, d, w.leases[c].id);
      } else if c in w.leases {
        assert Kept(w, c) && d in cards;
      } else if d in w.leases {
        assert Kept(w, d) && c in cards;
      }
    }
  }

  lemma ActKeepsLeases(w: World, ev: Event, w': World)
    requires LeasesOk(w) && Effect(w, ev, w')
    ensures LeasesOk(w')
  {
    if ev.Confirm? && !SameLedger(w, w') {
      ConfirmKeepsLeases(w, ev.cards, ev.notBefore, w');
    } else {
      FewerKeepersKeepLeases(w, w');
    }
  }

  lemma MutateKeepsSession(w: World, s: Session, ev: Event, w': World)
    requires SessionOk(s, w) && ev.Mutate? && Allowed(s, ev) && Effect(w, ev, w') && w'.astray == ActHistory(w, s, ev, w') && w.clock <= w'.clock
    ensures SessionOk(After(s, ev), w')
  {
    CheckedStays(s, w, w');
    forall c | c in Cards(ev.host, ev.uuids) ensures c.host == ev.host {}
  }

  lemma ConfirmKeepsSession(w: World, s: Session, ev: Event, w': World)
    requires SessionOk(s, w) && LeasesOk(w) && ev.Confirm?
    requires Allowed(s, ev) && Effect(w, ev, w') && w'.astray == ActHistory(w, s, ev, w') && w'.clock == w.clock + 1
    ensures SessionOk(After(s, ev), w')
  {
    CheckedStays(s, w, w');
  }

  lemma ClockKeepsSession(w: World, s: Session, ev: Event, w': World)
    requires SessionOk(s, w) && ev.ReadClock? && Effect(w, ev, w') && w'.astray == ActHistory(w, s, ev, w') && w'.clock == w.clock + 1
    requires forall h :: h in w.sightings ==> w.sightings[h].time < w.clock
    ensures SessionOk(After(s, ev), w')
  {
    CheckedStays(s, w, w');
  }

  /** Writing an error, clearing a mark and claiming touch nothing a session has established. */
  lemma NoteKeepsSession(w: World, s: Session, ev: Event, w': World)
    requires SessionOk(s, w) && (ev.SetError? || ev.FinishCleanup? || ev.Claim?)
    requires Allowed(s, ev) && Effect(w, ev, w') && w'.astray == ActHistory(w, s, ev, w') && w'.clock == w.clock + 1
    ensures SessionOk(After(s, ev), w')
  {
    RelyKeepsSession(s, w, w');
  }

  lemma CheckedAfterPrepare(s: Session, card: Card, lease: nat, w: World)
    requires CheckedOk(s, w) && LeasesOk(w) && card.host in s.held && HasLease(w, card, lease)
    ensures CheckedOk(s.(checked := s.checked[card := lease]), w)
  {
    forall d | HasLease(w, d, lease) ensures d == card {
      assert Kept(w, card);
    }
  }

  /**
   A release takes away the one lease, of a card that runs nothing unless its worker
   started late; what the session then holds freed runs nothing and is leased to
   nobody, but for late starts and replayed releases.
   */
  lemma FinalizeFrees(w: World, s: Session, host: Endpoint, lease: nat, notBefore: nat, w': World)
    requires SessionOk(s, w) && LeasesOk(w)
    requires var ev := Finalize(host, lease, notBefore, true);
             Allowed(s, ev) && Effect(w, ev, w') && w'.astray == ActHistory(w, s, ev, w')
    requires w'.clock == w.clock + 1
    ensures SessionOk(After(s, Finalize(host, lease, notBefore, true)), w')
    ensures forall c :: Kept(w, c) && !Kept(w', c) ==> HasLease(w, c, lease) && (c in w.running ==> c in w.astray.late)
  {
    CheckedStays(s, w, w');
    if Finalized(w, host, lease, notBefore, w') {
      var c0 :|
        && HasLease(w, c0, lease) && c0.host == host
        && SeenSince(w, host, notBefore) && c0 !in w.sightings[host].busy
        && w'.leases == w.leases - {c0};
      assert c0 in w.running ==> c0 in w.astray.late;
      forall c | c in s.checked && s.checked[c] == lease ensures c == c0 {}
    }
  }

  /** Reading a lease, collecting and a release that is refused leave everything a session relies on. */
  lemma LookKeepsSession(w: World, s: Session, ev: Event, w': World)
    requires SessionOk(s, w) && LeasesOk(w) && (ev.Prepare? || ev.Collect? || (ev.Finalize? && !ev.ok))
    requires Allowed(s, ev) && Effect(w, ev, w') && w'.astray == ActHistory(w, s, ev, w') && w'.clock == w.clock + 1
    ensures SessionOk(After(s, ev), w')
  {
    RelyKeepsSession(s, w, w');
    if ev.Prepare? && ev.seen.Some? {
      CheckedAfterPrepare(s, ev.card, ev.seen.value, w');
    }
  }

  /** The acting session's own bookkeeping stays true. */
  lemma ActKeepsSession(w: World, s: Session, ev: Event, w': World)
    requires SessionOk(s, w) && LeasesOk(w)
    requires forall h :: h in w.sightings ==> w.sightings[h].time < w.clock
    requires Allowed(s, ev) && Effect(w, ev, w') && w'.astray == ActHistory(w, s, ev, w') && w'.clock == w.clock + 1
    ensures SessionOk(After(s, ev), w')
  {
    hide SessionOk, LeasesOk, Allowed, Effect, ActHistory, After;
    match ev
    case Mutate(_, _, _, _) => MutateKeepsSession(w, s, ev, w');
    case Confirm(_, _, _) => ConfirmKeepsSession(w, s, ev, w');
    case ReadClock(_) => ClockKeepsSession(w, s, ev, w');
    case Finalize(host, lease, notBefore, true) => FinalizeFrees(w, s, host, lease, notBefore, w');
    case Finalize(_, _, _, false) => LookKeepsSession(w, s, ev, w');
    case Prepare(_, _) => LookKeepsSession(w, s, ev, w');
    case Collect(_) => LookKeepsSession(w, s, ev, w');
    case _ => NoteKeepsSession(w, s, ev, w');
  }

  // ---------------------------------------------------------------------------
  // The invariant holds in every run
  // ---------------------------------------------------------------------------

  lemma OthersKeepTheirSession(w: World, w': World, u: TaskId)
    requires Good(w) && u < |w.sessions| <= |w'.sessions| && u < |w'.locks.tasks|
    requires w'.sessions[u] == w.sessions[u] && w'.locks.tasks[u] == w.locks.tasks[u]
    requires InsideTask(w, u) ==> Rely(w, w', w.sessions[u].held)
    ensures TaskOk(w', u)
  {
    if InsideTask(w', u) {
      assert InsideTask(w, u) && TaskOk(w, u);
      RelyKeepsSession(w.sessions[u], w, w');
    }
  }

  lemma EnvironmentGood(w: World, w': World)
    requires Good(w) && Environment(w, w')
    ensures Good(w')
  {
    if w'.locks != w.locks { ArriveInv(w.locks, w'.locks); }
    forall t: TaskId | t < |w'.sessions| ensures TaskOk(w', t) {
      if t < |w.sessions| {
        OthersKeepTheirSession(w, w', t);
      }
    }
    forall c | c in w'.running ensures Accounted(w', c) && Sighted(w', c) {
      EnvironmentAccounts(w, w', c);
    }
    FewerKeepersKeepLeases(w, w');
  }

  lemma EnvironmentKeepsOpen(w: World, w': World, c: Card)
    requires Good(w) && Environment(w, w')
    ensures Open(w', c) <==> Open(w, c)
  {
    if Open(w, c) {
      var t: TaskId :| InsideTask(w, t) && c in w.sessions[t].open;
      assert InsideTask(w', t) && c in w'.sessions[t].open;
    }
    if Open(w', c) {
      var t: TaskId :| InsideTask(w', t) && c in w'.sessions[t].open;
      assert InsideTask(w, t) && c in w.sessions[t].open;
    }
  }

  lemma EnvironmentAccounts(w: World, w': World, c: Card)
    requires Good(w) && Environment(w, w') && c in w'.running
    ensures Accounted(w', c) && Sighted(w', c)
  {
    hide Open, TaskOk, LeasesOk, Inv;
    EnvironmentKeepsOpen(w, w', c);
    if c in w.running {
      assert Accounted(w, c) && Sighted(w, c);
    }
  }

  /** Lock traffic, entering and leaving change neither ledger nor hosts. */
  ghost predicate QuietStep(w: World, t: TaskId, w': World) {
    LockStep(w, t, w') || BeginStep(w, t, w') || EndStep(w, t, w')
  }

  lemma QuietStepGood(w: World, t: TaskId, w': World)
    requires Good(w) && w'.clock == w.clock + 1
    requires QuietStep(w, t, w')
    ensures Good(w')
  {
    StepInv(w.locks, t, w'.locks);
    FewerKeepersKeepLeases(w, w');
    forall u: TaskId | u < |w'.sessions| ensures TaskOk(w', u) {
      if u != t { OthersKeepTheirSession(w, w', u); }
    }
    forall c | c in w'.running ensures Accounted(w', c) && Sighted(w', c) {
      assert Accounted(w, c) && Sighted(w, c);
      QuietStepKeepsOpen(w, t, w', c);
    }
  }

  /** Nobody opens anything; only a task that leaves can let go of what it has open. */
  lemma QuietStepFrame(w: World, t: TaskId, w': World, u: TaskId)
    requires |w.sessions| == |w.locks.tasks| && QuietStep(w, t, w')
    ensures |w'.sessions| == |w.sessions| == |w'.locks.tasks|
    ensures InsideTask(w', u) && w'.sessions[u].open != {} ==> InsideTask(w, u) && w'.sessions[u] == w.sessions[u]
    ensures InsideTask(w, u) ==>
      (InsideTask(w', u) && w'.sessions[u] == w.sessions[u]) || (u == t && w'.astray == LetGo(w, w.sessions[t].open))
  {
    hide SameTables, LetGo;
  }

  lemma QuietStepKeepsOpen(w: World, t: TaskId, w': World, c: Card)
    requires Good(w) && QuietStep(w, t, w')
    ensures Open(w', c) ==> Open(w, c)
    ensures c in w.running && Open(w, c) ==> Open(w', c) || c in w'.marks || c in w'.astray.unmarked
    ensures Open(w, c) && !Open(w', c) ==> EndStep(w, t, w') && c in w.sessions[t].open
  {
    if Open(w, c) {
      var u: TaskId :| InsideTask(w, u) && c in w.sessions[u].open;
      QuietStepFrame(w, t, w', u);
    }
    if Open(w', c) {
      var u: TaskId :| InsideTask(w', u) && c in w'.sessions[u].open;
      QuietStepFrame(w, t, w', u);
    }
  }

  lemma RestartGood(w: World, w': World)
    requires Good(w) && Restart(w, w')
    ensures Good(w')
  {
    InitInv();
    FewerKeepersKeepLeases(w, w');
    forall c | c in w'.running ensures Accounted(w', c) && Sighted(w', c) {
      assert Accounted(w, c) && Sighted(w, c);
    }
  }

  /** An acting task opens and closes cards in its own session only. */
  lemma ActKeepsOpen(w: World, t: TaskId, ev: Event, w': World, c: Card)
    requires ActStep(w, t, ev, w')
    ensures InsideTask(w', t)
    ensures Open(w', c) && c !in w'.sessions[t].open ==> Open(w, c)
    ensures Open(w, c) && !Open(w', c) ==> c in w.sessions[t].open && c !in w'.sessions[t].open
    ensures (c in w.sessions[t].open ==> Open(w, c)) && (c in w'.sessions[t].open ==> Open(w', c))
  {
    assert InsideTask(w', t);
    if Open(w, c) {
      var u: TaskId :| InsideTask(w, u) && c in w.sessions[u].open;
      assert InsideTask(w', u);
      assert u != t ==> c in w'.sessions[u].open;
    }
    if Open(w', c) {
      var u: TaskId :| InsideTask(w', u) && c in w'.sessions[u].open;
      assert InsideTask(w, u);
      assert u != t ==> c in w.sessions[u].open;
    }
  }

  /** A running card loses its last record to a task only when something has gone wrong with it. */
  lemma ActKeepsRecords(w: World, t: TaskId, ev: Event, w': World, c: Card)
    requires Good(w) && ActStep(w, t, ev, w') && w'.clock == w.clock + 1
    requires c in w.running && c in w'.running && Recorded(w, c)
    ensures Recorded(w', c) || c in w'.astray.denied || c in w'.astray.late
  {
    hide Open, LeasesOk, Inv, Ascending;
    assert TaskOk(w, t);
  }

  /** What leaves a session's books while it runs is leased and seen, or marked, or something has gone wrong with it. */
  lemma ClosedIsRecorded(w: World, s: Session, ev: Event, w': World, c: Card)
    requires Effect(w, ev, w') && c in w'.running && c in s.open && c !in After(s, ev).open
    requires w'.astray == ActHistory(w, s, ev, w')
    ensures c in w'.marks || Astray(w', c) || (Kept(w', c) && c.host in w'.sightings && c in w'.sightings[c.host].busy)
  {}

  lemma ActAccounts(w: World, t: TaskId, ev: Event, w': World, c: Card)
    requires Good(w) && ActStep(w, t, ev, w') && w'.clock == w.clock + 1
    requires c in w'.running
    ensures Accounted(w', c)
  {
    hide Open, TaskOk, LeasesOk, Inv, Effect;
    ActKeepsOpen(w, t, ev, w', c);
    if c in w.running {
      assert Accounted(w, c);
      if Recorded(w, c) {
        ActKeepsRecords(w, t, ev, w', c);
      } else if Open(w, c) && !Open(w', c) {
        ClosedIsRecorded(w, w.sessions[t], ev, w', c);
      }
    } else {
      NewIsOpen(w, w.sessions[t], ev, w', c);
    }
  }

  /** Only a start adds a running card, and it opens it. */
  lemma NewIsOpen(w: World, s: Session, ev: Event, w': World, c: Card)
    requires Effect(w, ev, w') && c in w'.running && c !in w.running
    ensures c in After(s, ev).open
  {}

  lemma ActSights(w: World, t: TaskId, ev: Event, w': World, c: Card)
    requires Good(w) && ActStep(w, t, ev, w') && w'.clock == w.clock + 1
    requires c in w'.running
    ensures Sighted(w', c)
  {
    hide Open, TaskOk, LeasesOk, Inv;
    ActKeepsOpen(w, t, ev, w', c);
    if c !in w.running {
      NewIsOpen(w, w.sessions[t], ev, w', c);
    } else if Open(w, c) && !Open(w', c) {
      ClosedIsRecorded(w, w.sessions[t], ev, w', c);
    } else if !Open(w', c) {
      assert Sighted(w, c);
      SightStays(w, t, ev, w', c);
    }
  }

  /** A card that no task has open stays on the sighting, or a record or a new sighting takes its place. */
  lemma SightStays(w: World, t: TaskId, ev: Event, w': World, c: Card)
    requires Good(w) && ActStep(w, t, ev, w')
    requires c in w.running && c in w'.running && Sighted(w, c) && !Open(w, c) && !Open(w', c)
    ensures Sighted(w', c)
  {
    hide Open, LeasesOk, Inv, Ascending;
    assert TaskOk(w, t);
    ActKeepsOpen(w, t, ev, w', c);
  }

  lemma ActGood(w: World, t: TaskId, ev: Event, w': World)
    requires Good(w) && ActStep(w, t, ev, w') && w'.clock == w.clock + 1
    ensures Good(w')
  {
    var s := w.sessions[t];
    assert TaskOk(w, t);
    StepInv(w.locks, t, w'.locks);
    ActKeepsLeases(w, ev, w');
    forall u: TaskId | u < |w'.sessions| ensures TaskOk(w', u) {
      if u == t {
        ActKeepsSession(w, s, ev, w');
      } else {
        if InsideTask(w, u) {
          HeldApart(w, t, u);
          ActIsRelied(w, s, ev, w', w.sessions[u].held);
        }
        OthersKeepTheirSession(w, w', u);
      }
    }
    forall c | c in w'.running ensures Accounted(w', c) && Sighted(w', c) {
      ActAccounts(w, t, ev, w', c);
      ActSights(w, t, ev, w', c);
    }
  }

  lemma NextGood(w: World, w': World)
    requires Good(w) && Next(w, w')
    ensures Good(w')
  {
    if Environment(w, w') {
      EnvironmentGood(w, w');
    } else if Restart(w, w') {
      RestartGood(w, w');
    } else {
      var t :| TaskMoves(w, t, w');
      if exists ev :: ActStep(w, t, ev, w') {
        var ev :| ActStep(w, t, ev, w');
        ActGood(w, t, ev, w');
      } else {
        QuietStepGood(w, t, w');
      }
    }
  }

  lemma {:induction false} RunGood(run: seq<World>)
    requires Handoff.IsRun(run)
    ensures Good(run[|run| - 1])
  {
    if |run| == 1 {
      InitInv();
    } else {
      RunGood(run[..|run| - 1]);
      NextGood(run[|run| - 2], run[|run| - 1]);
    }
  }
}
