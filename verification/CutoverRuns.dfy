/** Any number of `--apply` and `--recover` runs, each of which may crash between any two effects. */
module CutoverRuns {
  import opened Text
  import opened CutoverWorld
  import opened CutoverRollback
  import opened CutoverController

  lemma NothingPinned(ids: Legacies)
    ensures Unaliased(UNPINNED, ids)
  {
    assert forall t: Target :: UNPINNED.Of(t) == None;
  }

  /** main with `--apply`: refused while a record exists. */
  method Apply(w: World) returns (o: Outcome)
    requires w.Sound()
    modifies w
    ensures w.Sound() && old(w.log) <= w.log
    ensures old(w.s.record) != Absent ==> !o.Done? && w.s == old(w.s) && w.log == old(w.log)
    ensures o.Done? ==> Migrated(w.s) && w.s.record == Absent && w.step == ALL_PLANNED && w.log == old(w.log)
    ensures w.oracle.Calm? && old(w.s.record) == Absent && Welcoming(old(w.s), w.ids) ==> o.Done?
    ensures w.oracle.Calm? && o.Raised? && HasChecks(old(w.s)) ==> StableTraffic(w.s) || w.s == old(w.s)
    ensures Helped(old(w.deeds), w.deeds)
  {
    hide World.Sound, Unaliased, HasChecks, Helped, StableTraffic, Welcoming;
    AlwaysHelped(w.deeds);
    WelcomingIsStable(w.s, w.ids);
    :- w.Check();
    if w.s.record != Absent {
      return Raised;
    }
    :- w.Check();
    if w.s.file != Stable {
      return Raised;
    }
    w.Begin();
    var c := new Controller(w, Some(w.s.env));
    NothingPinned(w.ids);
    ghost var first: Pins;
    o, first := c.Execute();
    forall t: Target | o.Done?
      ensures t in w.s.targets && w.s.targets[t].running && w.s.targets[t].health == Healthy
    {
      assert Serves(w.s, c.pins, t);
    }
  }

  lemma WelcomingIsStable(s: State, ids: Legacies)
    ensures Welcoming(s, ids) ==> s.file == Stable
  {
  }

  /** Every target serves and carries the traffic, the migration access is gone and the writers are down. */
  ghost predicate Migrated(s: State) {
    && s.file == s.live == Canary && Quiet(s) && !s.acl
    && forall t: Target :: t in s.targets && s.targets[t].running && s.targets[t].health == Healthy
  }

  /** The record belongs to this release and these legacy services. */
  predicate Loadable(s: State, ids: Legacies) {
    && s.record.Valid? && s.record.document.gitHead == s.gitHead && s.record.document.legacy == ids
  }

  /** The record can be taken over by this release and this private file. */
  predicate Usable(s: State, ids: Legacies, envAvailable: bool) {
    Loadable(s, ids) && envAvailable && s.record.document.envIdentity == s.env
  }

  /** The record can be taken over, and the sync unit is the recorded one. */
  predicate Intact(s: State, ids: Legacies, envAvailable: bool) {
    && Usable(s, ids, envAvailable)
    && s.record.document.fragment == s.fragment && s.record.document.fragmentHash == s.hash
  }

  /** load_cutover_state and restore_recovery_state in the `--recover` branch of main. */
  method LoadAndRestore(c: Controller) returns (o: Outcome)
    requires c.w.Sound() && c.pins == UNPINNED && !c.identityUnavailable && c.gitHead == None && c.fragment == None
    modifies c
    ensures c.w.Sound()
    ensures o.Done? ==> Loadable(c.w.s, c.w.ids)
                        && c.Ready() && c.Identified() && c.Fields() == FromDocument(c.w.s.record.document)
                        && (c.identityUnavailable <==> old(c.env).Some? && old(c.env).value != c.w.s.record.document.envIdentity)
    ensures !o.Done? ==> c.pins == UNPINNED && !c.identityUnavailable && c.fragment == None
    ensures c.w.oracle.Calm? ==> !o.Crashed? && (o.Done? <==> Loadable(c.w.s, c.w.ids))
  {
    hide World.Sound, Unaliased, FlagsCover;
    :- c.w.Check();
    if !c.w.s.record.Valid? {
      return Raised;
    }
    :- c.w.Check();
    c.gitHead := Some(c.w.s.gitHead);
    o := c.RestoreRecoveryState(c.w.s.record.document);
  }

  method MarkUnavailable(c: Controller, unavailable: bool)
    requires c.w.Sound() && Unaliased(c.pins, c.w.ids) && (!unavailable ==> c.Ready())
    modifies c`identityUnavailable
    ensures c.Ready() && c.identityUnavailable == (old(c.identityUnavailable) || unavailable)
  {
    hide World.Sound, Unaliased;
    c.identityUnavailable := c.identityUnavailable || unavailable;
  }

  /** A host whose commands do what they are meant to do, whatever of it runs: the record is intact, the
      targets are the recorded ones, and a `compose down` leaves only such as `docker inspect` fails for. */
  ghost predicate Recoverable(w: World, envAvailable: bool)
    reads w
  {
    && w.oracle.Calm? && Intact(w.s, w.ids, envAvailable) && HasChecks(w.s)
    && (forall t: Target :: t in w.s.targets ==> PinnedAs(w.s, w.s.record.document.targets, t))
    && (forall t: Target :: t in w.s.targets && t in w.oracle.lingering ==> w.s.targets[t].id in w.oracle.mute)
  }

  /** The sync unit is the recorded one, if a record is taken over. */
  predicate SyncRecorded(s: State, ids: Legacies) {
    Loadable(s, ids) ==> s.record.document.fragment == s.fragment && s.record.document.fragmentHash == s.hash
  }

  /** The controller of a recovery run; it trusts what it knows exactly if the record is intact. */
  method Prepare(w: World, envAvailable: bool) returns (o: Outcome, c: Controller)
    requires w.Sound()
    ensures fresh(c) && c.w == w && c.Ready() && !o.Raised?
    ensures o.Done? && !Intact(w.s, w.ids, envAvailable) ==> !c.Trusted(w.s)
    ensures Recoverable(w, envAvailable) ==> c.Undisturbed(w.s) && c.targetStarted == w.s.record.document.targetStarted
    ensures w.oracle.Calm? ==> o.Done? && (SyncRecorded(w.s, w.ids) ==> c.SyncKept(w.s))
  {
    hide World.Sound, Unaliased, FlagsCover;
    c := new Controller(w, if envAvailable then Some(w.s.env) else None);
    NothingPinned(w.ids);
    o := LoadAndRestore(c);
    MarkUnavailable(c, !envAvailable || !o.Done?);
    if o.Raised? {
      o := Done;
    }
  }

  /** main with `--recover`. Without an intact record the legacy services may come back, but nothing is taken
      down, emptied or cleared; success means that everything was taken back, as far as `docker inspect`
      could tell. On a host whose commands do what they are meant to do the legacy services carry the
      traffic in the end, whatever was down and whatever became of the record. */
  method Recover(w: World, envAvailable: bool) returns (o: Outcome)
    requires w.Sound()
    modifies w
    ensures w.Sound() && old(w.log) <= w.log
    ensures !old(Intact(w.s, w.ids, envAvailable)) ==>
              !o.Done? && w.log == old(w.log) && TargetsKept(old(w.s), w.s) && w.s.record == old(w.s).record
    ensures o.Done? ==> Restored(w.s, w.hidden) && w.s.record == Absent
    ensures Helped(old(w.deeds), w.deeds)
    ensures old(w.oracle.Calm? && HasChecks(w.s)) ==> StableTraffic(w.s) && (old(SyncRecorded(w.s, w.ids)) ==> w.s.syncActive)
    ensures old(Recoverable(w, envAvailable)) ==>
              && o.Done? && EndedInReset(w.log, w.s)
              && (old(w.s).record.document.targetStarted ==> w.s.targets.Keys == old(w.s).targets.Keys * w.oracle.lingering)
  {
    hide World.Sound, Unaliased, FlagsCover, Restored, TargetsKept, KeptByRollback, Dangling, Follows, EndsInReset,
         Controller.Ready, Controller.Undisturbed, EndedInReset, Helped, StableTraffic, Controller.Trusted, Controller.SyncKept;
    AlwaysHelped(w.deeds);
    SameTargets(w.s);
    RecoverableParts(w, envAvailable);
    hide Recoverable, HasChecks, Intact, SyncRecorded;
    :- w.Check();
    var c: Controller;
    o, c := Prepare(w, envAvailable);
    :- o;
    o := Finish(c);
  }

  /** The part of the recovery behind the loaded record. */
  method Finish(c: Controller) returns (o: Outcome)
    requires c.Ready()
    modifies c.w
    ensures c.w.Sound() && old(c.w.log) <= c.w.log
    ensures !old(c.Trusted(c.w.s)) ==>
              !o.Done? && c.w.log == old(c.w.log) && TargetsKept(old(c.w.s), c.w.s) && c.w.s.record == old(c.w.s).record
    ensures o.Done? ==> Restored(c.w.s, c.w.hidden) && c.w.s.record == Absent
    ensures Helped(old(c.w.deeds), c.w.deeds)
    ensures c.w.oracle.Calm? && HasChecks(old(c.w.s)) ==>
              StableTraffic(c.w.s) && (c.SyncKept(old(c.w.s)) ==> c.w.s.syncActive)
    ensures old(c.Undisturbed(c.w.s)) && HasChecks(old(c.w.s)) ==>
              o.Done? && EndedInReset(c.w.log, c.w.s) && (c.targetStarted ==> c.LeftOf(old(c.w.s), c.w.s))
    ensures c.w.oracle.Calm? && HasChecks(old(c.w.s)) && !o.Done? && c.Identified() && c.Trusted(c.w.s) ==>
              c.w.s.record == Valid(c.Recorded(RollbackIncomplete))
  {
    hide World.Sound, Unaliased, FlagsCover, Restored, TargetsKept, KeptByRollback, Dangling, Follows, HasChecks,
         Controller.Undisturbed, Helped, StableTraffic, Controller.Trusted, Controller.SyncKept, Controller.Recorded, Controller.LeftOf;
    c.UndisturbedIsCalm(c.w.s);
    var errors: seq<Label>;
    ghost var f: Findings, run: Run;
    o, errors, f, run := c.Rollback();
    RecordKept(old(c.w.s), c.w.s);
    if o.Crashed? {
      return;
    }
    ghost var before := c.w.s;
    if errors != [] {
      var persisted := c.PersistRecoveryState(RollbackIncomplete, false);
      c.StableWhen(before, c.w.s);
      c.TrustedWhen(old(c.w.s), before, c.w.s);
      return if persisted.Crashed? then Crashed else Raised;
    }
    RestoredIsNotDangling(c.w.s, c.w.hidden);
    o := c.w.Clear(false);
    c.StableWhen(before, c.w.s);
    c.LeftWhen(old(c.w.s), before, c.w.s);
    RestoredWithoutRecord(before, c.w.s, c.w.hidden);
  }

  /** The last destructive step was a reset that met the targets that are there now. */
  predicate EndedInReset(log: seq<Entry>, s: State) {
    log != [] && log[|log| - 1].Reset? && log[|log| - 1].before.targets == s.targets
  }

  lemma RecoverableParts(w: World, envAvailable: bool)
    ensures Recoverable(w, envAvailable) ==> Intact(w.s, w.ids, envAvailable) && HasChecks(w.s) && w.oracle.Calm?
  {
  }

  lemma SameTargets(s: State)
    ensures TargetsKept(s, s)
  {
  }

  lemma RecordKept(a: State, b: State)
    requires KeptByRollback(a, b)
    ensures b.record == a.record
  {
  }

  lemma RestoredWithoutRecord(a: State, b: State, hidden: set<nat>)
    requires b == a.(record := b.record)
    ensures Restored(a, hidden) ==> Restored(b, hidden)
  {
  }

  /** A record that was written restores, in a later run of the same release, the very fields it was
      written from. */
  method PersistThenRestart(c: Controller, phase: Phase) returns (o: Outcome, d: Controller)
    requires c.Ready() && c.Identified() && c.gitHead.value == c.w.s.gitHead
    modifies c.w`s, c.w`step
    ensures o.Done? ==> d.Identified() && d.Fields() == old(c.Fields()) && !d.identityUnavailable && d.Ready()
  {
    hide World.Sound, Unaliased, FlagsCover;
    d := c;
    o := c.PersistRecoveryState(phase, false);
    if !o.Done? {
      return;
    }
    d := new Controller(c.w, None);
    o := LoadAndRestore(d);
  }

  /** Between two runs the release, the private file and the sync unit may be changed. */
  method Elapse(w: World)
    requires w.Sound()
    modifies w`s
    ensures w.Sound()
    ensures w.s == old(w.s).(gitHead := w.s.gitHead, env := w.s.env, fragment := w.s.fragment, hash := w.s.hash)
  {
    var g: nat, e: nat, f: nat, h: nat := *, *, *, *;
    w.s := w.s.(gitHead := g, env := e, fragment := f, hash := h);
  }

  /** Every state that any sequence of runs can reach keeps the write-ahead rule for all containers that
      were never reported missing. Every destructive step met stable traffic and running legacy services; a
      `compose down` met only pinned targets besides those reported missing, and a reset met no container
      exactly if it met none that had been reported missing. Exactly the legacy services that were seen
      down were started. */
  method AnyRuns(w: World, n: nat)
    requires w.Sound()
    modifies w
    ensures WriteAhead(w.s, w.hidden, w.finalClear) && RecordCovers(w.s, w.hidden)
    ensures forall e :: e in w.log ==> StableTraffic(e.before)
    ensures forall e :: e in w.log && !e.Reset? ==> Owned(e.before, e.pins, e.hidden)
    ensures forall e :: e in w.log && e.Reset? ==> (NoTargets(e.before) <==> NoneHidden(e.before, e.hidden))
    ensures old(w.log) <= w.log && Helped(old(w.deeds), w.deeds)
  {
    hide RecordCovers, WriteAhead, NoTargets, NoneHidden, AllHidden, StableTraffic, Owned, Helped;
    AlwaysHelped(w.deeds);
    for i := 0 to n
      invariant w.Sound() && old(w.log) <= w.log && Helped(old(w.deeds), w.deeds)
    {
      hide World.Sound;
      Elapse(w);
      ghost var before := w.deeds;
      var o: Outcome, env: bool := Done, *;
      if * {
        o := Apply(w);
      } else {
        o := Recover(w, env);
      }
      HelpedChain(old(w.deeds), before, w.deeds);
    }
    forall e | e in w.log && e.Reset?
      ensures NoTargets(e.before) <==> NoneHidden(e.before, e.hidden)
    {
      ResetIffNoneHidden(e);
    }
  }

  /** A host before its first cutover satisfies the rules, so they hold after any runs on it. */
  method RunsOnFreshHost(oracle: Oracle, ids: Legacies, s: State, n: nat) returns (w: World)
    requires s.legacy.Keys == LEGACIES && NoTargets(s) && !s.stopIssued
    requires s.file == Stable && s.live == Stable && s.record == Absent
    ensures fresh(w) && WriteAhead(w.s, w.hidden, w.finalClear) && RecordCovers(w.s, w.hidden)
    ensures forall e :: e in w.log ==> StableTraffic(e.before)
    ensures forall e :: e in w.log && !e.Reset? ==> Owned(e.before, e.pins, e.hidden)
    ensures forall e :: e in w.log && e.Reset? ==> (NoTargets(e.before) <==> NoneHidden(e.before, e.hidden))
    ensures Helped([], w.deeds)
  {
    w := new World(oracle, ids, s);
    AnyRuns(w, n);
  }

  /* ---------------------------------------------------------------- a reset with a target present */

  const LEGACY_IDS := Legacies(1, 2, 3)

  /** The migrated application is left by `compose down` while `docker inspect` fails for it. */
  const TARGET := Container(4, true, Healthy)

  const RECORD := Document(StartingTarget, 0, 0, 0, 0, LEGACY_IDS, UNPINNED.(app := Some(4)), true, false, false, false, false)

  const INTERRUPTED := State(
    map[LegacyApp := Container(1, true, NoCheck), LegacyPostgres := Container(2, true, Healthy),
        LegacyRedis := Container(3, true, Healthy)],
    true, Stable, Stable, map[TargetApp := TARGET], None, 5, false, true, Valid(RECORD), 0, 0, 0, 0, false)

  /** A recovery that reports success has emptied the directories under a target that still exists: all
      inspections of it, by identity and by name, failed. */
  method MutedTargetSurvives() returns (o: Outcome, ghost log: seq<Entry>, left: State)
    ensures o.Done? && left.targets != map[] && left.record == Absent
    ensures log != [] && log[|log| - 1].Reset? && log[|log| - 1].before.targets == left.targets
  {
    var w := new World(Calm({4}, {TargetApp}), LEGACY_IDS, INTERRUPTED);
    InterruptedIsSound();
    o := Recover(w, true);
    log, left := w.log, w.s;
    assert TargetApp in left.targets;
  }

  lemma InterruptedIsSound()
    ensures INTERRUPTED.legacy.Keys == LEGACIES && Numbered(INTERRUPTED, {})
    ensures RecordCovers(INTERRUPTED, {})
  {
    assert forall t: Target :: RECORD.targets.Of(t) == if t == TargetApp then Some(4) else None;
  }
}
