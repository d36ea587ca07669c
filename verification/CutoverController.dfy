/** MaintenanceController of deploy/maintenance-cutover.py. */
module CutoverController {
  import opened Text
  import opened CutoverWorld
  import opened CutoverRollback

  /** The controller fields that the record carries. */
  datatype Memory = Memory(
    gitHead: nat, env: nat, fragment: nat, fragmentHash: nat, pins: Pins,
    targetStarted: bool, nonceTargetStarted: bool, nonceRuntimeActive: bool,
    writersStopped: bool, canaryActive: bool)

  function ToDocument(m: Memory, phase: Phase, ids: Legacies): Document {
    Document(phase, m.gitHead, m.env, m.fragment, m.fragmentHash, ids, m.pins, m.targetStarted,
             m.nonceTargetStarted, m.nonceRuntimeActive, m.writersStopped, m.canaryActive)
  }

  function FromDocument(d: Document): Memory {
    Memory(d.gitHead, d.envIdentity, d.fragment, d.fragmentHash, d.targets, d.targetStarted,
           d.nonceTargetStarted, d.nonceRuntimeActive, d.writersStopped, d.canaryActive)
  }

  lemma RecordIsSound(w: World, d: Document)
    requires w.Sound() && w.s.record == Valid(d)
    ensures Unaliased(d.targets, d.legacy) && FlagsCover(w.s, w.hidden, d.targetStarted, d.nonceTargetStarted)
  {
    hide Unaliased;
  }

  lemma IdledPins(a: State, b: State, pins: Pins)
    requires Idled(a, b)
    ensures forall t: Target :: PinnedAs(a, pins, t) ==> PinnedAs(b, pins, t)
  {
  }

  lemma UnpinKeepsUnaliased(pins: Pins, ids: Legacies, t: Target)
    requires Unaliased(pins, ids)
    ensures Unaliased(pins.With(t, None), ids)
  {
    var q := pins.With(t, None);
    assert forall a: Target :: q.Of(a) == if a == t then None else pins.Of(a);
  }

  lemma PinKeepsUnaliased(pins: Pins, ids: Legacies, t: Target, id: nat)
    requires Unaliased(pins, ids)
    requires forall other: Target :: other != t ==> pins.Of(other) != Some(id)
    requires forall l: Legacy :: ids.Id(l) != id
    ensures Unaliased(pins.With(t, Some(id)), ids)
  {
    var q := pins.With(t, Some(id));
    assert forall a: Target :: q.Of(a) == if a == t then Some(id) else pins.Of(a);
  }

  class Controller {
    const w: World
    var targetStarted: bool
    var nonceTargetStarted: bool
    var nonceRuntimeActive: bool
    var writersStopped: bool
    var canaryActive: bool
    var pins: Pins
    var identityUnavailable: bool
    var env: Option<nat>
    var fragment: Option<nat>
    var fragmentHash: Option<nat>
    var gitHead: Option<nat>

    constructor (w: World, env: Option<nat>)
      ensures this.w == w && this.env == env && pins == UNPINNED && !identityUnavailable
      ensures !targetStarted && !nonceTargetStarted && !writersStopped
      ensures fragment == None && fragmentHash == None && gitHead == None
    {
      this.w, this.env := w, env;
      targetStarted, nonceTargetStarted, nonceRuntimeActive, writersStopped, canaryActive := false, false, false, false, false;
      pins, identityUnavailable := UNPINNED, false;
      fragment, fragmentHash, gitHead := None, None, None;
    }

    /** The flags cover every container that exists and was never reported missing. */
    ghost predicate Covers()
      reads this, w`s, w`hidden, w`log, w`finalClear
    {
      FlagsCover(w.s, w.hidden, targetStarted, nonceTargetStarted)
    }

    ghost predicate Ready()
      reads this, w`s, w`hidden, w`log, w`finalClear
    {
      && w.Sound() && Unaliased(pins, w.ids)
      && (!identityUnavailable ==> Covers())
    }

    predicate Identified()
      reads this
    {
      gitHead.Some? && env.Some? && fragment.Some? && fragmentHash.Some?
    }

    function Fields(): Memory
      requires Identified()
      reads this
    {
      Memory(gitHead.value, env.value, fragment.value, fragmentHash.value, pins, targetStarted,
             nonceTargetStarted, nonceRuntimeActive, writersStopped, canaryActive)
    }

    /* -------------------------------------------------------------- the record */

    /** Nothing that the record pins has changed. */
    predicate IdentityKept(s: State)
      reads this
    {
      && !identityUnavailable && env == Some(s.env)
      && fragment == Some(s.fragment) && fragmentHash == Some(s.hash)
    }

    /** What require_recovery_identity demands: as `IdentityKept`, except that a controller which knows
        neither identity has nothing to compare, and one without a private file compares the unit. */
    predicate Trusted(s: State)
      reads this
    {
      && !identityUnavailable
      && ((env.None? && fragmentHash.None?)
          || ((env.None? || env.value == s.env) && fragment == Some(s.fragment) && fragmentHash == Some(s.hash)))
    }

    method RequireRecoveryIdentity() returns (o: Outcome)
      ensures o.Done? ==> Trusted(w.s)
      ensures w.oracle.Calm? ==> (o.Done? <==> Trusted(w.s))
      ensures w.oracle.Calm? ==> !o.Crashed?
    {
      if identityUnavailable {
        return Raised;
      }
      if env.None? && fragmentHash.None? {
        return Done;
      }
      if env.Some? && env.value != w.s.env {
        return Raised;
      }
      if fragment.None? || fragmentHash != Some(w.s.hash) {
        return Raised;
      }
      if fragment != Some(w.s.fragment) {
        return Raised;
      }
      o := w.Check();
    }

    method PersistRecoveryState(phase: Phase, ghost planned: bool) returns (o: Outcome)
      requires Ready() && (planned ==> w.Next(Persist(phase)))
      modifies w`s, w`step
      ensures Ready() && w.s == old(w.s).(record := w.s.record)
      ensures w.s.record == old(w.s).record || (Identified() && Trusted(w.s) && w.s.record == Valid(Recorded(phase)))
      ensures o.Done? ==> Identified() && Trusted(w.s) && w.s.record == Valid(Recorded(phase))
      ensures o.Done? ==> w.step == old(w.step) + (if planned then 1 else 0)
      ensures w.oracle.Calm? && Identified() && Trusted(w.s) ==> o.Done?
    {
      hide World.Sound, Unaliased, Controller.Recorded, Controller.Ready;
      :- RequireRecoveryIdentity();
      if !Identified() {
        return Raised;
      }
      o := WriteDocument(Recorded(phase), planned);
    }

    method WriteDocument(d: Document, ghost planned: bool) returns (o: Outcome)
      requires Ready() && !identityUnavailable && (planned ==> w.Next(Persist(d.phase)))
      requires d.targetStarted == targetStarted && d.nonceTargetStarted == nonceTargetStarted
      requires d.targets == pins && d.legacy == w.ids
      modifies w`s, w`step
      ensures Ready() && w.s == old(w.s).(record := w.s.record)
      ensures w.step == old(w.step) + (if planned then Took(o) else 0)
      ensures w.s.record == old(w.s).record || w.s.record == Valid(d)
      ensures o.Done? ==> w.s.record == Valid(d)
      ensures w.oracle.Calm? ==> o.Done?
    {
      hide World.Sound, Unaliased;
      o := w.WriteRecord(d, planned);
    }

    /** recovery_state_document */
    function Recorded(phase: Phase): (d: Document)
      requires Identified()
      reads this
      ensures d.targetStarted == targetStarted && d.nonceTargetStarted == nonceTargetStarted
      ensures d.targets == pins && d.legacy == w.ids && d.phase == phase
    {
      ToDocument(Fields(), phase, w.ids)
    }

    /** Takes over a loaded record; the current private file may already be another one. */
    method RestoreRecoveryState(d: Document) returns (o: Outcome)
      requires gitHead.Some? && w.Sound() && w.s.record == Valid(d) && pins == UNPINNED
      modifies this
      ensures gitHead == old(gitHead)
      ensures o.Done? <==> d.gitHead == gitHead.value && d.legacy == w.ids
      ensures o.Done? ==> Ready() && Identified() && Fields() == FromDocument(d)
      ensures o.Done? ==> identityUnavailable == (old(identityUnavailable) || (old(env).Some? && old(env).value != d.envIdentity))
      ensures !o.Done? ==> o.Raised? && unchanged(this)
    {
      RecordIsSound(w, d);
      hide World.Sound, Unaliased, FlagsCover;
      if d.gitHead != gitHead.value {
        return Raised;
      }
      if d.legacy != w.ids {
        return Raised;
      }
      if env.Some? && env.value != d.envIdentity {
        identityUnavailable := true;
      }
      Recall(d);
      return Done;
    }

    method Recall(d: Document)
      requires gitHead == Some(d.gitHead)
      modifies this
      ensures gitHead == old(gitHead) && identityUnavailable == old(identityUnavailable) && pins == d.targets
      ensures targetStarted == d.targetStarted && nonceTargetStarted == d.nonceTargetStarted
      ensures Identified() && Fields() == FromDocument(d)
    {
      env, fragment, fragmentHash := Some(d.envIdentity), Some(d.fragment), Some(d.fragmentHash);
      pins := d.targets;
      targetStarted, nonceTargetStarted := d.targetStarted, d.nonceTargetStarted;
      nonceRuntimeActive, writersStopped, canaryActive := d.nonceRuntimeActive, d.writersStopped, d.canaryActive;
    }

    /* -------------------------------------------------------------- rollback */

    /** One attempt to bring a service back: it is asked for its state, and if it is seen down it is
        started, whatever comes of that. */
    ghost predicate Attempted(a: seq<Deed>, b: seq<Deed>, v: Service, up: bool) {
      || b == a + [Looked(v)]
      || (!up && (b == a + [Looked(v), SawDown(v), Started(v)] || b == a + [Looked(v), SawDown(v), Started(v), StartFailed(v)]))
    }

    /** An attempt that succeeds was not given up on the way. */
    ghost predicate Succeeded(a: seq<Deed>, b: seq<Deed>, v: Service, up: bool) {
      b == a + if up then [Looked(v)] else [Looked(v), SawDown(v), Started(v)]
    }

    lemma AttemptHelps(a: seq<Deed>, b: seq<Deed>, v: Service, up: bool)
      requires Attempted(a, b, v, up)
      ensures Helped(a, b) && Looked(v) in b[|a|..]
    {
      var d := b[|a|..];
      assert d == [Looked(v)] || d == [Looked(v), SawDown(v), Started(v)] || d == [Looked(v), SawDown(v), Started(v), StartFailed(v)];
      assert d[0] == Looked(v);
      if |d| > 1 {
        assert d[1] == SawDown(v) && d[2] == Started(v);
      }
    }

    method EnsureLegacyRunning(l: Legacy, requireHealthy: bool) returns (o: Outcome)
      requires Ready()
      modifies w`s, w`sightings, w`deeds
      ensures Ready() && Waited(old(w.s), w.s)
      ensures o.Done? ==> Fit(w.s, l, requireHealthy)
      ensures w.sightings == old(w.sightings) + Sighted(o.Done? && requireHealthy, SawHealthy(l))
      ensures Attempted(old(w.deeds), w.deeds, Of(l), old(Running(w.s, l)))
      ensures o.Done? ==> Succeeded(old(w.deeds), w.deeds, Of(l), old(Running(w.s, l)))
      ensures w.oracle.Calm? && (requireHealthy ==> old(HealthOf(w.s, l)) != NoCheck) ==> o.Done?
    {
      hide World.Sound, FlagsCover, Unaliased, Waited;
      AlwaysWaited();
      ghost var calm := w.oracle.Calm? && (requireHealthy ==> HealthOf(w.s, l) != NoCheck);
      ghost var up := Running(w.s, l);
      var state :- w.LookAt(l);
      if !state.0 {
        o := w.StartLegacy(l);
        assert w.deeds == old(w.deeds) + ([Looked(Of(l)), SawDown(Of(l)), Started(Of(l))] + if o.Done? then [] else [StartFailed(Of(l))]);
        :- o;
      }
      var polls := w.Patience();
      while true
        invariant Ready() && Waited(old(w.s), w.s) && w.sightings == old(w.sightings)
        invariant Succeeded(old(w.deeds), w.deeds, Of(l), up)
        invariant calm ==> Running(w.s, l) && (polls == 0 ==> Fit(w.s, l, requireHealthy))
        decreases polls
      {
        state :- w.InspectLegacy(l);
        if state.0 {
          if !requireHealthy {
            return Done;
          }
          if state.1 == Healthy {
            w.NoteHealthy(l);
            return Done;
          }
          if state.1 == NoCheck {
            WaitedChecks(old(w.s), w.s, l);
            return Raised;
          }
        }
        if polls == 0 {
          return Raised;
        }
        polls := polls - 1;
        ghost var before := w.s;
        w.Sleep();
        IdledIsWaited(before, w.s);
        WaitedChecks(old(w.s), before, l);
      }
      return Raised;
    }

    lemma WaitedChecks(a: State, b: State, l: Legacy)
      requires Waited(a, b)
      ensures HealthOf(a, l) == NoCheck <==> HealthOf(b, l) == NoCheck
    {
    }

    /** The sync unit is the one that is known, if one is known. */
    predicate SyncKept(s: State)
      reads this
    {
      fragment.Some? ==> fragment.value == s.fragment && (fragmentHash.Some? ==> fragmentHash.value == s.hash)
    }

    method RestoreSync() returns (o: Outcome)
      requires Ready()
      modifies w`s, w`sightings, w`deeds
      ensures Ready() && Waited(old(w.s), w.s)
      ensures o.Done? ==> w.s.syncActive
      ensures w.sightings == old(w.sightings) + Sighted(o.Done?, SyncAnswers)
      ensures if SyncKept(old(w.s)) then w.deeds == old(w.deeds) || Attempted(old(w.deeds), w.deeds, SyncUnit, old(w.s.syncActive))
              else !o.Done? && w.s == old(w.s) && w.deeds == old(w.deeds)
      ensures o.Done? ==> Succeeded(old(w.deeds), w.deeds, SyncUnit, old(w.s.syncActive))
      ensures w.oracle.Calm? ==> !o.Crashed? && (SyncKept(old(w.s)) ==> o.Done?)
    {
      hide World.Sound, Waited, FlagsCover, Unaliased;
      AlwaysWaited();
      :- w.Check();
      if fragment.Some? && (fragment.value != w.s.fragment || (fragmentHash.Some? && fragmentHash.value != w.s.hash)) {
        return Raised;
      }
      var active :- w.LookAtSync();
      if !active {
        o := w.StartSync();
        assert w.deeds == old(w.deeds) + ([Looked(SyncUnit), SawDown(SyncUnit), Started(SyncUnit)] + if o.Done? then [] else [StartFailed(SyncUnit)]);
        :- o;
      }
      active :- w.SyncActive();
      if !active {
        return Raised;
      }
      o := Probe(SyncAnswers);
    }

    method Probe(p: Sighting) returns (o: Outcome)
      requires Ready()
      modifies w`sightings
      ensures Ready() && w.sightings == old(w.sightings) + Sighted(o.Done?, p)
      ensures w.oracle.Calm? ==> o.Done?
    {
      hide World.Sound, Unaliased, FlagsCover;
      o := w.Probe(p);
    }

    /** The first part of rollback(): every attempt is made, whatever became of the others. */
    method RestartLegacy() returns (o: Outcome, errors: seq<Label>, ghost f: Findings)
      requires Ready()
      modifies w`s, w`sightings, w`deeds
      ensures Ready() && Waited(old(w.s), w.s) && !o.Raised?
      ensures o.Done? ==> (f.postgres ==> Running(w.s, LegacyPostgres)) && (f.redis ==> Running(w.s, LegacyRedis))
                          && (f.app ==> Running(w.s, LegacyApp)) && (f.sync ==> w.s.syncActive)
      ensures o.Done? ==> errors == LegacyErrors(f) && w.sightings == old(w.sightings) + LegacySightings(f)
      ensures o.Done? ==> f == NOTHING.(postgres := f.postgres, redis := f.redis, app := f.app,
                                        appHealth := f.appHealth, sync := f.sync)
      ensures Helped(old(w.deeds), w.deeds)
      ensures o.Done? ==> forall l: Legacy :: Looked(Of(l)) in w.deeds[|old(w.deeds)|..]
      ensures w.oracle.Calm? && HasChecks(old(w.s)) ==> o.Done? && LegacyReady(f) && (SyncKept(old(w.s)) ==> f.sync)
    {
      hide World.Sound, Waited, FlagsCover, Unaliased, Running, Controller.Ready, Failure, Sighted, ContainerErrors, DataSightings,
           LegacyErrors, LegacySightings, HasChecks, Helped, Controller.Attempted,
           Controller.Succeeded, Controller.SyncKept;
      AlwaysWaited();
      f := NOTHING;
      o, errors, f := RestartContainers();
      if o.Crashed? { return; }
      ghost var s1, d1 := w.s, w.deeds;
      o := Probe(AppAnswers);
      if o.Crashed? { return; }
      var appHealth := o.Done?;
      o := RestoreSync();
      SyncHelped(old(w.deeds), d1, w.deeds, s1.syncActive);
      WaitedSync(old(w.s), s1);
      if o.Crashed? { return; }
      HealthChecked(f, appHealth, o.Done?, old(w.sightings));
      errors := errors + Failure(appHealth, AppHealth) + Failure(o.Done?, SyncHealth);
      f := f.(appHealth := appHealth, sync := o.Done?);
      o := Done;
    }

    lemma SyncHelped(a: seq<Deed>, b: seq<Deed>, c: seq<Deed>, up: bool)
      requires Helped(a, b) && (c == b || Attempted(b, c, SyncUnit, up))
      ensures Helped(a, c) && forall d :: d in b[|a|..] ==> d in c[|a|..]
    {
      if c != b {
        AttemptHelps(b, c, SyncUnit, up);
        HelpedChain(a, b, c);
      }
    }

    lemma WaitedSync(a: State, b: State)
      requires Waited(a, b)
      ensures SyncKept(a) <==> SyncKept(b)
    {
    }

    method RestartContainers() returns (o: Outcome, errors: seq<Label>, ghost f: Findings)
      requires Ready()
      modifies w`s, w`sightings, w`deeds
      ensures Ready() && Waited(old(w.s), w.s) && !o.Raised?
      ensures o.Done? ==> (f.postgres ==> Running(w.s, LegacyPostgres)) && (f.redis ==> Running(w.s, LegacyRedis))
                          && (f.app ==> Running(w.s, LegacyApp))
      ensures o.Done? ==> errors == ContainerErrors(f)
      ensures o.Done? ==> w.sightings == old(w.sightings) + DataSightings(f)
      ensures f == NOTHING.(postgres := f.postgres, redis := f.redis, app := f.app)
      ensures Helped(old(w.deeds), w.deeds)
      ensures o.Done? ==> forall l: Legacy :: Looked(Of(l)) in w.deeds[|old(w.deeds)|..]
      ensures w.oracle.Calm? && HasChecks(old(w.s)) ==> o.Done? && f.postgres && f.redis && f.app
    {
      hide World.Sound, Waited, FlagsCover, Unaliased, Running, Controller.Ready, Failure, Sighted, Helped, Controller.Attempted,
           Controller.Succeeded, HealthOf;
      AlwaysWaited();
      errors, f := [], NOTHING;
      o := EnsureLegacyRunning(LegacyPostgres, true);
      ghost var s1, d1 := w.s, w.deeds;
      AttemptHelps(old(w.deeds), d1, Of(LegacyPostgres), Running(old(w.s), LegacyPostgres));
      if o.Crashed? { return; }
      errors, f := Failure(o.Done?, PostgresStart), f.(postgres := o.Done?);
      o := EnsureLegacyRunning(LegacyRedis, true);
      ghost var s2, d2 := w.s, w.deeds;
      AttemptHelps(d1, d2, Of(LegacyRedis), Running(s1, LegacyRedis));
      HelpedChain(old(w.deeds), d1, d2);
      WaitedChecks(old(w.s), s1, LegacyRedis);
      if o.Crashed? { return; }
      errors, f := errors + Failure(o.Done?, RedisStart), f.(redis := o.Done?);
      o := EnsureLegacyRunning(LegacyApp, false);
      AttemptHelps(d2, w.deeds, Of(LegacyApp), Running(s2, LegacyApp));
      HelpedChain(old(w.deeds), d2, w.deeds);
      if o.Crashed? { return; }
      NotSighted(w.sightings, SawHealthy(LegacyApp));
      errors, f := errors + Failure(o.Done?, AppStart), f.(app := o.Done?);
      forall l: Legacy
        ensures Looked(Of(l)) in w.deeds[|old(w.deeds)|..]
      {
        match l
        case LegacyApp =>
        case LegacyPostgres =>
        case LegacyRedis =>
      }
      o := Done;
    }

    lemma NotSighted(sightings: seq<Sighting>, p: Sighting)
      ensures sightings + Sighted(false, p) == sightings
    {
    }

    /** The stable switch, and a probe of the legacy application behind it. */
    method RestoreStable() returns (o: Outcome)
      requires Ready()
      modifies w`s, w`sightings, w`step
      ensures Ready() && w.s == old(w.s).(file := w.s.file, live := w.s.live)
      ensures o.Done? ==> w.s.file == w.s.live == Stable
      ensures w.sightings == old(w.sightings) + Sighted(o.Done?, AppAnswers)
      ensures w.oracle.Calm? ==> o.Done?
    {
      hide World.Sound, Unaliased;
      :- w.Switch(Stable);
      o := w.Probe(AppAnswers);
    }

    /** One round of require_target_cleanup_identity: an unpinned container is refused, and so is a
        name that no longer belongs to the pinned identity. */
    method RequireCleanupIdentityOf(t: Target) returns (o: Outcome)
      requires Ready()
      modifies w`hidden, w`answers
      ensures Ready() && old(w.hidden) <= w.hidden
      ensures o.Done? && t in w.s.targets ==> pins.Of(t) == Some(w.s.targets[t].id) || w.s.targets[t].id in w.hidden
      ensures o.Done? ==> w.answers == old(w.answers) + if pins.Of(t).None? then [Inspection(t, None, false)]
                                                        else if w.answers == old(w.answers) + [Inspection(t, pins.Of(t), true)]
                                                        then [Inspection(t, pins.Of(t), true)]
                                                        else [Inspection(t, pins.Of(t), false), Inspection(t, None, false)]
      ensures w.oracle.Calm? && (t in w.s.targets ==> PinnedAs(w.s, pins, t)) ==> o.Done?
      ensures w.oracle.Calm? ==> !o.Crashed?
    {
      hide World.Sound, Unaliased, FlagsCover;
      if pins.Of(t).None? {
        var found :- FindTarget(t, None);
        if found.Some? {
          return Raised;
        }
      } else {
        var runtime :- FindTarget(t, pins.Of(t));
        if runtime.None? {
          var found :- FindTarget(t, None);
          if found.Some? {
            return Raised;
          }
        }
      }
      return Done;
    }

    /** An inspection with failure allowed; what it hides does not matter to the flags. */
    method FindTarget(t: Target, pinned: Option<nat>) returns (r: Reply<Option<Container>>)
      requires Ready()
      modifies w`hidden, w`answers
      ensures Ready() && old(w.hidden) <= w.hidden
      ensures w.answers == old(w.answers) + if r.Answer? then [Inspection(t, pinned, r.value.Some?)] else []
      ensures r.Answer? && r.value.None? && Present(w.s, t, pinned) ==> w.s.targets[t].id in w.hidden
      ensures r.Answer? && r.value.Some? ==> Present(w.s, t, pinned) && r.value.value == w.s.targets[t]
      ensures r.Failed? ==> !r.outcome.Done?
      ensures w.oracle.Calm? ==> r.Answer?
      ensures w.oracle.Calm? && Present(w.s, t, pinned) ==> r.value.None? == (w.s.targets[t].id in w.oracle.mute)
    {
      hide World.Sound, Unaliased, FlagsCover;
      r := w.InspectTarget(t, pinned);
      MoreHidden(w.s, old(w.hidden), w.hidden);
    }

    method RequireTargetCleanupIdentity() returns (o: Outcome)
      requires Ready()
      modifies w`hidden, w`answers
      ensures Ready() && old(w.hidden) <= w.hidden
      ensures o.Done? ==> Owned(w.s, pins, w.hidden)
      ensures w.oracle.Calm? && (forall t: Target :: t in w.s.targets ==> PinnedAs(w.s, pins, t)) ==> o.Done?
      ensures w.oracle.Calm? ==> !o.Crashed?
    {
      hide World.Sound, Unaliased, FlagsCover, Controller.Ready;
      o := RequireCleanupIdentityOf(TargetApp);
      :- o;
      :- RequireCleanupIdentityOf(TargetPostgres);
      o := RequireCleanupIdentityOf(TargetRedis);
      AllTargets();
    }

    method RequireAbsent(t: Target) returns (o: Outcome)
      requires Ready()
      modifies w`hidden, w`answers
      ensures Ready() && old(w.hidden) <= w.hidden
      ensures o.Done? ==> TargetHidden(w.s, w.hidden, t)
      ensures o.Done? ==> w.answers == old(w.answers) + (if pins.Of(t).Some? then [Inspection(t, pins.Of(t), false)] else [])
                                       + [Inspection(t, None, false)]
      ensures w.oracle.Calm? && TargetHidden(w.s, w.oracle.mute, t) ==> o.Done?
      ensures w.oracle.Calm? ==> !o.Crashed?
    {
      hide World.Sound, Unaliased, FlagsCover;
      if pins.Of(t).Some? {
        var runtime :- FindTarget(t, pins.Of(t));
        if runtime.Some? {
          return Raised;
        }
      }
      var found :- FindTarget(t, None);
      o := if found.Some? then Raised else Done;
    }

    method RequireTargetsAbsentAfterCleanup() returns (o: Outcome)
      requires Ready()
      modifies w`hidden, w`answers
      ensures Ready() && old(w.hidden) <= w.hidden
      ensures o.Done? ==> TargetsHidden(w.s, w.hidden)
      ensures w.oracle.Calm? && TargetsHidden(w.s, w.oracle.mute) ==> o.Done?
      ensures w.oracle.Calm? ==> !o.Crashed?
    {
      hide World.Sound, Unaliased, FlagsCover, Controller.Ready;
      o := RequireAbsent(TargetApp);
      :- o;
      :- RequireAbsent(TargetPostgres);
      o := RequireAbsent(TargetRedis);
      if o.Done? {
        ByName(w.s, w.hidden);
      }
    }

    /** On a calm host, every target that the next `compose down` leaves is one whose inspections fail. */
    predicate LeftUnseen(s: State)
      reads this
    {
      w.oracle.Calm? && forall t: Target :: t in s.targets && t in w.oracle.lingering ==> s.targets[t].id in w.oracle.mute
    }

    /** `now` holds the targets of `was` that a `compose down` leaves on a calm host. */
    predicate LeftOf(was: State, now: State)
      reads this
    {
      w.oracle.Calm? && now.targets.Keys == was.targets.Keys * w.oracle.lingering
    }

    method IsolateTraffic() returns (o: Outcome)
      requires Ready() && StableTraffic(w.s) && Owned(w.s, pins, w.hidden)
      modifies w`s, w`log, w`hidden, w`answers
      ensures Ready() && old(w.hidden) <= w.hidden
      ensures || w.log == old(w.log) + [Down(old(w.s), pins, old(w.hidden), true)]
              || (!o.Done? && w.log == old(w.log) + [Down(old(w.s), pins, old(w.hidden), false)])
      ensures w.s == old(w.s).(targets := w.s.targets) && Fewer(old(w.s), w.s)
      ensures o.Done? ==> TargetsHidden(w.s, w.hidden)
      ensures LeftUnseen(old(w.s)) ==> o.Done? && LeftOf(old(w.s), w.s)
      ensures w.oracle.Calm? ==> !o.Crashed?
    {
      hide World.Sound, Unaliased;
      o := w.ComposeDown(pins);
      FewerCovered(old(w.s), w.s);
      :- o;
      o := RequireTargetsAbsentAfterCleanup();
    }

    method IsolateNonce() returns (o: Outcome)
      requires Ready() && StableTraffic(w.s) && Owned(w.s, pins, w.hidden)
      modifies w`s, w`log, w`hidden, w`answers, w`step
      ensures Ready() && old(w.hidden) <= w.hidden
      ensures || w.log == old(w.log) + [NonceDown(old(w.s), pins, old(w.hidden), true)]
              || (!o.Done? && w.log == old(w.log) + [NonceDown(old(w.s), pins, old(w.hidden), false)])
      ensures w.s == old(w.s).(nonce := w.s.nonce, acl := w.s.acl) && (w.s.nonce == old(w.s).nonce || w.s.nonce.None?)
      ensures o.Done? ==> !w.s.acl && NonceHidden(w.s, w.hidden)
      ensures w.oracle.Calm? ==> o.Done? && w.s.nonce.None?
    {
      hide World.Sound, Unaliased, Controller.Ready;
      :- TakeNonceDown();
      var found :- FindNonce();
      if found.Some? {
        return Raised;
      }
      o := TakeAclDown();
    }

    method FindNonce() returns (r: Reply<Option<Container>>)
      requires Ready()
      modifies w`hidden, w`answers
      ensures Ready() && old(w.hidden) <= w.hidden
      ensures r.Answer? && r.value.None? ==> NonceHidden(w.s, w.hidden)
      ensures r.Answer? && r.value.Some? ==> w.s.nonce.Some?
      ensures r.Failed? ==> !r.outcome.Done?
      ensures w.oracle.Calm? ==> r.Answer?
    {
      hide World.Sound, Unaliased, FlagsCover;
      r := w.InspectNonce();
      MoreHidden(w.s, old(w.hidden), w.hidden);
    }

    method TakeNonceDown() returns (o: Outcome)
      requires Ready() && StableTraffic(w.s) && Owned(w.s, pins, w.hidden)
      modifies w`s, w`log
      ensures Ready() && w.log == old(w.log) + [NonceDown(old(w.s), pins, w.hidden, o.Done?)]
      ensures w.s == old(w.s) || w.s == old(w.s).(nonce := None)
      ensures w.oracle.Calm? ==> o.Done? && w.s.nonce.None?
    {
      hide World.Sound, Unaliased;
      o := w.ComposeNonceDown(pins);
    }

    method TakeAclDown() returns (o: Outcome)
      requires Ready()
      modifies w`s, w`step
      ensures Ready() && w.s == old(w.s).(acl := w.s.acl) && (o.Done? ==> !w.s.acl)
      ensures w.oracle.Calm? ==> o.Done?
    {
      hide World.Sound, Unaliased;
      o := w.ConfigureAcl(false, false);
    }

    method IsolateTrafficIfStarted() returns (o: Outcome, errors: seq<Label>)
      requires Ready() && StableTraffic(w.s) && !identityUnavailable && Owned(w.s, pins, w.hidden)
      modifies w`s, w`log, w`hidden, w`answers
      ensures Ready() && StableTraffic(w.s) && Shrunk(old(w.s), w.s) && old(w.hidden) <= w.hidden
      ensures || w.log == old(w.log) + (if targetStarted then [Down(old(w.s), pins, old(w.hidden), true)] else [])
              || (!o.Done? && w.log == old(w.log) + (if targetStarted then [Down(old(w.s), pins, old(w.hidden), false)] else []))
      ensures errors == if targetStarted then Failure(o.Done?, TrafficIsolation) else []
      ensures !targetStarted ==> o.Done?
      ensures o.Done? ==> TargetsHidden(w.s, w.hidden)
      ensures LeftUnseen(old(w.s)) ==> o.Done? && (targetStarted ==> LeftOf(old(w.s), w.s))
      ensures w.oracle.Calm? ==> !o.Crashed?
    {
      hide World.Sound, Unaliased, StableTraffic, Shrunk, Owned;
      AlwaysShrunk();
      o, errors := Done, [];
      if targetStarted {
        o := IsolateTraffic();
        ShrunkTraffic(old(w.s), w.s);
        errors := Failure(o.Done?, TrafficIsolation);
      }
    }

    method IsolateNonceIfStarted() returns (o: Outcome, errors: seq<Label>)
      requires Ready() && StableTraffic(w.s) && !identityUnavailable && Owned(w.s, pins, w.hidden)
      modifies w`s, w`log, w`hidden, w`answers, w`step
      ensures Ready() && StableTraffic(w.s) && Shrunk(old(w.s), w.s) && old(w.hidden) <= w.hidden
      ensures || w.log == old(w.log) + (if nonceTargetStarted then [NonceDown(old(w.s), pins, old(w.hidden), true)] else [])
              || (!o.Done? && w.log == old(w.log) + (if nonceTargetStarted then [NonceDown(old(w.s), pins, old(w.hidden), false)] else []))
      ensures w.s.targets == old(w.s).targets
      ensures errors == if nonceTargetStarted then Failure(o.Done?, NonceIsolation) else []
      ensures o.Done? ==> NonceHidden(w.s, w.hidden)
      ensures nonceTargetStarted && o.Done? ==> !w.s.acl
      ensures !nonceTargetStarted ==> o.Done? && w.s == old(w.s)
      ensures w.oracle.Calm? ==> o.Done?
    {
      hide World.Sound, Unaliased, StableTraffic, Shrunk, Owned;
      AlwaysShrunk();
      o, errors := Done, [];
      if nonceTargetStarted {
        o := IsolateNonce();
        ShrunkNonce(old(w.s), w.s);
        errors := Failure(o.Done?, NonceIsolation);
      }
    }

    /** Down for the started targets and for the started nonce target. */
    method Isolate() returns (o: Outcome, errors: seq<Label>, traffic: bool, nonce: bool, ghost entries: seq<Entry>)
      requires Ready() && StableTraffic(w.s) && !identityUnavailable && Owned(w.s, pins, w.hidden)
      modifies w`s, w`log, w`hidden, w`answers, w`step
      ensures Ready() && !o.Raised? && StableTraffic(w.s)
      ensures w.log == old(w.log) + entries && Shrunk(old(w.s), w.s) && old(w.hidden) <= w.hidden
      ensures o.Done? ==> errors == IsolationErrors(NOTHING.(traffic := traffic, nonce := nonce), targetStarted, nonceTargetStarted)
      ensures o.Done? ==> StepsOf(entries) == IsolationSteps(targetStarted, nonceTargetStarted)
      ensures o.Done? ==> Acknowledged(NOTHING.(traffic := traffic, nonce := nonce), entries)
      ensures o.Done? ==>
                IsolationFound(NOTHING.(traffic := traffic, nonce := nonce), w.s, w.hidden, targetStarted, nonceTargetStarted)
      ensures LeftUnseen(old(w.s)) ==> o.Done? && traffic && nonce && (targetStarted ==> LeftOf(old(w.s), w.s))
      ensures w.oracle.Calm? ==> o.Done?
    {
      hide World.Sound, Unaliased, StableTraffic, Shrunk, Controller.Ready, FlagsCover, TargetsHidden, NonceHidden, Owned,
           Controller.LeftUnseen, StepsOf, IsolationSteps, Acknowledged, Failure;
      UnseenIsCalm(w.s);
      traffic, nonce := false, false;
      o, errors := IsolateTrafficIfStarted();
      ghost var down := w.log == old(w.log) + if targetStarted then [Down(old(w.s), pins, old(w.hidden), true)] else [];
      entries := if targetStarted then [Down(old(w.s), pins, old(w.hidden), down)] else [];
      if o.Crashed? { return; }
      traffic := o.Done?;
      var more: seq<Label>;
      ghost var middle, hidden, log := w.s, w.hidden, w.log;
      ShrunkOwned(old(w.s), middle, old(w.hidden), hidden);
      o, more := IsolateNonceIfStarted();
      ghost var nonceDown := w.log == log + if nonceTargetStarted then [NonceDown(middle, pins, hidden, true)] else [];
      entries := entries + if nonceTargetStarted then [NonceDown(middle, pins, hidden, nonceDown)] else [];
      ShrunkChain(old(w.s), middle, w.s);
      StillHidden(middle, w.s, hidden, w.hidden);
      if o.Crashed? { return; }
      errors, nonce := errors + more, o.Done?;
      Isolated(entries, old(w.s), middle, old(w.hidden), hidden, down, nonceDown, traffic, nonce);
      o := Done;
    }

    /** The entries of an isolation, as steps and with the outcomes of their commands. */
    lemma Isolated(entries: seq<Entry>, a: State, b: State, h: set<nat>, k: set<nat>, down: bool, nonceDown: bool, traffic: bool, nonce: bool)
      requires entries == (if targetStarted then [Down(a, pins, h, down)] else [])
                          + (if nonceTargetStarted then [NonceDown(b, pins, k, nonceDown)] else [])
      requires (traffic && targetStarted ==> down) && (nonce && nonceTargetStarted ==> nonceDown)
      ensures StepsOf(entries) == IsolationSteps(targetStarted, nonceTargetStarted)
      ensures Acknowledged(NOTHING.(traffic := traffic, nonce := nonce), entries)
    {
    }

    lemma ShrunkOwned(a: State, b: State, h: set<nat>, k: set<nat>)
      requires Shrunk(a, b) && Owned(a, pins, h) && h <= k
      ensures Owned(b, pins, k)
    {
    }

    lemma StillHidden(a: State, b: State, h: set<nat>, k: set<nat>)
      requires b.targets == a.targets && h <= k
      ensures TargetsHidden(a, h) ==> TargetsHidden(b, k)
    {
    }

    method ResetTarget() returns (o: Outcome)
      requires Ready() && StableTraffic(w.s) && AllHidden(w.s, w.hidden)
      modifies w`s, w`log
      ensures Ready() && StableTraffic(w.s) && Shrunk(old(w.s), w.s)
      ensures w.log == old(w.log) + [Reset(old(w.s), w.hidden)] && w.s == old(w.s).(data := w.s.data)
      ensures AllHidden(w.s, w.hidden)
      ensures o.Done? ==> !w.s.data
      ensures w.oracle.Calm? ==> o.Done?
    {
      hide World.Sound, Unaliased, Shrunk;
      o := w.EmptyTargetDirectories();
      ShrunkData(old(w.s), w.s);
    }

    /** On a calm host where nothing that the record pins has changed, with only such targets as are pinned
        and as the next `compose down` takes away or hides. */
    predicate Undisturbed(s: State)
      reads this
    {
      && IdentityKept(s) && LeftUnseen(s)
      && forall t: Target :: t in s.targets ==> PinnedAs(s, pins, t)
    }

    lemma WaitedUndisturbed(a: State, b: State, c: State)
      requires Waited(a, b)
      ensures Undisturbed(a) ==> Undisturbed(b) && w.oracle.Calm?
      ensures LeftOf(b, c) ==> LeftOf(a, c)
      ensures Trusted(a) <==> Trusted(b)
    {
      assert Undisturbed(a) ==> forall t: Target :: t in b.targets ==> PinnedAs(a, pins, t);
    }

    lemma SwitchedUndisturbed(a: State, b: State, c: State)
      requires b == a.(file := b.file, live := b.live)
      ensures Undisturbed(a) ==> Undisturbed(b) && w.oracle.Calm?
      ensures forall l: Legacy :: Running(a, l) <==> Running(b, l)
      ensures LeftOf(b, c) ==> LeftOf(a, c)
      ensures Trusted(a) <==> Trusted(b)
    {
      assert Undisturbed(a) ==> forall t: Target :: t in b.targets ==> PinnedAs(a, pins, t);
    }

    lemma UndisturbedIsCalm(s: State)
      ensures Undisturbed(s) ==> w.oracle.Calm?
    {
    }

    lemma UnseenIsCalm(s: State)
      ensures LeftUnseen(s) ==> w.oracle.Calm?
    {
    }

    method VerifyCleanup() returns (o: Outcome)
      requires Ready()
      modifies w`hidden, w`answers
      ensures Ready() && old(w.hidden) <= w.hidden
      ensures o.Done? ==> Trusted(w.s) && Owned(w.s, pins, w.hidden)
      ensures Undisturbed(w.s) ==> o.Done?
      ensures w.oracle.Calm? ==> !o.Crashed?
    {
      hide World.Sound, Unaliased, FlagsCover, Controller.Ready;
      :- RequireRecoveryIdentity();
      o := RequireTargetCleanupIdentity();
    }

    /** The cleanup after traffic is back on the legacy services: down, nonce down, reset. */
    method Cleanup(ghost start: Findings) returns (o: Outcome, errors: seq<Label>, ghost f: Findings, ghost entries: seq<Entry>)
      requires Ready() && StableTraffic(w.s)
      requires StableRestored(start) && start.identity == start.traffic == start.nonce == start.reset == false
      modifies w`s, w`log, w`hidden, w`answers, w`step
      ensures Ready() && !o.Raised? && StableTraffic(w.s)
      ensures w.log == old(w.log) + entries && Shrunk(old(w.s), w.s)
      ensures !Trusted(old(w.s)) ==> entries == [] && w.s == old(w.s) && (o.Done? ==> |errors| > 0)
      ensures o.Done? ==> CleanupRun(f, Run(targetStarted, nonceTargetStarted, errors, entries, [], w.s, w.hidden))
      ensures o.Done? ==> f == start.(identity := f.identity, traffic := f.traffic, nonce := f.nonce, reset := f.reset)
      ensures w.oracle.Calm? ==> o.Done?
      ensures Undisturbed(old(w.s)) ==> errors == [] && IdentityVerified(f) && f.traffic && f.nonce
                                        && (targetStarted ==> LeftOf(old(w.s), w.s))
    {
      hide World.Sound, Unaliased, StableTraffic, FlagsCover, Shrunk, TargetsHidden, NonceHidden, Controller.Ready, PinnedAs, CleanupRun,
           Owned, Controller.LeftUnseen;
      NothingShrunk(w.s);
      UnseenIsCalm(w.s);
      f, errors, entries := start, [RecoveryIdentity], [];
      o := VerifyCleanup();
      if o.Crashed? { return; }
      if o.Raised? {
        UnverifiedRun(f, Run(targetStarted, nonceTargetStarted, errors, entries, [], w.s, w.hidden));
        o := Done;
        return;
      }
      f := f.(identity := true);
      o, errors, f, entries := CleanVerified(f);
    }

    method CleanVerified(ghost start: Findings) returns (o: Outcome, errors: seq<Label>, ghost f: Findings, ghost entries: seq<Entry>)
      requires Ready() && StableTraffic(w.s) && !identityUnavailable && Owned(w.s, pins, w.hidden)
      requires IdentityVerified(start) && start.traffic == start.nonce == start.reset == false
      modifies w`s, w`log, w`hidden, w`answers, w`step
      ensures Ready() && !o.Raised? && StableTraffic(w.s)
      ensures w.log == old(w.log) + entries && Shrunk(old(w.s), w.s)
      ensures o.Done? ==> CleanupRun(f, Run(targetStarted, nonceTargetStarted, errors, entries, [], w.s, w.hidden))
      ensures o.Done? ==> f == start.(traffic := f.traffic, nonce := f.nonce, reset := f.reset)
      ensures w.oracle.Calm? ==> o.Done?
      ensures LeftUnseen(old(w.s)) ==> errors == [] && f.traffic && f.nonce && (targetStarted ==> LeftOf(old(w.s), w.s))
    {
      hide World.Sound, Unaliased, StableTraffic, FlagsCover, Shrunk, TargetsHidden, NonceHidden, Controller.Ready, PinnedAs,
           CleanupRun, Controller.LeftUnseen, Owned;
      var traffic: bool, nonce: bool;
      f := start;
      UnseenIsCalm(w.s);
      o, errors, traffic, nonce, entries := Isolate();
      if o.Crashed? { return; }
      f := f.(traffic := traffic, nonce := nonce);
      if !(traffic && nonce) {
        IsolationRun(f, Run(targetStarted, nonceTargetStarted, errors, entries, [], w.s, w.hidden));
        return;
      }
      ghost var middle := w.s;
      assert AllHidden(w.s, w.hidden);
      o := ResetTarget();
      ghost var isolated, e := entries, Reset(middle, w.hidden);
      entries := entries + [e];
      ShrunkChain(old(w.s), middle, w.s);
      if o.Crashed? { return; }
      f, errors := f.(reset := o.Done?), errors + Failure(o.Done?, SanitizedReset);
      ResetRun(f, Run(targetStarted, nonceTargetStarted, errors, entries, [], w.s, w.hidden), isolated, e);
      o := Done;
    }

    /** rollback(): the legacy services come first, the cleanup only behind restored stable traffic. A legacy
        service that is seen down has a start command issued, also if the run is cut off behind that; on a
        host whose commands take effect all of them run in the end, whatever was down. */
    method Rollback() returns (o: Outcome, errors: seq<Label>, ghost f: Findings, ghost run: Run)
      requires Ready()
      modifies w`s, w`log, w`hidden, w`answers, w`sightings, w`deeds, w`step
      ensures Ready() && !o.Raised?
      ensures w.log == old(w.log) + run.log && KeptByRollback(old(w.s), w.s)
      ensures !Trusted(old(w.s)) ==> run.log == [] && TargetsKept(old(w.s), w.s) && (o.Done? ==> |errors| > 0)
      ensures o.Done? ==> w.sightings == old(w.sightings) + run.sightings && Follows(run, f)
      ensures o.Done? ==> run == Run(targetStarted, nonceTargetStarted, errors, run.log, run.sightings, w.s, w.hidden)
      ensures o.Done? && errors == [] ==> Restored(w.s, w.hidden)
      ensures Helped(old(w.deeds), w.deeds)
      ensures o.Done? ==> forall l: Legacy :: Looked(Of(l)) in w.deeds[|old(w.deeds)|..]
      ensures w.oracle.Calm? && HasChecks(old(w.s)) ==>
                o.Done? && StableTraffic(w.s) && (SyncKept(old(w.s)) ==> w.s.syncActive)
      ensures HasChecks(old(w.s)) && Undisturbed(old(w.s)) ==>
                errors == [] && (targetStarted ==> LeftOf(old(w.s), w.s)) && EndsInReset(run.log, w.s)
    {
      hide World.Sound, Unaliased, StableTraffic, FlagsCover, Waited, Running, TargetsKept, KeptByRollback, Shrunk, TargetsHidden,
           NonceHidden, LegacyErrors, LegacySightings, HasChecks, Helped, Follows, Controller.Ready, PinnedAs, EndsInReset, Restored,
           Controller.LeftUnseen, Controller.LeftOf, Controller.Trusted;
      o, errors, f := RestartLegacy();
      ghost var s1 := w.s;
      run := Run(targetStarted, nonceTargetStarted, errors, [], LegacySightings(f), w.s, w.hidden);
      WaitedKeeps(old(w.s), s1);
      WaitedUndisturbed(old(w.s), s1, s1);
      if o.Crashed? { return; }
      LegacyErrorsShow(f);
      if !(PostgresStart !in errors && RedisStart !in errors && AppStart !in errors && AppHealth !in errors) {
        errors := errors + [StableNotRestored];
        run := run.(errors := errors);
        RunWithoutStable(f, run);
        return;
      }
      o, errors, f, run := TakeBack(f, errors);
      WaitedUndisturbed(old(w.s), s1, w.s);
      KeptThen(old(w.s), s1, w.s);
      if o.Done? {
        NoErrorsIff(run, f);
      }
    }

    lemma KeptThen(a: State, b: State, c: State)
      ensures KeptByRollback(a, b) && KeptByRollback(b, c) ==> KeptByRollback(a, c)
      ensures TargetsKept(a, b) && TargetsKept(b, c) ==> TargetsKept(a, c)
    {
    }

    /** The part of rollback() behind running legacy services. */
    method TakeBack(ghost start: Findings, before: seq<Label>)
        returns (o: Outcome, errors: seq<Label>, ghost f: Findings, ghost run: Run)
      requires Ready() && before == LegacyErrors(start) && LegacyReady(start)
      requires start == NOTHING.(postgres := true, redis := true, app := true, appHealth := true, sync := start.sync)
      requires AllLegacyRunning(w.s) && (start.sync ==> w.s.syncActive)
      modifies w`s, w`log, w`hidden, w`answers, w`sightings, w`step
      ensures Ready() && !o.Raised?
      ensures w.log == old(w.log) + run.log && KeptByRollback(old(w.s), w.s)
      ensures !Trusted(old(w.s)) ==> run.log == [] && TargetsKept(old(w.s), w.s) && (o.Done? ==> |errors| > 0)
      ensures o.Done? ==> run.sightings == LegacySightings(start) + Sighted(f.stable, AppAnswers) && Follows(run, f)
      ensures o.Done? ==> w.sightings == old(w.sightings) + Sighted(f.stable, AppAnswers)
      ensures o.Done? ==> run == Run(targetStarted, nonceTargetStarted, errors, run.log, run.sightings, w.s, w.hidden)
      ensures w.oracle.Calm? ==> o.Done? && StableTraffic(w.s) && (start.sync ==> w.s.syncActive)
      ensures Undisturbed(old(w.s)) && start.sync ==>
                errors == [] && (targetStarted ==> LeftOf(old(w.s), w.s)) && EndsInReset(run.log, w.s)
    {
      hide World.Sound, Unaliased, StableTraffic, FlagsCover, TargetsKept, KeptByRollback, Shrunk, TargetsHidden,
           NonceHidden, LegacyErrors, LegacySightings, Follows, CleanupRun, Controller.Ready, EndsInReset, Controller.Undisturbed,
           Sighted, Controller.LeftOf, Controller.Trusted, Running, Failure, ContainerErrors, CleanupErrors, Errors, Steps, StepsOf,
           DataSightings, HealthOf, Owned;
      f, errors := start, before;
      o := RestoreStable();
      ghost var s1 := w.s;
      SwitchKeeps(old(w.s), s1);
      SwitchedUndisturbed(old(w.s), s1, s1);
      run := Run(targetStarted, nonceTargetStarted, errors, [], LegacySightings(f), s1, w.hidden);
      if o.Crashed? { return; }
      NotSighted(old(w.sightings), AppAnswers);
      NotSighted(run.sightings, AppAnswers);
      if o.Raised? {
        errors := errors + [StableRestore];
        run := run.(errors := errors);
        RunWithoutStable(f, run);
        return Done, errors, f, run;
      }
      IsStable(old(w.s), s1);
      o, errors, f, run := TakeBackTargets(start, before);
      SwitchedUndisturbed(old(w.s), s1, w.s);
      KeptThen(old(w.s), s1, w.s);
    }

    /** The part of rollback() behind restored stable traffic. */
    method TakeBackTargets(ghost start: Findings, before: seq<Label>)
        returns (o: Outcome, errors: seq<Label>, ghost f: Findings, ghost run: Run)
      requires Ready() && before == LegacyErrors(start) && LegacyReady(start)
      requires start == NOTHING.(postgres := true, redis := true, app := true, appHealth := true, sync := start.sync)
      requires StableTraffic(w.s) && (start.sync ==> w.s.syncActive)
      modifies w`s, w`log, w`hidden, w`answers, w`step
      ensures Ready() && !o.Raised? && StableTraffic(w.s) && w.s.syncActive == old(w.s.syncActive)
      ensures w.log == old(w.log) + run.log && KeptByRollback(old(w.s), w.s)
      ensures !Trusted(old(w.s)) ==> run.log == [] && TargetsKept(old(w.s), w.s) && (o.Done? ==> |errors| > 0)
      ensures o.Done? ==> f.stable && Follows(run, f) && run.sightings == LegacySightings(start) + Sighted(f.stable, AppAnswers)
      ensures o.Done? ==> run == Run(targetStarted, nonceTargetStarted, errors, run.log, run.sightings, w.s, w.hidden)
      ensures w.oracle.Calm? ==> o.Done?
      ensures Undisturbed(old(w.s)) && start.sync ==>
                o.Done? && errors == [] && (targetStarted ==> LeftOf(old(w.s), w.s)) && EndsInReset(run.log, w.s)
    {
      hide World.Sound, Unaliased, StableTraffic, FlagsCover, TargetsKept, KeptByRollback, Shrunk, TargetsHidden,
           NonceHidden, LegacyErrors, LegacySightings, Follows, CleanupRun, Controller.Ready, EndsInReset, Controller.Undisturbed,
           Sighted, Controller.LeftOf, Controller.Trusted;
      var more: seq<Label>;
      ghost var entries: seq<Entry>;
      UndisturbedIsCalm(w.s);
      o, more, f, entries := Cleanup(start.(stable := true));
      CleanupKeeps(old(w.s), w.s);
      ghost var cleanup := Run(targetStarted, nonceTargetStarted, more, entries, [], w.s, w.hidden);
      errors := before + more;
      assert |errors| == |before| + |more|;
      run := cleanup.(errors := errors, sightings := LegacySightings(start) + [AppAnswers]);
      if o.Crashed? { return; }
      NowSighted(AppAnswers);
      RunWithCleanup(start, f, run, cleanup);
    }

    lemma NowSighted(p: Sighting)
      ensures Sighted(true, p) == [p]
    {
    }

    /* -------------------------------------------------------------- the migrated targets */

    /** A calm host on which the cutover gets on: nothing that the controller relies on has changed, what it
        has pinned is there, and the targets in `up` serve. */
    ghost predicate Fine(s: State, up: set<Target>)
      reads this
    {
      && w.oracle.Calm? && Tidy(s, w.ids) && DataUp(s) && Identified() && IdentityKept(s)
      && (forall t: Target :: pins.Of(t).Some? ==> PinnedAs(s, pins, t))
      && forall t: Target :: t in up ==> Serves(s, pins, t)
    }

    lemma FineWhen(a: State, b: State, up: set<Target>)
      requires b == a.(record := b.record, acl := b.acl, nonce := b.nonce, nextId := b.nextId, data := b.data) && a.nextId <= b.nextId
      ensures Fine(a, up) ==> Fine(b, up) && w.oracle.Calm?
    {
      FineStays(a, b, up);
    }

    predicate Lives(s: State, t: Target)
      reads this
    {
      PinnedAs(s, pins, t) && s.targets[t].running
    }

    lemma FineStays(a: State, b: State, up: set<Target>)
      requires b.targets == a.targets && a.nextId <= b.nextId && (DataUp(a) ==> DataUp(b))
      requires b.env == a.env && b.fragment == a.fragment && b.hash == a.hash
      ensures Fine(a, up) ==> Fine(b, up) && w.oracle.Calm?
    {
      assert Tidy(a, w.ids) ==> Tidy(b, w.ids);
    }

    /** The identity that the name has now; it must not be one that is known already. */
    method PinTargetIdentity(t: Target) returns (o: Outcome)
      requires Ready()
      modifies this`pins
      ensures Ready()
      ensures pins == old(pins) || exists id :: pins == old(pins).With(t, Some(id))
      ensures o.Done? ==> t in w.s.targets && pins == old(pins).With(t, Some(w.s.targets[t].id))
      ensures old(pins).Of(t).Some? ==> pins == old(pins)
      ensures forall up :: old(Fine(w.s, up)) && t in w.s.targets ==> o.Done? && Fine(w.s, up)
    {
      hide World.Sound;
      var runtime :- w.ReadTarget(t, None);
      var id := runtime.id;
      if pins.Of(t).Some? && pins.Of(t) != Some(id) {
        return Raised;
      }
      if exists other: Target :: other != t && pins.Of(other) == Some(id) {
        return Raised;
      }
      if exists l: Legacy :: w.ids.Id(l) == id {
        return Raised;
      }
      PinKeepsUnaliased(pins, w.ids, t, id);
      pins := pins.With(t, Some(id));
      assert forall other: Target :: pins.Of(other) == if other == t then Some(id) else old(pins).Of(other);
      return Done;
    }

    /** require_target: the pinned container runs, or does not, as expected. */
    method RequireTarget(t: Target, running: bool, healthy: bool) returns (o: Outcome)
      ensures o.Done? ==> PinnedAs(w.s, pins, t) && w.s.targets[t].running == running
      ensures o.Done? && healthy ==> w.s.targets[t].health == Healthy
      ensures w.oracle.Calm? && PinnedAs(w.s, pins, t) ==>
                !o.Crashed? && (o.Done? <==> w.s.targets[t].running == running && (healthy ==> w.s.targets[t].health == Healthy))
    {
      if pins.Of(t).None? {
        return Raised;
      }
      var runtime :- w.ReadTarget(t, pins.Of(t));
      if runtime.running != running || (healthy && runtime.health != Healthy) {
        return Raised;
      }
      return Done;
    }

    method RequireAllTargets() returns (o: Outcome)
      requires w.Next(See(AllServing))
      modifies w`step
      ensures o.Done? ==> w.step == old(w.step) + 1 && forall t: Target :: Serves(w.s, pins, t)
      ensures Fine(w.s, TARGETS) ==> o.Done?
    {
      AllTargets();
      o := RequireTarget(TargetApp, true, true);
      :- o;
      :- RequireTarget(TargetPostgres, true, true);
      :- RequireTarget(TargetRedis, true, true);
      forall t: Target
        ensures Serves(w.s, pins, t)
      {
        match t
        case TargetApp =>
        case TargetPostgres =>
        case TargetRedis =>
      }
      w.Note(AllServing, pins);
      return Done;
    }

    /** What waiting does to a calm host. */
    ghost predicate Eased(a: State, b: State) {
      && Idled(a, b)
      && (forall t :: t in a.targets ==> b.targets[t].running == a.targets[t].running
                                         && (a.targets[t].health != NoCheck ==> b.targets[t].health != NoCheck)
                                         && (a.targets[t].running && a.targets[t].health == Healthy ==> b.targets[t].health == Healthy))
      && (forall l: Legacy :: Fit(a, l, true) ==> Fit(b, l, true))
    }

    lemma SettledIsEased(a: State, b: State, up: set<Target>, t: Target)
      requires Eased(a, b) && Fine(b, up) && Lives(b, t)
      ensures var c := SettledHost(b); Eased(a, c) && Fine(c, up) && Serves(c, pins, t)
    {
      var c := SettledHost(b);
      assert Eased(b, c);
      FineEased(b, c, up);
      assert PinnedAs(c, pins, t);
    }

    lemma FineEased(a: State, b: State, up: set<Target>)
      requires Eased(a, b)
      ensures Fine(a, up) ==> Fine(b, up)
    {
    }

    method WaitTargetHealthy(t: Target, ghost up: set<Target>) returns (o: Outcome)
      requires Ready() && w.Next(See(Serving(t)))
      modifies this`pins, w`s, w`step
      ensures Ready() && Idled(old(w.s), w.s)
      ensures pins == old(pins) || exists id :: pins == old(pins).With(t, Some(id))
      ensures o.Done? ==> Serves(w.s, pins, t) && w.step == old(w.step) + 1
      ensures old(Fine(w.s, up)) && t in old(w.s).targets && old(w.s).targets[t].running ==>
                o.Done? && Eased(old(w.s), w.s) && Fine(w.s, up + {t})
    {
      hide World.Sound, Idled, FlagsCover, Unaliased, PinnedAs, Controller.Eased, Controller.Fine, Planned, Controller.Lives, SettledHost;
      AlwaysIdled();
      AlwaysEased(w.s);
      FineIsKept(w.s, up);
      ghost var calm := Fine(w.s, up) && t in w.s.targets && w.s.targets[t].running;
      if pins.Of(t).None? {
        :- PinTargetIdentity(t);
      }
      if calm {
        FinePinned(w.s, up, t);
        PinnedLives(w.s, t);
      }
      var polls := w.Patience();
      while true
        invariant Ready() && Idled(old(w.s), w.s) && w.step == old(w.step)
        invariant pins == old(pins) || exists id :: pins == old(pins).With(t, Some(id))
        invariant calm ==> Fine(w.s, up) && Eased(old(w.s), w.s) && Lives(w.s, t)
        invariant calm && polls == 0 ==> Serves(w.s, pins, t)
        decreases polls
      {
        LivesIs(w.s, t);
        o := RequireTarget(t, true, true);
        if o.Done? {
          w.Note(Serving(t), pins);
          FineWith(w.s, up, t);
          return;
        }
        if !o.Raised? {
          return;
        }
        if polls == 0 {
          return Raised;
        }
        polls := polls - 1;
        ghost var before := w.s;
        w.Sleep();
        if calm {
          SettledIsEased(old(w.s), before, up, t);
          LivesIs(w.s, t);
        }
      }
    }

    lemma AlwaysEased(s: State)
      ensures Eased(s, s)
    {
      AlwaysIdled();
    }

    lemma PinnedLives(s: State, t: Target)
      requires t in s.targets && s.targets[t].running && pins.Of(t) == Some(s.targets[t].id)
      ensures Lives(s, t)
    {
    }

    lemma FinePinned(s: State, up: set<Target>, t: Target)
      ensures Fine(s, up) && pins.Of(t).Some? ==> PinnedAs(s, pins, t) && t in s.targets && pins.Of(t) == Some(s.targets[t].id)
    {
    }

    lemma LivesIs(s: State, t: Target)
      ensures Lives(s, t) <==> PinnedAs(s, pins, t) && s.targets[t].running
    {
    }

    lemma FineWith(s: State, up: set<Target>, t: Target)
      ensures Fine(s, up) && Serves(s, pins, t) ==> Fine(s, up + {t})
    {
      hide PinnedAs, Tidy, DataUp, Serves;
    }

    method WaitNonceHealthy() returns (o: Outcome)
      requires Ready() && w.Next(See(NonceServing))
      modifies w`s, w`step
      ensures Ready() && Idled(old(w.s), w.s)
      ensures o.Done? ==> Holds(NonceServing, w.s, pins, w.hidden) && w.step == old(w.step) + 1
      ensures w.oracle.Calm? && Holds(NonceServing, old(w.s), pins, w.hidden) ==> o.Done? && w.s == old(w.s)
    {
      hide World.Sound, Idled, FlagsCover, Unaliased, Planned;
      AlwaysIdled();
      var polls := w.Patience();
      while true
        invariant Ready() && Idled(old(w.s), w.s) && w.step == old(w.step)
        invariant w.oracle.Calm? && Holds(NonceServing, old(w.s), pins, w.hidden) ==> w.s == old(w.s)
        decreases polls
      {
        var runtime :- w.ReadNonce();
        if runtime.running && runtime.health == Healthy {
          w.Note(NonceServing, pins);
          return Done;
        }
        if polls == 0 {
          return Raised;
        }
        polls := polls - 1;
        w.Sleep();
      }
      return Raised;
    }

    /* -------------------------------------------------------------- the phases of a cutover */

    /** A recovery record that covers this session is on disk. */
    ghost predicate InSession()
      reads this, w`s, w`hidden, w`log, w`finalClear
    {
      && Ready() && !identityUnavailable && targetStarted
      && w.s.record.Valid? && w.s.record.document.targetStarted
      && (w.s.record.document.nonceTargetStarted <==> nonceTargetStarted)
    }

    /** What a step of the session leaves alone: traffic, writers and, on request, the nonce target. */
    ghost predicate Kept(a: State, b: State) {
      Began(a, b) && b.nonce == a.nonce && b.acl == a.acl
    }

    lemma AlwaysKept()
      ensures forall s :: Kept(s, s)
      ensures forall a, b, c :: Kept(a, b) && Kept(b, c) ==> Kept(a, c)
      ensures forall a, b :: Kept(a, b) ==> Began(a, b)
    {
      AlwaysBegan();
    }

    lemma KeptWhen(a: State, b: State)
      requires b == a.(targets := b.targets, nextId := b.nextId, data := b.data, record := b.record)
      ensures Kept(a, b)
    {
      BeganWhen(a, b);
    }

    method PersistInSession(phase: Phase, ghost up: set<Target>) returns (o: Outcome)
      requires InSession() && w.Next(Persist(phase))
      modifies w`s, w`step
      ensures InSession() && Kept(old(w.s), w.s) && w.s == old(w.s).(record := w.s.record)
      ensures o.Done? ==> Identified() && w.s.record == Valid(Recorded(phase)) && w.step == old(w.step) + 1
      ensures Fine(old(w.s), up) ==> o.Done? && Fine(w.s, up)
    {
      hide World.Sound, Unaliased, FlagsCover, Began, Controller.Recorded, Tidy, DataUp, PinnedAs, Planned;
      o := PersistRecoveryState(phase, true);
      KeptWhen(old(w.s), w.s);
      FineWhen(old(w.s), w.s, up);
    }

    method RequireNoTarget(t: Target) returns (o: Outcome)
      requires w.Sound()
      modifies w`hidden, w`answers
      ensures w.Sound() && old(w.hidden) <= w.hidden
      ensures o.Done? ==> TargetHidden(w.s, w.hidden, t)
      ensures w.oracle.Calm? && t !in w.s.targets ==> o.Done?
    {
      hide World.Sound;
      var found :- w.InspectTarget(t, None);
      o := if found.Some? then Raised else Done;
    }

    /** No target and no nonce container is seen. */
    method RequireNoTargets() returns (o: Outcome)
      requires w.Sound()
      modifies w`hidden, w`answers
      ensures w.Sound() && (o.Done? ==> AllHidden(w.s, w.hidden))
      ensures w.oracle.Calm? && NoTargets(w.s) ==> o.Done?
    {
      hide World.Sound;
      o := RequireNoTarget(TargetApp);
      :- o;
      :- RequireNoTarget(TargetPostgres);
      :- RequireNoTarget(TargetRedis);
      ByName(w.s, w.hidden);
      ghost var before := w.hidden;
      var nonce :- w.InspectNonce();
      MoreHidden(w.s, before, w.hidden);
      o := if nonce.Some? then Raised else Done;
    }

    /** require_legacy */
    method RequireLegacy(l: Legacy, running: bool, healthy: bool) returns (o: Outcome)
      requires w.Sound()
      ensures o.Done? ==> Running(w.s, l) == running && (healthy ==> HealthOf(w.s, l) == Healthy)
      ensures w.oracle.Calm? && Running(w.s, l) == running && (healthy ==> HealthOf(w.s, l) == Healthy) ==> o.Done?
    {
      var state :- w.InspectLegacy(l);
      if state.0 != running || (healthy && state.1 != Healthy) {
        return Raised;
      }
      return Done;
    }

    /** The release, and the legacy services that it replaces. */
    method PreflightRelease() returns (o: Outcome)
      requires w.Sound() && w.step == 0
      modifies this`gitHead, w`step
      ensures o.Done? ==> w.step == 5 && AllLegacyRunning(w.s) && gitHead == Some(w.s.gitHead) && (env.Some? ==> env.value == w.s.env)
      ensures w.oracle.Calm? && AllLegacyRunning(w.s) && (env.Some? ==> env.value == w.s.env) ==> o.Done?
    {
      if env.Some? && env.value != w.s.env {
        return Raised;
      }
      :- w.Issue(Verify(SafeExport));
      gitHead := Some(w.s.gitHead);
      :- w.Issue(Verify(DirectV1));
      :- w.Issue(Verify(RuntimeImages));
      :- w.Issue(Verify(RetirementRecord));
      :- RequireLegacy(LegacyApp, true, false);
      :- RequireLegacy(LegacyPostgres, true, false);
      :- RequireLegacy(LegacyRedis, true, false);
      w.Note(LegacyRunning, pins);
      return Done;
    }

    /** preflight() up to the first change: nothing of the target may exist. */
    method PreflightChecks() returns (o: Outcome)
      requires w.Sound() && w.step == 0
      modifies this`gitHead, this`fragment, this`fragmentHash, w`hidden, w`answers, w`step
      ensures w.Sound() && (o.Done? ==> AllHidden(w.s, w.hidden) && w.step == TARGETS_PLANNED)
      ensures o.Done? ==> w.s.file == Stable && AllLegacyRunning(w.s) && w.s.syncActive
      ensures o.Done? ==> gitHead == Some(w.s.gitHead) && fragment == Some(w.s.fragment) && fragmentHash == Some(w.s.hash)
      ensures w.oracle.Calm? && Welcoming(w.s, w.ids) && (env.Some? ==> env.value == w.s.env) ==> o.Done?
    {
      hide World.Sound;
      :- PreflightRelease();
      :- w.Issue(Verify(RedisSource));
      :- RequireNoTargets();
      w.Note(NoneOfTargets, pins);
      fragment, fragmentHash := Some(w.s.fragment), Some(w.s.hash);
      var active :- w.SyncActive();
      if !active {
        return Raised;
      }
      w.Note(SyncRuns, pins);
      :- w.Issue(Verify(StableHealth));
      if w.s.file != Stable {
        return Raised;
      }
      w.Note(OnStable, pins);
      :- w.Issue(Verify(ComposeConfig));
      return Done;
    }

    const DATA: set<Target> := {TargetPostgres, TargetRedis}

    /** The target data services: the flag is persisted before the first container is created. */
    method PreflightTargets() returns (o: Outcome)
      requires Ready() && targetStarted && !identityUnavailable && !nonceTargetStarted && w.step == TARGETS_PLANNED
      modifies this`pins, w`s, w`step
      ensures Ready() && Began(old(w.s), w.s)
      ensures o.Done? ==> InSession() && w.step == NONCE_PLANNED && PinnedAs(w.s, pins, TargetPostgres)
      ensures old(Fine(w.s, {})) && NoTargets(old(w.s)) ==> o.Done? && Fine(w.s, DATA)
    {
      hide World.Sound, Unaliased, FlagsCover, OnlyNew, PinnedAs, Began, Tidy, DataUp, Controller.IdentityKept, Idled, Controller.Fine,
           Controller.Kept, Controller.Recorded;
      AlwaysKept();
      AlwaysBegan();
      FineIsKept(w.s, {});
      o := PersistRecoveryState(PreflightTargetsStarting, true);
      KeptWhen(old(w.s), w.s);
      FineWhen(old(w.s), w.s, {});
      :- o;
      :- UpData({});
      ghost var s1 := w.s;
      :- PersistInSession(PreflightTargetsStarting, DATA);
      SamePins(s1, w.s);
      :- w.Issue(Verify(DatabaseIdentities));
      o := w.Issue(Verify(NonceEndpoint));
    }

    /** `compose up` of both data targets, and the wait for both. */
    method UpData(ghost up: set<Target>) returns (o: Outcome)
      requires InSession() && up <= DATA && w.Next(ComposeUp(DATA))
      requires Planned(w.step + 1) == Some(See(Serving(TargetPostgres))) && Planned(w.step + 2) == Some(See(Serving(TargetRedis)))
      modifies this`pins, w`s, w`step
      ensures InSession() && Kept(old(w.s), w.s) && w.s.record == old(w.s).record
      ensures o.Done? ==> w.step == old(w.step) + 3 && PinnedAs(w.s, pins, TargetPostgres)
      ensures old(Fine(w.s, up)) ==>
                o.Done? && Fine(w.s, DATA)
                && forall t: Target :: t in DATA && t !in old(w.s).targets ==> t in w.s.targets && w.s.targets[t].id >= old(w.s).nextId
    {
      hide World.Sound, Unaliased, FlagsCover, OnlyNew, PinnedAs, Began, Tidy, DataUp, Controller.IdentityKept, Idled, Controller.Fine,
           World.Upped, Controller.Eased, Serves, Controller.Kept, Planned, Controller.InSession, Controller.Ready;
      AlwaysKept();
      :- UpTargets({TargetPostgres, TargetRedis}, up);
      ghost var s1 := w.s;
      DataIsNew(old(w.s), s1);
      :- WaitInSession(TargetPostgres, up);
      EasedRuns(s1, w.s);
      ghost var s2, pins2 := w.s, pins;
      :- WaitInSession(TargetRedis, up + {TargetPostgres});
      EasedRuns(s2, w.s);
      assert up + {TargetPostgres} + {TargetRedis} == DATA;
      PostgresStays(s2, w.s, pins2);
      return Done;
    }

    lemma DataIsNew(a: State, b: State)
      ensures (forall t: Target :: w.Upped(a, b, t, t in DATA)) ==>
                forall t :: t in DATA ==> t in b.targets && b.targets[t].running && (t !in a.targets ==> b.targets[t].id >= a.nextId)
    {
    }

    /** Another target was pinned since. */
    lemma PostgresStays(a: State, b: State, before: Pins)
      requires Serves(a, before, TargetPostgres) && Idled(a, b)
      requires pins == before || exists id :: pins == before.With(TargetRedis, Some(id))
      ensures PinnedAs(b, pins, TargetPostgres)
    {
    }

    lemma FineIsKept(s: State, up: set<Target>)
      ensures Fine(s, up) ==> Identified() && Trusted(s) && w.oracle.Calm?
    {
    }

    lemma EasedRuns(a: State, b: State)
      ensures Eased(a, b) ==> forall t :: t in a.targets ==>
                t in b.targets && b.targets[t].running == a.targets[t].running && b.targets[t].id == a.targets[t].id
    {
    }

    method UpTargets(services: set<Target>, ghost up: set<Target>) returns (o: Outcome)
      requires InSession() && services <= TARGETS && w.Next(ComposeUp(services))
      modifies w`s, w`step
      ensures InSession() && Kept(old(w.s), w.s) && w.step == old(w.step) + Took(o)
      ensures w.s.record == old(w.s).record
      ensures OnlyNew(old(w.s), w.s)
      ensures Fine(old(w.s), up) ==> o.Done? && Fine(w.s, up) && forall t: Target :: w.Upped(old(w.s), w.s, t, t in services)
    {
      hide World.Sound, Unaliased, OnlyNew, Began;
      o := w.Up(services);
      KeptWhen(old(w.s), w.s);
      UppedFine(old(w.s), w.s, services, up);
    }

    lemma UppedFine(a: State, b: State, services: set<Target>, up: set<Target>)
      requires b == a.(targets := b.targets, nextId := b.nextId, data := b.data)
      requires w.oracle.Calm? && Tidy(a, w.ids) ==> Tidy(b, w.ids)
      requires w.oracle.Calm? ==> forall t: Target :: w.Upped(a, b, t, t in services)
      ensures Fine(a, up) ==> Fine(b, up)
    {
      if Fine(a, up) {
        forall t: Target | pins.Of(t).Some?
          ensures PinnedAs(b, pins, t)
        {
          assert PinnedAs(a, pins, t) && w.Upped(a, b, t, t in services);
        }
        forall t: Target | t in up
          ensures Serves(b, pins, t)
        {
          assert Serves(a, pins, t) && w.Upped(a, b, t, t in services);
        }
      }
    }

    method WaitInSession(t: Target, ghost up: set<Target>) returns (o: Outcome)
      requires InSession() && w.Next(See(Serving(t)))
      modifies this`pins, w`s, w`step
      ensures InSession() && Kept(old(w.s), w.s) && Idled(old(w.s), w.s)
      ensures w.s.record == old(w.s).record
      ensures pins == old(pins) || exists id :: pins == old(pins).With(t, Some(id))
      ensures o.Done? ==> Serves(w.s, pins, t) && w.step == old(w.step) + 1
      ensures old(Fine(w.s, up)) && t in old(w.s).targets && old(w.s).targets[t].running ==>
                o.Done? && Eased(old(w.s), w.s) && Fine(w.s, up + {t})
    {
      hide World.Sound, Unaliased, FlagsCover, Began, Idled, PinnedAs, Tidy, DataUp, Controller.IdentityKept, Controller.Fine;
      o := WaitTargetHealthy(t, up);
      IdledKept(old(w.s), w.s);
    }

    lemma IdledKept(a: State, b: State)
      requires Idled(a, b)
      ensures Kept(a, b) && b.record == a.record && b.targets.Keys == a.targets.Keys
    {
    }

    method PreflightNonce() returns (o: Outcome)
      requires InSession() && !nonceTargetStarted && w.step == NONCE_PLANNED
      modifies this`nonceTargetStarted, w`s, w`step
      ensures Ready() && Began(old(w.s), w.s)
      ensures o.Done? ==> InSession() && nonceTargetStarted && w.step == STOP_PLANNED && w.s.acl
      ensures forall t: Target :: PinnedAs(old(w.s), pins, t) ==> PinnedAs(w.s, pins, t)
      ensures old(Fine(w.s, DATA)) && LegacyUp(old(w.s)) && old(w.s.file) == Stable ==> o.Done? && Fine(w.s, DATA)
    {
      hide World.Sound, Unaliased, FlagsCover, Began, Tidy, PinnedAs, Controller.IdentityKept, DataUp, Controller.Fine;
      AlwaysBegan();
      FineIsKept(w.s, DATA);
      o := InstallMigrationAcl();
      :- o;
      FineIsKept(w.s, DATA);
      StartNonceFlag();
      ghost var before := w.s;
      o := PersistRecoveryState(PreflightNonceStarting, true);
      BeganWhen(before, w.s);
      FineWhen(before, w.s, DATA);
      SamePins(before, w.s);
      :- o;
      o := UpNonce();
      :- o;
      BeganUp(old(w.s), w.s);
      o := VerifyRollbackReady();
      FineIsUp(w.s, DATA);
    }

    lemma SamePins(a: State, b: State)
      requires b.targets == a.targets
      ensures forall t: Target :: PinnedAs(a, pins, t) ==> PinnedAs(b, pins, t)
    {
    }

    lemma FineIsUp(s: State, up: set<Target>)
      ensures Fine(s, up) ==> DataUp(s) && IdentityKept(s) && w.oracle.Calm?
    {
    }

    lemma BeganUp(a: State, b: State)
      requires Began(a, b)
      ensures LegacyUp(a) && DataUp(b) ==> LegacyUp(b)
      ensures b.file == a.file
    {
    }

    /** The migration ACL is installed before the flag that covers it is persisted. */
    method InstallMigrationAcl() returns (o: Outcome)
      requires InSession() && w.Next(InstallAcl)
      modifies w`s, w`step
      ensures InSession() && Began(old(w.s), w.s) && w.s == old(w.s).(acl := w.s.acl) && w.step == old(w.step) + Took(o)
      ensures o.Done? ==> w.s.acl
      ensures forall t: Target :: PinnedAs(old(w.s), pins, t) ==> PinnedAs(w.s, pins, t)
      ensures Fine(old(w.s), DATA) ==> o.Done? && Fine(w.s, DATA)
    {
      hide World.Sound, Unaliased, Began, Tidy;
      o := w.ConfigureAcl(true, true);
      BeganWhen(old(w.s), w.s);
      FineStays(old(w.s), w.s, DATA);
    }

    method UpNonce() returns (o: Outcome)
      requires InSession() && nonceTargetStarted && w.Next(StartNonce) && Planned(w.step + 1) == Some(See(NonceServing))
      modifies w`s, w`step
      ensures InSession() && Began(old(w.s), w.s)
      ensures o.Done? ==> w.step == old(w.step) + 2 && Holds(NonceServing, w.s, pins, w.hidden)
      ensures w.s.acl == old(w.s.acl)
      ensures w.s.targets.Keys == old(w.s).targets.Keys
      ensures forall t: Target :: PinnedAs(old(w.s), pins, t) ==> PinnedAs(w.s, pins, t)
      ensures Fine(old(w.s), DATA) ==> o.Done? && Fine(w.s, DATA)
    {
      hide World.Sound, Unaliased, Began, Idled, Controller.Fine;
      AlwaysBegan();
      FineIsKept(w.s, DATA);
      :- StartNonceContainer();
      ghost var before := w.s;
      o := WaitNonceHealthy();
      IdledBegan(before, w.s);
      IdledPins(before, w.s, pins);
      IdledKept(before, w.s);
    }

    method StartNonceContainer() returns (o: Outcome)
      requires InSession() && nonceTargetStarted && w.Next(StartNonce)
      modifies w`s, w`step
      ensures InSession() && Began(old(w.s), w.s) && w.s.targets == old(w.s).targets && w.step == old(w.step) + Took(o)
      ensures w.s.acl == old(w.s.acl)
      ensures w.oracle.Calm? ==> Holds(NonceServing, w.s, pins, w.hidden)
      ensures Fine(old(w.s), DATA) ==> o.Done? && Fine(w.s, DATA)
    {
      hide World.Sound, Unaliased, Began, Tidy;
      o := w.NonceUp();
      BeganWhen(old(w.s), w.s);
      FineStays(old(w.s), w.s, DATA);
    }

    method StartNonceFlag()
      requires InSession() && !nonceTargetStarted
      modifies this`nonceTargetStarted
      ensures Ready() && nonceTargetStarted
      ensures Identified() == old(Identified())
      ensures old(Fine(w.s, DATA)) ==> Fine(w.s, DATA)
    {
      nonceTargetStarted := true;
    }

    /** verify_rollback_ready */
    method VerifyRollbackReady() returns (o: Outcome)
      requires w.Sound() && w.Next(Verify(StableHealth)) && Planned(w.step + 1) == Some(See(RollbackReady))
      modifies w`step
      ensures o.Done? ==> LegacyUp(w.s) && w.s.file == Stable && w.step == old(w.step) + 2
      ensures o.Done? ==> fragment == Some(w.s.fragment) && fragmentHash == Some(w.s.hash)
      ensures w.oracle.Calm? && LegacyUp(w.s) && w.s.file == Stable && IdentityKept(w.s) ==> o.Done?
    {
      o := RequireLegacy(LegacyApp, true, false);
      :- o;
      :- RequireLegacy(LegacyPostgres, true, true);
      :- RequireLegacy(LegacyRedis, true, true);
      if fragment != Some(w.s.fragment) || fragmentHash != Some(w.s.hash) {
        return Raised;
      }
      var active :- w.SyncActive();
      if !active {
        return Raised;
      }
      :- w.Issue(Verify(StableHealth));
      if w.s.file != Stable {
        return Raised;
      }
      w.Note(RollbackReady, pins);
      return Done;
    }

    /** preflight() */
    method Preflight() returns (o: Outcome)
      requires w.Sound() && Unaliased(pins, w.ids) && !targetStarted && !nonceTargetStarted && !identityUnavailable && w.step == 0
      modifies this, w`s, w`hidden, w`answers, w`step
      ensures identityUnavailable == old(identityUnavailable) && writersStopped == old(writersStopped)
      ensures w.Sound() && (if targetStarted then Ready() && SameChecks(old(w.s), w.s) else w.s == old(w.s))
      ensures o.Done? ==> InSession() && nonceTargetStarted && w.step == STOP_PLANNED && PinnedAs(w.s, pins, TargetPostgres)
      ensures old(Prepared()) ==> o.Done? && Fine(w.s, DATA)
    {
      hide World.Sound, Unaliased, FlagsCover, Began, Tidy, PinnedAs;
      ghost var prepared := Prepared();
      :- PreflightChecks();
      ClearHost();
      if prepared {
        FineAtFirst(w.s);
      }
      o := PreflightTargets();
      BeganChecks(old(w.s), w.s);
      :- o;
      ghost var s1 := w.s;
      BeganUp(old(w.s), s1);
      FineIsUp(s1, DATA);
      o := PreflightNonce();
      BeganChecks(s1, w.s);
    }

    lemma BeganChecks(a: State, b: State)
      requires Began(a, b)
      ensures SameChecks(a, b)
    {
    }

    /** Nothing is pinned yet, and the host is one on which a cutover can begin. */
    ghost predicate Prepared()
      reads this, w`s
    {
      && w.oracle.Calm? && Welcoming(w.s, w.ids) && pins == UNPINNED && env == Some(w.s.env)
    }

    lemma FineAtFirst(s: State)
      requires w.oracle.Calm? && Welcoming(s, w.ids) && pins == UNPINNED && Identified() && IdentityKept(s)
      ensures Fine(s, {})
    {
      assert forall t: Target :: pins.Of(t) == None;
    }

    /** `self.target_started = True` on a host without targets. */
    method ClearHost()
      requires w.Sound() && Unaliased(pins, w.ids) && AllHidden(w.s, w.hidden) && !identityUnavailable
      modifies this`targetStarted
      ensures Ready() && targetStarted
    {
      hide World.Sound, Unaliased;
      targetStarted := true;
    }

    method StopWriters() returns (o: Outcome)
      requires InSession() && w.step == STOP_PLANNED + 1
      modifies this`writersStopped, w`s, w`step
      ensures InSession() && SameChecks(old(w.s), w.s)
      ensures w.s == old(w.s).(stopIssued := w.s.stopIssued, syncActive := w.s.syncActive, legacy := w.s.legacy)
      ensures o.Done? ==> writersStopped && Quiet(w.s) && DataUp(w.s) && w.step == STOP_PLANNED + 4
      ensures o.Done? ==> fragment == Some(w.s.fragment)
      ensures old(Fine(w.s, DATA)) ==> o.Done? && Fine(w.s, DATA)
    {
      hide World.Sound, Unaliased, FlagsCover, Tidy;
      :- StopSyncInSession();
      var active :- w.SyncActive();
      if active || fragment != Some(w.s.fragment) {
        return Raised;
      }
      :- StopAppInSession();
      :- VerifyWritersDown();
      NoteStopped();
      return Done;
    }

    method VerifyWritersDown() returns (o: Outcome)
      requires w.Sound() && w.Next(See(WritersDown)) && !w.s.syncActive
      modifies w`step
      ensures o.Done? ==> Quiet(w.s) && DataUp(w.s) && w.step == old(w.step) + 1
      ensures w.oracle.Calm? && DataUp(w.s) && !Running(w.s, LegacyApp) ==> o.Done?
    {
      hide Planned;
      o := RequireLegacy(LegacyApp, false, false);
      :- o;
      :- RequireLegacy(LegacyPostgres, true, true);
      :- RequireLegacy(LegacyRedis, true, true);
      w.Note(WritersDown, pins);
      return Done;
    }

    method NoteStopped()
      requires InSession()
      modifies this`writersStopped
      ensures InSession() && writersStopped
      ensures old(Fine(w.s, DATA)) ==> Fine(w.s, DATA)
    {
      writersStopped := true;
    }

    method StopSyncInSession() returns (o: Outcome)
      requires InSession() && w.Next(StopSync)
      modifies w`s, w`step
      ensures InSession() && w.s == old(w.s).(stopIssued := true, syncActive := w.s.syncActive) && w.step == old(w.step) + Took(o)
      ensures Fine(old(w.s), DATA) ==> o.Done? && Fine(w.s, DATA) && !w.s.syncActive
    {
      hide World.Sound, Unaliased, Tidy;
      o := w.StopSyncUnit();
      FineStays(old(w.s), w.s, DATA);
    }

    method StopAppInSession() returns (o: Outcome)
      requires InSession() && w.Next(StopApp)
      modifies w`s, w`step
      ensures InSession() && w.s == old(w.s).(stopIssued := true, legacy := w.s.legacy) && w.step == old(w.step) + Took(o)
      ensures SameChecks(old(w.s), w.s)
      ensures Fine(old(w.s), DATA) ==> o.Done? && Fine(w.s, DATA) && !Running(w.s, LegacyApp)
    {
      hide World.Sound, Unaliased, Tidy;
      o := w.StopLegacyApp();
      FineStays(old(w.s), w.s, DATA);
    }

    /** The steps of migrate() that run a command each. */
    const MIGRATIONS: seq<Migration> := [PostgresData, NonceKeys, AppMetadata, SyncRole, SyncSchema, AppRole]

    /** migrate(): six migration commands, then both data services without their migration access. */
    method MigrateData() returns (o: Outcome)
      requires InSession() && nonceTargetStarted && w.step == MIGRATION_PLANNED
      modifies this`pins, this`nonceRuntimeActive, w`s, w`hidden, w`answers, w`step
      ensures InSession() && Began(old(w.s), w.s)
      ensures o.Done? ==> w.step == START_PLANNED && nonceRuntimeActive
      ensures o.Done? ==> Holds(NonceServing, w.s, pins, w.hidden) && !w.s.acl && PinReplaced(old(pins), pins)
      ensures o.Done? ==> old(Trusted(w.s))
      ensures old(Fine(w.s, DATA)) ==> o.Done? && Fine(w.s, DATA)
    {
      hide World.Sound, Unaliased, FlagsCover, Began, PinnedAs, OnlyNew, Idled, Controller.InSession, Controller.Ready, Controller.Fine,
           Controller.PinReplaced;
      AlwaysBegan();
      FineIsKept(w.s, DATA);
      :- RequireRecoveryIdentity();
      :- RunMigrations();
      :- ReplacePostgres();
      :- RestartNonce();
      NoteRuntime();
      return Done;
    }

    method RunMigrations() returns (o: Outcome)
      requires w.step == MIGRATION_PLANNED
      modifies w`step
      ensures o.Done? ==> w.step == REPLACEMENT_PLANNED
      ensures w.oracle.Calm? ==> o.Done?
    {
      for i := 0 to |MIGRATIONS|
        invariant w.step == MIGRATION_PLANNED + i
      {
        o := w.Issue(Migrate(MIGRATIONS[i]));
        :- o;
      }
      return Done;
    }

    method NoteRuntime()
      requires InSession()
      modifies this`nonceRuntimeActive
      ensures InSession() && nonceRuntimeActive
      ensures old(Fine(w.s, DATA)) ==> Fine(w.s, DATA)
    {
      nonceRuntimeActive := true;
    }

    /** PostgreSQL is pinned, to another container than before. */
    ghost predicate PinReplaced(before: Pins, now: Pins) {
      before.postgres.Some? && now.postgres.Some? && now.postgres != before.postgres
    }

    method ReplacePostgres() returns (o: Outcome)
      requires InSession() && w.step == REPLACEMENT_PLANNED
      modifies this`pins, w`s, w`hidden, w`answers, w`step
      ensures InSession() && Began(old(w.s), w.s)
      ensures o.Done? ==> w.step == NONCE_RESTART_PLANNED && PinReplaced(old(pins), pins)
      ensures old(Fine(w.s, DATA)) ==> o.Done? && Fine(w.s, DATA)
    {
      hide World.Sound, Unaliased, FlagsCover, Began, Tidy, DataUp, Controller.IdentityKept, Idled, Controller.InSession,
           Controller.Ready, Controller.Fine, Controller.Kept, OnlyNew;
      AlwaysBegan();
      AlwaysKept();
      var was: Option<nat>;
      o, was := DiscardPostgres();
      :- o;
      :- PersistInSession(Migrating, {TargetRedis});
      :- UpData({TargetRedis});
      FineServes(w.s, DATA);
      if pins.Of(TargetPostgres) == was {
        return Raised;
      }
      o := PersistInSession(Migrating, DATA);
    }

    /** The migrated PostgreSQL is stopped and removed, and its identity forgotten. */
    method DiscardPostgres() returns (o: Outcome, was: Option<nat>)
      requires InSession() && w.step == REPLACEMENT_PLANNED
      modifies this`pins, w`s, w`hidden, w`answers, w`step
      ensures InSession() && Began(old(w.s), w.s)
      ensures o.Done? ==> w.step == REPLACEMENT_PLANNED + 5 && was.Some? && was == old(pins).postgres && pins == old(pins).With(TargetPostgres, None)
      ensures old(Fine(w.s, DATA)) ==> o.Done? && Fine(w.s, {TargetRedis}) && TargetPostgres !in w.s.targets && was.value < w.s.nextId
    {
      hide World.Sound, Unaliased, FlagsCover, Began, Tidy, DataUp, Controller.IdentityKept, Idled, Controller.InSession, Controller.Ready,
           Controller.Fine;
      AlwaysBegan();
      FineServes(w.s, DATA);
      was := None;
      :- RequireTarget(TargetPostgres, true, true);
      w.Note(Serving(TargetPostgres), pins);
      was := pins.Of(TargetPostgres);
      if was.None? {
        return Raised, was;
      }
      :- StopPostgresInSession();
      :- RequireTarget(TargetPostgres, false, false);
      w.Note(PostgresIdle, pins);
      o := RemoveAndForget(was.value);
    }

    method RemoveAndForget(id: nat) returns (o: Outcome)
      requires InSession() && w.step == REPLACEMENT_PLANNED + 3 && pins.postgres == Some(id)
      modifies this`pins, w`s, w`hidden, w`answers, w`step
      ensures InSession() && Began(old(w.s), w.s)
      ensures o.Done? ==> w.step == REPLACEMENT_PLANNED + 5 && pins == old(pins).With(TargetPostgres, None)
      ensures old(Fine(w.s, {TargetRedis}) && PinnedAs(w.s, pins, TargetPostgres)) ==>
                o.Done? && Fine(w.s, {TargetRedis}) && TargetPostgres !in w.s.targets && id < w.s.nextId
    {
      hide World.Sound, Unaliased, FlagsCover, Began, DataUp, Controller.IdentityKept, Controller.InSession, Controller.Ready,
           Controller.Fine;
      AlwaysBegan();
      FineServes(w.s, {TargetRedis});
      KnownId(id);
      :- RemoveInSession();
      var runtime :- FindInSession(TargetPostgres, Some(id));
      if runtime.Some? {
        return Raised;
      }
      w.Note(PostgresGone, pins);
      ForgetPostgres();
      return Done;
    }

    lemma KnownId(id: nat)
      requires InSession()
      ensures PinnedAs(w.s, pins, TargetPostgres) && pins.postgres == Some(id) ==> id < w.s.nextId
    {
    }

    method RemoveInSession() returns (o: Outcome)
      requires InSession() && w.Next(RemovePostgres)
      modifies w`s, w`step
      ensures InSession() && Began(old(w.s), w.s) && w.step == old(w.step) + Took(o)
      ensures w.s == old(w.s) || w.s == old(w.s).(targets := old(w.s).targets - {TargetPostgres})
      ensures w.oracle.Calm? ==> o.Done? && w.s == old(w.s).(targets := old(w.s).targets - {TargetPostgres})
    {
      hide World.Sound, Unaliased, Began;
      o := w.RemoveTargetPostgres();
      BeganWhen(old(w.s), w.s);
    }

    method FindInSession(t: Target, pinned: Option<nat>) returns (r: Reply<Option<Container>>)
      requires InSession()
      modifies w`hidden, w`answers
      ensures InSession() && (r.Failed? ==> !r.outcome.Done?)
      ensures r.Answer? && r.value.None? && Present(w.s, t, pinned) ==> w.s.targets[t].id in w.hidden
      ensures w.oracle.Calm? && !Present(w.s, t, pinned) ==> r == Answer(None)
    {
      hide World.Sound, Unaliased, FlagsCover;
      r := FindTarget(t, pinned);
    }

    method ForgetPostgres()
      requires InSession()
      modifies this`pins
      ensures InSession() && pins == old(pins).With(TargetPostgres, None)
      ensures forall s :: old(Fine(s, {TargetRedis})) && w.s == s.(targets := s.targets - {TargetPostgres}) ==> Fine(w.s, {TargetRedis})
    {
      hide World.Sound, FlagsCover, Unaliased, DataUp;
      UnpinKeepsUnaliased(pins, w.ids, TargetPostgres);
      pins := pins.With(TargetPostgres, None);
      assert forall t: Target :: pins.Of(t) == if t == TargetPostgres then None else old(pins).Of(t);
      forall s | old(Fine(s, {TargetRedis})) && w.s == s.(targets := s.targets - {TargetPostgres})
        ensures Fine(w.s, {TargetRedis})
      {
        assert Tidy(s, w.ids);
        assert DataUp(w.s) by {
          SameData(s, w.s);
        }
      }
    }

    lemma SameData(a: State, b: State)
      requires b.legacy == a.legacy
      ensures DataUp(a) <==> DataUp(b)
    {
    }

    method StopPostgresInSession() returns (o: Outcome)
      requires InSession() && w.Next(StopPostgres)
      modifies w`s, w`step
      ensures InSession() && Kept(old(w.s), w.s) && w.step == old(w.step) + Took(o)
      ensures Fine(old(w.s), DATA) ==>
                o.Done? && Fine(w.s, {TargetRedis}) && PinnedAs(w.s, pins, TargetPostgres) && !w.s.targets[TargetPostgres].running
    {
      hide World.Sound, Unaliased, Began, Planned, Controller.Fine, PinnedAs;
      o := w.StopTargetPostgres();
      KeptWhen(old(w.s), w.s);
      StoppedFine(old(w.s), w.s);
    }

    lemma StoppedFine(a: State, b: State)
      requires b == a || (TargetPostgres in a.targets
                 && b == a.(targets := a.targets[TargetPostgres := a.targets[TargetPostgres].(running := false)]))
      ensures Fine(a, DATA) ==> w.oracle.Calm? && Fine(b, {TargetRedis}) && PinnedAs(b, pins, TargetPostgres)
      ensures Fine(a, DATA) ==> TargetPostgres in b.targets
    {
      if Fine(a, DATA) {
        assert Serves(a, pins, TargetPostgres);
        assert Tidy(b, w.ids) && DataUp(b) by {
          SameData(a, b);
        }
        forall t: Target | pins.Of(t).Some?
          ensures PinnedAs(b, pins, t)
        {
          assert PinnedAs(a, pins, t);
        }
      }
    }

    lemma FineServes(s: State, up: set<Target>)
      ensures Fine(s, up) ==> w.oracle.Calm? && forall t: Target :: t in up ==> Serves(s, pins, t)
    {
    }

    method RestartNonce() returns (o: Outcome)
      requires InSession() && nonceTargetStarted && w.step == NONCE_RESTART_PLANNED
      modifies w`s, w`step
      ensures InSession() && Began(old(w.s), w.s)
      ensures o.Done? ==> w.step == START_PLANNED && Holds(NonceServing, w.s, pins, w.hidden) && !w.s.acl
      ensures Fine(old(w.s), DATA) ==> o.Done? && Fine(w.s, DATA)
    {
      hide World.Sound, Unaliased, FlagsCover, Began, Controller.InSession, Controller.Ready, Controller.Fine;
      AlwaysBegan();
      FineIsKept(w.s, DATA);
      :- w.Issue(StopNonce);
      :- RemoveNonceInSession();
      :- DropMigrationAcl();
      o := UpNonce();
    }

    method RemoveNonceInSession() returns (o: Outcome)
      requires InSession() && w.Next(RemoveNonce)
      modifies w`s, w`step
      ensures InSession() && Began(old(w.s), w.s) && w.step == old(w.step) + Took(o)
      ensures Fine(old(w.s), DATA) ==> o.Done? && Fine(w.s, DATA)
    {
      hide World.Sound, Unaliased, Began, Tidy;
      o := w.RemoveNonceTarget();
      BeganWhen(old(w.s), w.s);
      FineWhen(old(w.s), w.s, DATA);
    }

    method DropMigrationAcl() returns (o: Outcome)
      requires InSession() && w.Next(DropAcl)
      modifies w`s, w`step
      ensures InSession() && Began(old(w.s), w.s) && w.step == old(w.step) + Took(o) && (o.Done? ==> !w.s.acl)
      ensures Fine(old(w.s), DATA) ==> o.Done? && Fine(w.s, DATA)
    {
      hide World.Sound, Unaliased, Began, Tidy;
      o := w.ConfigureAcl(false, true);
      BeganWhen(old(w.s), w.s);
      FineWhen(old(w.s), w.s, DATA);
    }

    method StartTarget() returns (o: Outcome)
      requires InSession() && w.step == START_PLANNED + 1
      modifies this`pins, w`s, w`step
      ensures InSession() && Kept(old(w.s), w.s)
      ensures pins == old(pins) || exists id :: pins == old(pins).With(TargetApp, Some(id))
      ensures o.Done? ==> w.step == SWITCH_PLANNED && forall t: Target :: PinnedAs(w.s, pins, t)
      ensures old(Fine(w.s, DATA)) ==> o.Done? && Fine(w.s, TARGETS)
    {
      hide World.Sound, Unaliased, FlagsCover, Began, PinnedAs, OnlyNew, Idled, Controller.InSession, Controller.Ready, Controller.Fine,
           Controller.Kept, Tidy, DataUp;
      AlwaysKept();
      FineIsKept(w.s, DATA);
      :- UpTargets({TargetApp}, DATA);
      assert Fine(old(w.s), DATA) ==> w.Upped(old(w.s), w.s, TargetApp, true);
      :- WaitInSession(TargetApp, DATA);
      assert DATA + {TargetApp} == TARGETS;
      :- RequireAllTargets();
      assert forall t: Target :: Serves(w.s, pins, t) ==> PinnedAs(w.s, pins, t);
      :- w.Issue(Verify(StoppedLegacy));
      o := w.Issue(Verify(TargetHealth));
    }

    method SwitchAndCanary() returns (o: Outcome)
      requires InSession() && w.step == SWITCH_PLANNED + 1
      modifies this`canaryActive, w`s, w`step
      ensures InSession() && w.s == old(w.s).(file := w.s.file, live := w.s.live)
      ensures o.Done? ==> w.s.file == w.s.live == Canary && canaryActive && w.step == CLEAR_PLANNED
      ensures o.Done? ==> forall t: Target :: Serves(w.s, pins, t)
      ensures old(Fine(w.s, TARGETS)) ==> o.Done?
    {
      hide World.Sound, Unaliased, FlagsCover, PinnedAs, Tidy, DataUp, Controller.Fine, Serves, Controller.InSession;
      FineIsKept(w.s, TARGETS);
      :- RequireAllTargets();
      :- w.Issue(Verify(TargetHealth));
      :- SwitchTrafficToCanary();
      :- RequireAllTargets();
      :- w.Issue(Verify(TargetHealth));
      :- w.Issue(Verify(ApiCanary));
      o := RequireAllTargets();
    }

    method SwitchTrafficToCanary() returns (o: Outcome)
      requires InSession() && w.Next(SwitchToCanary)
      modifies this`canaryActive, w`s, w`step
      ensures InSession() && w.s == old(w.s).(file := w.s.file, live := w.s.live) && w.step == old(w.step) + Took(o)
      ensures o.Done? ==> w.s.file == w.s.live == Canary && canaryActive
      ensures old(Fine(w.s, TARGETS)) ==> o.Done? && Fine(w.s, TARGETS)
    {
      hide World.Sound, Unaliased, Tidy;
      o := w.Switch(Canary);
      FineStays(old(w.s), w.s, TARGETS);
      :- o;
      canaryActive := true;
      return Done;
    }

    /* -------------------------------------------------------------- execute() */

    /** The pinned targets carry the traffic, without the migration access; the legacy writers are down. */
    ghost predicate Completed()
      reads this, w`s
    {
      && Quiet(w.s) && w.s.file == w.s.live == Canary && w.s.record == Absent
      && (forall t: Target :: Serves(w.s, pins, t))
      && w.s.nonce.Some? && w.s.nonce.value.running && w.s.nonce.value.health == Healthy && !w.s.acl
    }

    /** The body of the try block of execute(); `first` is what the preflight has pinned. */
    method RunPhases() returns (o: Outcome, ghost first: Pins)
      requires w.Sound() && Unaliased(pins, w.ids) && !targetStarted && !nonceTargetStarted && !identityUnavailable
      requires !writersStopped && w.step == 0
      modifies this, w`s, w`hidden, w`answers, w`finalClear, w`step
      ensures !identityUnavailable && w.Sound()
      ensures if targetStarted then Ready() && SameChecks(old(w.s), w.s) else w.s == old(w.s) && !writersStopped
      ensures o.Done? ==> Completed() && w.step == ALL_PLANNED && PinReplaced(first, pins)
      ensures old(Prepared()) ==> o.Done?
    {
      hide World.Sound, Unaliased, FlagsCover, Began, PinnedAs, Quiet, SameChecks, Controller.Completed, Controller.Prepared, Planned;
      AlwaysSameChecks();
      first := pins;
      o := Preflight();
      :- o;
      ghost var s1 := w.s;
      first := pins;
      o := AfterPreflight();
      :- o;
      o := FinalClear();
    }

    lemma AlwaysSameChecks()
      ensures forall a, b, c :: SameChecks(a, b) && SameChecks(b, c) ==> SameChecks(a, c)
      ensures forall a, b :: SameChecks(a, b) ==> (HasChecks(a) <==> HasChecks(b))
    {
    }

    method AfterPreflight() returns (o: Outcome)
      requires InSession() && nonceTargetStarted && w.step == STOP_PLANNED
      modifies this`writersStopped, this`canaryActive, this`pins, this`nonceRuntimeActive, w`s, w`hidden, w`answers, w`step
      ensures InSession() && SameChecks(old(w.s), w.s)
      ensures o.Done? ==> Quiet(w.s) && w.s.file == w.s.live == Canary && w.step == CLEAR_PLANNED
      ensures o.Done? ==> (forall t: Target :: Serves(w.s, pins, t)) && Holds(NonceServing, w.s, pins, w.hidden) && !w.s.acl
      ensures o.Done? ==> PinReplaced(old(pins), pins)
      ensures old(Fine(w.s, DATA)) ==> o.Done?
    {
      hide World.Sound, Unaliased, FlagsCover, PinnedAs, Controller.InSession, Controller.Ready, Quiet, SameChecks, Serves,
           Controller.Fine, Controller.PinReplaced, Planned;
      AlwaysSameChecks();
      FineIsKept(w.s, DATA);
      :- StopAndMigrate();
      ghost var now := pins;
      :- ServeTraffic();
      StillReplaced(old(pins), now);
      o := w.Check();
    }

    lemma StillReplaced(before: Pins, later: Pins)
      requires PinReplaced(before, later) && pins.postgres == later.postgres
      ensures PinReplaced(before, pins)
    {
    }

    /** From the last checkpoint before the writers stop to the end of the migration. */
    method StopAndMigrate() returns (o: Outcome)
      requires InSession() && nonceTargetStarted && w.step == STOP_PLANNED
      modifies this`writersStopped, this`pins, this`nonceRuntimeActive, w`s, w`hidden, w`answers, w`step
      ensures InSession() && SameChecks(old(w.s), w.s)
      ensures o.Done? ==> Quiet(w.s) && w.step == START_PLANNED
      ensures o.Done? ==> Holds(NonceServing, w.s, pins, w.hidden) && !w.s.acl && PinReplaced(old(pins), pins)
      ensures old(Fine(w.s, DATA)) ==> o.Done? && Fine(w.s, DATA)
    {
      hide World.Sound, Unaliased, FlagsCover, Began, PinnedAs, Controller.InSession, Controller.Ready, Quiet, SameChecks, Serves,
           Controller.Fine, Controller.Kept, Controller.Recorded, Controller.PinReplaced;
      AlwaysSameChecks();
      AlwaysKept();
      AlwaysBegan();
      o := PersistInSession(ReadyToStopWriters, DATA);
      KeptChecks(old(w.s), w.s);
      :- o;
      o := StopWriters();
      ghost var before := w.s;
      :- o;
      o := PersistInSession(WritersStopped, DATA);
      KeptChecks(before, w.s);
      :- o;
      o := PersistInSession(Migrating, DATA);
      KeptChecks(before, w.s);
      :- o;
      o := MigrateData();
      BeganChecks(before, w.s);
      :- o;
      BeganQuiet(before, w.s);
    }

    lemma KeptChecks(a: State, b: State)
      requires Kept(a, b)
      ensures SameChecks(a, b)
    {
    }

    /** From the end of the migration to the last check of the canary. */
    method ServeTraffic() returns (o: Outcome)
      requires InSession() && Quiet(w.s) && w.step == START_PLANNED
      modifies this`canaryActive, this`pins, w`s, w`step
      ensures InSession() && SameChecks(old(w.s), w.s) && pins.postgres == old(pins).postgres
      ensures w.s.nonce == old(w.s.nonce) && w.s.acl == old(w.s.acl)
      ensures o.Done? ==> Quiet(w.s) && w.s.file == w.s.live == Canary && w.step == CLEAR_PLANNED
      ensures o.Done? ==> forall t: Target :: Serves(w.s, pins, t)
      ensures old(Fine(w.s, DATA)) ==> o.Done?
    {
      hide World.Sound, Unaliased, FlagsCover, Began, PinnedAs, Controller.InSession, Controller.Ready, Quiet, SameChecks, Serves,
           Controller.Fine, Controller.Kept, Controller.Recorded;
      AlwaysKept();
      o := PersistInSession(StartingTarget, DATA);
      ServingFrom(old(w.s), w.s);
      :- o;
      o := StartTarget();
      ServingFrom(old(w.s), w.s);
      :- o;
      o := PersistInSession(SwitchingNginx, TARGETS);
      ServingFrom(old(w.s), w.s);
      :- o;
      ghost var before := w.s;
      o := SwitchAndCanary();
      SwitchedFrom(old(w.s), before, w.s);
    }

    lemma ServingFrom(a: State, b: State)
      requires Kept(a, b)
      ensures b.nonce == a.nonce && b.acl == a.acl && SameChecks(a, b) && (Quiet(a) ==> Quiet(b))
    {
    }

    lemma SwitchedFrom(a: State, b: State, c: State)
      requires SameChecks(a, b) && c == b.(file := c.file, live := c.live)
      ensures SameChecks(a, c) && (Quiet(b) ==> Quiet(c))
    {
    }

    lemma BeganQuiet(a: State, b: State)
      requires Began(a, b) && Quiet(a)
      ensures Quiet(b)
    {
    }

    /** The clear at the end of a completed cutover; it may unlink the record and still raise. */
    method FinalClear() returns (o: Outcome)
      requires InSession() && Quiet(w.s) && w.s.file == w.s.live == Canary && w.step == CLEAR_PLANNED
      requires (forall t: Target :: Serves(w.s, pins, t)) && Holds(NonceServing, w.s, pins, w.hidden) && !w.s.acl
      modifies w`s, w`finalClear, w`step
      ensures Ready() && SameChecks(old(w.s), w.s) && (o.Done? ==> Completed() && w.step == ALL_PLANNED)
      ensures w.oracle.Calm? ==> o.Done?
    {
      hide World.Sound, Unaliased;
      o := w.Clear(true);
      OnlyRecord(old(w.s), w.s);
    }

    lemma OnlyRecord(a: State, b: State)
      requires b == a.(record := b.record)
      ensures (Quiet(a) ==> Quiet(b)) && SameChecks(a, b)
      ensures forall p, t :: Serves(a, p, t) ==> Serves(b, p, t)
    {
    }

    /** execute(): the phases, and on any failure the rollback. A run that succeeds has taken every act of the
        plan, in its order; on a host whose commands do what they are meant to do it succeeds, and one that
        raises there has brought the legacy services back. */
    method Execute() returns (o: Outcome, ghost first: Pins)
      requires w.Sound() && Unaliased(pins, w.ids) && !targetStarted && !nonceTargetStarted && !identityUnavailable
      requires !writersStopped && w.s.record == Absent && w.step == 0
      modifies this, w
      ensures w.Sound() && old(w.log) <= w.log
      ensures o.Done? ==> Completed() && w.log == old(w.log) && w.step == ALL_PLANNED && PinReplaced(first, pins)
      ensures old(Prepared()) ==> o.Done?
      ensures Helped(old(w.deeds), w.deeds)
      ensures o.Raised? && w.oracle.Calm? && HasChecks(old(w.s)) ==>
                if targetStarted then StableTraffic(w.s) else w.s == old(w.s)
      ensures o.Raised? && w.oracle.Calm? && targetStarted && Identified() && Trusted(w.s) ==>
                w.s.record == Absent || w.s.record == Valid(Recorded(RollbackIncomplete))
    {
      hide World.Sound, Unaliased, FlagsCover, Began, Restored, KeptByRollback, TargetsKept, Controller.Completed, Dangling, HasChecks,
           SameChecks, Helped, StableTraffic, Controller.Undisturbed, Follows, Planned, Controller.Prepared;
      AlwaysHelped(w.deeds);
      AlwaysSameChecks();
      o, first := RunPhases();
      if !o.Raised? {
        return;
      }
      ghost var f: Findings, run: Run;
      var errors: seq<Label> := [];
      if targetStarted || writersStopped {
        o, errors, f, run := Rollback();
        :- o;
      }
      if errors != [] {
        ghost var before := w.s;
        o := PersistRecoveryState(RollbackIncomplete, false);
        StableWhen(before, w.s);
        return if o.Crashed? then Crashed else Raised, first;
      }
      RestoredIsNotDangling(w.s, w.hidden);
      ghost var before := w.s;
      o := w.Clear(false);
      StableWhen(before, w.s);
      return if o.Crashed? then Crashed else Raised, first;
    }

    lemma TrustedWhen(a: State, b: State, c: State)
      requires KeptByRollback(a, b) && c == b.(record := c.record)
      ensures (Trusted(a) <==> Trusted(b)) && (Trusted(b) <==> Trusted(c))
      ensures TargetsKept(a, b) ==> TargetsKept(a, c)
    {
    }

    lemma LeftWhen(a: State, b: State, c: State)
      requires c == b.(record := c.record)
      ensures LeftOf(a, b) ==> LeftOf(a, c)
    {
    }

    lemma StableWhen(a: State, b: State)
      requires b == a.(record := b.record)
      ensures StableTraffic(a) <==> StableTraffic(b)
    {
    }
  }
}
