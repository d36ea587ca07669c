/** LockedStream of deploy/locked-postgres-stream.py: lock, snapshot, dump, commit, unlock, with other
    clients and dying backends in between. */
module LockedStream {
  import opened Text
  import opened SourceDatabase

  /** Done, or StreamFailure. */
  datatype Outcome = Done | Failure {
    predicate IsFailure() { Failure? }

    function PropagateFailure(): Outcome
      requires Failure?
    {
      this
    }
  }

  /** While the lock holder's session is alive it holds the lock it took. */
  ghost predicate Holding(d: Db) { d.lockHolder == Alive ==> d.locked }

  /** While the lock is held the source still shows the exported snapshot. */
  ghost predicate Exported(d: Db) { d.locked ==> d.snapshot == Some(d.source) }

  /** Commit `c` happened under the lock, if the lock is still held. */
  ghost predicate Witnessed(c: CommitFact, d: Db) {
    d.locked ==> c.locked && c.source == d.source && c.applied == d.applied == d.atLock
  }

  lemma RelyKeeps(a: Db, b: Db)
    requires Rely(a, b)
    ensures b.nextId >= a.nextId && b.snapshot == a.snapshot && b.target == a.target && b.commits == a.commits
    ensures b.atLock == a.atLock
    ensures Holding(a) ==> Holding(b)
    ensures Exported(a) ==> Exported(b)
    ensures forall c :: Witnessed(c, a) ==> Witnessed(c, b)
    ensures b.restored.Some? ==> b.restored == a.restored
  {
  }

  /** Clients below `bound` are gone for good and have not written since `c`. */
  ghost predicate Silenced(d: Db, bound: nat, applied: set<nat>) {
    && bound <= d.nextId
    && (forall i: nat :: i < bound ==> !Connected(d, i))
    && (forall i :: i < bound && i in d.applied ==> i in applied)
  }

  lemma SilenceLasts(a: Db, b: Db, bound: nat, applied: set<nat>)
    requires Rely(a, b) && Silenced(a, bound, applied)
    ensures Silenced(b, bound, applied)
  {
    hide Connected;
  }

  /** What `Rely` leaves alone about the controller's own sessions. */
  lemma RelyKeepsSessions(a: Db, b: Db)
    requires Rely(a, b)
    ensures b.lockHolder == Alive ==> a.lockHolder == Alive
    ensures b.snapshotHolder == Alive ==> a.snapshotHolder == Alive
    ensures b.restorer == Alive ==> a.restorer == Alive
    ensures b.restored.Some? ==> a.restored.Some?
  {
  }

  class LockedStream {
    const db: Databases
    var lockHolder: bool
    var snapshotHolder: bool
    var target: bool
    var targetCommitted: bool

    constructor (db: Databases)
      ensures this.db == db && !lockHolder && !snapshotHolder && !target && !targetCommitted
    {
      this.db := db;
      lockHolder, snapshotHolder, target, targetCommitted := false, false, false, false;
    }

    /** Every session of this stream that lives, and a transaction with restored rows, is one that the
        fields know of, so the cleanup will end it. */
    ghost predicate Accounted()
      reads this, db
    {
      && (db.d.lockHolder == Alive ==> lockHolder)
      && (db.d.snapshotHolder == Alive ==> snapshotHolder)
      && (db.d.restorer == Alive || db.d.restored.Some? ==> target && !targetCommitted)
      && (target ==> !targetCommitted)
    }

    /** Time passes: the others run, and the deadline may be over or a pipe broken. */
    method Elapse() returns (o: Outcome)
      requires Valid(db.d) && Accounted()
      modifies db
      ensures Valid(db.d) && Rely(old(db.d), db.d) && Accounted()
      ensures db.calm ==> o.Done? && db.d == old(db.d)
    {
      hide Valid, Rely;
      ghost var before := db.d;
      db.Others();
      RelyKeepsSessions(before, db.d);
      var ok := db.Works();
      o := if ok then Done else Failure;
    }

    /** Until LOCK_READY is read. */
    method StartLockHolder() returns (o: Outcome)
      requires Valid(db.d) && Accounted() && db.d.lockHolder == Unstarted && !db.d.locked
      modifies db, this`lockHolder
      ensures Valid(db.d) && Accounted() && SameTarget(old(db.d), db.d)
      ensures o.Done? ==> Holding(db.d)
      ensures db.calm && old(db.d).clients == [] ==> o.Done? && db.d.clients == [] && db.d.lockHolder == Alive
    {
      hide SameTarget;
      AlwaysSameTarget();
      lockHolder := true;
      var ok := db.LockSource();
      o := if ok then Done else Failure;
    }

    /** The snapshot is fixed, both gates pass on it, and its identity is exported. */
    method StartSnapshotHolder() returns (o: Outcome)
      requires Valid(db.d) && Accounted() && Holding(db.d)
      modifies db, this`snapshotHolder
      ensures Valid(db.d) && Accounted() && SameTarget(old(db.d), db.d)
      ensures o.Done? ==> Holding(db.d) && Exported(db.d)
      ensures db.calm ==> o.Done? && db.d == old(db.d).(snapshotHolder := Alive, snapshot := Some(db.d.source))
      ensures db.calm ==> snapshotHolder
    {
      hide Valid, SameTarget, Rely;
      AlwaysSameTarget();
      ghost var before := db.d;
      o := Elapse();
      RelyKeeps(before, db.d);
      :- o;
      snapshotHolder := true;
      var ok := db.BeginSnapshot();
      if !ok {
        return Failure;
      }
      before := db.d;
      o := Elapse();
      RelyKeeps(before, db.d);
    }

    /** The row counts are read on the snapshot; then the target's transaction is opened. */
    method StartTarget() returns (o: Outcome)
      requires Valid(db.d) && Accounted() && Holding(db.d) && Exported(db.d) && !targetCommitted
      modifies db, this`target
      ensures Valid(db.d) && Accounted() && SameTarget(old(db.d), db.d) && db.d.snapshot == old(db.d).snapshot
      ensures Holding(db.d) && Exported(db.d) && (o.Done? ==> target && db.d.restorer == Alive)
      ensures db.calm ==> o.Done? && db.d == old(db.d).(restorer := Alive, restored := None)
    {
      hide Valid, SameTarget, Rely;
      AlwaysSameTarget();
      ghost var before := db.d;
      o := Elapse();
      RelyKeeps(before, db.d);
      :- o;
      target := true;
      var ok := db.StartRestorer();
      o := if ok then Done else Failure;
    }

    /** The dump is piped into the target and validated there. */
    method StreamDump() returns (o: Outcome)
      requires Valid(db.d) && Accounted() && Holding(db.d) && Exported(db.d) && target
      modifies db
      ensures Valid(db.d) && Accounted() && SameTarget(old(db.d), db.d)
      ensures Holding(db.d) && Exported(db.d)
      ensures o.Done? && db.d.restored.Some? ==> db.d.restored == db.d.snapshot
      ensures db.calm && old(db.d).restorer == Alive && old(db.d).snapshotHolder == Alive && old(db.d).snapshot.Some? ==>
                o.Done? && db.d == old(db.d).(restored := old(db.d).snapshot)
    {
      hide Valid, SameTarget, Rely;
      AlwaysSameTarget();
      ghost var before := db.d;
      o := Elapse();
      RelyKeeps(before, db.d);
      :- o;
      var ok := db.StreamDump();
      if !ok {
        return Failure;
      }
      before := db.d;
      o := Elapse();
      RelyKeeps(before, db.d);
    }

    method StopSnapshotHolder() returns (o: Outcome)
      requires Valid(db.d) && Accounted()
      modifies db, this`snapshotHolder
      ensures Valid(db.d) && Accounted() && SameTarget(old(db.d), db.d) && !snapshotHolder
      ensures old(Holding(db.d)) ==> Holding(db.d)
      ensures old(Exported(db.d)) ==> Exported(db.d)
      ensures db.d.restored.Some? ==> db.d.restored == old(db.d).restored
      ensures db.d.snapshot == old(db.d).snapshot
      ensures o.Done? ==> old(db.d).snapshotHolder == Alive
      ensures db.calm && old(db.d).snapshotHolder == Alive ==> o.Done? && db.d == old(db.d).(snapshotHolder := Dead)
    {
      hide Valid, SameTarget, Rely;
      AlwaysSameTarget();
      ghost var before := db.d;
      o := Elapse();
      RelyKeeps(before, db.d);
      RelyKeepsSessions(before, db.d);
      var ok := db.EndSnapshotHolder();
      snapshotHolder := false;
      o := if ok then o else Failure;
    }

    /** Success means that no other client is connected. */
    method ClearSourceClients() returns (o: Outcome, ghost bound: nat)
      requires Valid(db.d) && Accounted() && Holding(db.d) && Exported(db.d)
      modifies db
      ensures Valid(db.d) && Accounted() && SameTarget(old(db.d), db.d)
      ensures Holding(db.d) && Exported(db.d) && db.d.snapshot == old(db.d).snapshot
      ensures db.d.restored.Some? ==> db.d.restored == old(db.d).restored
      ensures o.Done? ==> old(db.d).nextId <= bound && Silenced(db.d, bound, db.d.atLock)
      ensures db.calm && old(db.d).lockHolder == Alive && old(db.d).clients == [] && old(db.d).snapshotHolder != Alive ==>
                o.Done? && db.d == old(db.d)
    {
      hide SameTarget, Rely;
      AlwaysSameTarget();
      ghost var before := db.d;
      o := Elapse();
      RelyKeeps(before, db.d);
      bound := db.d.nextId;
      :- o;
      var ok := db.GuardClients();
      if !ok {
        return Failure, bound;
      }
      assert db.d.locked;
      before := db.d;
      o := Elapse();
      RelyKeeps(before, db.d);
      SilenceLasts(before, db.d, bound, db.d.atLock);
    }

    /** Success means that psql acknowledged the commit; a failure leaves open whether it happened. */
    method CommitTarget() returns (o: Outcome)
      requires Valid(db.d) && Accounted() && Holding(db.d) && Exported(db.d) && target
      requires db.d.restored.Some? ==> db.d.restored == db.d.snapshot
      modifies db, this`target, this`targetCommitted
      ensures Valid(db.d) && Accounted() && Holding(db.d) && Exported(db.d) && db.d.snapshot == old(db.d).snapshot
      ensures SameTarget(old(db.d), db.d) || CommittedSnapshot(old(db.d), db.d)
      ensures o.Done? ==> CommittedSnapshot(old(db.d), db.d) && db.d.commits[|db.d.commits| - 1].content == db.d.snapshot.value
                          && Witnessed(db.d.commits[|db.d.commits| - 1], db.d)
      ensures db.d.atLock == old(db.d).atLock && (o.Done? ==> !target && targetCommitted)
      ensures forall bound, s :: Silenced(old(db.d), bound, s) ==> Silenced(db.d, bound, s)
      ensures db.calm && old(db.d).restored.Some? ==>
                o.Done? && db.d == old(db.d).(target := db.d.target, restorer := Dead, restored := None, commits := db.d.commits)
    {
      hide Rely, Silenced;
      ghost var before := db.d;
      o := Elapse();
      RelyKeeps(before, db.d);
      AllSilenceLasts(before, db.d);
      :- o;
      ghost var middle := db.d;
      var acknowledged := db.Commit();
      CommitKeepsSilence(middle, db.d);
      if !acknowledged {
        return Failure;
      }
      target, targetCommitted := false, true;
      ghost var after := db.d;
      o := Elapse();
      RelyKeeps(after, db.d);
      AllSilenceLasts(after, db.d);
    }

    /** Success means that the lock holder's session was still there to answer. */
    method StopLockHolder() returns (o: Outcome)
      requires Valid(db.d) && Accounted()
      modifies db, this`lockHolder
      ensures Valid(db.d) && Accounted() && SameTarget(old(db.d), db.d) && !lockHolder && db.d.snapshot == old(db.d).snapshot
      ensures !db.d.locked
      ensures o.Done? && old(Holding(db.d)) ==>
                && (old(Exported(db.d)) ==> db.d.snapshot == Some(old(db.d.source)))
                && (forall c :: old(Witnessed(c, db.d)) ==> c.locked && c.source == old(db.d.source) && c.applied == db.d.atLock)
      ensures db.d.atLock == old(db.d).atLock
      ensures forall bound, s :: Silenced(old(db.d), bound, s) ==> Silenced(db.d, bound, s)
      ensures db.calm && old(db.d).lockHolder == Alive ==> o.Done?
    {
      hide Rely, Silenced, SameTarget;
      AlwaysSameTarget();
      ghost var before := db.d;
      o := Elapse();
      RelyKeeps(before, db.d);
      SameSource(before, db.d);
      AllSilenceLasts(before, db.d);
      ghost var middle := db.d;
      var ok := db.EndLockHolder();
      EndKeepsSilence(middle, db.d);
      lockHolder := false;
      o := if ok then o else Failure;
    }

    /** The body of the try block of execute(). */
    method RunProtocol() returns (o: Outcome, ghost bound: nat)
      requires Valid(db.d) && Accounted() && db.d.lockHolder == Unstarted && !db.d.locked && !targetCommitted
      modifies db, this
      ensures Valid(db.d) && Accounted() && Settled(old(db.d), db.d)
      ensures o.Done? ==> Transferred(old(db.d), db.d, bound) && !target && !snapshotHolder && !lockHolder
      ensures db.calm && old(db.d).clients == [] ==> o.Done?
    {
      hide Valid, Rely, Silenced, SameTarget, Exported, Witnessed, CommittedSnapshot, Transferred;
      AlwaysSameTarget();
      bound := 0;
      :- StartLockHolder();
      :- StartSnapshotHolder();
      :- StartTarget();
      :- StreamDump();
      :- StopSnapshotHolder();
      o, bound := ClearSourceClients();
      :- o;
      ghost var ready := db.d;
      o := CommitTarget();
      ghost var committed := db.d;
      SettledBefore(old(db.d), ready, committed);
      :- o;
      o := StopLockHolder();
      SettledAfter(old(db.d), committed, db.d);
      if o.Done? {
        IsTransferred(old(db.d), ready, committed, db.d, bound);
      }
    }

    /** execute(): the protocol, then whatever was started is stopped. Whatever the outcome, no session of
        this stream lives on, no lock is left and no transaction is open; where nobody interferes and
        nobody else is connected it succeeds. */
    method Execute() returns (o: Outcome, ghost bound: nat)
      requires Valid(db.d) && Accounted() && db.d.lockHolder == Unstarted && !db.d.locked && !targetCommitted
      modifies db, this
      ensures Valid(db.d) && Settled(old(db.d), db.d)
      ensures o.Done? ==> Transferred(old(db.d), db.d, bound)
      ensures !lockHolder && !snapshotHolder && !target
      ensures Released(db.d)
      ensures db.calm && old(db.d).clients == [] ==> o.Done?
    {
      hide Valid, Rely, Silenced, SameTarget, Holding, Exported, Witnessed, Transferred, Settled;
      AlwaysSameTarget();
      o, bound := RunProtocol();
      ghost var ran := db.d;
      if target && !targetCommitted {
        db.RollbackTarget();
        target := false;
        SettledAfter(old(db.d), ran, db.d);
      }
      ran := db.d;
      if snapshotHolder {
        var stopped := StopSnapshotHolder();
        SettledAfter(old(db.d), ran, db.d);
      }
      ran := db.d;
      if lockHolder {
        var stopped := StopLockHolder();
        SettledAfter(old(db.d), ran, db.d);
      }
      LockNeedsHolder(db.d);
    }
  }

  /** No session of the stream lives, no lock is held, and nothing restored waits for a commit. */
  ghost predicate Released(d: Db) {
    && d.lockHolder != Alive && !d.locked && d.snapshotHolder != Alive
    && d.restorer != Alive && d.restored.None?
  }

  lemma LockNeedsHolder(d: Db)
    requires Valid(d) && d.lockHolder != Alive
    ensures !d.locked
  {
  }

  /** Whatever happens, the target's committed rows are the old ones or, by one commit, the exported
      snapshot's. */
  ghost predicate Settled(a: Db, b: Db) { SameTarget(a, b) || CommittedSnapshot(a, b) }

  /** The rows that were committed are the exported snapshot's and also the source's at the commit; the
      lock taken at LOCK_READY was held until then, so nothing was written in between, and nobody who
      was connected at the client guard has written since. */
  ghost predicate Transferred(a: Db, b: Db, bound: nat) {
    && CommittedSnapshot(a, b)
    && (var c := b.commits[|a.commits|];
        c.locked && c.content == c.source == b.target && c.applied == b.atLock)
    && a.nextId <= bound
    && forall i :: i < bound && i in b.applied ==> i in b.atLock
  }

  lemma SettledBefore(a: Db, b: Db, c: Db)
    requires SameTarget(a, b) && Settled(b, c)
    ensures Settled(a, c) && (CommittedSnapshot(b, c) ==> CommittedSnapshot(a, c))
  {
  }

  lemma SettledAfter(a: Db, b: Db, c: Db)
    requires Settled(a, b) && SameTarget(b, c) && c.snapshot == b.snapshot
    ensures Settled(a, c)
  {
  }

  lemma IsTransferred(a: Db, ready: Db, committed: Db, b: Db, bound: nat)
    requires SameTarget(a, ready) && CommittedSnapshot(ready, committed) && SameTarget(committed, b)
    requires b.snapshot == committed.snapshot == Some(committed.source)
    requires var c := committed.commits[|committed.commits| - 1];
             c.locked && c.source == committed.source && c.applied == b.atLock
    requires a.nextId <= bound && Silenced(b, bound, b.atLock)
    ensures Transferred(a, b, bound)
  {
    hide Connected;
  }

  lemma SameSource(a: Db, b: Db)
    requires Rely(a, b)
    ensures b.locked ==> b.source == a.source && a.locked
  {
  }

  lemma AllSilenceLasts(a: Db, b: Db)
    requires Rely(a, b)
    ensures forall bound, s :: Silenced(a, bound, s) ==> Silenced(b, bound, s)
  {
    hide Rely, Silenced;
    forall bound, s | Silenced(a, bound, s)
      ensures Silenced(b, bound, s)
    {
      SilenceLasts(a, b, bound, s);
    }
  }

  lemma CommitKeepsSilence(a: Db, b: Db)
    requires b == a.(target := b.target, restorer := b.restorer, restored := None, commits := b.commits)
    ensures forall bound, s :: Silenced(a, bound, s) ==> Silenced(b, bound, s)
  {
    assert forall i: nat :: Connected(a, i) <==> Connected(b, i);
  }

  lemma EndKeepsSilence(a: Db, b: Db)
    requires b == a.(lockHolder := b.lockHolder, locked := false, unbroken := b.unbroken)
    ensures forall bound, s :: Silenced(a, bound, s) ==> Silenced(b, bound, s)
  {
    assert forall i: nat :: Connected(a, i) <==> Connected(b, i);
  }

  /** Exactly one commit was made, and its rows are the exported snapshot's. */
  ghost predicate CommittedSnapshot(a: Db, b: Db) {
    && |b.commits| == |a.commits| + 1 && a.commits <= b.commits
    && b.snapshot == Some(b.target) && b.commits[|a.commits|].content == b.target
  }
}
