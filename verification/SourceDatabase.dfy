/** The two databases of deploy/locked-postgres-stream.py and the sessions on them. Between any two
    steps of the stream controller other clients run and any backend may die. */
module SourceDatabase {
  import opened Text

  /** The rows of a database; only identity matters. */
  type Content = nat

  /** A client session that has sent one write. */
  datatype Client = Client(id: nat, write: Content)

  datatype Backend = Unstarted | Alive | Dead

  /** The facts of one commit on the target. */
  datatype CommitFact = CommitFact(content: Content, source: Content, locked: bool, applied: set<nat>)

  /** `source` to `snapshot` belong to the source, `target` to `restored` to the target: its committed
      rows, and what the open transaction has restored. The rest is history: the clients whose write was
      executed, now and when the lock was taken, whether the lock was lost, and the commits. */
  datatype Db = Db(
    source: Content, clients: seq<Client>, nextId: nat, lockHolder: Backend, locked: bool,
    snapshotHolder: Backend, snapshot: Option<Content>,
    target: Content, restorer: Backend, restored: Option<Content>,
    applied: set<nat>, atLock: set<nat>, unbroken: bool, commits: seq<CommitFact>)

  ghost predicate Connected(d: Db, id: nat) { exists c :: c in d.clients && c.id == id }

  /** A lock that is held has never been lost, and nobody has written since it was taken. */
  ghost predicate Valid(d: Db) {
    && (d.locked ==> d.lockHolder == Alive && d.unbroken && d.applied == d.atLock)
    && (d.restored.Some? ==> d.restorer == Alive)
    && (forall c :: c in d.clients ==> c.id < d.nextId)
    && (forall i :: i in d.applied ==> i < d.nextId)
    && d.atLock <= d.applied
  }

  /** What the others can do: lose the lock or a transaction, and write when there is no lock. Only a
      client that was connected, or has connected since, writes. */
  ghost predicate Rely(a: Db, b: Db) {
    && b == a.(source := b.source, clients := b.clients, nextId := b.nextId, lockHolder := b.lockHolder,
               locked := b.locked, snapshotHolder := b.snapshotHolder, restorer := b.restorer,
               restored := b.restored, applied := b.applied, unbroken := b.unbroken)
    && (b.locked ==> a.locked && b.source == a.source && b.applied == a.applied)
    && a.nextId <= b.nextId && a.applied <= b.applied
    && (forall i :: i in b.applied && i !in a.applied && i < a.nextId ==> Connected(a, i))
    && (forall i: nat :: i < a.nextId && Connected(b, i) ==> Connected(a, i))
    && (b.lockHolder == a.lockHolder || b.lockHolder == Dead)
    && (b.snapshotHolder == a.snapshotHolder || b.snapshotHolder == Dead)
    && (b.restorer == a.restorer || b.restorer == Dead)
    && (b.restored == a.restored || b.restored == None)
    && (a.locked && b.lockHolder == Alive ==> b.locked)
    && (b.unbroken ==> a.unbroken)
  }

  lemma AlwaysRely()
    ensures forall d :: Rely(d, d)
    ensures forall a, b, c :: Rely(a, b) && Rely(b, c) ==> Rely(a, c)
  {
    forall a, b, c | Rely(a, b) && Rely(b, c)
      ensures Rely(a, c)
    {
      RelyChains(a, b, c);
    }
  }

  lemma RelyChains(a: Db, b: Db, c: Db)
    requires Rely(a, b) && Rely(b, c)
    ensures Rely(a, c)
  {
    hide Connected;
  }

  /** Around a calm database nobody else acts, and every statement of the controller is executed and
      answered. */
  class Databases {
    const calm: bool
    var d: Db

    constructor (calm: bool, d: Db)
      ensures this.calm == calm && this.d == d
    {
      this.calm, this.d := calm, d;
    }

    /** Whether a statement that may fail is executed and answered. */
    method Works() returns (ok: bool)
      ensures calm ==> ok
    {
      ok := *;
      ok := ok || calm;
    }

    /* -------------------------------------------------------------- everybody else */

    method Connect()
      requires Valid(d)
      modifies this
      ensures Valid(d) && Rely(old(d), d)
    {
      var write: Content := *;
      d := d.(clients := d.clients + [Client(d.nextId, write)], nextId := d.nextId + 1);
    }

    /** A queued write is executed unless the lock stops it. */
    method Write()
      requires Valid(d)
      modifies this
      ensures Valid(d) && Rely(old(d), d)
    {
      var i: int := *;
      if !d.locked && 0 <= i < |d.clients| {
        var c := d.clients[i];
        d := d.(source := c.write, applied := d.applied + {c.id}, clients := d.clients[..i] + d.clients[i + 1..]);
        assert Connected(old(d), c.id);
      }
    }

    /** A backend dies, and with it its lock or its transaction. */
    method Die()
      requires Valid(d)
      modifies this
      ensures Valid(d) && Rely(old(d), d)
    {
      if * {
        d := d.(lockHolder := Dead, locked := false, unbroken := false);
      }
      if * {
        d := d.(snapshotHolder := Dead);
      }
      if * {
        d := d.(restorer := Dead, restored := None);
      }
    }

    /** Any number of steps of the others. */
    method Others()
      requires Valid(d)
      modifies this
      ensures Valid(d) && Rely(old(d), d)
      ensures calm ==> d == old(d)
    {
      hide Valid, Rely;
      AlwaysRely();
      var n: int := *;
      for i := 0 to if calm || n < 0 then 0 else n
        invariant Valid(d) && Rely(old(d), d)
        invariant calm ==> d == old(d)
      {
        if * {
          Connect();
        } else if * {
          Write();
        } else {
          Die();
        }
      }
    }

    /* -------------------------------------------------------------- what the controller's sessions do */

    /** LOCK_HOLDER_SQL: the connected clients are terminated, then the tables are locked. The script
        fails if there was any client; whether it failed or not, it may hold the lock until its session ends. */
    method LockSource() returns (ok: bool)
      requires Valid(d) && d.lockHolder == Unstarted && !d.locked
      modifies this
      ensures Valid(d) && SameTarget(old(d), d) && OnlyLockHolder(old(d), d)
      ensures ok ==> d.locked && d.atLock == d.applied
      ensures calm && old(d).clients == [] ==> ok && d.clients == []
    {
      hide Valid, Rely, SameTarget, OnlyLockHolder;
      AlwaysSameTarget();
      AlwaysOnlyLockHolder();
      d := Started(d);
      Others();
      ok := |d.clients| == 0;
      d := Cleared(d);
      Others();
      var alive := Works();
      if !ok || !alive || d.lockHolder != Alive {
        return false;
      }
      d := Locked(d);
      ok := Works();
    }

    /** BEGIN ISOLATION LEVEL REPEATABLE READ on the snapshot holder: its first query fixes what it sees. */
    method BeginSnapshot() returns (ok: bool)
      requires Valid(d)
      modifies this
      ensures Valid(d) && SameTarget(old(d), d)
      ensures d == old(d).(snapshotHolder := d.snapshotHolder, snapshot := d.snapshot)
      ensures ok ==> d.snapshot == Some(d.source) && d.snapshotHolder == Alive
      ensures calm ==> ok
    {
      ok := Works();
      var connected: bool := *;
      if ok || connected {
        d := d.(snapshotHolder := Alive, snapshot := Some(d.source));
      }
    }

    /** pg_dump with the exported snapshot, piped into the open transaction of the target. */
    method StreamDump() returns (ok: bool)
      requires Valid(d)
      modifies this
      ensures Valid(d) && SameTarget(old(d), d)
      ensures d == old(d).(restored := d.restored)
      ensures ok ==> d.restored.Some? && d.restored == d.snapshot
      ensures calm && d.restorer == Alive && d.snapshotHolder == Alive && d.snapshot.Some? ==> ok
    {
      var partial: Content := *;
      ok := Works();
      if d.restorer != Alive || d.snapshotHolder != Alive || d.snapshot.None? {
        return false;
      }
      d := d.(restored := if ok then d.snapshot else Some(partial));
    }

    method StartRestorer() returns (ok: bool)
      requires Valid(d)
      modifies this
      ensures Valid(d) && SameTarget(old(d), d)
      ensures d == old(d).(restorer := d.restorer, restored := None)
      ensures calm ==> ok
      ensures ok ==> d.restorer == Alive
    {
      ok := Works();
      var connected: bool := *;
      d := d.(restorer := if ok || connected then Alive else Dead, restored := None);
    }

    /** CLIENT_GUARD_SQL, run by the lock holder: every other client is terminated, and the script fails
        if there was one; a snapshot holder that is still there is one. */
    method GuardClients() returns (ok: bool)
      requires Valid(d)
      modifies this
      ensures Valid(d) && SameTarget(old(d), d)
      ensures d == old(d).(clients := d.clients, snapshotHolder := d.snapshotHolder)
      ensures d.snapshotHolder == old(d).snapshotHolder || d.snapshotHolder == Dead
      ensures ok <==> old(d).lockHolder == Alive && old(d).clients == [] && old(d).snapshotHolder != Alive
      ensures ok ==> d.clients == [] && d.snapshotHolder == old(d).snapshotHolder
    {
      if d.lockHolder != Alive {
        return false;
      }
      ok := |d.clients| == 0 && d.snapshotHolder != Alive;
      d := d.(clients := [], snapshotHolder := if d.snapshotHolder == Alive then Dead else d.snapshotHolder);
    }

    /** End of input on the target's psql --single-transaction: COMMIT, if the session is still there.
        `acknowledged` is its exit status as far as the controller learns it. */
    method Commit() returns (acknowledged: bool)
      requires Valid(d)
      modifies this
      ensures Valid(d)
      ensures acknowledged ==> old(d).restored.Some?
      ensures calm && old(d).restored.Some? ==> acknowledged
      ensures d == old(d).(target := d.target, restorer := Dead, restored := None, commits := d.commits)
      ensures (!acknowledged && d.commits == old(d).commits && d.target == old(d).target)
              || (old(d).restored.Some? && d.target == old(d).restored.value
                  && d.commits == old(d).commits + [CommitFact(d.target, d.source, d.locked, d.applied)])
    {
      acknowledged := Works();
      if d.restorer == Alive && d.restored.Some? {
        var reached: bool := *;
        if acknowledged || reached {
          d := d.(target := d.restored.value,
                  commits := d.commits + [CommitFact(d.restored.value, d.source, d.locked, d.applied)]);
        }
      } else {
        acknowledged := false;
      }
      d := d.(restored := None, restorer := Dead);
    }

    /** The transaction of the target is given up. */
    method RollbackTarget()
      requires Valid(d)
      modifies this
      ensures Valid(d) && SameTarget(old(d), d) && d == old(d).(restored := None, restorer := Dead)
    {
      d := d.(restored := None, restorer := Dead);
    }

    /** ROLLBACK and \q on a holder, which ends its session in any case: psql ends with status 0 only if
        the session answered, and otherwise the backend is terminated and psql killed. */
    method EndSnapshotHolder() returns (ok: bool)
      requires Valid(d)
      modifies this
      ensures Valid(d) && SameTarget(old(d), d) && d == old(d).(snapshotHolder := Dead)
      ensures ok ==> old(d).snapshotHolder == Alive
      ensures calm && old(d).snapshotHolder == Alive ==> ok
    {
      ok := Works();
      ok := ok && d.snapshotHolder == Alive;
      d := d.(snapshotHolder := Dead);
    }

    method EndLockHolder() returns (ok: bool)
      requires Valid(d)
      modifies this
      ensures Valid(d) && SameTarget(old(d), d)
      ensures d == old(d).(lockHolder := Dead, locked := false, unbroken := d.unbroken)
      ensures ok ==> old(d).lockHolder == Alive
      ensures calm && old(d).lockHolder == Alive ==> ok
    {
      ok := Works();
      ok := ok && d.lockHolder == Alive;
      d := d.(lockHolder := Dead, locked := false, unbroken := d.unbroken && ok);
    }
  }

  /** Neither the snapshot holder nor the restorer came to life, and nothing was restored. */
  ghost predicate OnlyLockHolder(a: Db, b: Db) {
    && (b.snapshotHolder == a.snapshotHolder || b.snapshotHolder == Dead)
    && (b.restorer == a.restorer || b.restorer == Dead)
    && (b.restored == a.restored || b.restored == None)
  }

  lemma AlwaysOnlyLockHolder()
    ensures forall d :: OnlyLockHolder(d, d)
    ensures forall a, b, c :: OnlyLockHolder(a, b) && OnlyLockHolder(b, c) ==> OnlyLockHolder(a, c)
    ensures forall a, b :: Rely(a, b) ==> OnlyLockHolder(a, b)
  {
  }

  ghost predicate SameTarget(a: Db, b: Db) {
    b.target == a.target && b.commits == a.commits && a.nextId <= b.nextId
  }

  lemma AlwaysSameTarget()
    ensures forall d :: SameTarget(d, d)
    ensures forall a, b, c :: SameTarget(a, b) && SameTarget(b, c) ==> SameTarget(a, c)
    ensures forall a, b :: Rely(a, b) ==> SameTarget(a, b)
    ensures forall a, b :: SameTarget(a, b) ==> a.nextId <= b.nextId
  {
  }

  function Started(d: Db): (r: Db)
    requires Valid(d) && !d.locked
    ensures Valid(r) && SameTarget(d, r) && OnlyLockHolder(d, r) && !r.locked && r.lockHolder == Alive
    ensures r.clients == d.clients
  {
    d.(lockHolder := Alive)
  }

  function Cleared(d: Db): (r: Db)
    requires Valid(d)
    ensures Valid(r) && SameTarget(d, r) && OnlyLockHolder(d, r)
    ensures r.clients == [] && r.lockHolder == d.lockHolder
  {
    d.(clients := [])
  }

  function Locked(d: Db): (r: Db)
    requires Valid(d) && d.lockHolder == Alive
    ensures Valid(r) && SameTarget(d, r) && OnlyLockHolder(d, r) && r.locked && r.applied == r.atLock == d.applied
    ensures r.clients == d.clients
  {
    d.(locked := true, unbroken := true, atLock := d.applied)
  }
}
