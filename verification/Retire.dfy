/** retire_recorded_data of deploy/retire-legacy-data.py: forward-only removal that resumes from its record. */
module Retire {
  import opened Text
  import opened RetirePaths

  datatype Outcome = Done | Raised | Crashed {
    predicate IsFailure() { !Done? }

    function PropagateFailure(): Outcome
      requires IsFailure()
    {
      this
    }
  }

  /** Device, inode, owner and mode of a directory are one identity, and so are the fields of a filesystem. */
  datatype Evidence = Evidence(path: Path, identity: nat, filesystem: nat)

  datatype Legacy = Legacy(app: Evidence, postgres: Evidence, redis: Evidence) {
    function Of(c: Component): Evidence {
      match c
      case App => app
      case Postgres => postgres
      case Redis => redis
    }

    function Paths(): Paths { RetirePaths.Paths.Paths(app.path, postgres.path, redis.path) }

    function Filesystems(): set<nat> { {app.filesystem, postgres.filesystem, redis.filesystem} }
  }

  datatype Status = Recorded | Retiring | Complete

  datatype Record = Record(status: Status, legacy: Legacy, retired: set<Component>, trimmed: set<nat>, cleaned: bool, finished: bool)

  /** validate_record */
  predicate ValidRecord(r: Record) {
    && r.retired <= ALL && r.trimmed <= r.legacy.Filesystems()
    && (r.status != Recorded ==> r.cleaned)
    && (r.status == Complete ==> r.retired == ALL && r.trimmed == r.legacy.Filesystems() && r.finished)
  }

  /** A recorded directory that is gone, with the identity it had, and the record and the mounts that its
      removal met. */
  datatype Removal = Removal(component: Component, path: Path, identity: nat, record: Record, mounts: set<Path>)

  /** DELETE_ORDER */
  const DELETE_ORDER: seq<Component> := [Postgres, Redis, App]

  /** What must be retired before `c`. */
  function Before(c: Component): set<Component> {
    match c
    case Postgres => {}
    case Redis => {Postgres}
    case App => {Postgres, Redis}
  }

  /** What the gates of a run find: the migrated system is live, the historical logs are clean, and the
      operator confirms. */
  datatype Gates = Gates(live: bool, clean: bool, confirmed: bool)

  class World {
    const policy: Policy
    const legacy: Legacy
    /** Every command succeeds that is not refused. */
    const calm: bool
    var dirs: map<Path, nat>
    var hosting: map<Path, nat>
    var mounts: set<Path>
    var record: Option<Record>
    ghost var removed: seq<Removal>
    ghost var trims: seq<nat>

    constructor (policy: Policy, legacy: Legacy, calm: bool)
      ensures this.policy == policy && this.legacy == legacy && this.calm == calm
      ensures removed == [] && trims == [] && record == None
    {
      this.policy, this.legacy, this.calm := policy, legacy, calm;
      dirs, hosting, mounts, record := map[], map[], {}, None;
      removed, trims := [], [];
    }

    /** A removal took a recorded directory with its recorded identity from an accepted path set, in its turn,
        when nothing was mounted in it and the start of the removals was on record. */
    ghost predicate SafeRemoval(e: Removal) {
      && e.path == legacy.Of(e.component).path && e.identity == legacy.Of(e.component).identity
      && PathSetOk(legacy.Paths(), policy) && InTurn(e.component, e.record, e.mounts)
    }

    ghost predicate InTurn(c: Component, r: Record, mounts: set<Path>) {
      && r.status == Retiring && r.cleaned && c !in r.retired && Before(c) <= r.retired
      && forall m :: m in mounts ==> !Below(m, legacy.Of(c).path)
    }

    /** Progress that a record claims was really made. */
    ghost predicate Honest(r: Record)
      reads this
    {
      && r.legacy == legacy
      && (forall c :: c in r.retired ==> WasRemoved(c))
      && (forall f :: f in r.trimmed ==> f in trims)
    }

    ghost predicate WasRemoved(c: Component)
      reads this`removed
    {
      exists e :: e in removed && e.component == c
    }

    ghost predicate Sound()
      reads this
    {
      && (forall e :: e in removed ==> SafeRemoval(e))
      && (record.Some? ==> ValidRecord(record.value) && Honest(record.value))
    }

    method Check() returns (o: Outcome)
      ensures calm ==> o.Done?
    {
      o := *;
      if calm {
        o := Done;
      }
    }

    /** Between two runs anything may happen to directories and mounts. */
    method Elapse()
      requires Sound()
      modifies this`dirs, this`hosting, this`mounts
      ensures Sound()
    {
      var d: map<Path, nat>, h: map<Path, nat>, m: set<Path> := *, *, *;
      dirs, hosting, mounts := d, h, m;
    }

    /** write_record: the old or the new record, whatever happens. */
    method WriteRecord(r: Record) returns (o: Outcome)
      requires Sound() && ValidRecord(r) && Honest(r)
      modifies this`record
      ensures Sound()
      ensures record == old(record) || record == Some(r)
      ensures o.Done? ==> record == Some(r)
      ensures calm ==> o.Done?
    {
      o := Check();
      var replaced: bool := *;
      if o.Done? || replaced {
        record := Some(r);
      }
    }

    /** delete_exact_directory: refused unless the identity matches; cut short, it may have emptied the
        directory in part. */
    method DeleteExactDirectory(c: Component) returns (o: Outcome)
      requires Sound() && PathSetOk(legacy.Paths(), policy) && record.Some? && InTurn(c, record.value, mounts)
      modifies this`dirs, this`removed
      ensures Sound()
      ensures forall p :: p in old(dirs) && p !in dirs ==> Below(p, legacy.Of(c).path)
      ensures forall p :: p in dirs ==> p in old(dirs) && dirs[p] == old(dirs)[p]
      ensures legacy.Of(c).path !in old(dirs) || old(dirs)[legacy.Of(c).path] != legacy.Of(c).identity ==>
                !o.Done? && dirs == old(dirs) && removed == old(removed)
      ensures removed == old(removed) || removed == old(removed) + [RemovalOf(c)]
      ensures o.Done? ==> removed == old(removed) + [RemovalOf(c)] && forall p :: p in dirs ==> !Below(p, legacy.Of(c).path)
      ensures removed != old(removed) <==> legacy.Of(c).path in old(dirs) && legacy.Of(c).path !in dirs
      ensures calm && legacy.Of(c).path in old(dirs) && old(dirs)[legacy.Of(c).path] == legacy.Of(c).identity ==> o.Done?
    {
      var path := legacy.Of(c).path;
      if path !in dirs || dirs[path] != legacy.Of(c).identity {
        return Raised;
      }
      o := Check();
      var all: bool, left: set<Path> := *, *;
      if o.Done? || all {
        dirs := map p | p in dirs && !Below(p, path) :: dirs[p];
        removed := removed + [RemovalOf(c)];
      } else {
        dirs := map p | p in dirs && (!Below(p, path) || p == path || p in left) :: dirs[p];
      }
    }

    ghost function RemovalOf(c: Component): Removal
      requires record.Some?
      reads this`record, this`mounts
    {
      Removal(c, legacy.Of(c).path, legacy.Of(c).identity, record.value, mounts)
    }

    /** `fstrim`, once all directories are gone. */
    method Trim(f: nat) returns (o: Outcome)
      requires Sound() && record.Some? && record.value.status == Retiring && record.value.retired == ALL
      modifies this`trims
      ensures Sound() && old(trims) <= trims
      ensures o.Done? ==> trims == old(trims) + [f]
      ensures calm ==> o.Done?
    {
      o := Check();
      if o.Done? {
        trims := trims + [f];
      }
    }
  }

  /** Progress only grows from `a` to `b`. */
  predicate Grown(a: Option<Record>, b: Option<Record>) {
    a.Some? ==> b.Some? && b.value.legacy == a.value.legacy && a.value.retired <= b.value.retired && a.value.trimmed <= b.value.trimmed
  }

  /** The directory of an unretired component is there with its recorded identity, on its filesystem, and
      that of a retired one has not come back. */
  predicate AsRecorded(dirs: map<Path, nat>, hosting: map<Path, nat>, r: Record, c: Component) {
    var e := r.legacy.Of(c);
    if c in r.retired then e.path !in dirs
    else e.path in dirs && dirs[e.path] == e.identity && e.path in hosting && hosting[e.path] == e.filesystem
  }

  /** require_no_nested_mounts */
  predicate NoNestedMounts(w: World, r: Record)
    reads w`mounts
  {
    forall c: Component :: c !in r.retired ==> Unmounted(w.mounts, r.legacy.Of(c).path)
  }

  predicate Unmounted(mounts: set<Path>, path: Path) {
    forall m :: m in mounts ==> !Below(m, path)
  }

  predicate Resumable(dirs: map<Path, nat>, hosting: map<Path, nat>, r: Record) {
    forall c: Component :: AsRecorded(dirs, hosting, r, c)
  }

  /** Only directories of `due` components, or what was below them, are gone. */
  ghost predicate OnlyDueGone(legacy: Legacy, before: map<Path, nat>, after: map<Path, nat>, done: set<Component>) {
    && (forall p :: p in after ==> p in before && after[p] == before[p])
    && forall p :: p in before && p !in after ==>
         exists c: Component {:trigger legacy.Of(c)} :: c !in done && Below(p, legacy.Of(c).path)
  }

  lemma OnlyDueChains(legacy: Legacy, a: map<Path, nat>, b: map<Path, nat>, c: map<Path, nat>, d: set<Component>, e: set<Component>)
    requires OnlyDueGone(legacy, a, b, d) && OnlyDueGone(legacy, b, c, e) && d <= e
    ensures OnlyDueGone(legacy, a, c, d)
  {
    forall p | p in a && p !in c
      ensures exists k: Component {:trigger legacy.Of(k)} :: k !in d && Below(p, legacy.Of(k).path)
    {
      if p !in b {
        assert exists k: Component {:trigger legacy.Of(k)} :: k !in d && Below(p, legacy.Of(k).path);
      }
    }
  }

  /** One due removal and the record of it; a crash in between leaves the component unrecorded. */
  method DeleteOne(w: World, r: Record, c: Component) returns (o: Outcome, next: Record)
    requires w.Sound() && PathSetOk(w.legacy.Paths(), w.policy) && w.record == Some(r) && w.InTurn(c, r, w.mounts)
    modifies w`record, w`dirs, w`removed
    ensures w.Sound() && Grown(Some(r), w.record) && old(w.removed) <= w.removed
    ensures OnlyDueGone(w.legacy, old(w.dirs), w.dirs, r.retired)
    ensures o.Done? ==> w.record == Some(next) && next == r.(retired := r.retired + {c}) && ValidRecord(next)
    ensures w.calm && old(Resumable(w.dirs, w.hosting, r)) ==> o.Done? && Resumable(w.dirs, w.hosting, next)
  {
    next := r;
    RecordIsValid(w);
    AcceptedIsApart(w, c);
    Due(w, r, c);
    hide PathSetOk, ValidRecord, World.InTurn, Resumable, World.Sound, World.Honest, OnlyDueGone, World.WasRemoved;
    ghost var before, removed, resumable := w.dirs, w.removed, Resumable(w.dirs, w.hosting, r);
    o := w.DeleteExactDirectory(c);
    DueGone(w.legacy, before, w.dirs, r.retired, c);
    if !o.Done? {
      return;
    }
    next := r.(retired := r.retired + {c});
    NowRemoved(w, removed, c);
    RecordIsValid(w);
    StillHonest(w, r, c);
    if resumable {
      StillResumable(w, before, r, next, c);
    }
    o := w.WriteRecord(next);
  }

  lemma NowRemoved(w: World, before: seq<Removal>, c: Component)
    requires w.record.Some? && w.removed == before + [w.RemovalOf(c)]
    ensures w.WasRemoved(c)
  {
    assert w.removed[|before|] in w.removed;
  }

  lemma Due(w: World, r: Record, c: Component)
    ensures w.InTurn(c, r, w.mounts) ==> c !in r.retired && r.status == Retiring && r.cleaned
    ensures c !in r.retired && r.legacy == w.legacy && Resumable(w.dirs, w.hosting, r) ==>
              w.legacy.Of(c).path in w.dirs && w.dirs[w.legacy.Of(c).path] == w.legacy.Of(c).identity
  {
    assert Resumable(w.dirs, w.hosting, r) ==> AsRecorded(w.dirs, w.hosting, r, c);
  }

  lemma DueGone(legacy: Legacy, before: map<Path, nat>, after: map<Path, nat>, done: set<Component>, c: Component)
    requires c !in done && forall p :: p in before && p !in after ==> Below(p, legacy.Of(c).path)
    requires forall p :: p in after ==> p in before && after[p] == before[p]
    ensures OnlyDueGone(legacy, before, after, done)
  {
  }

  /** The removal of one component leaves the others as they were recorded. */
  lemma StillResumable(w: World, before: map<Path, nat>, r: Record, next: Record, c: Component)
    requires next == r.(retired := r.retired + {c}) && r.legacy.Of(c).path !in w.dirs
    requires forall d: Component :: d != c ==> !Below(r.legacy.Of(d).path, r.legacy.Of(c).path)
    requires forall p :: p in before && p !in w.dirs ==> Below(p, r.legacy.Of(c).path)
    requires forall p :: p in w.dirs ==> p in before && w.dirs[p] == before[p]
    requires Resumable(before, w.hosting, r)
    ensures Resumable(w.dirs, w.hosting, next)
  {
    forall d: Component
      ensures AsRecorded(w.dirs, w.hosting, next, d)
    {
      assert AsRecorded(before, w.hosting, r, d);
    }
  }

  lemma AcceptedIsApart(w: World, c: Component)
    requires PathSetOk(w.legacy.Paths(), w.policy)
    ensures forall d: Component :: d != c ==> !Below(w.legacy.Of(d).path, w.legacy.Of(c).path)
  {
    hide ShapeOk;
    forall d: Component | d != c
      ensures !Below(w.legacy.Of(d).path, w.legacy.Of(c).path)
    {
      match d
      case App =>
      case Postgres =>
      case Redis =>
    }
  }

  /** The removals that are still due, in DELETE_ORDER. */
  method DeleteAll(w: World, start: Record) returns (o: Outcome, r: Record)
    requires w.Sound() && PathSetOk(w.legacy.Paths(), w.policy) && w.record == Some(start) && start.status == Retiring && start.cleaned
    requires NoNestedMounts(w, start)
    modifies w`record, w`dirs, w`removed
    ensures w.Sound() && Grown(Some(start), w.record) && old(w.removed) <= w.removed
    ensures OnlyDueGone(w.legacy, old(w.dirs), w.dirs, start.retired)
    ensures o.Done? ==> w.record == Some(r) && r.status == Retiring && r.retired == ALL && ValidRecord(r) && r.trimmed == start.trimmed
    ensures w.calm && old(Resumable(w.dirs, w.hosting, start)) ==> o.Done?
  {
    RecordIsValid(w);
    hide World.Sound, PathSetOk, OnlyDueGone, ValidRecord, Resumable, World.InTurn, NoNestedMounts, World.Honest, Grown;
    r := start;
    NothingGrown(start);
    NothingGone(w.legacy, w.dirs, start.retired);
    for i := 0 to |DELETE_ORDER|
      invariant w.Sound() && w.record == Some(r) && r.status == Retiring && Grown(Some(start), Some(r)) && r.trimmed == start.trimmed
      invariant old(w.removed) <= w.removed && ValidRecord(r) && r.cleaned && NoNestedMounts(w, r) && r.legacy == w.legacy
      invariant forall k :: 0 <= k < i ==> DELETE_ORDER[k] in r.retired
      invariant OnlyDueGone(w.legacy, old(w.dirs), w.dirs, start.retired)
      invariant w.calm && old(Resumable(w.dirs, w.hosting, start)) ==> Resumable(w.dirs, w.hosting, r)
    {
      var c := DELETE_ORDER[i];
      EarlierRetired(r, i);
      if c !in r.retired {
        IsInTurn(w, r, c);
        ghost var before := w.dirs;
        var next: Record;
        o, next := DeleteOne(w, r, c);
        GrownChain(start, r, w.record);
        OnlyDueChains(w.legacy, old(w.dirs), before, w.dirs, start.retired, r.retired);
        if !o.Done? {
          return;
        }
        FewerDue(w, r, next);
        r := next;
        assert forall k :: 0 <= k < i + 1 ==> DELETE_ORDER[k] in r.retired;
      }
    }
    AllRetired(r);
    o := Done;
  }

  lemma EarlierRetired(r: Record, i: nat)
    requires i < |DELETE_ORDER| && forall k :: 0 <= k < i ==> DELETE_ORDER[k] in r.retired
    ensures Before(DELETE_ORDER[i]) <= r.retired
  {
    assert i > 0 ==> DELETE_ORDER[0] in r.retired;
    assert i > 1 ==> DELETE_ORDER[1] in r.retired;
  }

  lemma IsInTurn(w: World, r: Record, c: Component)
    requires r.status == Retiring && r.cleaned && c !in r.retired && Before(c) <= r.retired && r.legacy == w.legacy
    requires NoNestedMounts(w, r)
    ensures w.InTurn(c, r, w.mounts)
  {
    assert Unmounted(w.mounts, r.legacy.Of(c).path);
  }

  lemma FewerDue(w: World, r: Record, next: Record)
    requires NoNestedMounts(w, r) && next.legacy == r.legacy && r.retired <= next.retired
    ensures NoNestedMounts(w, next)
  {
  }

  lemma RecordIsValid(w: World)
    requires w.Sound() && w.record.Some?
    ensures ValidRecord(w.record.value) && w.record.value.legacy == w.legacy && w.Honest(w.record.value)
  {
  }

  lemma NothingGone(legacy: Legacy, dirs: map<Path, nat>, done: set<Component>)
    ensures OnlyDueGone(legacy, dirs, dirs, done)
  {
  }

  lemma AllRetired(r: Record)
    requires ValidRecord(r) && forall k :: 0 <= k < |DELETE_ORDER| ==> DELETE_ORDER[k] in r.retired
    ensures r.retired == ALL
  {
    assert DELETE_ORDER[0] in r.retired && DELETE_ORDER[1] in r.retired && DELETE_ORDER[2] in r.retired;
  }

  lemma NothingGrown(r: Record)
    ensures Grown(Some(r), Some(r))
  {
  }

  /** Discard is requested once for every distinct filesystem, each request recorded. */
  method TrimAll(w: World, start: Record) returns (o: Outcome, r: Record)
    requires w.Sound() && w.record == Some(start) && start.status == Retiring && start.retired == ALL
    modifies w`record, w`trims
    ensures w.Sound() && Grown(Some(start), w.record) && old(w.trims) <= w.trims
    ensures o.Done? ==> w.record == Some(r) && r == start.(trimmed := r.trimmed) && r.trimmed == r.legacy.Filesystems()
    ensures w.calm ==> o.Done?
  {
    r := start;
    RecordIsValid(w);
    hide World.Sound, ValidRecord, World.Honest, Legacy.Filesystems, World.WasRemoved;
    RecordTrims(w, r);
    var due := r.legacy.Filesystems() - r.trimmed;
    while due != {}
      invariant w.Sound() && w.record == Some(r) && r == start.(trimmed := r.trimmed) && start.trimmed <= r.trimmed
      invariant due == r.legacy.Filesystems() - r.trimmed && r.trimmed <= r.legacy.Filesystems()
      invariant old(w.trims) <= w.trims
      decreases due
    {
      var f :| f in due;
      var next: Record;
      o, next := TrimOne(w, r, f);
      GrownChain(start, r, w.record);
      if !o.Done? {
        return;
      }
      r := next;
      due := due - {f};
    }
    assert forall f :: f in r.legacy.Filesystems() ==> f in r.trimmed || f in due;
    assert r.trimmed == r.legacy.Filesystems();
    o := Done;
  }

  lemma GrownChain(a: Record, b: Record, c: Option<Record>)
    requires Grown(Some(a), Some(b)) && Grown(Some(b), c)
    ensures Grown(Some(a), c)
  {
  }

  lemma RecordTrims(w: World, r: Record)
    requires w.Sound() && w.record == Some(r)
    ensures r.trimmed <= r.legacy.Filesystems()
  {
  }

  method TrimOne(w: World, r: Record, f: nat) returns (o: Outcome, next: Record)
    requires w.Sound() && w.record == Some(r) && r.status == Retiring && r.retired == ALL && f in r.legacy.Filesystems()
    modifies w`record, w`trims
    ensures w.Sound() && Grown(Some(r), w.record) && old(w.trims) <= w.trims
    ensures w.calm ==> o.Done?
    ensures o.Done? ==> w.record == Some(next) && next == r.(trimmed := r.trimmed + {f})
  {
    hide World.Sound, ValidRecord, World.Honest, Legacy.Filesystems;
    next := r;
    o := w.Check();
    if !o.Done? {
      return;
    }
    o := w.Trim(f);
    if !o.Done? {
      return;
    }
    next := r.(trimmed := r.trimmed + {f});
    HonestTrim(w, r, f);
    o := w.WriteRecord(next);
  }

  lemma HonestTrim(w: World, r: Record, f: nat)
    requires w.Sound() && w.record == Some(r) && f in w.trims && f in r.legacy.Filesystems() && r.status == Retiring
    ensures w.Honest(r.(trimmed := r.trimmed + {f})) && ValidRecord(r.(trimmed := r.trimmed + {f}))
  {
  }

  /** Everything is gone and discarded; a record that says so is honest. */
  lemma CompleteIsValid(w: World, r: Record)
    requires w.Sound() && w.record == Some(r) && r.status == Retiring && r.retired == ALL && r.trimmed == r.legacy.Filesystems()
    ensures ValidRecord(r.(status := Complete, finished := true)) && w.Honest(r.(status := Complete, finished := true))
  {
  }

  /** The run must not touch anything: its arguments are not acceptable or not the recorded ones, a gate is
      closed, the logs were never found clean, something is mounted in a directory that is due, or a
      component is not as it was recorded. */
  ghost predicate MustRefuse(w: World, r: Record, paths: Paths, gates: Gates)
    reads w`dirs, w`hosting, w`mounts
  {
    || !PathSetOk(paths, w.policy) || r.legacy.Paths() != paths
    || (r.status != Complete
        && (|| !gates.live || !gates.clean || !gates.confirmed || (App in r.retired && !r.cleaned)
            || exists c: Component :: Changed(w.dirs, w.hosting, w.mounts, r, c)))
  }

  /** The directory has come back, is gone, is another one, has moved to another filesystem, or has a mount
      in it. */
  ghost predicate Changed(dirs: map<Path, nat>, hosting: map<Path, nat>, mounts: set<Path>, r: Record, c: Component) {
    var path := r.legacy.Of(c).path;
    if c in r.retired then path in dirs
    else
      || path !in dirs || path !in hosting || dirs[path] != r.legacy.Of(c).identity || hosting[path] != r.legacy.Of(c).filesystem
      || exists m :: m in mounts && path <= m
  }

  lemma ChangedIff(w: World, r: Record)
    ensures (exists c: Component :: Changed(w.dirs, w.hosting, w.mounts, r, c))
       <==> !NoNestedMounts(w, r) || !Resumable(w.dirs, w.hosting, r)
  {
    if c: Component :| !AsRecorded(w.dirs, w.hosting, r, c) {
      assert Changed(w.dirs, w.hosting, w.mounts, r, c);
    } else if c: Component :| c !in r.retired && !Unmounted(w.mounts, r.legacy.Of(c).path) {
      assert Changed(w.dirs, w.hosting, w.mounts, r, c);
    } else {
      forall c: Component
        ensures !Changed(w.dirs, w.hosting, w.mounts, r, c)
      {
        assert AsRecorded(w.dirs, w.hosting, r, c);
        assert c !in r.retired ==> Unmounted(w.mounts, r.legacy.Of(c).path);
      }
    }
  }

  /** retire_recorded_data. On a host whose commands succeed, a run comes to its end exactly if it need not
      refuse. */
  method RetireRecordedData(w: World, paths: Paths, gates: Gates) returns (o: Outcome)
    requires w.Sound()
    modifies w`record, w`dirs, w`removed, w`trims
    ensures w.Sound() && Grown(old(w.record), w.record) && old(w.removed) <= w.removed
    ensures old(w.record).None? ==> !o.Done? && w.record.None?
    ensures OnlyDueGone(w.legacy, old(w.dirs), w.dirs, if old(w.record).Some? then old(w.record).value.retired else ALL)
    ensures old(w.record).Some? && old(MustRefuse(w, w.record.value, paths, gates)) ==>
              !o.Done? && w.dirs == old(w.dirs) && w.removed == old(w.removed) && w.trims == old(w.trims)
    ensures o.Done? ==> w.record.Some? && w.record.value.status == Complete
    ensures w.calm && old(w.record).Some? ==> (o.Done? <==> !old(MustRefuse(w, w.record.value, paths, gates)))
  {
    hide World.Sound, PathSetOk, OnlyDueGone, ValidRecord, World.Honest, Resumable, NoNestedMounts;
    NothingGone(w.legacy, w.dirs, if w.record.Some? then w.record.value.retired else ALL);
    if !PathSetOk(paths, w.policy) || w.record.None? {
      return Raised;
    }
    RecordIsValid(w);
    var r := w.record.value;
    if r.legacy.Paths() != paths {
      return Raised;
    }
    if r.status == Complete {
      return Done;
    }
    if !gates.live {
      return Raised;
    }
    o, r := RecordCleanup(w, r, gates.clean);
    if !o.Done? {
      return;
    }
    assert r.retired == old(w.record).value.retired && r.legacy == old(w.record).value.legacy;
    SameDue(w, old(w.record).value, r);
    ChangedIff(w, old(w.record).value);
    if !NoNestedMounts(w, r) || !Resumable(w.dirs, w.hosting, r) {
      return Raised;
    }
    :- w.Check();
    if !gates.confirmed {
      return Raised;
    }
    o := RetireDue(w, r);
  }

  lemma SameDue(w: World, a: Record, b: Record)
    requires a.retired == b.retired && a.legacy == b.legacy
    ensures NoNestedMounts(w, a) <==> NoNestedMounts(w, b)
    ensures Resumable(w.dirs, w.hosting, a) <==> Resumable(w.dirs, w.hosting, b)
  {
    assert forall c: Component :: AsRecorded(w.dirs, w.hosting, a, c) <==> AsRecorded(w.dirs, w.hosting, b, c);
  }

  /** The log cleanup is verified, and as long as the application directory exists that is recorded. */
  method RecordCleanup(w: World, start: Record, clean: bool) returns (o: Outcome, r: Record)
    requires w.Sound() && w.record == Some(start) && start.status != Complete
    modifies w`record
    ensures w.Sound() && Grown(Some(start), w.record)
    ensures o.Done? ==> w.record == Some(r) && r == start.(cleaned := true) && clean && (App in start.retired ==> start.cleaned)
    ensures w.calm && clean && (App in start.retired ==> start.cleaned) ==> o.Done?
  {
    r := start;
    if !clean {
      return Raised, r;
    }
    o := Done;
    if App !in r.retired {
      r := r.(cleaned := true);
      o := w.WriteRecord(r);
    } else if !r.cleaned {
      o := Raised;
    }
  }

  method RetireDue(w: World, start: Record) returns (o: Outcome)
    requires w.Sound() && PathSetOk(w.legacy.Paths(), w.policy) && w.record == Some(start) && start.status != Complete && start.cleaned
    requires NoNestedMounts(w, start)
    modifies w`record, w`dirs, w`removed, w`trims
    ensures w.Sound() && Grown(Some(start), w.record) && old(w.removed) <= w.removed
    ensures OnlyDueGone(w.legacy, old(w.dirs), w.dirs, start.retired)
    ensures o.Done? ==> w.record.Some? && w.record.value.status == Complete
    ensures w.calm && old(Resumable(w.dirs, w.hosting, start)) ==> o.Done?
  {
    var r := start.(status := Retiring);
    NothingGone(w.legacy, w.dirs, start.retired);
    hide PathSetOk, OnlyDueGone;
    :- w.WriteRecord(r);
    SameDue(w, start, r);
    hide World.Sound, Resumable, NoNestedMounts;
    o, r := DeleteAll(w, r);
    if !o.Done? {
      return;
    }
    o, r := TrimAll(w, r);
    if !o.Done? {
      return;
    }
    CompleteIsValid(w, r);
    o := w.WriteRecord(r.(status := Complete, finished := true));
  }

  /** Any sequence of retirement runs over any changes in between: what is gone was recorded, accepted and
      had its recorded identity, and went in its turn; the record is always valid and never claims progress
      that was not made. */
  method AnyRuns(w: World, n: nat)
    requires w.Sound()
    modifies w
    ensures forall e :: e in w.removed ==> w.SafeRemoval(e)
    ensures w.record.Some? ==> ValidRecord(w.record.value) && w.Honest(w.record.value)
    ensures w.record.Some? && w.record.value.status == Complete ==>
              (forall c: Component :: w.WasRemoved(c))
              && forall f :: f in w.legacy.Filesystems() ==> f in w.trims
    ensures Grown(old(w.record), w.record)
  {
    for i := 0 to n
      invariant w.Sound() && Grown(old(w.record), w.record)
    {
      hide World.Sound;
      w.Elapse();
      var paths: Paths, gates: Gates := *, *;
      var o := RetireRecordedData(w, paths, gates);
    }
    if w.record.Some? && w.record.value.status == Complete {
      forall c: Component
        ensures w.WasRemoved(c)
      {
        assert c in ALL by { match c case Postgres => case Redis => case App => }
        assert c in w.record.value.retired;
      }
    }
  }

  lemma StillHonest(w: World, r: Record, c: Component)
    requires w.Honest(r) && ValidRecord(r) && w.WasRemoved(c)
    ensures w.Honest(r.(retired := r.retired + {c}))
    ensures r.status != Complete ==> ValidRecord(r.(retired := r.retired + {c}))
  {
    assert c in ALL by { match c case Postgres => case Redis => case App => }
  }
}
