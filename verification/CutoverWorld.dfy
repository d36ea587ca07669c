/** The host that deploy/maintenance-cutover.py drives, one method per command. Every command may
    succeed, raise, or be cut off by a crash of the controller, before, after or half-way through its
    effect; what it leaves behind is durable. */
module CutoverWorld {
  import opened Text

  datatype Outcome = Done | Raised | Crashed {
    predicate IsFailure() { !Done? }

    function PropagateFailure(): Outcome
      requires IsFailure()
    {
      this
    }
  }

  function Took(o: Outcome): nat { if o.Done? then 1 else 0 }

  /** The answer of a query, or how it failed. */
  datatype Reply<T> = Answer(value: T) | Failed(outcome: Outcome) {
    predicate IsFailure() { Failed? }

    function PropagateFailure(): Outcome
      requires IsFailure()
    {
      outcome
    }

    function Extract(): T
      requires !IsFailure()
    {
      value
    }
  }

  datatype Stage = Stable | Canary
  datatype Legacy = LegacyApp | LegacyPostgres | LegacyRedis
  datatype Target = TargetApp | TargetPostgres | TargetRedis
  datatype Health = NoCheck | Starting | Healthy | Unhealthy
  datatype Container = Container(id: nat, running: bool, health: Health)

  /** TARGET_NAMES */
  const TARGETS: set<Target> := {TargetApp, TargetPostgres, TargetRedis}

  const LEGACIES: set<Legacy> := {LegacyApp, LegacyPostgres, LegacyRedis}

  datatype Legacies = Legacies(app: nat, postgres: nat, redis: nat) {
    function Id(l: Legacy): nat {
      match l
      case LegacyApp => app
      case LegacyPostgres => postgres
      case LegacyRedis => redis
    }
  }

  /** The identities pinned for the migrated targets. */
  datatype Pins = Pins(app: Option<nat>, postgres: Option<nat>, redis: Option<nat>) {
    function Of(t: Target): Option<nat> {
      match t
      case TargetApp => app
      case TargetPostgres => postgres
      case TargetRedis => redis
    }

    function With(t: Target, id: Option<nat>): Pins {
      match t
      case TargetApp => this.(app := id)
      case TargetPostgres => this.(postgres := id)
      case TargetRedis => this.(redis := id)
    }
  }

  const UNPINNED := Pins(None, None, None)

  datatype Phase =
    | PreflightTargetsStarting | PreflightNonceStarting | ReadyToStopWriters | WritersStopped
    | Migrating | StartingTarget | SwitchingNginx | RollbackIncomplete

  datatype Document = Document(
    phase: Phase, gitHead: nat, envIdentity: nat, fragment: nat, fragmentHash: nat,
    legacy: Legacies, targets: Pins, targetStarted: bool, nonceTargetStarted: bool,
    nonceRuntimeActive: bool, writersStopped: bool, canaryActive: bool)

  /** The file at CUTOVER_STATE_PATH; Invalid is anything that does not load. */
  datatype Record = Absent | Invalid | Valid(document: Document)

  /** Pinned identities are pairwise distinct and none is a legacy identity. */
  predicate Unaliased(pins: Pins, legacy: Legacies) {
    && (forall a: Target, b: Target :: a != b && pins.Of(a).Some? ==> pins.Of(a) != pins.Of(b))
    && (forall a: Target, l: Legacy :: pins.Of(a) != Some(legacy.Id(l)))
  }

  /** `env`, `fragment` and `hash` identify the private file and the sync unit as they are now. The last
      field is history: a stop command was issued to a legacy writer. */
  datatype State = State(
    legacy: map<Legacy, Container>, syncActive: bool, file: Stage, live: Stage,
    targets: map<Target, Container>, nonce: Option<Container>, nextId: nat, acl: bool, data: bool,
    record: Record, gitHead: nat, env: nat, fragment: nat, hash: nat,
    stopIssued: bool)

  predicate Running(s: State, l: Legacy) { l in s.legacy && s.legacy[l].running }

  function HealthOf(s: State, l: Legacy): Health {
    if l in s.legacy then s.legacy[l].health else NoCheck
  }

  predicate AllLegacyRunning(s: State) {
    Running(s, LegacyApp) && Running(s, LegacyPostgres) && Running(s, LegacyRedis)
  }

  /** The service runs and, if that is asked for, is healthy. */
  predicate Fit(s: State, l: Legacy, healthy: bool) {
    Running(s, l) && (healthy ==> HealthOf(s, l) == Healthy)
  }

  /** Both legacy data services have a health check; whether they run is left open. */
  predicate HasChecks(s: State) {
    HealthOf(s, LegacyPostgres) != NoCheck && HealthOf(s, LegacyRedis) != NoCheck
  }

  /** No container has gained or lost its health check. */
  ghost predicate SameChecks(a: State, b: State) {
    forall l: Legacy :: HealthOf(a, l) == NoCheck <==> HealthOf(b, l) == NoCheck
  }

  /** The legacy services as a cutover wants them before it begins. */
  predicate DataUp(s: State) { Fit(s, LegacyPostgres, true) && Fit(s, LegacyRedis, true) }

  predicate LegacyUp(s: State) { DataUp(s) && Running(s, LegacyApp) && s.syncActive }

  /** The legacy writers are down, PostgreSQL and Redis are up. */
  predicate Quiet(s: State) {
    !s.syncActive && !Running(s, LegacyApp) && Running(s, LegacyPostgres) && Running(s, LegacyRedis)
  }

  /** The pinned container of this name exists. */
  predicate PinnedAs(s: State, pins: Pins, t: Target) {
    t in s.targets && pins.Of(t) == Some(s.targets[t].id)
  }

  /** The pinned container of this name runs and is healthy. */
  predicate Serves(s: State, pins: Pins, t: Target) {
    PinnedAs(s, pins, t) && s.targets[t].running && s.targets[t].health == Healthy
  }

  /** Every target that exists is the pinned one or was reported missing. */
  ghost predicate Owned(s: State, pins: Pins, hidden: set<nat>) {
    forall t: Target :: t in s.targets ==> PinnedAs(s, pins, t) || s.targets[t].id in hidden
  }

  predicate NoTargets(s: State) { s.targets == map[] && s.nonce.None? }

  /** The target containers that exist are all in `hidden`, the identities of the containers that an
      inspection reported missing while they existed. */
  ghost predicate TargetsHidden(s: State, hidden: set<nat>) {
    forall t: Target :: t in s.targets ==> s.targets[t].id in hidden
  }

  predicate TargetHidden(s: State, hidden: set<nat>, t: Target) {
    t in s.targets ==> s.targets[t].id in hidden
  }

  predicate NonceHidden(s: State, hidden: set<nat>) {
    s.nonce.Some? ==> s.nonce.value.id in hidden
  }

  ghost predicate AllHidden(s: State, hidden: set<nat>) { TargetsHidden(s, hidden) && NonceHidden(s, hidden) }

  /** No container that exists was ever reported missing. */
  ghost predicate NoneHidden(s: State, hidden: set<nat>) {
    && (forall t: Target :: t in s.targets ==> s.targets[t].id !in hidden)
    && (s.nonce.Some? ==> s.nonce.value.id !in hidden)
  }

  predicate WriterDown(s: State) { s.stopIssued && !(s.syncActive && Running(s, LegacyApp)) }

  /** Something is under way that only a recovery run can take back. */
  ghost predicate Dangling(s: State, hidden: set<nat>) {
    !AllHidden(s, hidden) || WriterDown(s) || s.file == Canary || s.live == Canary
  }

  /** The two flags cover every container that exists and was never reported missing. */
  ghost predicate FlagsCover(s: State, hidden: set<nat>, targetStarted: bool, nonceTargetStarted: bool) {
    && (!TargetsHidden(s, hidden) ==> targetStarted)
    && (!NonceHidden(s, hidden) ==> nonceTargetStarted)
  }

  /** What is hidden stays hidden. */
  lemma MoreHidden(s: State, h: set<nat>, k: set<nat>)
    requires h <= k
    ensures AllHidden(s, h) ==> AllHidden(s, k)
    ensures TargetsHidden(s, h) ==> TargetsHidden(s, k)
    ensures NonceHidden(s, h) ==> NonceHidden(s, k)
    ensures forall t, n :: FlagsCover(s, h, t, n) ==> FlagsCover(s, k, t, n)
    ensures Dangling(s, k) ==> Dangling(s, h)
  {
  }

  /** Nothing but waiting and restarting legacy services has happened. */
  ghost predicate Waited(a: State, b: State) {
    && b == a.(legacy := b.legacy, targets := b.targets, syncActive := b.syncActive)
    && b.legacy.Keys == a.legacy.Keys && b.targets.Keys == a.targets.Keys
    && (forall l :: l in a.legacy && a.legacy[l].running ==> b.legacy[l].running)
    && (forall t :: t in a.targets ==> b.targets[t].id == a.targets[t].id)
    && (a.syncActive ==> b.syncActive) && SameChecks(a, b)
  }

  lemma AlwaysWaited()
    ensures forall s :: Waited(s, s)
    ensures forall a, b, c :: Waited(a, b) && Waited(b, c) ==> Waited(a, c)
    ensures forall a, b, h, t, n :: Waited(a, b) && FlagsCover(a, h, t, n) ==> FlagsCover(b, h, t, n)
    ensures forall a, b, l :: Waited(a, b) && Running(a, l) ==> Running(b, l)
    ensures forall a, b :: Waited(a, b) && a.syncActive ==> b.syncActive
  {
  }

  /** The flags of a valid record cover every container that exists, and its identities validate. */
  ghost predicate RecordCovers(s: State, hidden: set<nat>) {
    s.record.Valid? ==>
      var d := s.record.document;
      && Unaliased(d.targets, d.legacy)
      && FlagsCover(s, hidden, d.targetStarted, d.nonceTargetStarted)
  }

  /** The write-ahead rule, until the final clear of a completed cutover. */
  ghost predicate WriteAhead(s: State, hidden: set<nat>, finalClear: bool) {
    Dangling(s, hidden) && !finalClear ==> s.record.Valid?
  }

  /** A destructive step, with the state it met, the identities pinned then, the containers reported missing
      so far while they existed, and whether the command succeeded. */
  datatype Entry =
    | Down(before: State, pins: Pins, hidden: set<nat>, ok: bool)
    | NonceDown(before: State, pins: Pins, hidden: set<nat>, ok: bool)
    | Reset(before: State, hidden: set<nat>)

  /** The answer to an inspection of a target, by name or by a pinned identity. */
  datatype Inspection = Inspection(t: Target, pinned: Option<nat>, found: bool)

  /** A check of rollback() that passed. */
  datatype Sighting = SawHealthy(l: Legacy) | AppAnswers | SyncAnswers

  /** What rollback() does about a legacy service: it asks for its state, sees it down, starts it, and may
      see the start command fail. */
  datatype Service = Of(l: Legacy) | SyncUnit
  datatype Deed = Looked(v: Service) | SawDown(v: Service) | Started(v: Service) | StartFailed(v: Service)

  /** Since `a`, exactly the services that were seen down had a start command issued. */
  ghost predicate Helped(a: seq<Deed>, b: seq<Deed>) {
    a <= b && forall v: Service :: SawDown(v) in b[|a|..] <==> Started(v) in b[|a|..]
  }

  lemma AlwaysHelped(a: seq<Deed>)
    ensures Helped(a, a)
  {
  }

  lemma HelpedChain(a: seq<Deed>, b: seq<Deed>, c: seq<Deed>)
    requires Helped(a, b) && Helped(b, c)
    ensures Helped(a, c)
    ensures forall d :: d in b[|a|..] || d in c[|b|..] ==> d in c[|a|..]
  {
    assert c[|a|..] == b[|a|..] + c[|b|..];
  }

  /** What the commands of a host do: anything, or nothing but what they are meant to do, except that
      `docker inspect` fails for the identities in `mute` and a `compose down` leaves `lingering`. On such
      a host a running container with a health check is healthy after a while, and there is that while. */
  datatype Oracle = Wild | Calm(mute: set<nat>, lingering: set<Target>)

  function Settled(c: Container): Container {
    if c.running && c.health != NoCheck then c.(health := Healthy) else c
  }

  function SettledHost(s: State): State {
    s.(legacy := map l | l in s.legacy :: Settled(s.legacy[l]), targets := map t | t in s.targets :: Settled(s.targets[t]))
  }

  predicate StableTraffic(s: State) {
    s.file == Stable && s.live == Stable && AllLegacyRunning(s)
  }

  /** The legacy services carry the traffic; before a `compose down` the targets that are known are the
      pinned ones, and before a reset there are none. */
  ghost predicate SafeEntry(e: Entry) {
    && StableTraffic(e.before)
    && if e.Reset? then AllHidden(e.before, e.hidden) else Owned(e.before, e.pins, e.hidden)
  }

  /** A reset meets no container exactly when it meets none that was ever reported missing. */
  lemma ResetIffNoneHidden(e: Entry)
    requires SafeEntry(e) && e.Reset?
    ensures NoTargets(e.before) <==> NoneHidden(e.before, e.hidden)
  {
    if NoneHidden(e.before, e.hidden) {
      assert forall t: Target :: t !in e.before.targets;
      assert e.before.targets.Keys == {};
    }
  }

  /** rollback() has taken everything back; a container that is left was reported missing. */
  ghost predicate Restored(s: State, hidden: set<nat>) {
    StableTraffic(s) && s.syncActive && !s.data && AllHidden(s, hidden)
  }

  /** What no rollback touches. */
  predicate KeptByRollback(a: State, b: State) {
    && b.record == a.record && b.stopIssued == a.stopIssued
    && b.env == a.env && b.fragment == a.fragment && b.hash == a.hash
    && b.targets.Keys <= a.targets.Keys && (a.nonce.None? ==> b.nonce.None?)
  }

  /** No container was removed and no directory emptied. */
  predicate TargetsKept(a: State, b: State) {
    && b.targets.Keys == a.targets.Keys && b.nonce == a.nonce && b.acl == a.acl && b.data == a.data
  }

  /** What the preparation of the targets leaves alone: traffic and writers. */
  ghost predicate Began(a: State, b: State) {
    && b.file == a.file && b.live == a.live && b.syncActive == a.syncActive
    && b.stopIssued == a.stopIssued && b.fragment == a.fragment && SameChecks(a, b)
    && forall l: Legacy :: Running(b, l) == Running(a, l)
  }

  /** Only healths, and the liveness of targets, have changed. */
  ghost predicate Idled(a: State, b: State) {
    && b == a.(legacy := b.legacy, targets := b.targets)
    && b.legacy.Keys == a.legacy.Keys && b.targets.Keys == a.targets.Keys
    && (forall l :: l in a.legacy ==> b.legacy[l].running == a.legacy[l].running)
    && (forall t :: t in a.targets ==> b.targets[t].id == a.targets[t].id) && SameChecks(a, b)
  }

  lemma AlwaysIdled()
    ensures forall s :: Idled(s, s)
    ensures forall a, b, c :: Idled(a, b) && Idled(b, c) ==> Idled(a, c)
    ensures forall a, b, h, t, n :: Idled(a, b) && FlagsCover(a, h, t, n) ==> FlagsCover(b, h, t, n)
  {
  }

  lemma IdledIsWaited(a: State, b: State)
    requires Idled(a, b)
    ensures Waited(a, b)
  {
  }

  lemma IdledBegan(a: State, b: State)
    requires Idled(a, b)
    ensures Began(a, b) && b.record == a.record && b.targets.Keys == a.targets.Keys
  {
  }

  /** Changes to targets, their data, the ACL and the record leave traffic and writers alone. */
  lemma BeganWhen(a: State, b: State)
    requires b == a.(targets := b.targets, nonce := b.nonce, nextId := b.nextId, acl := b.acl, data := b.data, record := b.record)
    ensures Began(a, b)
  {
  }

  lemma AlwaysBegan()
    ensures forall s :: Began(s, s)
    ensures forall a, b, c :: Began(a, b) && Began(b, c) ==> Began(a, c)
  {
  }

  /** The targets of `b` are containers of `a`. */
  ghost predicate Fewer(a: State, b: State) {
    forall t: Target :: t in b.targets ==> t in a.targets && b.targets[t] == a.targets[t]
  }

  lemma ByName(s: State, hidden: set<nat>)
    requires TargetHidden(s, hidden, TargetApp) && TargetHidden(s, hidden, TargetPostgres) && TargetHidden(s, hidden, TargetRedis)
    ensures TargetsHidden(s, hidden)
  {
    forall t: Target | t in s.targets
      ensures s.targets[t].id in hidden
    {
      match t
      case TargetApp =>
      case TargetPostgres =>
      case TargetRedis =>
    }
  }

  lemma FewerCovered(a: State, b: State)
    requires b == a.(targets := b.targets) && Fewer(a, b)
    ensures forall h, t, n :: FlagsCover(a, h, t, n) ==> FlagsCover(b, h, t, n)
  {
  }

  /** Targets and their data were taken away, nothing else. */
  ghost predicate Shrunk(a: State, b: State) {
    && b == a.(targets := b.targets, nonce := b.nonce, acl := b.acl, data := b.data)
    && Fewer(a, b) && (b.nonce == a.nonce || b.nonce.None?)
  }

  lemma AlwaysShrunk()
    ensures forall s :: Shrunk(s, s)
    ensures forall a, b, c :: Shrunk(a, b) && Shrunk(b, c) ==> Shrunk(a, c)
    ensures forall a, b :: Shrunk(a, b) && StableTraffic(a) ==> StableTraffic(b)
    ensures forall a, b, h, t, n :: Shrunk(a, b) && FlagsCover(a, h, t, n) ==> FlagsCover(b, h, t, n)
  {
  }

  lemma NothingShrunk(s: State)
    ensures Shrunk(s, s)
  {
  }

  lemma ShrunkChain(a: State, b: State, c: State)
    requires Shrunk(a, b) && Shrunk(b, c)
    ensures Shrunk(a, c)
  {
  }

  lemma ShrunkTraffic(a: State, b: State)
    requires b == a.(targets := b.targets) && Fewer(a, b)
    ensures Shrunk(a, b)
  {
  }

  lemma ShrunkNonce(a: State, b: State)
    requires b == a.(nonce := b.nonce, acl := b.acl) && (b.nonce == a.nonce || b.nonce.None?)
    ensures Shrunk(a, b)
  {
  }

  lemma ShrunkData(a: State, b: State)
    requires b == a.(data := b.data)
    ensures Shrunk(a, b) && forall h :: AllHidden(a, h) ==> AllHidden(b, h)
  {
  }

  lemma WaitedKeeps(a: State, b: State)
    requires Waited(a, b)
    ensures KeptByRollback(a, b) && TargetsKept(a, b)
  {
  }

  lemma SwitchKeeps(a: State, b: State)
    requires b == a.(file := b.file, live := b.live)
    ensures KeptByRollback(a, b) && TargetsKept(a, b)
  {
  }

  lemma CleanupKeeps(a: State, b: State)
    requires Shrunk(a, b)
    ensures KeptByRollback(a, b) && (a == b ==> TargetsKept(a, b)) && a.syncActive == b.syncActive
  {
  }

  lemma IsStable(a: State, b: State)
    requires b == a.(file := b.file, live := b.live)
    ensures b.file == b.live == Stable && Running(a, LegacyApp) && Running(a, LegacyPostgres) && Running(a, LegacyRedis) ==> StableTraffic(b)
    ensures b.syncActive == a.syncActive
  {
  }

  lemma RestoredIsNotDangling(s: State, hidden: set<nat>)
    ensures Restored(s, hidden) ==> !Dangling(s, hidden)
  {
  }

  /** Every container is an old one or has an identity never used before. */
  ghost predicate OnlyNew(before: State, after: State) {
    && before.nextId <= after.nextId
    && forall t :: t in after.targets ==>
         (t in before.targets && after.targets[t].id == before.targets[t].id) || after.targets[t].id >= before.nextId
  }

  lemma OnlyNewChain(a: State, b: State, c: State)
    requires OnlyNew(a, b) && OnlyNew(b, c)
    ensures OnlyNew(a, c)
  {
  }

  lemma AllLegacies()
    ensures forall l: Legacy :: l in LEGACIES
  {
    forall l: Legacy
      ensures l in LEGACIES
    {
      match l
      case LegacyApp =>
      case LegacyPostgres =>
      case LegacyRedis =>
    }
  }

  lemma AllTargets()
    ensures forall t: Target :: t in TARGETS
  {
    forall t: Target
      ensures t in TARGETS
    {
      match t
      case TargetApp =>
      case TargetPostgres =>
      case TargetRedis =>
    }
  }

  /** Identities are given out in order. */
  ghost predicate Numbered(s: State, hidden: set<nat>) {
    && (forall t: Target :: t in s.targets ==> s.targets[t].id < s.nextId)
    && (s.nonce.Some? ==> s.nonce.value.id < s.nextId)
    && (forall id :: id in hidden ==> id < s.nextId)
  }

  /** The name is bound, and to the pinned identity if one is given. */
  predicate Present(s: State, t: Target, pinned: Option<nat>) {
    t in s.targets && (pinned.Some? ==> s.targets[t].id == pinned.value)
  }

  /* ---------------------------------------------------------------- the plan of a cutover */

  /** Checks and commands whose effect is not modelled. */
  datatype Check =
    | SafeExport | DirectV1 | RuntimeImages | RetirementRecord | RedisSource | StableHealth | ComposeConfig
    | DatabaseIdentities | NonceEndpoint | StoppedLegacy | TargetHealth | ApiCanary

  datatype Migration = PostgresData | NonceKeys | AppMetadata | SyncRole | SyncSchema | AppRole

  /** What an inspection must have shown. */
  datatype Fact =
    | LegacyRunning | NoneOfTargets | SyncRuns | OnStable | Serving(t: Target) | AllServing | NonceServing
    | RollbackReady | WritersDown | PostgresIdle | PostgresGone

  datatype Act =
    | Verify(c: Check) | Migrate(m: Migration) | See(f: Fact) | Persist(phase: Phase)
    | ComposeUp(services: set<Target>) | InstallAcl | DropAcl | StartNonce | StopNonce | RemoveNonce
    | StopSync | StopApp | StopPostgres | RemovePostgres | SwitchToCanary | ClearRecord

  /* The commands of execute() and the facts between them, in the order in which they must come. */

  const PREFLIGHT_CHECKS: seq<Act> := [
    Verify(SafeExport), Verify(DirectV1), Verify(RuntimeImages), Verify(RetirementRecord), See(LegacyRunning),
    Verify(RedisSource), See(NoneOfTargets), See(SyncRuns), Verify(StableHealth), See(OnStable), Verify(ComposeConfig)]

  const PREFLIGHT_TARGETS: seq<Act> := [
    Persist(PreflightTargetsStarting), ComposeUp({TargetPostgres, TargetRedis}), See(Serving(TargetPostgres)),
    See(Serving(TargetRedis)), Persist(PreflightTargetsStarting), Verify(DatabaseIdentities), Verify(NonceEndpoint)]

  const PREFLIGHT_NONCE: seq<Act> := [
    InstallAcl, Persist(PreflightNonceStarting), StartNonce, See(NonceServing), Verify(StableHealth), See(RollbackReady)]

  const STOP: seq<Act> := [
    Persist(ReadyToStopWriters), StopSync, StopApp, See(WritersDown), Persist(WritersStopped), Persist(Migrating)]

  const MIGRATION: seq<Act> := [
    Migrate(PostgresData), Migrate(NonceKeys), Migrate(AppMetadata), Migrate(SyncRole), Migrate(SyncSchema), Migrate(AppRole)]

  const REPLACEMENT: seq<Act> := [
    See(Serving(TargetPostgres)), StopPostgres, See(PostgresIdle), RemovePostgres, See(PostgresGone), Persist(Migrating),
    ComposeUp({TargetPostgres, TargetRedis}), See(Serving(TargetPostgres)), See(Serving(TargetRedis)), Persist(Migrating)]

  const NONCE_RESTART: seq<Act> := [StopNonce, RemoveNonce, DropAcl, StartNonce, See(NonceServing)]

  const START: seq<Act> := [
    Persist(StartingTarget), ComposeUp({TargetApp}), See(Serving(TargetApp)), See(AllServing), Verify(StoppedLegacy),
    Verify(TargetHealth)]

  const SWITCH: seq<Act> := [
    Persist(SwitchingNginx), See(AllServing), Verify(TargetHealth), SwitchToCanary, See(AllServing), Verify(TargetHealth),
    Verify(ApiCanary), See(AllServing)]

  const TARGETS_PLANNED: nat := 11
  const NONCE_PLANNED: nat := 18
  const STOP_PLANNED: nat := 24
  const MIGRATION_PLANNED: nat := 30
  const REPLACEMENT_PLANNED: nat := 36
  const NONCE_RESTART_PLANNED: nat := 46
  const START_PLANNED: nat := 51
  const SWITCH_PLANNED: nat := 57
  const CLEAR_PLANNED: nat := 65
  const ALL_PLANNED: nat := 66

  /** The act that comes after `k` others. */
  function Planned(k: nat): Option<Act> {
    if k < TARGETS_PLANNED then Some(PREFLIGHT_CHECKS[k])
    else if k < NONCE_PLANNED then Some(PREFLIGHT_TARGETS[k - TARGETS_PLANNED])
    else if k < STOP_PLANNED then Some(PREFLIGHT_NONCE[k - NONCE_PLANNED])
    else if k < MIGRATION_PLANNED then Some(STOP[k - STOP_PLANNED])
    else if k < REPLACEMENT_PLANNED then Some(MIGRATION[k - MIGRATION_PLANNED])
    else if k < NONCE_RESTART_PLANNED then Some(REPLACEMENT[k - REPLACEMENT_PLANNED])
    else if k < START_PLANNED then Some(NONCE_RESTART[k - NONCE_RESTART_PLANNED])
    else if k < SWITCH_PLANNED then Some(START[k - START_PLANNED])
    else if k < CLEAR_PLANNED then Some(SWITCH[k - SWITCH_PLANNED])
    else if k == CLEAR_PLANNED then Some(ClearRecord)
    else None
  }

  ghost predicate Holds(f: Fact, s: State, pins: Pins, hidden: set<nat>) {
    match f
    case LegacyRunning => AllLegacyRunning(s)
    case NoneOfTargets => AllHidden(s, hidden)
    case SyncRuns => s.syncActive
    case OnStable => s.file == Stable
    case Serving(t) => Serves(s, pins, t)
    case AllServing => forall t: Target :: Serves(s, pins, t)
    case NonceServing => s.nonce.Some? && s.nonce.value.running && s.nonce.value.health == Healthy
    case RollbackReady => LegacyUp(s) && s.file == Stable
    case WritersDown => Quiet(s) && DataUp(s)
    case PostgresIdle => PinnedAs(s, pins, TargetPostgres) && !s.targets[TargetPostgres].running
    case PostgresGone => PinnedAs(s, pins, TargetPostgres) ==> s.targets[TargetPostgres].id in hidden
  }

  /** Container identities are unique, no target shares one with a legacy service, and every target has a
      health check. */
  ghost predicate Tidy(s: State, ids: Legacies) {
    && (forall a: Target, b: Target :: a in s.targets && b in s.targets && s.targets[a].id == s.targets[b].id ==> a == b)
    && (forall t: Target, l: Legacy :: t in s.targets ==> s.targets[t].id != ids.Id(l))
    && (forall l: Legacy :: ids.Id(l) < s.nextId)
    && (forall t: Target :: t in s.targets ==> s.targets[t].health != NoCheck)
  }

  /** A host on which a cutover can begin. */
  ghost predicate Welcoming(s: State, ids: Legacies) {
    LegacyUp(s) && s.file == Stable && NoTargets(s) && forall l: Legacy :: ids.Id(l) < s.nextId
  }

  class World {
    const oracle: Oracle
    const ids: Legacies
    var s: State
    ghost var log: seq<Entry>
    /** The identities of the containers that `docker inspect` reported missing while they existed. */
    ghost var hidden: set<nat>
    /** The checks that rollback() has passed. */
    ghost var sightings: seq<Sighting>
    /** The inspections of targets that were answered. */
    ghost var answers: seq<Inspection>
    /** What rollback() did about the legacy services. */
    ghost var deeds: seq<Deed>
    /** How many acts of the plan this run of execute() has completed. */
    ghost var step: nat
    /** The final clear of a completed cutover was begun, and the host was not yet taken back. */
    ghost var finalClear: bool

    constructor (oracle: Oracle, ids: Legacies, s: State)
      ensures this.oracle == oracle && this.ids == ids && this.s == s
      ensures log == [] && hidden == {} && sightings == [] && answers == [] && deeds == [] && step == 0 && !finalClear
    {
      this.oracle, this.ids, this.s := oracle, ids, s;
      log, hidden, sightings, answers, deeds, step, finalClear := [], {}, [], [], [], 0, false;
    }

    ghost predicate Sound()
      reads this`s, this`log, this`hidden, this`finalClear
    {
      && s.legacy.Keys == LEGACIES
      && s.targets.Keys <= TARGETS
      && Numbered(s, hidden)
      && (forall e :: e in log ==> SafeEntry(e))
      && RecordCovers(s, hidden) && WriteAhead(s, hidden, finalClear)
    }

    /* -------------------------------------------------------------- the plan */

    /** The plan has come to `a`. */
    ghost predicate Next(a: Act)
      reads this`step
    {
      Planned(step) == Some(a)
    }

    /** A command of the plan whose effect is not modelled. */
    method Issue(a: Act) returns (o: Outcome)
      requires Next(a) && (a.Verify? || a.Migrate? || a.StopNonce?)
      modifies this`step
      ensures step == old(step) + Took(o)
      ensures oracle.Calm? ==> o.Done?
    {
      o := Check();
      step := step + Took(o);
    }

    /** The fact that the plan asks for next was just established. */
    ghost method Note(f: Fact, pins: Pins)
      requires Next(See(f)) && Holds(f, s, pins, hidden)
      modifies this`step
      ensures step == old(step) + 1
    {
      step := step + 1;
    }

    /* -------------------------------------------------------------- queries and waiting */

    /** A command without effect that is modelled: a check, a validation. */
    method Check() returns (o: Outcome)
      ensures oracle.Calm? ==> o.Done?
    {
      o := *;
      if oracle.Calm? {
        o := Done;
      }
    }

    /** An HTTP probe of a legacy service during a rollback. */
    method Probe(p: Sighting) returns (o: Outcome)
      requires Sound()
      modifies this`sightings
      ensures Sound()
      ensures sightings == old(sightings) + (if o.Done? then [p] else [])
      ensures oracle.Calm? ==> o.Done?
    {
      o := Check();
      if o.Done? {
        sightings := sightings + [p];
      }
    }

    /** A legacy data service was just seen running and healthy. */
    ghost method NoteHealthy(l: Legacy)
      requires Sound() && Running(s, l) && HealthOf(s, l) == Healthy
      modifies this`sightings
      ensures Sound()
      ensures sightings == old(sightings) + [SawHealthy(l)]
    {
      sightings := sightings + [SawHealthy(l)];
    }

    /** While the controller waits, the health of a container or the liveness of a target may change. */
    method Sleep()
      requires Sound()
      modifies this`s
      ensures Sound()
      ensures Idled(old(s), s)
      ensures oracle.Calm? ==> s == SettledHost(old(s))
    {
      var l: Legacy, t: Target, h: Health, running: bool := *, *, *, *;
      if oracle.Calm? {
        s := SettledHost(s);
      } else if l in s.legacy && running && (h == NoCheck <==> s.legacy[l].health == NoCheck) {
        s := s.(legacy := s.legacy[l := s.legacy[l].(health := h)]);
      } else if t in s.targets {
        s := s.(targets := s.targets[t := Container(s.targets[t].id, running, h)]);
      }
    }

    /** How often the controller may look again before its time is up. */
    method Patience() returns (polls: nat)
      ensures oracle.Calm? ==> polls > 0
    {
      var n: int := *;
      polls := if n > 0 then n else if oracle.Calm? then 1 else 0;
    }

    /** `docker inspect` of a legacy service in a rollback. */
    method LookAt(l: Legacy) returns (r: Reply<(bool, Health)>)
      requires Sound()
      modifies this`deeds
      ensures Sound()
      ensures deeds == old(deeds) + if r.Answer? && !r.value.0 then [Looked(Of(l)), SawDown(Of(l))] else [Looked(Of(l))]
      ensures r.Answer? ==> r.value == (Running(s, l), HealthOf(s, l))
      ensures r.Failed? ==> !r.outcome.Done?
      ensures oracle.Calm? ==> r.Answer?
    {
      deeds := deeds + [Looked(Of(l))];
      r := InspectLegacy(l);
      deeds := deeds + if r.Answer? && !r.value.0 then [SawDown(Of(l))] else [];
    }

    /** `systemctl is-active` of the sync unit in a rollback. */
    method LookAtSync() returns (r: Reply<bool>)
      requires Sound()
      modifies this`deeds
      ensures Sound()
      ensures deeds == old(deeds) + if r.Answer? && !r.value then [Looked(SyncUnit), SawDown(SyncUnit)] else [Looked(SyncUnit)]
      ensures r.Answer? ==> r.value == s.syncActive
      ensures r.Failed? ==> !r.outcome.Done?
      ensures oracle.Calm? ==> r.Answer?
    {
      deeds := deeds + [Looked(SyncUnit)];
      r := SyncActive();
      deeds := deeds + if r.Answer? && !r.value then [SawDown(SyncUnit)] else [];
    }

    method InspectLegacy(l: Legacy) returns (r: Reply<(bool, Health)>)
      requires Sound()
      ensures r.Answer? ==> r.value == (Running(s, l), HealthOf(s, l))
      ensures r.Failed? ==> !r.outcome.Done?
      ensures oracle.Calm? ==> r.Answer?
    {
      var o := Check();
      if !o.Done? {
        return Failed(o);
      }
      AllLegacies();
      r := Answer((s.legacy[l].running, s.legacy[l].health));
    }

    /** Whether `docker inspect` of an existing container fails with a status that is read as absence. */
    method Muted(id: nat) returns (muted: bool)
      ensures oracle.Calm? ==> muted == (id in oracle.mute)
    {
      muted := *;
      if oracle.Calm? {
        muted := id in oracle.mute;
      }
    }

    ghost method Hide(c: Container)
      requires Sound() && c.id < s.nextId
      modifies this`hidden
      ensures Sound() && hidden == old(hidden) + {c.id}
    {
      MoreHidden(s, hidden, hidden + {c.id});
      hidden := hidden + {c.id};
    }

    /** `docker inspect` of a target by name, or by the pinned identity, with failure allowed: every
        failing command is read as a missing container. */
    method InspectTarget(t: Target, pinned: Option<nat>) returns (r: Reply<Option<Container>>)
      requires Sound()
      modifies this`hidden, this`answers
      ensures Sound() && answers == old(answers) + if r.Answer? then [Inspection(t, pinned, r.value.Some?)] else []
      ensures hidden == old(hidden) + if r.Answer? && r.value.None? && Present(s, t, pinned) then {s.targets[t].id} else {}
      ensures r.Answer? && r.value.Some? ==> Present(s, t, pinned) && r.value.value == s.targets[t]
      ensures r.Failed? ==> !r.outcome.Done?
      ensures oracle.Calm? ==> r.Answer?
      ensures oracle.Calm? && Present(s, t, pinned) ==> r.value.None? == (s.targets[t].id in oracle.mute)
    {
      var o := Check();
      if !o.Done? {
        return Failed(o);
      }
      r := Answer(None);
      if Present(s, t, pinned) {
        var muted := Muted(s.targets[t].id);
        if muted {
          Hide(s.targets[t]);
        } else {
          r := Answer(Some(s.targets[t]));
        }
      }
      answers := answers + [Inspection(t, pinned, r.value.Some?)];
    }

    method InspectNonce() returns (r: Reply<Option<Container>>)
      requires Sound()
      modifies this`hidden
      ensures Sound()
      ensures hidden == old(hidden) + if r.Answer? && r.value.None? && s.nonce.Some? then {s.nonce.value.id} else {}
      ensures r.Answer? && r.value.Some? ==> s.nonce == r.value
      ensures r.Failed? ==> !r.outcome.Done?
      ensures oracle.Calm? ==> r.Answer?
    {
      var o := Check();
      if !o.Done? {
        return Failed(o);
      }
      if s.nonce.None? {
        return Answer(None);
      }
      var muted := Muted(s.nonce.value.id);
      if !muted {
        return Answer(s.nonce);
      }
      Hide(s.nonce.value);
      r := Answer(None);
    }

    /** `docker inspect` of a target that must exist: a failing command raises. */
    method ReadTarget(t: Target, pinned: Option<nat>) returns (r: Reply<Container>)
      ensures r.Answer? ==> Present(s, t, pinned) && r.value == s.targets[t]
      ensures r.Failed? ==> !r.outcome.Done?
      ensures oracle.Calm? && Present(s, t, pinned) ==> r.Answer?
    {
      var o := Check();
      r := if !o.Done? then Failed(o) else if Present(s, t, pinned) then Answer(s.targets[t]) else Failed(Raised);
    }

    method ReadNonce() returns (r: Reply<Container>)
      ensures r.Answer? ==> s.nonce == Some(r.value)
      ensures r.Failed? ==> !r.outcome.Done?
      ensures oracle.Calm? && s.nonce.Some? ==> r.Answer?
    {
      var o := Check();
      r := if !o.Done? then Failed(o) else if s.nonce.Some? then Answer(s.nonce.value) else Failed(Raised);
    }

    method SyncActive() returns (r: Reply<bool>)
      ensures r.Answer? ==> r.value == s.syncActive
      ensures r.Failed? ==> !r.outcome.Done?
      ensures oracle.Calm? ==> r.Answer?
    {
      var o := Check();
      r := if o.Done? then Answer(s.syncActive) else Failed(o);
    }

    /* -------------------------------------------------------------- the legacy services */

    /** `docker start`: it is logged, whatever becomes of it. */
    method StartLegacy(l: Legacy) returns (o: Outcome)
      requires Sound()
      modifies this`s, this`deeds
      ensures Sound() && deeds == old(deeds) + if o.Done? then [Started(Of(l))] else [Started(Of(l)), StartFailed(Of(l))]
      ensures Waited(old(s), s)
      ensures oracle.Calm? ==> o.Done? && Running(s, l)
    {
      AllLegacies();
      o := Check();
      deeds := deeds + if o.Done? then [Started(Of(l))] else [Started(Of(l)), StartFailed(Of(l))];
      if * {
        s := s.(legacy := s.legacy[l := s.legacy[l].(running := true)]);
      } else if oracle.Calm? {
        s := s.(legacy := s.legacy[l := s.legacy[l].(running := true)]);
      }
    }

    /** `systemctl start`: it is logged, whatever becomes of it. */
    method StartSync() returns (o: Outcome)
      requires Sound()
      modifies this`s, this`deeds
      ensures Sound() && deeds == old(deeds) + if o.Done? then [Started(SyncUnit)] else [Started(SyncUnit), StartFailed(SyncUnit)]
      ensures Waited(old(s), s)
      ensures oracle.Calm? ==> o.Done? && s == old(s).(syncActive := true)
    {
      o := Check();
      deeds := deeds + if o.Done? then [Started(SyncUnit)] else [Started(SyncUnit), StartFailed(SyncUnit)];
      if * {
        s := s.(syncActive := true);
      } else if oracle.Calm? {
        s := s.(syncActive := true);
      }
    }

    method StopSyncUnit() returns (o: Outcome)
      requires Sound() && s.record.Valid? && Next(StopSync)
      modifies this`s, this`step
      ensures Sound() && step == old(step) + Took(o)
      ensures s == old(s).(stopIssued := true, syncActive := s.syncActive)
      ensures oracle.Calm? ==> o.Done? && !s.syncActive
    {
      var active: bool := *;
      s := s.(stopIssued := true, syncActive := active && !oracle.Calm?);
      o := Check();
      step := step + Took(o);
    }

    method StopLegacyApp() returns (o: Outcome)
      requires Sound() && s.record.Valid? && Next(StopApp)
      modifies this`s, this`step
      ensures Sound() && step == old(step) + Took(o)
      ensures s == old(s).(stopIssued := true, legacy := s.legacy) && SameChecks(old(s), s)
      ensures forall l :: l in s.legacy && l != LegacyApp ==> s.legacy[l] == old(s).legacy[l]
      ensures oracle.Calm? ==> o.Done? && !Running(s, LegacyApp)
    {
      var running: bool := *;
      running := running && !oracle.Calm?;
      s := s.(stopIssued := true, legacy := s.legacy[LegacyApp := s.legacy[LegacyApp].(running := running)]);
      o := Check();
      step := step + Took(o);
    }

    /* -------------------------------------------------------------- Nginx */

    /** os.replace of the active upstream file; a failure may come before or after it. */
    method ReplaceUpstream(stage: Stage) returns (o: Outcome)
      requires Sound() && (stage == Canary ==> s.record.Valid?)
      modifies this`s
      ensures Sound()
      ensures s == old(s) || s == old(s).(file := stage)
      ensures o.Done? ==> s == old(s).(file := stage)
      ensures oracle.Calm? ==> o.Done?
    {
      o := Check();
      if * {
        s := s.(file := stage);
      } else if o.Done? {
        s := s.(file := stage);
      }
    }

    /** `systemctl reload nginx`: the file takes effect, if the command succeeds in any case. */
    method Reload() returns (o: Outcome)
      requires Sound() && (s.file == Canary ==> s.record.Valid?)
      modifies this`s
      ensures Sound()
      ensures s == old(s) || s == old(s).(live := s.file)
      ensures o.Done? ==> s == old(s).(live := s.file)
      ensures oracle.Calm? ==> o.Done?
    {
      o := Check();
      if * {
        s := s.(live := s.file);
      } else if o.Done? {
        s := s.(live := s.file);
      }
    }

    /** NginxUpstream.switch */
    method Switch(stage: Stage) returns (o: Outcome)
      requires Sound() && (stage == Canary ==> s.record.Valid? && Next(SwitchToCanary))
      modifies this`s, this`step
      ensures Sound() && step == old(step) + (if stage == Canary then Took(o) else 0)
      ensures s == old(s).(file := s.file, live := s.live)
      ensures s.file == old(s).file || s.file == stage
      ensures s.live == old(s).live || s.live == stage
      ensures o.Done? ==> s.file == s.live == stage
      ensures oracle.Calm? ==> o.Done?
    {
      hide World.Sound;
      :- Check();
      :- ReplaceUpstream(stage);
      :- Check();
      :- Reload();
      if s.file != stage {
        return Raised;
      }
      o := Check();
      step := step + (if stage == Canary then Took(o) else 0);
    }

    /* -------------------------------------------------------------- the migrated targets */

    /** `compose up` of target services: each may be created, started or recreated. */
    method Up(services: set<Target>) returns (o: Outcome)
      requires Sound() && services <= TARGETS
      requires s.record.Valid? && s.record.document.targetStarted && Next(ComposeUp(services))
      modifies this`s, this`step
      ensures Sound() && step == old(step) + Took(o)
      ensures s == old(s).(targets := s.targets, nextId := s.nextId, data := s.data)
      ensures s.targets.Keys <= old(s).targets.Keys + services
      ensures OnlyNew(old(s), s)
      ensures oracle.Calm? ==> o.Done? && forall t: Target :: Upped(old(s), s, t, t in services)
      ensures oracle.Calm? && Tidy(old(s), ids) ==> Tidy(s, ids)
    {
      hide World.Sound, OnlyNew, Tidy;
      MayCreate(TargetPostgres, TargetPostgres in services);
      ghost var first := s;
      MayCreate(TargetRedis, TargetRedis in services);
      OnlyNewChain(old(s), first, s);
      ghost var second := s;
      MayCreate(TargetApp, TargetApp in services);
      OnlyNewChain(old(s), second, s);
      o := Check();
      step := step + Took(o);
    }

    /** A requested service is there now and runs; nothing else was touched. */
    ghost predicate Upped(a: State, b: State, t: Target, requested: bool) {
      && (t in b.targets <==> t in a.targets || requested)
      && (t in a.targets ==> b.targets[t] == if requested then a.targets[t].(running := true) else a.targets[t])
      && (t !in a.targets && requested ==> b.targets[t].running && b.targets[t].id >= a.nextId)
    }

    method MayCreate(t: Target, requested: bool)
      requires Sound() && s.record.Valid? && s.record.document.targetStarted
      modifies this`s
      ensures Sound()
      ensures s == old(s).(targets := s.targets, nextId := s.nextId, data := s.data)
      ensures s.targets.Keys <= old(s).targets.Keys + (if requested then {t} else {})
      ensures OnlyNew(old(s), s)
      ensures oracle.Calm? ==> Upped(old(s), s, t, requested)
      ensures forall other :: other != t ==> (other in s.targets <==> other in old(s).targets)
      ensures forall other :: other != t && other in s.targets ==> s.targets[other] == old(s).targets[other]
      ensures Tidy(old(s), ids) ==> Tidy(s, ids)
    {
      hide World.Sound;
      var created: bool := *;
      if oracle.Calm? {
        created := t !in s.targets;
      }
      if requested && created {
        Create(t);
      } else if requested && t in s.targets && oracle.Calm? {
        Restart(t);
      }
    }

    method Restart(t: Target)
      requires Sound() && t in s.targets
      modifies this`s
      ensures Sound()
      ensures s == old(s).(targets := old(s).targets[t := old(s).targets[t].(running := true)])
      ensures OnlyNew(old(s), s)
      ensures Tidy(old(s), ids) ==> Tidy(s, ids)
    {
      hide Tidy;
      s := s.(targets := s.targets[t := s.targets[t].(running := true)]);
      StillTidy(old(s), s, ids, t);
    }

    lemma StillTidy(a: State, b: State, ids: Legacies, t: Target)
      requires t in a.targets && t in b.targets && b == a.(targets := a.targets[t := b.targets[t]])
      requires b.targets[t] == a.targets[t].(running := b.targets[t].running)
      ensures Tidy(a, ids) ==> Tidy(b, ids)
    {
    }

    method Create(t: Target)
      requires Sound() && s.record.Valid? && s.record.document.targetStarted
      modifies this`s
      ensures Sound()
      ensures s == old(s).(targets := s.targets, nextId := s.nextId, data := s.data)
      ensures s.targets == old(s).targets[t := Container(old(s).nextId, true, Starting)] && s.nextId == old(s).nextId + 1
      ensures OnlyNew(old(s), s)
      ensures Tidy(old(s), ids) ==> Tidy(s, ids)
    {
      s := s.(targets := s.targets[t := Container(s.nextId, true, Starting)], nextId := s.nextId + 1, data := true);
      AllTargets();
    }

    /** `compose stop` of the migrated PostgreSQL. */
    method StopTargetPostgres() returns (o: Outcome)
      requires Sound() && Next(StopPostgres)
      modifies this`s, this`step
      ensures Sound() && step == old(step) + Took(o)
      ensures s == old(s) || (TargetPostgres in s.targets
                && s == old(s).(targets := old(s).targets[TargetPostgres := s.targets[TargetPostgres]])
                && TargetPostgres in old(s).targets && s.targets[TargetPostgres] == old(s).targets[TargetPostgres].(running := false))
      ensures oracle.Calm? ==> o.Done? && (TargetPostgres in s.targets ==> !s.targets[TargetPostgres].running)
    {
      var stopped: bool := *;
      if TargetPostgres in s.targets && (stopped || oracle.Calm?) {
        s := s.(targets := s.targets[TargetPostgres := s.targets[TargetPostgres].(running := false)]);
      }
      o := Check();
      step := step + Took(o);
    }

    /** `compose rm` of the migrated PostgreSQL. */
    method RemoveTargetPostgres() returns (o: Outcome)
      requires Sound() && Next(RemovePostgres)
      modifies this`s, this`step
      ensures Sound() && step == old(step) + Took(o)
      ensures s == old(s) || s == old(s).(targets := old(s).targets - {TargetPostgres})
      ensures oracle.Calm? ==> o.Done? && s == old(s).(targets := old(s).targets - {TargetPostgres})
    {
      var removed: bool := *;
      if removed || oracle.Calm? {
        s := s.(targets := s.targets - {TargetPostgres});
      }
      o := Check();
      step := step + Took(o);
    }

    method NonceUp() returns (o: Outcome)
      requires Sound() && s.record.Valid? && s.record.document.nonceTargetStarted && Next(StartNonce)
      modifies this`s, this`step
      ensures Sound() && step == old(step) + Took(o)
      ensures s == old(s).(nonce := s.nonce, nextId := s.nextId, data := s.data)
      ensures s.nextId >= old(s).nextId
      ensures oracle.Calm? ==> o.Done? && Holds(NonceServing, s, UNPINNED, {})
    {
      var created: bool, h: Health := *, *;
      if created || oracle.Calm? {
        h := if oracle.Calm? then Healthy else h;
        s := s.(nonce := Some(Container(s.nextId, true, h)), nextId := s.nextId + 1, data := true);
      }
      o := Check();
      step := step + Took(o);
    }

    method RemoveNonceTarget() returns (o: Outcome)
      requires Sound() && Next(RemoveNonce)
      modifies this`s, this`step
      ensures Sound() && step == old(step) + Took(o)
      ensures s == old(s) || s == old(s).(nonce := None)
      ensures oracle.Calm? ==> o.Done?
    {
      if * {
        s := s.(nonce := None);
      }
      o := Check();
      step := step + Took(o);
    }

    /** configure-redis-migration-acl.py --apply or --remove; also a rollback removes it. */
    method ConfigureAcl(installed: bool, ghost planned: bool) returns (o: Outcome)
      requires Sound() && (planned ==> Next(if installed then InstallAcl else DropAcl))
      modifies this`s, this`step
      ensures Sound() && step == old(step) + (if planned then Took(o) else 0)
      ensures s == old(s) || s == old(s).(acl := installed)
      ensures o.Done? ==> s == old(s).(acl := installed)
      ensures oracle.Calm? ==> o.Done?
    {
      o := Check();
      step := step + (if planned then Took(o) else 0);
      if * {
        s := s.(acl := installed);
      } else if o.Done? {
        s := s.(acl := installed);
      }
    }

    /* -------------------------------------------------------------- destructive steps */

    /** `compose down` of the targets: any of them may be left. */
    method ComposeDown(ghost pins: Pins) returns (o: Outcome)
      requires Sound() && StableTraffic(s) && Owned(s, pins, hidden)
      modifies this`s, this`log
      ensures Sound() && log == old(log) + [Down(old(s), pins, hidden, o.Done?)]
      ensures s == old(s).(targets := s.targets) && Fewer(old(s), s)
      ensures oracle.Calm? ==> o.Done? && s.targets.Keys == old(s).targets.Keys * oracle.lingering
    {
      o := Check();
      log := log + [Down(s, pins, hidden, o.Done?)];
      var left: set<Target> := *;
      if oracle.Calm? {
        left := oracle.lingering;
      }
      s := s.(targets := map t | t in s.targets && t in left :: s.targets[t]);
    }

    method ComposeNonceDown(ghost pins: Pins) returns (o: Outcome)
      requires Sound() && StableTraffic(s) && Owned(s, pins, hidden)
      modifies this`s, this`log
      ensures Sound() && log == old(log) + [NonceDown(old(s), pins, hidden, o.Done?)]
      ensures s == old(s) || s == old(s).(nonce := None)
      ensures oracle.Calm? ==> o.Done? && s.nonce.None?
    {
      o := Check();
      log := log + [NonceDown(s, pins, hidden, o.Done?)];
      if * {
        s := s.(nonce := None);
      } else if oracle.Calm? {
        s := s.(nonce := None);
      }
    }

    /** reset_sanitized_target: the target directories are emptied, perhaps in part. */
    method EmptyTargetDirectories() returns (o: Outcome)
      requires Sound() && StableTraffic(s) && AllHidden(s, hidden)
      modifies this`s, this`log
      ensures Sound() && log == old(log) + [Reset(old(s), hidden)]
      ensures s == old(s) || s == old(s).(data := false)
      ensures o.Done? ==> !s.data
      ensures oracle.Calm? ==> o.Done?
    {
      log := log + [Reset(s, hidden)];
      o := Check();
      if * {
        s := s.(data := false);
      } else if o.Done? {
        s := s.(data := false);
      }
    }

    /* -------------------------------------------------------------- the record */

    /** write_cutover_state: the document is validated, then replaces the record as a whole or not at all. */
    method WriteRecord(d: Document, ghost planned: bool) returns (o: Outcome)
      requires Sound() && (planned ==> Next(Persist(d.phase)))
      requires FlagsCover(s, hidden, d.targetStarted, d.nonceTargetStarted)
      modifies this`s, this`step
      ensures Sound() && step == old(step) + (if planned then Took(o) else 0)
      ensures s == old(s) || s == old(s).(record := Valid(d))
      ensures o.Done? ==> s == old(s).(record := Valid(d))
      ensures o.Done? ==> Unaliased(d.targets, d.legacy)
      ensures oracle.Calm? && Unaliased(d.targets, d.legacy) ==> o.Done?
    {
      if !Unaliased(d.targets, d.legacy) {
        return Raised;
      }
      o := Check();
      step := step + (if planned then Took(o) else 0);
      if * {
        s := s.(record := Valid(d));
      } else if o.Done? {
        s := s.(record := Valid(d));
      }
    }

    /** clear_cutover_state, at the end of a completed cutover (`final`) or when nothing is left to recover. */
    method Clear(final: bool) returns (o: Outcome)
      requires Sound() && (if final then Next(ClearRecord) else s.record.Valid? ==> finalClear || !Dangling(s, hidden))
      modifies this`s, this`finalClear, this`step
      ensures Sound() && step == old(step) + (if final then Took(o) else 0)
      ensures s == old(s).(record := s.record)
      ensures finalClear == (final || (old(finalClear) && Dangling(old(s), hidden)))
      ensures s.record == old(s).record || s.record == Absent
      ensures o.Done? ==> s.record == Absent
      ensures oracle.Calm? ==> o.Done?
    {
      finalClear := final || (finalClear && Dangling(s, hidden));
      o := Check();
      step := step + (if final then Took(o) else 0);
      if * {
        s := s.(record := Absent);
      } else if o.Done? {
        s := s.(record := Absent);
      }
    }

    /** A new apply run starts; a final clear counts no longer once the host has been taken back. */
    ghost method Begin()
      requires Sound()
      modifies this`finalClear, this`step
      ensures Sound() && finalClear == (old(finalClear) && Dangling(s, hidden)) && step == 0
    {
      step := 0;
      finalClear := finalClear && Dangling(s, hidden);
    }
  }
}
