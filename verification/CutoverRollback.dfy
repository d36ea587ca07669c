/** What rollback() does with the outcomes of its steps: a decision table, and what follows for the error
    list, the destructive steps and the host of a run that keeps to it. */
module CutoverRollback {
  import opened CutoverWorld

  datatype Label =
    | PostgresStart | RedisStart | AppStart | AppHealth | SyncHealth
    | StableRestore | StableNotRestored | RecoveryIdentity
    | TrafficIsolation | NonceIsolation | SanitizedReset

  /** Whether each step succeeded, if it was reached. */
  datatype Findings = Findings(
    postgres: bool, redis: bool, app: bool, appHealth: bool, sync: bool, stable: bool, identity: bool,
    traffic: bool, nonce: bool, reset: bool)

  function Failure(ok: bool, error: Label): seq<Label> {
    if ok then [] else [error]
  }

  predicate LegacyReady(f: Findings) { f.postgres && f.redis && f.app && f.appHealth }

  predicate StableRestored(f: Findings) { LegacyReady(f) && f.stable }

  predicate IdentityVerified(f: Findings) { StableRestored(f) && f.identity }

  predicate Isolated(f: Findings, targetStarted: bool, nonceStarted: bool) {
    && (targetStarted ==> IdentityVerified(f) && f.traffic)
    && (nonceStarted ==> IdentityVerified(f) && f.nonce)
  }

  predicate ResetRuns(f: Findings, targetStarted: bool, nonceStarted: bool) {
    IdentityVerified(f) && Isolated(f, targetStarted, nonceStarted)
  }

  const NOTHING := Findings(false, false, false, false, false, false, false, false, false, false)

  function ContainerErrors(f: Findings): seq<Label> {
    Failure(f.postgres, PostgresStart) + Failure(f.redis, RedisStart) + Failure(f.app, AppStart)
  }

  function LegacyErrors(f: Findings): seq<Label> {
    ContainerErrors(f) + Failure(f.appHealth, AppHealth) + Failure(f.sync, SyncHealth)
  }

  function IsolationErrors(f: Findings, targetStarted: bool, nonceStarted: bool): seq<Label> {
    (if targetStarted then Failure(f.traffic, TrafficIsolation) else [])
    + (if nonceStarted then Failure(f.nonce, NonceIsolation) else [])
  }

  /** The errors once the stable upstream is back. The branches of the source for an unrestored
      upstream with a verified identity cannot be reached and add nothing. */
  function CleanupErrors(f: Findings, targetStarted: bool, nonceStarted: bool): seq<Label> {
    Failure(f.identity, RecoveryIdentity)
    + (if f.identity then IsolationErrors(f, targetStarted, nonceStarted) else [])
    + (if ResetRuns(f, targetStarted, nonceStarted) then Failure(f.reset, SanitizedReset) else [])
  }

  /** The error list of rollback(). */
  function Errors(f: Findings, targetStarted: bool, nonceStarted: bool): seq<Label> {
    LegacyErrors(f)
    + (if LegacyReady(f) then Failure(f.stable, StableRestore) else [StableNotRestored])
    + (if StableRestored(f) then CleanupErrors(f, targetStarted, nonceStarted) else [])
  }

  /* ---------------------------------------------------------------- steps and checks */

  datatype Step = DownStep | NonceDownStep | ResetStep

  function StepOf(e: Entry): Step {
    match e
    case Down(_, _, _, _) => DownStep
    case NonceDown(_, _, _, _) => NonceDownStep
    case Reset(_, _) => ResetStep
  }

  function StepsOf(log: seq<Entry>): seq<Step> {
    seq(|log|, i requires 0 <= i < |log| => StepOf(log[i]))
  }

  lemma StepsConcat(a: seq<Entry>, b: seq<Entry>)
    ensures StepsOf(a + b) == StepsOf(a) + StepsOf(b)
  {
  }

  function IsolationSteps(targetStarted: bool, nonceStarted: bool): seq<Step> {
    (if targetStarted then [DownStep] else []) + (if nonceStarted then [NonceDownStep] else [])
  }

  /** The destructive steps that the table allows. */
  function Steps(f: Findings, targetStarted: bool, nonceStarted: bool): seq<Step> {
    if !IdentityVerified(f) then []
    else IsolationSteps(targetStarted, nonceStarted) + (if ResetRuns(f, targetStarted, nonceStarted) then [ResetStep] else [])
  }

  function Sighted(ok: bool, sighting: Sighting): seq<Sighting> {
    if ok then [sighting] else []
  }

  function DataSightings(f: Findings): seq<Sighting> {
    Sighted(f.postgres, SawHealthy(LegacyPostgres)) + Sighted(f.redis, SawHealthy(LegacyRedis))
  }

  function LegacySightings(f: Findings): seq<Sighting> {
    DataSightings(f) + Sighted(f.appHealth, AppAnswers) + Sighted(f.sync, SyncAnswers)
  }

  /** The two health checks behind the containers. */
  lemma HealthChecked(c: Findings, appHealth: bool, sync: bool, before: seq<Sighting>)
    ensures var f := c.(appHealth := appHealth, sync := sync);
            && LegacyErrors(f) == ContainerErrors(c) + Failure(appHealth, AppHealth) + Failure(sync, SyncHealth)
            && before + LegacySightings(f)
               == before + DataSightings(c) + Sighted(appHealth, AppAnswers) + Sighted(sync, SyncAnswers)
  {
    hide Failure, Sighted;
  }

  /* ---------------------------------------------------------------- runs */

  /** A completed run: its error list, the destructive steps it made, the checks it passed, and the host
      it left. */
  datatype Run = Run(targetStarted: bool, nonceStarted: bool, errors: seq<Label>, log: seq<Entry>,
                     sightings: seq<Sighting>, s: State, hidden: set<nat>)

  /** What the steps that succeeded have brought about. */
  ghost predicate Achieved(f: Findings, s: State, hidden: set<nat>, targetStarted: bool, nonceStarted: bool) {
    && (f.postgres ==> Running(s, LegacyPostgres)) && (f.redis ==> Running(s, LegacyRedis))
    && (f.app ==> Running(s, LegacyApp)) && (f.sync ==> s.syncActive)
    && (f.stable ==> s.file == Stable && s.live == Stable)
    && CleanedUp(f, s, hidden, targetStarted, nonceStarted)
  }

  ghost predicate CleanedUp(f: Findings, s: State, hidden: set<nat>, targetStarted: bool, nonceStarted: bool) {
    && (f.traffic ==> TargetsHidden(s, hidden))
    && (f.nonce ==> NonceHidden(s, hidden) && (nonceStarted ==> !s.acl))
    && (ResetRuns(f, targetStarted, nonceStarted) ==> AllHidden(s, hidden))
    && (f.reset ==> !s.data)
  }

  /** The last step was a reset, on the host that the run left but for the directories. */
  predicate EndsInReset(log: seq<Entry>, s: State) {
    && log != [] && log[|log| - 1].Reset?
    && log[|log| - 1].before == s.(data := log[|log| - 1].before.data)
  }

  /** What isolation has found: a kind of container that was not started needs none. */
  ghost predicate IsolationFound(f: Findings, s: State, hidden: set<nat>, targetStarted: bool, nonceStarted: bool) {
    && (f.traffic ==> TargetsHidden(s, hidden)) && (!targetStarted ==> f.traffic)
    && (f.nonce ==> NonceHidden(s, hidden) && (nonceStarted ==> !s.acl)) && (!nonceStarted ==> f.nonce)
  }

  /** A target that counts as taken down was taken down by a command that succeeded. */
  predicate Acknowledged(f: Findings, log: seq<Entry>) {
    forall i :: 0 <= i < |log| ==> (log[i].Down? && f.traffic ==> log[i].ok) && (log[i].NonceDown? && f.nonce ==> log[i].ok)
  }

  /** The part of a run that begins behind restored stable traffic. */
  ghost predicate CleanupRun(f: Findings, run: Run) {
    && StableRestored(f)
    && run.errors == CleanupErrors(f, run.targetStarted, run.nonceStarted)
    && StepsOf(run.log) == Steps(f, run.targetStarted, run.nonceStarted)
    && CleanedUp(f, run.s, run.hidden, run.targetStarted, run.nonceStarted)
    && (ResetRuns(f, run.targetStarted, run.nonceStarted) ==> EndsInReset(run.log, run.s))
    && Acknowledged(f, run.log)
  }

  lemma UnverifiedRun(f: Findings, run: Run)
    requires StableRestored(f) && !f.identity && !f.traffic && !f.nonce && !f.reset
    requires run.errors == [RecoveryIdentity] && run.log == []
    ensures CleanupRun(f, run)
  {
  }

  lemma IsolationRun(f: Findings, run: Run)
    requires IdentityVerified(f) && !(f.traffic && f.nonce) && !f.reset
    requires IsolationFound(f, run.s, run.hidden, run.targetStarted, run.nonceStarted)
    requires run.errors == IsolationErrors(f, run.targetStarted, run.nonceStarted)
    requires StepsOf(run.log) == IsolationSteps(run.targetStarted, run.nonceStarted) && Acknowledged(f, run.log)
    ensures CleanupRun(f, run)
  {
    hide TargetsHidden, NonceHidden;
  }

  lemma ResetRun(f: Findings, run: Run, isolated: seq<Entry>, e: Entry)
    requires IdentityVerified(f) && f.traffic && f.nonce
    requires IsolationFound(f, run.s, run.hidden, run.targetStarted, run.nonceStarted)
    requires run.errors == IsolationErrors(f, run.targetStarted, run.nonceStarted) + Failure(f.reset, SanitizedReset)
    requires StepsOf(isolated) == IsolationSteps(run.targetStarted, run.nonceStarted) && Acknowledged(f, isolated)
    requires run.log == isolated + [e] && e.Reset? && e.before == run.s.(data := e.before.data)
    requires f.reset ==> !run.s.data
    ensures CleanupRun(f, run)
  {
    hide TargetsHidden, NonceHidden;
    StepsConcat(isolated, [e]);
  }

  /** The whole run, from its parts. */
  lemma RunWithCleanup(start: Findings, f: Findings, run: Run, cleanup: Run)
    requires LegacyReady(start)
    requires f == start.(stable := true, identity := f.identity, traffic := f.traffic, nonce := f.nonce, reset := f.reset)
    requires CleanupRun(f, cleanup)
    requires run == cleanup.(errors := LegacyErrors(start) + cleanup.errors, sightings := LegacySightings(start) + [AppAnswers])
    requires StableTraffic(run.s) && (f.sync ==> run.s.syncActive)
    ensures Follows(run, f)
    ensures ResetRuns(f, run.targetStarted, run.nonceStarted) ==> EndsInReset(run.log, run.s)
    ensures start.sync && cleanup.errors == [] ==> run.errors == []
  {
    hide CleanedUp, EndsInReset, CleanupErrors, Steps;
    SameLegacyErrors(start, f);
    ErrorsWithCleanup(f, run.targetStarted, run.nonceStarted);
  }

  lemma RunWithoutStable(f: Findings, run: Run)
    requires f == NOTHING.(postgres := f.postgres, redis := f.redis, app := f.app, appHealth := f.appHealth, sync := f.sync)
    requires run.errors == LegacyErrors(f) + [if LegacyReady(f) then StableRestore else StableNotRestored]
    requires run.log == [] && run.sightings == LegacySightings(f)
    requires (f.postgres ==> Running(run.s, LegacyPostgres)) && (f.redis ==> Running(run.s, LegacyRedis))
    requires (f.app ==> Running(run.s, LegacyApp)) && (f.sync ==> run.s.syncActive)
    ensures Follows(run, f)
  {
    hide Running, LegacyErrors;
    ErrorsWithoutStable(f, run.targetStarted, run.nonceStarted);
  }

  /** The run made exactly the steps that the table allows, and they did what they are for. */
  ghost predicate Follows(run: Run, f: Findings) {
    && run.errors == Errors(f, run.targetStarted, run.nonceStarted)
    && StepsOf(run.log) == Steps(f, run.targetStarted, run.nonceStarted)
    && run.sightings == LegacySightings(f) + Sighted(f.stable, AppAnswers)
    && (f.stable ==> LegacyReady(f))
    && Achieved(f, run.s, run.hidden, run.targetStarted, run.nonceStarted)
    && (ResetRuns(f, run.targetStarted, run.nonceStarted) ==> EndsInReset(run.log, run.s))
    && Acknowledged(f, run.log)
  }

  predicate Resets(log: seq<Entry>) { exists i :: 0 <= i < |log| && log[i].Reset? }

  lemma ResetsIff(run: Run, f: Findings)
    requires Follows(run, f)
    ensures Resets(run.log) <==> ResetRuns(f, run.targetStarted, run.nonceStarted)
  {
    hide Achieved, Errors, LegacySightings;
    var log := run.log;
    if Resets(log) {
      var i :| 0 <= i < |log| && log[i].Reset?;
      assert StepsOf(log)[i] == ResetStep;
    }
  }

  lemma StableRun(run: Run, f: Findings)
    requires Follows(run, f) && StableRestored(f)
    ensures StableTraffic(run.s)
  {
    hide Errors, LegacySightings, Steps, CleanedUp;
  }

  /* ---------------------------------------------------------------- the table */

  lemma SameLegacyErrors(f: Findings, g: Findings)
    requires f.postgres == g.postgres && f.redis == g.redis && f.app == g.app && f.appHealth == g.appHealth && f.sync == g.sync
    ensures LegacyErrors(f) == LegacyErrors(g)
  {
  }

  lemma LegacyErrorsShow(f: Findings)
    ensures var es := LegacyErrors(f);
            LegacyReady(f) <==> PostgresStart !in es && RedisStart !in es && AppStart !in es && AppHealth !in es
  {
  }

  lemma ErrorsWithoutStable(f: Findings, targetStarted: bool, nonceStarted: bool)
    requires !StableRestored(f)
    ensures Errors(f, targetStarted, nonceStarted)
         == LegacyErrors(f) + [if LegacyReady(f) then StableRestore else StableNotRestored]
  {
  }

  lemma ErrorsWithCleanup(f: Findings, targetStarted: bool, nonceStarted: bool)
    requires StableRestored(f)
    ensures Errors(f, targetStarted, nonceStarted)
         == LegacyErrors(f) + [] + CleanupErrors(f, targetStarted, nonceStarted)
  {
  }

  lemma TableWithoutErrors(f: Findings, targetStarted: bool, nonceStarted: bool)
    ensures Errors(f, targetStarted, nonceStarted) == []
       <==> LegacyReady(f) && f.sync && f.stable && f.identity && f.reset
            && (targetStarted ==> f.traffic) && (nonceStarted ==> f.nonce)
  {
  }

  lemma TableOfReset(f: Findings, targetStarted: bool, nonceStarted: bool)
    ensures ResetRuns(f, targetStarted, nonceStarted)
       <==> forall e :: e in Errors(f, targetStarted, nonceStarted) ==> e == SyncHealth || e == SanitizedReset
  {
    var es := Errors(f, targetStarted, nonceStarted);
    if !ResetRuns(f, targetStarted, nonceStarted) {
      assert || PostgresStart in es || RedisStart in es || AppStart in es || AppHealth in es || StableRestore in es
             || RecoveryIdentity in es || TrafficIsolation in es || NonceIsolation in es;
    }
  }

  lemma TableOfSync(f: Findings, targetStarted: bool, nonceStarted: bool)
    ensures SyncHealth in Errors(f, targetStarted, nonceStarted) <==> !f.sync
    ensures SanitizedReset in Errors(f, targetStarted, nonceStarted) <==> ResetRuns(f, targetStarted, nonceStarted) && !f.reset
  {
  }

  /* ---------------------------------------------------------------- what rollback() promises */

  /** An empty error list means that the host is taken back, by every step and with every check passed;
      and nothing else makes the list empty. */
  lemma NoErrorsIff(run: Run, f: Findings)
    requires Follows(run, f)
    ensures run.errors == [] <==>
              && run.sightings == [SawHealthy(LegacyPostgres), SawHealthy(LegacyRedis), AppAnswers, SyncAnswers, AppAnswers]
              && Resets(run.log) && f.reset
    ensures run.errors == [] ==> StepsOf(run.log) == IsolationSteps(run.targetStarted, run.nonceStarted) + [ResetStep]
    ensures run.errors == [] ==> Restored(run.s, run.hidden) && (run.nonceStarted ==> !run.s.acl)
    ensures run.errors == [] ==> forall i :: 0 <= i < |run.log| && !run.log[i].Reset? ==> run.log[i].ok
  {
    hide Errors;
    if run.errors == [] {
      AllAcknowledged(run, f);
    }
    TableWithoutErrors(f, run.targetStarted, run.nonceStarted);
    ResetsIff(run, f);
  }

  /** A kind of target that was not started is not taken down. */
  lemma AllAcknowledged(run: Run, f: Findings)
    requires Follows(run, f) && run.errors == []
    ensures forall i :: 0 <= i < |run.log| && !run.log[i].Reset? ==> run.log[i].ok
  {
    hide Errors, Achieved, EndsInReset;
    TableWithoutErrors(f, run.targetStarted, run.nonceStarted);
    var steps := Steps(f, run.targetStarted, run.nonceStarted);
    forall i | 0 <= i < |run.log| && !run.log[i].Reset?
      ensures run.log[i].ok
    {
      assert StepsOf(run.log)[i] == StepOf(run.log[i]) && steps[i] == StepsOf(run.log)[i];
    }
  }

  /** The directories are emptied exactly if nothing but the sync unit and the emptying itself failed, and
      then behind stable traffic and with no container left that was not reported missing. */
  lemma ResetRunsIff(run: Run, f: Findings)
    requires Follows(run, f)
    ensures Resets(run.log) <==> forall e :: e in run.errors ==> e == SyncHealth || e == SanitizedReset
    ensures Resets(run.log) ==> StableTraffic(run.s) && AllHidden(run.s, run.hidden)
  {
    ResetsIff(run, f);
    TableOfReset(f, run.targetStarted, run.nonceStarted);
    if Resets(run.log) {
      StableRun(run, f);
    }
  }

  /** A sync unit that does not come back blocks neither the stable switch nor the isolation nor the
      emptying; it only keeps the error list from being empty. */
  lemma SyncDoesNotBlock(run: Run, f: Findings)
    requires Follows(run, f)
    ensures (forall e :: e in run.errors ==> e == SyncHealth) <==> Resets(run.log) && f.reset
    ensures (forall e :: e in run.errors ==> e == SyncHealth) ==>
              StableTraffic(run.s) && !run.s.data && AllHidden(run.s, run.hidden) && (run.nonceStarted ==> !run.s.acl)
    ensures SyncHealth !in run.errors ==> run.s.syncActive && SyncAnswers in run.sightings
  {
    ResetRunsIff(run, f);
    ResetsIff(run, f);
    TableOfSync(f, run.targetStarted, run.nonceStarted);
    hide Errors, Steps;
  }
}
