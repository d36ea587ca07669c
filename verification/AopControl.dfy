/** upload_aop and associate_aop of deploy/configure-cloudflare-aop.py. */
module AopControl {
  import opened Text
  import opened AopWorld

  /** What no later step takes back: the certificate and the identity on record, and what was shown. */
  ghost predicate Grown(a: Host, b: Host) {
    && (a.posted ==> b.posted && b.owner == a.owner) && a.shown <= b.shown
    && (a.recorded.Some? ==> b.recorded == a.recorded)
  }

  /** What an attempt leaves of a run that raises in any case. */
  function Ended(result: Outcome): (o: Outcome)
    ensures !o.Done? && (o.Crashed? <==> result.Crashed?)
  {
    if result.Crashed? then Crashed else Raised
  }

  /** The commands issued since `before`. */
  function Since(before: seq<Event>, log: seq<Event>): seq<Event> {
    if before <= log then log[|before|..] else []
  }

  lemma SinceThen(before: seq<Event>, run: seq<Event>)
    ensures Since(before, before + run) == run
  {
  }

  /* ---------------------------------------------------------------- the order of an upload */

  /** What has to follow a command of an upload that is not the last one. */
  ghost predicate UploadStep(site: Site, policy: nat, e: Event, next: Event) {
    match e
    case Got(s, answer) =>
      s == site && answer == Found(None) && next.Wrote? && next.control.phase == UploadInFlight
      && next.control.certificate.None? && next.control.identity.site == site && next.control.identity.policy == policy
    case Wrote(c, result) =>
      if c.phase == UploadInFlight then (result.Done? && next.Posted? && next.file == Some(c)) || (result.Raised? && next.Removed?)
      else c.phase == Uploaded && !result.Crashed? && next.Wrote? && next.control == c.(phase := UploadUnknown)
    case Posted(file, _, _, _, reply) =>
      && file.Some?
      && (|| (reply.Unknown? && next.Wrote? && next.control == file.value.(phase := UploadUnknown))
          || (reply.Refused? && next.Removed?)
          || (reply.Created? && next.Wrote? && next.control == file.value.(phase := Uploaded, certificate := Some(reply.id))))
    case Removed(_) => false
    case Put(_, _, _, _, _, _) => false
  }

  /** How an upload ends with this last command. */
  ghost predicate UploadEnd(site: Site, e: Event, o: Outcome) {
    match e
    case Got(s, answer) =>
      s == site && !o.Done? && (answer.GetCrash? ==> o.Crashed?) && (answer.GetRaised? || (answer.Found? && answer.association.Some?) ==> o.Raised?)
    case Wrote(c, result) =>
      if c.phase == UploadInFlight then result.Crashed? && o.Crashed?
      else if c.phase == Uploaded then !result.Raised? && !o.Raised? && (result.Crashed? ==> o.Crashed?)
      else c.phase == UploadUnknown && o == Ended(result)
    case Posted(_, _, _, _, reply) => (reply.PostCrash? && o.Crashed?) || (reply.Interrupted? && o.Raised?)
    case Removed(result) => o == Ended(result)
    case Put(_, _, _, _, _, _) => false
  }

  ghost predicate UploadLink(site: Site, policy: nat, run: seq<Event>, o: Outcome, i: nat)
    requires i < |run|
  {
    if i + 1 < |run| then UploadStep(site, policy, run[i], run[i + 1]) else UploadEnd(site, run[i], o)
  }

  /** The rest of an upload, from some command on. */
  ghost predicate UploadTail(site: Site, policy: nat, run: seq<Event>, o: Outcome) {
    run != [] && forall i :: 0 <= i < |run| ==> UploadLink(site, policy, run, o, i)
  }

  /** A whole upload: it begins with a GET of the requested hostname. */
  ghost predicate UploadRun(site: Site, policy: nat, run: seq<Event>, o: Outcome) {
    (run == [] && !o.Done?) || (UploadTail(site, policy, run, o) && run[0].Got?)
  }

  lemma TailBehind(site: Site, policy: nat, e: Event, run: seq<Event>, o: Outcome)
    requires UploadTail(site, policy, run, o) && UploadStep(site, policy, e, run[0])
    ensures UploadTail(site, policy, [e] + run, o)
  {
    hide UploadStep, UploadEnd;
    var all := [e] + run;
    forall i | 0 <= i < |all|
      ensures UploadLink(site, policy, all, o, i)
    {
      if i > 0 {
        assert UploadLink(site, policy, run, o, i - 1);
      }
    }
  }

  lemma LastOfTail(site: Site, policy: nat, e: Event, o: Outcome)
    requires UploadEnd(site, e, o)
    ensures UploadTail(site, policy, [e], o)
  {
    hide UploadStep, UploadEnd;
  }

  /** _mark_unknown: the marker is written, then the cause or the failure to write it is raised. */
  method MarkUnknown(w: World, c: Control, phase: Phase) returns (o: Outcome)
    requires w.Valid() && phase != Associated
    requires w.h.posted ==> w.h.owner == Some(c.identity)
    requires c.certificate.Some? ==> w.h.posted && (w.h.recorded.None? || w.h.recorded == c.certificate)
    modifies w
    ensures w.Valid() && Grown(old(w.h), w.h) && !o.Done?
    ensures w.h == old(w.h).(file := w.h.file, durable := w.h.durable, recorded := w.h.recorded)
    ensures w.h.file == old(w.h).file || w.h.file == Some(c.(phase := phase))
    ensures |w.log| == |old(w.log)| + 1 && old(w.log) <= w.log
    ensures var e := w.log[|old(w.log)|]; e.Wrote? && e.control == c.(phase := phase) && o == Ended(e.result)
  {
    hide World.Valid;
    o := w.Write(c.(phase := phase));
    o := Ended(o);
  }

  /** The part of upload_aop behind a written upload_in_flight record. */
  method PostAndRecord(w: World, state: Control) returns (o: Outcome)
    requires w.Valid() && state.phase == UploadInFlight && state.certificate.None? && !w.h.posted && w.h.recorded.None?
    requires w.h.file == w.h.durable == Some(state) && w.h.seen == Some((state.identity.site, None))
    modifies w
    ensures w.Valid() && Grown(old(w.h), w.h) && old(w.log) <= w.log
    ensures var run := Since(old(w.log), w.log);
            UploadTail(state.identity.site, state.identity.policy, run, o) && run[0].Posted? && run[0].file == Some(state)
    ensures o.Done? ==> w.h.file.Some? && w.h.file.value.phase == Uploaded && w.h.recorded.Some?
                        && w.h.file.value == state.(phase := Uploaded, certificate := w.h.recorded)
    ensures w.calm ==> o.Done?
  {
    hide World.Valid, UploadTail, Grown;
    ghost var site, policy, before := state.identity.site, state.identity.policy, w.log;
    var reply := w.Post();
    ghost var posted := w.log[|before|];
    ghost var middle := w.log;
    match reply {
    case PostCrash =>
      o := Crashed;
      LastOfTail(site, policy, posted, o);
      SinceThen(before, [posted]);
    case Interrupted =>
      o := Raised;
      LastOfTail(site, policy, posted, o);
      SinceThen(before, [posted]);
    case Unknown =>
      o := MarkUnknown(w, state, UploadUnknown);
      TwoCommands(site, policy, before, posted, w.log, o);
    case Refused =>
      o := w.RemoveArtifacts();
      o := Ended(o);
      TwoCommands(site, policy, before, posted, w.log, o);
    case Created(id) =>
      o := Record(w, state.(phase := Uploaded, certificate := Some(id)));
      Behind(site, policy, before, posted, w.log, o);
    }
    GrownIs(old(w.h), w.h);
  }

  lemma GrownIs(a: Host, b: Host)
    requires !a.posted && a.shown == b.shown && a.recorded.None?
    ensures Grown(a, b)
  {
  }

  lemma TwoCommands(site: Site, policy: nat, before: seq<Event>, e: Event, log: seq<Event>, o: Outcome)
    requires before + [e] <= log && |log| == |before| + 2
    requires UploadStep(site, policy, e, log[|before| + 1]) && UploadEnd(site, log[|before| + 1], o)
    ensures before <= log && UploadTail(site, policy, Since(before, log), o) && Since(before, log)[0] == e
  {
    hide UploadStep, UploadEnd, UploadTail;
    var last := log[|before| + 1];
    LastOfTail(site, policy, last, o);
    TailBehind(site, policy, e, [last], o);
    assert log == before + ([e] + [last]);
    SinceThen(before, [e] + [last]);
  }

  lemma Behind(site: Site, policy: nat, before: seq<Event>, e: Event, log: seq<Event>, o: Outcome)
    requires before + [e] <= log && UploadTail(site, policy, Since(before + [e], log), o)
    requires UploadStep(site, policy, e, Since(before + [e], log)[0])
    ensures before <= log && UploadTail(site, policy, Since(before, log), o) && Since(before, log)[0] == e
  {
    hide UploadStep, UploadEnd, UploadTail;
    var run := Since(before + [e], log);
    TailBehind(site, policy, e, run, o);
    assert log == before + ([e] + run);
    SinceThen(before, [e] + run);
  }

  /** Behind a created certificate: it is recorded, or marked as unknown. */
  method Record(w: World, uploaded: Control) returns (o: Outcome)
    requires w.Valid() && uploaded.phase == Uploaded && uploaded.certificate.Some?
    requires w.h.posted && w.h.owner == Some(uploaded.identity) && w.h.recorded.None?
    modifies w
    ensures w.Valid() && old(w.log) <= w.log
    ensures w.h == old(w.h).(file := w.h.file, durable := w.h.durable, recorded := w.h.recorded)
    ensures var run := Since(old(w.log), w.log);
            UploadTail(uploaded.identity.site, uploaded.identity.policy, run, o) && run[0].Wrote? && run[0].control == uploaded
    ensures o.Done? ==> w.h.file == Some(uploaded) && w.h.recorded == uploaded.certificate
    ensures w.calm ==> o.Done?
  {
    hide World.Valid, UploadTail, Grown;
    ghost var site, policy, before := uploaded.identity.site, uploaded.identity.policy, w.log;
    o := w.Write(uploaded);
    ghost var wrote := w.log[|before|];
    if o.Crashed? {
      LastOfTail(site, policy, wrote, o);
      SinceThen(before, [wrote]);
      return;
    }
    if o.Raised? {
      o := MarkUnknown(w, uploaded, UploadUnknown);
      TwoCommands(site, policy, before, wrote, w.log, o);
      return;
    }
    o := w.Check();
    if o.Raised? {
      o := MarkUnknown(w, uploaded, UploadUnknown);
      TwoCommands(site, policy, before, wrote, w.log, o);
      return;
    }
    LastOfTail(site, policy, wrote, o);
    SinceThen(before, [wrote]);
  }

  /** upload_aop; the fingerprint of the new CA is `ca`. An existing record refuses without any effect.
      Every command is followed by the one that its answer calls for. */
  method Upload(w: World, site: Site, policy: nat, ca: nat) returns (o: Outcome)
    requires w.Valid()
    modifies w
    ensures w.Valid() && Grown(old(w.h), w.h) && old(w.log) <= w.log
    ensures UploadRun(site, policy, Since(old(w.log), w.log), o)
    ensures old(w.h.file).Some? ==> !o.Done? && w.h == old(w.h) && w.log == old(w.log)
    ensures o.Done? ==> w.h.file == Some(Control(Uploaded, Identity(site, ca, policy), w.h.recorded)) && w.h.recorded.Some?
    ensures w.calm && old(w.h.file).None? && old(AssociationOf(w.h, site)).None? ==> o.Done?
  {
    SinceThen(w.log, []);
    assert w.log + [] == w.log;
    o := w.Check();
    :- o;
    if w.h.file.Some? {
      return Raised;
    }
    ghost var before := w.log;
    hide World.Valid, UploadTail, Grown;
    :- w.Check();
    var existing := w.Get(site);
    ghost var got := w.log[|before|];
    SinceThen(before, [got]);
    if existing.GetCrash? {
      o := Crashed;
      LastOfTail(site, policy, got, o);
      return;
    }
    if existing.GetRaised? || existing.association.Some? {
      o := Raised;
      LastOfTail(site, policy, got, o);
      return;
    }
    o := w.Check();
    if !o.Done? {
      LastOfTail(site, policy, got, o);
      return;
    }
    o := WriteAndPost(w, Control(UploadInFlight, Identity(site, ca, policy), None));
    Behind(site, policy, before, got, w.log, o);
  }

  /** From the upload_in_flight record on. */
  method WriteAndPost(w: World, state: Control) returns (o: Outcome)
    requires w.Valid() && state.phase == UploadInFlight && state.certificate.None? && !w.h.posted && w.h.recorded.None?
    requires w.h.seen == Some((state.identity.site, None))
    modifies w
    ensures w.Valid() && Grown(old(w.h), w.h) && old(w.log) <= w.log
    ensures var run := Since(old(w.log), w.log);
            UploadTail(state.identity.site, state.identity.policy, run, o) && run[0].Wrote? && run[0].control == state
    ensures o.Done? ==> w.h.file == Some(state.(phase := Uploaded, certificate := w.h.recorded)) && w.h.recorded.Some?
    ensures w.calm ==> o.Done?
  {
    hide World.Valid, UploadTail, Grown;
    ghost var site, policy, before := state.identity.site, state.identity.policy, w.log;
    ghost var h := w.h;
    o := w.Write(state);
    ghost var wrote := w.log[|before|];
    GrownIs(h, w.h);
    if o.Crashed? {
      LastOfTail(site, policy, wrote, o);
      SinceThen(before, [wrote]);
      return;
    }
    if o.Raised? {
      o := w.RemoveArtifacts();
      o := Ended(o);
      TwoCommands(site, policy, before, wrote, w.log, o);
      GrownIs(h, w.h);
      return;
    }
    ghost var middle := w.h;
    o := PostAndRecord(w, state);
    Behind(site, policy, before, wrote, w.log, o);
    GrownChain(h, middle, w.h);
  }

  lemma GrownChain(a: Host, b: Host, c: Host)
    requires Grown(a, b) && Grown(b, c)
    ensures Grown(a, c)
  {
  }

  /* ---------------------------------------------------------------- the order of an association */

  /** A GET that decides nothing: it failed, or showed neither another certificate nor an active association. */
  ghost predicate Quiet(r: GetReply, certificate: nat) {
    r.GetRaised? || (r.Found? && (r.association.None?
      || (r.association.value.certificate == Some(certificate) && !(r.association.value.enabled && r.association.value.active))))
  }

  ghost predicate ShowsOther(r: GetReply, certificate: Option<nat>) {
    r.Found? && r.association.Some? && r.association.value.certificate != certificate
  }

  ghost predicate ShowsActive(r: GetReply, certificate: Option<nat>) {
    r == Found(Some(Association(certificate, true, true)))
  }

  ghost predicate AllQuiet(polls: seq<GetReply>, certificate: nat) {
    forall i :: 0 <= i < |polls| ==> Quiet(polls[i], certificate)
  }

  /** Polling ends at the first answer that decides, or with the last attempt. */
  ghost predicate Polled(certificate: nat, attempts: nat, polls: seq<GetReply>, o: Outcome, active: bool) {
    if attempts < 1 || attempts > 20 then polls == [] && o.Raised?
    else
      && 0 < |polls| <= attempts && AllQuiet(polls[..|polls| - 1], certificate)
      && var last := polls[|polls| - 1];
         if last.GetCrash? then o.Crashed?
         else if ShowsOther(last, Some(certificate)) then o.Raised?
         else if ShowsActive(last, Some(certificate)) then o.Done? && active
         else Quiet(last, certificate) && |polls| == attempts && o.Done? && !active
  }

  function Gots(site: Site, polls: seq<GetReply>): seq<Event> {
    seq(|polls|, i requires 0 <= i < |polls| => Got(site, polls[i]))
  }

  lemma GotsMore(site: Site, polls: seq<GetReply>, r: GetReply)
    ensures Gots(site, polls + [r]) == Gots(site, polls) + [Got(site, r)]
  {
  }

  /** poll_active_association: Done with the answer; a failing GET counts as no answer. */
  method Poll(w: World, site: Site, certificate: nat, attempts: nat)
      returns (o: Outcome, active: bool, ghost polls: seq<GetReply>)
    requires w.Valid()
    modifies w
    ensures w.Valid() && Grown(old(w.h), w.h) && w.log == old(w.log) + Gots(site, polls)
    ensures w.h == old(w.h).(associations := w.h.associations, seen := w.h.seen, shown := w.h.shown)
    ensures Polled(certificate, attempts, polls, o, active)
    ensures o.Done? && active ==> Confirmed(w.h, site, certificate)
    ensures w.calm && 1 <= attempts <= 20 && old(AssociationOf(w.h, site)) == Some(Association(Some(certificate), true, true)) ==>
              o.Done? && active
  {
    hide World.Valid;
    active, polls := false, [];
    if attempts < 1 || attempts > 20 {
      return Raised, active, polls;
    }
    for attempt := 0 to attempts
      invariant w.Valid() && Grown(old(w.h), w.h) && w.log == old(w.log) + Gots(site, polls)
      invariant w.h == old(w.h).(associations := w.h.associations, seen := w.h.seen, shown := w.h.shown)
      invariant |polls| == attempt && AllQuiet(polls, certificate)
      invariant w.calm ==> w.h.associations == old(w.h).associations
      invariant w.calm && old(AssociationOf(w.h, site)) == Some(Association(Some(certificate), true, true)) ==> attempt == 0
    {
      var reply := w.Get(site);
      GotsMore(site, polls, reply);
      ghost var quiet := polls;
      polls := polls + [reply];
      assert polls[..|polls| - 1] == quiet;
      if reply.GetCrash? {
        return Crashed, active, polls;
      }
      if reply.Found? {
        if IsForeign(reply.association, Some(certificate)) {
          return Raised, active, polls;
        }
        if IsActive(reply.association, Some(certificate)) {
          return Done, true, polls;
        }
      }
    }
    assert AllQuiet(polls[..|polls| - 1], certificate);
    return Done, false, polls;
  }

  /** `associated` is written, and if that fails the marker. */
  ghost predicate RecordedRun(state: Control, run: seq<Event>, o: Outcome) {
    && run != [] && run[0].Wrote? && run[0].control == state.(phase := Associated)
    && if run[0].result.Raised? then MarkedRun(state, run[1..], o) else |run| == 1 && o == run[0].result
  }

  ghost predicate MarkedRun(state: Control, run: seq<Event>, o: Outcome) {
    |run| == 1 && run[0].Wrote? && run[0].control == state.(phase := AssociateUnknown) && o == Ended(run[0].result)
  }

  /** The PUT between the record and the polling, and what the polling calls for. */
  ghost predicate PutRun(requested: Identity, c: Control, attempts: nat, polls: seq<GetReply>, run: seq<Event>, o: Outcome)
    requires c.certificate.Some?
  {
    && run != [] && run[0].Wrote? && run[0].control == c
    && if !run[0].result.Done? then |run| == 1 && o == run[0].result
       else
         && |run| >= 2 && run[1].Put? && run[1].requested == requested && run[1].certificate == c.certificate.value
         && if run[1].result.Crashed? then |run| == 2 && o.Crashed?
            else
              && |run| >= 2 + |polls| && run[2..2 + |polls|] == Gots(requested.site, polls)
              && ConfirmedRun(c, attempts, polls, run[2 + |polls|..], o)
  }

  ghost predicate ConfirmedRun(c: Control, attempts: nat, polls: seq<GetReply>, tail: seq<Event>, o: Outcome)
    requires c.certificate.Some?
  {
    || (Polled(c.certificate.value, attempts, polls, Crashed, false) && tail == [] && o.Crashed?)
    || (Polled(c.certificate.value, attempts, polls, Done, true) && RecordedRun(c, tail, o))
    || (Polled(c.certificate.value, attempts, polls, Raised, false) && MarkedRun(c, tail, o))
    || (Polled(c.certificate.value, attempts, polls, Done, false) && MarkedRun(c, tail, o))
  }

  /** A whole association for a record of the requested identity. */
  ghost predicate AssociateRun(requested: Identity, state: Control, attempts: nat, polls: seq<GetReply>, run: seq<Event>, o: Outcome) {
    if run == [] then !o.Done?
    else
      && run[0].Got? && run[0].site == requested.site
      && var answer, c := run[0].answer, state.certificate;
         if answer.GetCrash? then |run| == 1 && o.Crashed?
         else if answer.GetRaised? || ShowsOther(answer, c) then |run| == 1 && o.Raised?
         else if ShowsActive(answer, c) && c.Some? then RecordedRun(state, run[1..], o)
         else if c.None? || state.phase == Associated || state.phase == UploadUnknown then |run| == 1 && o.Raised?
         else PutRun(requested, state.(phase := AssociateInFlight), attempts, polls, run[1..], o)
  }

  /** Records an association that a GET has confirmed, or that it could not be recorded. */
  method RecordAssociated(w: World, state: Control) returns (o: Outcome)
    requires w.Valid() && state.certificate.Some? && w.h.posted && w.h.recorded == state.certificate
    requires w.h.owner == Some(state.identity) && Confirmed(w.h, state.identity.site, state.certificate.value)
    modifies w
    ensures w.Valid() && Grown(old(w.h), w.h) && old(w.log) <= w.log && RecordedRun(state, Since(old(w.log), w.log), o)
    ensures o.Done? ==> w.h.file == Some(state.(phase := Associated))
    ensures w.calm ==> o.Done?
  {
    hide World.Valid;
    ghost var before := w.log;
    o := w.Write(state.(phase := Associated));
    if o.Raised? {
      o := MarkUnknown(w, state, AssociateUnknown);
      assert w.log == before + [w.log[|before|], w.log[|before| + 1]];
    }
  }

  lemma FileIsJustified(w: World)
    requires w.Valid() && w.h.file.Some?
    ensures ValidControl(w.h.file.value)
    ensures w.h.file.value.certificate.Some? ==>
              w.h.recorded == w.h.file.value.certificate && w.h.posted && w.h.owner == Some(w.h.file.value.identity)
  {
  }

  /** associate_aop. A record of another hostname, CA or policy, or of an upload in flight, ends the run
      before any request. */
  method Associate(w: World, requested: Identity, attempts: nat) returns (o: Outcome, ghost polls: seq<GetReply>)
    requires w.Valid()
    modifies w
    ensures w.Valid() && Grown(old(w.h), w.h) && old(w.log) <= w.log
    ensures old(Refusing(w.h, requested)) ==> !o.Done? && w.h == old(w.h) && w.log == old(w.log)
    ensures !old(Refusing(w.h, requested)) ==>
              AssociateRun(requested, old(w.h.file.value), attempts, polls, Since(old(w.log), w.log), o)
    ensures o.Done? ==> w.h.file.Some? && w.h.file.value.phase == Associated && w.h.file.value.identity == requested
                        && w.h.file.value.certificate.Some? && Confirmed(w.h, requested.site, w.h.file.value.certificate.value)
    ensures w.calm && 1 <= attempts <= 20 && !old(Refusing(w.h, requested)) && old(Associable(w.h)) ==> o.Done?
  {
    polls := [];
    SinceThen(w.log, []);
    assert w.log + [] == w.log;
    o := w.Check();
    :- o;
    if w.h.file.None? {
      return Raised, polls;
    }
    var state := w.h.file.value;
    FileIsJustified(w);
    hide World.Valid, Grown;
    if state.identity != requested {
      return Raised, polls;
    }
    if state.phase == UploadInFlight {
      return Raised, polls;
    }
    o := w.Check();
    GrownSame(w.h);
    :- o;
    ghost var before, h := w.log, w.h;
    var current := w.Get(requested.site);
    ghost var got := w.log[|before|];
    ghost var middle := w.h;
    SinceThen(before, [got]);
    GrownShown(h, w.h);
    if current.GetCrash? {
      return Crashed, polls;
    }
    if current.GetRaised? || IsForeign(current.association, state.certificate) {
      return Raised, polls;
    }
    if IsActive(current.association, state.certificate) {
      if state.certificate.None? {
        return Raised, polls;
      }
      o := RecordAssociated(w, state);
    } else {
      if state.phase == Associated || state.phase == UploadUnknown || state.certificate.None? {
        return Raised, polls;
      }
      o, polls := PutAndConfirm(w, requested, state, attempts);
    }
    GrownChain(h, middle, w.h);
    OneBefore(before, got, w.log);
    StillConfirmed(w);
  }

  /** What ends an association before any request. */
  predicate Refusing(h: Host, requested: Identity) {
    h.file.None? || h.file.value.identity != requested || h.file.value.phase == UploadInFlight
  }

  /** The hostname has no association or the recorded certificate's, and the record allows to go on. */
  predicate Associable(h: Host) {
    && h.file.Some?
    && var c, a := h.file.value, AssociationOf(h, h.file.value.identity.site);
       && c.certificate.Some? && (a.None? || a.value.certificate == c.certificate)
       && (c.phase == Associated || c.phase == UploadUnknown ==> a == Some(Association(c.certificate, true, true)))
  }

  lemma GrownSame(h: Host)
    ensures Grown(h, h)
  {
  }

  lemma GrownShown(a: Host, b: Host)
    requires b == a.(associations := b.associations, seen := b.seen, shown := b.shown) && a.shown <= b.shown
    ensures Grown(a, b)
  {
  }

  lemma OneBefore(before: seq<Event>, e: Event, log: seq<Event>)
    requires before + [e] <= log
    ensures before <= log && Since(before, log) == [e] + Since(before + [e], log)
  {
  }

  lemma StillConfirmed(w: World)
    requires w.Valid()
    ensures w.h.file.Some? && w.h.file.value.phase == Associated ==>
              w.h.file.value.certificate.Some?
              && Confirmed(w.h, w.h.file.value.identity.site, w.h.file.value.certificate.value)
  {
  }

  /** The PUT, between a durable associate_in_flight record and the polling that decides. */
  method PutAndConfirm(w: World, requested: Identity, state: Control, attempts: nat)
      returns (o: Outcome, ghost polls: seq<GetReply>)
    requires w.Valid() && state.certificate.Some? && w.h.posted && w.h.recorded == state.certificate
    requires w.h.owner == Some(state.identity) && state.identity == requested
    requires w.h.seen.Some? && w.h.seen.value.0 == requested.site
    requires w.h.seen.value.1.None? || w.h.seen.value.1.value.certificate == state.certificate
    modifies w
    ensures w.Valid() && Grown(old(w.h), w.h) && old(w.log) <= w.log
    ensures PutRun(requested, state.(phase := AssociateInFlight), attempts, polls, Since(old(w.log), w.log), o)
    ensures o.Done? ==> w.h.file == Some(state.(phase := Associated))
    ensures w.calm && 1 <= attempts <= 20 ==> o.Done?
  {
    hide World.Valid, Polled, RecordedRun, MarkedRun, Grown;
    var certificate := state.certificate.value;
    var inFlight := state.(phase := AssociateInFlight);
    polls := [];
    ghost var before, h := w.log, w.h;
    o := w.Write(inFlight);
    GrownWritten(h, w.h);
    :- o;
    o := w.PutAssociation(requested, certificate);
    ghost var put := w.log;
    GrownWritten(h, w.h);
    if o.Crashed? {
      return;
    }
    ghost var h2 := w.h;
    o, polls := Confirm(w, requested, inFlight, attempts);
    GrownChain(h, h2, w.h);
    assert put == before + [put[|before|], put[|before| + 1]];
    Joined(before, put, w.log);
  }

  lemma Joined(before: seq<Event>, put: seq<Event>, log: seq<Event>)
    requires before <= put <= log && |put| == |before| + 2
    ensures before <= log && Since(before, log) == put[|before|..] + Since(put, log)
  {
  }

  lemma GrownWritten(a: Host, b: Host)
    requires b == a.(file := b.file, durable := b.durable, recorded := b.recorded, associations := b.associations)
    requires b.recorded == a.recorded
    ensures Grown(a, b)
  {
  }

  /** The polling, and the record or the marker that it calls for. */
  method Confirm(w: World, requested: Identity, inFlight: Control, attempts: nat)
      returns (o: Outcome, ghost polls: seq<GetReply>)
    requires w.Valid() && inFlight.certificate.Some? && w.h.posted && w.h.recorded == inFlight.certificate
    requires w.h.owner == Some(inFlight.identity) && inFlight.identity == requested
    modifies w
    ensures w.Valid() && Grown(old(w.h), w.h) && old(w.log) <= w.log
    ensures var run := Since(old(w.log), w.log);
            && |polls| <= |run| && run[..|polls|] == Gots(requested.site, polls)
            && ConfirmedRun(inFlight, attempts, polls, run[|polls|..], o)
    ensures o.Done? ==> w.h.file == Some(inFlight.(phase := Associated))
    ensures (w.calm && 1 <= attempts <= 20
             && old(AssociationOf(w.h, requested.site)) == Some(Association(inFlight.certificate, true, true)))
              ==> o.Done?
  {
    hide World.Valid, RecordedRun, MarkedRun, Grown;
    ghost var before, h := w.log, w.h;
    var active: bool;
    o, active, polls := Poll(w, requested.site, inFlight.certificate.value, attempts);
    ghost var polled, h2 := w.log, w.h;
    SinceThen(before, Gots(requested.site, polls));
    if o.Crashed? {
      PolledIs(inFlight.certificate.value, attempts, polls, o, active);
      return;
    }
    PolledIs(inFlight.certificate.value, attempts, polls, o, active);
    hide Polled;
    if o.Raised? || !active {
      o := MarkUnknown(w, inFlight, AssociateUnknown);
      OneMarked(inFlight, polled, w.log, o);
    } else {
      o := RecordAssociated(w, inFlight);
    }
    GrownChain(h, h2, w.h);
    assert w.log == before + (Gots(requested.site, polls) + Since(polled, w.log));
    SinceThen(before, Gots(requested.site, polls) + Since(polled, w.log));
  }

  lemma PolledIs(certificate: nat, attempts: nat, polls: seq<GetReply>, o: Outcome, active: bool)
    requires Polled(certificate, attempts, polls, o, active)
    ensures Polled(certificate, attempts, polls, o, o.Done? && active)
  {
  }

  lemma OneMarked(c: Control, before: seq<Event>, log: seq<Event>, o: Outcome)
    requires before <= log && |log| == |before| + 1
    requires var e := log[|before|]; e.Wrote? && e.control == c.(phase := AssociateUnknown) && o == Ended(e.result)
    ensures MarkedRun(c, Since(before, log), o)
  {
  }

  /* ---------------------------------------------------------------- what a run leaves behind */

  /** However a POST went, an upload that was not cut off has said so: a certificate that may exist is on
      record or was marked as unknown, and only behind a refusal the record was taken away. */
  lemma UploadSettles(site: Site, policy: nat, run: seq<Event>, o: Outcome, i: nat)
    requires UploadRun(site, policy, run, o) && i < |run| && run[i].Posted? && run[i].file.Some?
    ensures run[i].reply.PostCrash? ==> o.Crashed?
    ensures run[i].reply.Refused? ==> !o.Done? && i + 2 == |run| && run[i + 1].Removed?
    ensures run[i].reply.Unknown? ==>
              !o.Done? && i + 2 == |run| && run[i + 1].Wrote? && run[i + 1].control == run[i].file.value.(phase := UploadUnknown)
    ensures run[i].reply.Created? ==>
              var c := run[i].file.value.(phase := Uploaded, certificate := Some(run[i].reply.id));
              && i + 1 < |run| && run[i + 1].Wrote? && run[i + 1].control == c
              && (o.Raised? ==> i + 3 == |run| && run[i + 2].Wrote? && run[i + 2].control == c.(phase := UploadUnknown))
  {
    assert UploadLink(site, policy, run, o, i);
    if i + 1 < |run| {
      assert UploadLink(site, policy, run, o, i + 1);
      if i + 2 < |run| {
        assert UploadLink(site, policy, run, o, i + 2);
      }
    }
  }

  /** Whatever became of a PUT, an association that was not cut off ends with the record of a confirmed
      association or with an attempt to mark it as unknown. */
  lemma AssociateSettles(requested: Identity, state: Control, attempts: nat, polls: seq<GetReply>, run: seq<Event>, o: Outcome, i: nat)
    requires AssociateRun(requested, state, attempts, polls, run, o) && i < |run| && run[i].Put?
    ensures i == 2 && run[i].requested == requested && Some(run[i].certificate) == state.certificate
    ensures var last := run[|run| - 1];
            && (o.Raised? ==> last.Wrote? && last.control == state.(phase := AssociateUnknown))
            && (o.Done? ==> last == Wrote(state.(phase := Associated), Done)
                            && run[|run| - 2] == Got(requested.site, Found(Some(Association(state.certificate, true, true)))))
  {
    var rest, c := run[1..], state.(phase := AssociateInFlight);
    if i > 0 {
      assert run[i] == rest[i - 1];
      PutOnce(requested, c, attempts, polls, rest, o);
    }
  }

  lemma PutOnce(requested: Identity, c: Control, attempts: nat, polls: seq<GetReply>, run: seq<Event>, o: Outcome)
    requires c.certificate.Some? && PutRun(requested, c, attempts, polls, run, o)
    ensures forall k :: 0 <= k < |run| && run[k].Put? ==> k == 1
    ensures |run| > 1 ==>
              var last := run[|run| - 1];
              && (o.Raised? ==> last.Wrote? && last.control == c.(phase := AssociateUnknown))
              && (o.Done? ==> last == Wrote(c.(phase := Associated), Done)
                              && run[|run| - 2] == Got(requested.site, Found(Some(Association(c.certificate, true, true)))))
  {
    if |run| > 1 && !run[1].result.Crashed? {
      var gots, tail := run[2..2 + |polls|], run[2 + |polls|..];
      assert run == run[..2] + gots + tail;
      assert forall k :: 0 <= k < |tail| ==> tail[k].Wrote?;
      if tail != [] {
        assert run[|run| - 1] == tail[|tail| - 1];
      }
      if o.Done? {
        assert |tail| == 1 && |run| == 2 + |polls| + 1;
        var last := polls[|polls| - 1];
        assert run[|run| - 2] == gots[|polls| - 1] == Got(requested.site, last);
        assert ShowsActive(last, c.certificate);
      }
    }
  }

  /** Any sequence of runs, each of which may crash between any two effects: every POST and PUT was
      issued under its durable record and for the identity on it, at most one certificate was ever
      created, the recorded certificate and identity never change behind a POST, and "associated" was
      confirmed by a GET of the recorded hostname. */
  method AnyRuns(w: World, n: nat)
    requires w.Valid()
    modifies w
    ensures forall e :: e in w.log ==> WriteAhead(e)
    ensures w.h.certificates <= 1 && (w.h.posted ==> w.h.file.Some? && w.h.owner == Some(w.h.file.value.identity))
    ensures old(w.h.posted) ==> w.h.owner == old(w.h.owner)
    ensures old(w.h.recorded).Some? ==> w.h.recorded == old(w.h.recorded)
    ensures w.h.file.Some? && w.h.file.value.certificate.Some? ==> w.h.file.value.certificate == w.h.recorded
    ensures w.h.file.Some? && w.h.file.value.certificate.None? ==> w.h.file.value.phase in {UploadInFlight, UploadUnknown}
    ensures w.h.file.Some? && w.h.file.value.phase == Associated ==>
              w.h.file.value.certificate.Some?
              && (w.h.file.value.identity.site, Association(w.h.file.value.certificate, true, true)) in w.h.shown
  {
    for i := 0 to n
      invariant w.Valid() && Grown(old(w.h), w.h)
    {
      hide World.Valid;
      var requested: Identity, attempts: nat := *, *;
      w.NextRun();
      var o: Outcome;
      if * {
        o := Upload(w, requested.site, requested.policy, requested.ca);
      } else {
        ghost var polls: seq<GetReply>;
        o, polls := Associate(w, requested, attempts);
      }
    }
  }

  /** A host without a record and without an earlier POST is a valid start. */
  method RunsOnFreshHost(calm: bool, h: Host, n: nat) returns (w: World)
    requires h.file.None? && h.durable.None? && !h.posted && h.recorded.None? && h.certificates == 0
    ensures fresh(w) && w.h.certificates <= 1 && forall e :: e in w.log ==> WriteAhead(e)
  {
    w := new World(calm, h);
    AnyRuns(w, n);
  }
}
