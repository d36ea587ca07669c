/** What deploy/configure-cloudflare-aop.py acts on: its control file, which survives crashes, and the
    remote service, whose replies may be lost after a write took effect. */
module AopWorld {
  import opened Text

  datatype Phase = UploadInFlight | UploadUnknown | Uploaded | AssociateInFlight | AssociateUnknown | Associated

  /** A hostname of a zone. */
  datatype Site = Site(zone: nat, hostname: nat)

  /** What a record is about: the hostname, and the fingerprints of the CA and of the policy. */
  datatype Identity = Identity(site: Site, ca: nat, policy: nat)

  datatype Control = Control(phase: Phase, identity: Identity, certificate: Option<nat>)

  /** validate_control_state */
  predicate ValidControl(c: Control) {
    c.phase == UploadInFlight || c.phase == UploadUnknown || c.certificate.Some?
  }

  datatype Association = Association(certificate: Option<nat>, enabled: bool, active: bool)

  /** association_is_active */
  predicate IsActive(a: Option<Association>, certificate: Option<nat>) {
    a.Some? && a.value.certificate == certificate && a.value.enabled && a.value.active
  }

  /** The association belongs to another certificate. */
  predicate IsForeign(a: Option<Association>, certificate: Option<nat>) {
    a.Some? && a.value.certificate != certificate
  }

  datatype Outcome = Done | Raised | Crashed {
    predicate IsFailure() { !Done? }

    function PropagateFailure(): Outcome
      requires IsFailure()
    {
      this
    }
  }

  /** The classes into which request() sorts what it learns of a POST. */
  datatype PostReply = Created(id: nat) | Unknown | Refused | Interrupted | PostCrash

  datatype GetReply = Found(association: Option<Association>) | GetRaised | GetCrash

  /** What the last GET of this run has shown of which hostname. */
  type Sight = Option<(Site, Option<Association>)>

  /** A command that was issued, the host it met as far as the write-ahead rule depends on it, and how it
      ended. */
  datatype Event =
    | Got(site: Site, answer: GetReply)
    | Wrote(control: Control, result: Outcome)
    | Removed(result: Outcome)
    | Posted(file: Option<Control>, durable: Option<Control>, earlier: bool, seen: Sight, reply: PostReply)
    | Put(file: Option<Control>, durable: Option<Control>, requested: Identity, certificate: nat, seen: Sight, result: Outcome)

  /** `file` is what a read of the control path sees, `durable` what is left of it after a power failure
      before the next directory sync. The last five fields are history: a POST may have taken effect, the
      identity it was made for, the certificate that was recorded, the last GET of this run, and
      everything that some GET has shown. */
  datatype Host = Host(
    file: Option<Control>, durable: Option<Control>,
    certificates: nat, associations: map<Site, Association>,
    posted: bool, owner: Option<Identity>, recorded: Option<nat>, seen: Sight, shown: set<(Site, Association)>)

  function AssociationOf(h: Host, site: Site): Option<Association> {
    if site in h.associations then Some(h.associations[site]) else None
  }

  /** A GET of this hostname has shown the certificate associated, enabled and active. */
  ghost predicate Confirmed(h: Host, site: Site, certificate: nat) {
    (site, Association(Some(certificate), true, true)) in h.shown
  }

  /** One copy of the control file agrees with the history. */
  ghost predicate Justified(c: Option<Control>, h: Host) {
    c.Some? ==>
      && (c.value.phase != UploadInFlight && c.value.phase != UploadUnknown ==> c.value.certificate.Some?)
      && (c.value.certificate.Some? ==> h.recorded == c.value.certificate)
      && (h.posted ==> h.owner == Some(c.value.identity))
      && (c.value.phase == Associated ==> Confirmed(h, c.value.identity.site, c.value.certificate.value))
  }

  ghost predicate Sound(h: Host) {
    && (h.posted ==> h.file.Some? && h.durable.Some? && h.owner.Some?)
    && Justified(h.file, h) && Justified(h.durable, h)
    && (!h.posted ==> h.recorded.None? && h.certificates == 0)
    && h.certificates <= 1
  }

  /** A POST follows a durable upload_in_flight record, a GET that showed no association of the recorded
      hostname, and no POST that may have taken effect. A PUT is made for the identity on record: it
      follows a durable associate_in_flight record of its certificate and a GET of the requested hostname
      that showed no association or one with that certificate. */
  ghost predicate WriteAhead(e: Event) {
    && (e.Posted? ==>
          && e.file.Some? && e.file.value.phase == UploadInFlight && e.durable == e.file && !e.earlier
          && e.seen == Some((e.file.value.identity.site, None)))
    && (e.Put? ==>
          && e.file.Some? && e.file.value.phase == AssociateInFlight && e.file.value.certificate == Some(e.certificate)
          && e.file.value.identity == e.requested && e.durable == e.file
          && e.seen.Some? && e.seen.value.0 == e.requested.site
          && (e.seen.value.1.None? || e.seen.value.1.value.certificate == Some(e.certificate)))
  }

  /** A calm world makes every local step succeed, answers every request, changes nothing by itself, and
      an association becomes active at once. */
  class World {
    const calm: bool
    var h: Host
    ghost var log: seq<Event>

    constructor (calm: bool, h: Host)
      ensures this.calm == calm && this.h == h && log == []
    {
      this.calm, this.h := calm, h;
      log := [];
    }

    ghost predicate Valid()
      reads this
    {
      Sound(h) && forall e :: e in log ==> WriteAhead(e)
    }

    method Check() returns (o: Outcome)
      ensures calm ==> o.Done?
    {
      o := *;
      if calm {
        o := Done;
      }
    }

    /** A run ends; if the machine went down, an unsynced change of the control file may be lost. */
    method NextRun()
      requires Valid()
      modifies this`h
      ensures Valid() && h == old(h).(file := h.file, seen := None) && (h.file == old(h).file || h.file == old(h).durable)
    {
      if * {
        h := h.(file := h.durable);
      }
      h := h.(seen := None);
    }

    /** Others may change the associations at any time. */
    method Elsewhere()
      requires Valid()
      modifies this`h
      ensures Valid() && h == old(h).(associations := h.associations)
      ensures calm ==> h == old(h)
    {
      var a: map<Site, Association> := *;
      if !calm {
        h := h.(associations := a);
      }
    }

    /* -------------------------------------------------------------- the control file */

    /** write_control_state: Raised covers a failure before the replacement and an unconfirmed sync
        after it; in the second case the file shows the new state, which may not survive. */
    method Write(c: Control) returns (o: Outcome)
      requires Valid()
      requires h.posted ==> h.owner == Some(c.identity)
      requires c.certificate.Some? ==> h.posted && (h.recorded.None? || h.recorded == c.certificate)
      requires c.phase == Associated && c.certificate.Some? ==> Confirmed(h, c.identity.site, c.certificate.value)
      modifies this
      ensures Valid() && log == old(log) + [Wrote(c, o)]
      ensures h == old(h).(file := h.file, durable := h.durable, recorded := h.recorded)
      ensures h.file == old(h).file || (h.file == Some(c) && ValidControl(c))
      ensures old(h).recorded.Some? ==> h.recorded == old(h).recorded
      ensures c.certificate.None? ==> h.recorded == old(h).recorded
      ensures c.certificate.Some? ==> h.recorded == old(h).recorded || h.recorded == c.certificate
      ensures o.Done? ==> ValidControl(c) && h.file == h.durable == Some(c)
      ensures o.Done? && c.certificate.Some? ==> h.recorded == c.certificate
      ensures calm && ValidControl(c) ==> o.Done?
    {
      o := Check();
      if !ValidControl(c) {
        o := Raised;
        log := log + [Wrote(c, o)];
        return;
      }
      log := log + [Wrote(c, o)];
      var replaced: bool := *;
      if o.Done? || replaced {
        h := h.(file := Some(c), recorded := if c.certificate.Some? then c.certificate else h.recorded);
        var synced: bool := *;
        if o.Done? || synced {
          h := h.(durable := Some(c));
        } else if h.durable.None? {
          var kept: bool := *;
          h := h.(durable := if kept then Some(c) else None);
        }
      }
    }

    /** remove_local_control_artifacts */
    method RemoveArtifacts() returns (o: Outcome)
      requires Valid() && !h.posted
      modifies this
      ensures Valid() && log == old(log) + [Removed(o)]
      ensures h == old(h).(file := h.file, durable := h.durable)
      ensures h.file == old(h).file || h.file.None?
      ensures o.Done? ==> h.file.None? && h.durable.None?
      ensures calm ==> o.Done?
    {
      o := Check();
      log := log + [Removed(o)];
      var unlinked: bool := *;
      if o.Done? || unlinked {
        h := h.(file := None);
      }
      if o.Done? {
        h := h.(durable := None);
      }
    }

    /* -------------------------------------------------------------- the remote service */

    /** GET of the association of a hostname. */
    method Get(site: Site) returns (r: GetReply)
      requires Valid()
      modifies this
      ensures Valid() && log == old(log) + [Got(site, r)]
      ensures h == old(h).(associations := h.associations, seen := h.seen, shown := h.shown)
      ensures old(h).shown <= h.shown
      ensures r.Found? ==> h.seen == Some((site, r.association))
      ensures r.Found? && r.association.Some? ==> (site, r.association.value) in h.shown
      ensures !r.Found? ==> h.seen == old(h).seen
      ensures calm ==> r == Found(AssociationOf(old(h), site)) && h.associations == old(h).associations
    {
      Elsewhere();
      var o := Check();
      if o.Done? {
        r := Found(AssociationOf(h, site));
        h := h.(seen := Some((site, r.association)));
        if r.association.Some? {
          h := h.(shown := h.shown + {(site, r.association.value)});
        }
      } else {
        r := if o.Crashed? then GetCrash else GetRaised;
      }
      log := log + [Got(site, r)];
    }

    /** POST of the certificate. A refusal, as request() classes it, means that nothing was created;
        after any other reply something may have been. */
    method Post() returns (r: PostReply)
      requires Valid()
      requires h.file.Some? && h.file.value.phase == UploadInFlight && h.durable == h.file && !h.posted
      requires h.seen == Some((h.file.value.identity.site, None))
      modifies this
      ensures Valid() && log == old(log) + [Posted(old(h).file, old(h).durable, old(h).posted, old(h).seen, r)]
      ensures h == old(h).(certificates := h.certificates, posted := !r.Refused?, owner := h.owner)
      ensures h.posted ==> h.owner == Some(h.file.value.identity)
      ensures calm ==> r.Created?
    {
      r := *;
      if calm && !r.Created? {
        var id: nat := *;
        r := Created(id);
      }
      log := log + [Posted(h.file, h.durable, h.posted, h.seen, r)];
      if !r.Refused? {
        var applied: bool := *;
        h := h.(certificates := if r.Created? || applied then h.certificates + 1 else h.certificates,
                posted := true, owner := Some(h.file.value.identity));
      }
    }

    /** PUT of the association for the requested identity. */
    method PutAssociation(requested: Identity, certificate: nat) returns (o: Outcome)
      requires Valid()
      requires WriteAhead(Put(h.file, h.durable, requested, certificate, h.seen, Done))
      modifies this
      ensures Valid() && log == old(log) + [Put(old(h).file, old(h).durable, requested, certificate, old(h).seen, o)]
      ensures h == old(h).(associations := h.associations)
      ensures calm ==> o.Done? && AssociationOf(h, requested.site) == Some(Association(Some(certificate), true, true))
    {
      o := Check();
      log := log + [Put(h.file, h.durable, requested, certificate, h.seen, o)];
      Elsewhere();
      var applied: bool, active: bool := *, *;
      if applied || calm {
        h := h.(associations := h.associations[requested.site := Association(Some(certificate), true, active || calm)]);
      }
    }
  }
}
