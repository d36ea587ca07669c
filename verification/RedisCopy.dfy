/** migrate_redis and rollback_target_keys of deploy/migrate-redis-allowlist.py: nonce markers are copied
    into an empty target by commands whose reply may be lost after they took effect. */
module RedisCopy {
  import opened Text

  const MAX_NONCE_TTL_MS := 601_000
  const CHUNK := 100

  /** A value with the instant at which it expires, if any. */
  datatype Entry = Entry(payload: Bytes, expiry: Option<nat>)

  /** What the controller learns of a command. */
  datatype Reply<T> = Answer(value: T) | Lost

  /** Two servers and one clock. The writers are stopped: at the source keys only expire. */
  class Servers {
    const source: map<Bytes, Entry>
    /** Every command takes effect and every reply arrives. */
    const reliable: bool
    var target: map<Bytes, Entry>
    var now: nat
    /** The UNLINK commands that were sent. */
    ghost var unlinked: seq<seq<Bytes>>

    constructor (source: map<Bytes, Entry>, now: nat, reliable: bool)
      ensures this.source == source && this.now == now && target == map[] && this.reliable == reliable && unlinked == []
    {
      this.source, this.now, this.target, this.reliable, this.unlinked := source, now, map[], reliable, [];
    }

    predicate Live(key: Bytes)
      reads this`now
    {
      key in source && (source[key].expiry.Some? ==> now < source[key].expiry.value)
    }

    method Elapse()
      modifies this`now
      ensures now >= old(now)
    {
      var passed: int := *;
      now := now + if passed < 0 then 0 else passed;
    }

    method Dump(key: Bytes) returns (r: Reply<Option<Bytes>>)
      modifies this`now
      ensures now >= old(now)
      ensures r.Answer? ==> r.value == if Live(key) then Some(source[key].payload) else None
      ensures reliable ==> r.Answer?
    {
      Elapse();
      r := if Live(key) then Answer(Some(source[key].payload)) else Answer(None);
      var lost: bool := *;
      if lost && !reliable {
        r := Lost;
      }
    }

    /** -2 for a missing key, -1 for one without expiry, else the milliseconds left. */
    method Pttl(key: Bytes) returns (r: Reply<int>)
      modifies this`now
      ensures now >= old(now)
      ensures r.Answer? ==> r.value == if !Live(key) then -2
                                       else if source[key].expiry.None? then -1 else source[key].expiry.value - now
      ensures reliable ==> r.Answer?
    {
      Elapse();
      r := Answer(if !Live(key) then -2 else if source[key].expiry.None? then -1 else source[key].expiry.value - now);
      var lost: bool := *;
      if lost && !reliable {
        r := Lost;
      }
    }

    /** RESTORE counts the time to live from its own execution, and refuses an existing key. */
    method Restore(key: Bytes, ttl: nat, payload: Bytes) returns (r: Reply<bool>)
      modifies this`now, this`target
      ensures now >= old(now)
      ensures target == old(target) || (key !in old(target) && target == old(target)[key := Entry(payload, Some(now + ttl))])
      ensures r == Answer(true) ==> key !in old(target) && target == old(target)[key := Entry(payload, Some(now + ttl))]
      ensures reliable && key !in old(target) ==> r == Answer(true)
    {
      Elapse();
      var reached: bool, answered: bool := *, *;
      reached, answered := reached || reliable, answered || reliable;
      if reached && key !in target {
        target := target[key := Entry(payload, Some(now + ttl))];
        r := if answered then Answer(true) else Lost;
      } else {
        r := if answered then Answer(false) else Lost;
      }
    }

    /** UNLINK of several keys; it is logged when it is sent. */
    method Unlink(keys: seq<Bytes>) returns (r: Reply<nat>)
      modifies this`target, this`unlinked
      ensures unlinked == old(unlinked) + [keys]
      ensures target == old(target) || target == map k | k in old(target) && k !in keys :: old(target)[k]
      ensures r.Answer? ==> target == map k | k in old(target) && k !in keys :: old(target)[k]
      ensures reliable ==> r.Answer?
    {
      unlinked := unlinked + [keys];
      r := Lost;
      var reached: bool := *;
      if reached || reliable {
        target := map k | k in target && k !in keys :: target[k];
        var answered: bool := *;
        r := if answered || reliable then Answer(|keys|) else Lost;
      }
    }
  }

  /** The chunks that rollback_target_keys sends: every key is in exactly the chunk of its position. */
  lemma Chunked(keys: seq<Bytes>, offset: nat, key: Bytes)
    requires offset <= |keys|
    ensures var end := if offset + CHUNK <= |keys| then offset + CHUNK else |keys|;
            key in keys[..end] <==> key in keys[..offset] || key in keys[offset..end]
  {
    var end := if offset + CHUNK <= |keys| then offset + CHUNK else |keys|;
    assert keys[..end] == keys[..offset] + keys[offset..end];
  }

  function FirstChunk(keys: seq<Bytes>): seq<Bytes> { if CHUNK <= |keys| then keys[..CHUNK] else keys }

  /** Completed when every UNLINK was answered; then none of the keys is left. The first chunk is unlinked
      in any case, and on reliable servers all are. */
  method RollbackTargetKeys(s: Servers, copied: seq<Bytes>) returns (completed: bool)
    modifies s`target, s`unlinked
    ensures s.reliable ==> completed
    ensures copied != [] ==> |s.unlinked| > |old(s.unlinked)| && s.unlinked[|old(s.unlinked)|] == FirstChunk(copied)
    ensures old(s.unlinked) <= s.unlinked && (copied == [] ==> s.unlinked == old(s.unlinked))
    ensures forall k :: k in s.target ==> k in old(s.target) && s.target[k] == old(s.target)[k]
    ensures completed ==> s.target == map k | k in old(s.target) && k !in copied :: old(s.target)[k]
  {
    var offset := 0;
    while offset < |copied|
      invariant offset <= |copied|
      invariant s.target == map k | k in old(s.target) && k !in copied[..offset] :: old(s.target)[k]
      invariant old(s.unlinked) <= s.unlinked && (offset == 0 ==> s.unlinked == old(s.unlinked))
      invariant offset > 0 ==> |s.unlinked| > |old(s.unlinked)| && s.unlinked[|old(s.unlinked)|] == FirstChunk(copied)
    {
      var end := if offset + CHUNK <= |copied| then offset + CHUNK else |copied|;
      forall k
        ensures k in copied[..end] <==> k in copied[..offset] || k in copied[offset..end]
      {
        Chunked(copied, offset, k);
      }
      var reply := s.Unlink(copied[offset..end]);
      if reply.Lost? {
        return false;
      }
      offset := end;
    }
    assert copied[..|copied|] == copied;
    return true;
  }

  /** `e` is a copy of the source entry `origin` that expires no earlier, and later by no more than `delay`. */
  predicate FaithfulCopy(e: Entry, origin: Entry, delay: int) {
    && e.payload == origin.payload && e.expiry.Some? && origin.expiry.Some?
    && origin.expiry.value <= e.expiry.value <= origin.expiry.value + delay
  }

  /** The key was not there any more at its DUMP or PTTL. */
  predicate Gone(s: Servers, key: Bytes)
    reads s`now
  {
    !s.Live(key)
  }

  /** At time `now`, the key is gone or expires within the limit. */
  predicate Copyable(source: map<Bytes, Entry>, key: Bytes, now: int) {
    key in source ==> source[key].expiry.Some? && source[key].expiry.value <= now + MAX_NONCE_TTL_MS
  }

  /** The copy loop of migrate_redis. `skipped` are the keys that had expired. When the loop fails, the
      rollback runs; if it is completed, the target is as empty as before, even if a RESTORE took effect
      whose reply never came. On reliable servers the loop succeeds if all keys are copyable when it begins,
      and it fails on every server if one is alive and not copyable when it ends. */
  method CopyNonces(s: Servers, keys: seq<Bytes>) returns (ok: bool, rolledBack: bool, attempted: seq<Bytes>, ghost skipped: set<Bytes>)
    requires s.target == map[]
    requires forall i, j :: 0 <= i < j < |keys| ==> keys[i] != keys[j]
    modifies s
    ensures s.now >= old(s.now)
    ensures ok ==> forall k :: k in s.target <==> k in keys && k !in skipped
    ensures ok ==> forall k :: k in s.target ==> k in s.source && FaithfulCopy(s.target[k], s.source[k], s.now - old(s.now))
    ensures forall k :: k in skipped ==> k in keys && Gone(s, k)
    ensures !ok && rolledBack ==> s.target == map[]
    ensures forall k :: k in s.target ==> k in attempted
    ensures !ok && attempted != [] ==>
              |s.unlinked| > |old(s.unlinked)| && s.unlinked[|old(s.unlinked)|] == FirstChunk(attempted)
    ensures !ok && s.reliable ==> rolledBack
    ensures ok ==> !rolledBack && s.unlinked == old(s.unlinked)
    ensures s.reliable && (forall k :: k in keys ==> Copyable(s.source, k, old(s.now))) ==> ok
    ensures (exists k :: k in keys && s.Live(k) && !Copyable(s.source, k, s.now)) ==> !ok
  {
    attempted, skipped, rolledBack, ok := [], {}, false, true;
    for i := 0 to |keys|
      invariant s.now >= old(s.now) && ok && s.unlinked == old(s.unlinked)
      invariant forall k :: k in s.target <==> k in keys[..i] && k !in skipped
      invariant forall k :: k in s.target <==> k in attempted
      invariant forall k :: k in skipped ==> k in keys[..i] && Gone(s, k)
      invariant forall k :: k in s.target ==> k in s.source && FaithfulCopy(s.target[k], s.source[k], s.now - old(s.now))
      invariant forall k :: k in s.target ==> Copyable(s.source, k, s.now)
    {
      var key := keys[i];
      assert keys[..i + 1] == keys[..i] + [key] && key !in keys[..i];
      var payload := s.Dump(key);
      if payload.Lost? {
        ok := false;
        break;
      }
      if payload.value.None? {
        skipped := skipped + {key};
        continue;
      }
      var ttl := s.Pttl(key);
      if ttl.Lost? {
        ok := false;
        break;
      }
      if ttl.value == -2 {
        skipped := skipped + {key};
        continue;
      }
      if !(1 <= ttl.value <= MAX_NONCE_TTL_MS) {
        assert !Copyable(s.source, key, old(s.now));
        ok := false;
        break;
      }
      attempted := attempted + [key];
      var restored := s.Restore(key, ttl.value, payload.value.value);
      if restored != Answer(true) {
        ok := false;
        break;
      }
    }
    assert ok ==> keys[..|keys|] == keys;
    if !ok {
      rolledBack := RollbackTargetKeys(s, attempted);
    }
  }
}
