/** The prefix policy of deploy/migrate-redis-allowlist.py: which keys are copied, dropped or refused. */
module RedisPolicy {
  import opened Text

  const MAX_KEY_BYTES := 1_024
  const MAX_KEYS := 500_000
  const MAX_SCAN_PAGES := 100_000

  /** A copy rule; `pattern` stands for the full match of its regular expression. */
  datatype Rule = Rule(prefix: Bytes, pattern: Bytes -> bool)

  datatype Policy = Policy(allowed: seq<Rule>, discarded: seq<Bytes>, forbidden: seq<Bytes>)

  predicate Starts(key: Bytes, prefix: Bytes) { |prefix| <= |key| && key[..|prefix|] == prefix }

  function Prefixes(rules: seq<Rule>): (r: seq<Bytes>)
    ensures |r| == |rules| && forall i :: 0 <= i < |r| ==> r[i] == rules[i].prefix
  {
    seq(|rules|, i requires 0 <= i < |rules| => rules[i].prefix)
  }

  function AllPrefixes(p: Policy): seq<Bytes> { Prefixes(p.allowed) + p.discarded + p.forbidden }

  predicate Overlap(a: Bytes, b: Bytes) { Starts(a, b) || Starts(b, a) }

  /** The pairwise check of load_prefix_policy. */
  predicate Disjoint(prefixes: seq<Bytes>) {
    forall i, j :: 0 <= i < j < |prefixes| ==> !Overlap(prefixes[i], prefixes[j])
  }

  predicate Accepted(p: Policy) {
    p.allowed != [] && p.discarded != [] && p.forbidden != [] && Disjoint(AllPrefixes(p))
  }

  /** The check as the source runs it. */
  method CheckDisjoint(prefixes: seq<Bytes>) returns (ok: bool)
    ensures ok == Disjoint(prefixes)
  {
    for i := 0 to |prefixes|
      invariant forall k, j :: 0 <= k < i && k < j < |prefixes| ==> !Overlap(prefixes[k], prefixes[j])
    {
      for j := i + 1 to |prefixes|
        invariant forall k :: i < k < j ==> !Overlap(prefixes[i], prefixes[k])
      {
        if Overlap(prefixes[i], prefixes[j]) {
          return false;
        }
      }
    }
    return true;
  }

  /** Two prefixes of one key are prefixes of one another. */
  lemma PrefixesOfOneKey(key: Bytes, a: Bytes, b: Bytes)
    requires Starts(key, a) && Starts(key, b)
    ensures Overlap(a, b)
  {
    if |a| <= |b| {
      assert b[..|a|] == key[..|b|][..|a|] == a;
    } else {
      assert a[..|b|] == key[..|a|][..|b|] == b;
    }
  }

  /** The pairwise check passes exactly when no key whatsoever starts with two of the prefixes. */
  lemma DisjointIffUnique(prefixes: seq<Bytes>)
    ensures Disjoint(prefixes)
       <==> forall key: Bytes, i: nat, j: nat ::
              (i < |prefixes| && j < |prefixes| && Starts(key, prefixes[i]) && Starts(key, prefixes[j])) ==> i == j
  {
    hide Starts, Overlap;
    if Disjoint(prefixes) {
      forall key: Bytes, i: nat, j: nat | i < |prefixes| && j < |prefixes| && Starts(key, prefixes[i]) && Starts(key, prefixes[j])
        ensures i == j
      {
        PrefixesOfOneKey(key, prefixes[i], prefixes[j]);
        OverlapIsSymmetric(prefixes[i], prefixes[j]);
      }
    } else {
      var i, j :| 0 <= i < j < |prefixes| && Overlap(prefixes[i], prefixes[j]);
      var key := Longer(prefixes[i], prefixes[j]);
    }
  }

  lemma OverlapIsSymmetric(a: Bytes, b: Bytes)
    ensures Overlap(a, b) <==> Overlap(b, a)
  {
  }

  /** The longer of two overlapping prefixes is a key that starts with both. */
  function Longer(a: Bytes, b: Bytes): (key: Bytes)
    requires Overlap(a, b)
    ensures Starts(key, a) && Starts(key, b)
  {
    if Starts(a, b) then a else b
  }

  /* ---------------------------------------------------------------- classification */

  predicate StartsWithAny(key: Bytes, prefixes: seq<Bytes>) {
    exists i | 0 <= i < |prefixes| :: Starts(key, prefixes[i])
  }

  predicate Matches(key: Bytes, rule: Rule) { Starts(key, rule.prefix) && rule.pattern(key) }

  predicate KeyShape(key: Bytes) { key != [] && |key| <= MAX_KEY_BYTES }

  predicate IsAllowed(key: Bytes, p: Policy) {
    && KeyShape(key) && !StartsWithAny(key, p.forbidden)
    && exists i | 0 <= i < |p.allowed| :: Matches(key, p.allowed[i])
  }

  predicate IsDiscarded(key: Bytes, p: Policy) { KeyShape(key) && StartsWithAny(key, p.discarded) }

  /** Under an accepted policy a key is copied exactly if it is not empty, not over-long, and stands under some
      rule and its pattern; that it is not forbidden follows. */
  lemma AllowedIff(p: Policy, key: Bytes)
    requires Accepted(p)
    ensures IsAllowed(key, p) <==> 1 <= |key| <= 1_024 && exists rule :: rule in p.allowed && rule.prefix <= key && rule.pattern(key)
  {
    if exists rule :: rule in p.allowed && rule.prefix <= key && rule.pattern(key) {
      var rule :| rule in p.allowed && rule.prefix <= key && rule.pattern(key);
      var i :| 0 <= i < |p.allowed| && p.allowed[i] == rule;
      PrefixAt(p, i);
      if StartsWithAny(key, p.forbidden) {
        var j :| 0 <= j < |p.forbidden| && Starts(key, p.forbidden[j]);
        PrefixAt(p, j);
        UniquePrefix(p, key, i, |p.allowed| + |p.discarded| + j);
      }
      assert Matches(key, p.allowed[i]);
    }
  }

  lemma DiscardedIff(p: Policy, key: Bytes)
    ensures IsDiscarded(key, p) <==> 1 <= |key| <= 1_024 && exists prefix :: prefix in p.discarded && prefix <= key
  {
    if exists prefix :: prefix in p.discarded && prefix <= key {
      var prefix :| prefix in p.discarded && prefix <= key;
      var i :| 0 <= i < |p.discarded| && p.discarded[i] == prefix;
      assert Starts(key, p.discarded[i]);
    }
    if StartsWithAny(key, p.discarded) {
      var i :| 0 <= i < |p.discarded| && Starts(key, p.discarded[i]);
      assert p.discarded[i] in p.discarded && p.discarded[i] <= key;
    }
  }

  /** `[rule for rule in allowed if ...]` */
  function MatchingRules(key: Bytes, rules: seq<Rule>): seq<Rule> {
    if rules == [] then []
    else (if Matches(key, rules[0]) then [rules[0]] else []) + MatchingRules(key, rules[1..])
  }

  /** _rule_for_key: exactly one rule, or an exception. */
  function RuleForKey(key: Bytes, p: Policy): Option<Rule> {
    var matches := MatchingRules(key, p.allowed);
    if |matches| == 1 then Some(matches[0]) else None
  }

  lemma PrefixAt(p: Policy, i: nat)
    ensures i < |p.allowed| ==> AllPrefixes(p)[i] == p.allowed[i].prefix
    ensures i < |p.discarded| ==> AllPrefixes(p)[|p.allowed| + i] == p.discarded[i]
    ensures i < |p.forbidden| ==> AllPrefixes(p)[|p.allowed| + |p.discarded| + i] == p.forbidden[i]
    ensures |AllPrefixes(p)| == |p.allowed| + |p.discarded| + |p.forbidden|
  {
  }

  lemma UniquePrefix(p: Policy, key: Bytes, i: nat, j: nat)
    requires Accepted(p) && i < |AllPrefixes(p)| && j < |AllPrefixes(p)|
    requires Starts(key, AllPrefixes(p)[i]) && Starts(key, AllPrefixes(p)[j])
    ensures i == j
  {
    hide Starts, AllPrefixes;
    DisjointIffUnique(AllPrefixes(p));
  }

  /** Under an accepted policy the three classes exclude each other, so the order of the tests and the
      forbidden test inside is_allowed_key do not matter. */
  lemma ClassesExclude(p: Policy, key: Bytes)
    requires Accepted(p)
    ensures !(IsAllowed(key, p) && IsDiscarded(key, p))
    ensures StartsWithAny(key, p.forbidden) ==> !IsDiscarded(key, p)
    ensures StartsWithAny(key, p.forbidden) ==> forall i :: 0 <= i < |p.allowed| ==> !Matches(key, p.allowed[i])
    ensures IsAllowed(key, p) <==> KeyShape(key) && exists i :: 0 <= i < |p.allowed| && Matches(key, p.allowed[i])
  {
    hide Starts, AllPrefixes, Accepted, KeyShape;
    if i: nat, j: nat :| i < |p.allowed| && Matches(key, p.allowed[i]) && j < |p.discarded| && Starts(key, p.discarded[j]) {
      PrefixAt(p, i);
      PrefixAt(p, j);
      UniquePrefix(p, key, i, |p.allowed| + j);
      assert false;
    }
    if i: nat, j: nat :| i < |p.discarded| && Starts(key, p.discarded[i]) && j < |p.forbidden| && Starts(key, p.forbidden[j]) {
      PrefixAt(p, i);
      PrefixAt(p, j);
      UniquePrefix(p, key, |p.allowed| + i, |p.allowed| + |p.discarded| + j);
      assert false;
    }
    if i: nat, j: nat :| i < |p.allowed| && Matches(key, p.allowed[i]) && j < |p.forbidden| && Starts(key, p.forbidden[j]) {
      PrefixAt(p, i);
      PrefixAt(p, j);
      UniquePrefix(p, key, i, |p.allowed| + |p.discarded| + j);
      assert false;
    }
  }

  lemma {:induction false} NoMatch(key: Bytes, rules: seq<Rule>)
    requires forall i :: 0 <= i < |rules| ==> !Matches(key, rules[i])
    ensures MatchingRules(key, rules) == []
  {
    if rules != [] {
      NoMatch(key, rules[1..]);
    }
  }

  lemma {:induction false} OneMatch(key: Bytes, rules: seq<Rule>, i: nat)
    requires i < |rules| && Matches(key, rules[i])
    requires forall j :: 0 <= j < |rules| && Matches(key, rules[j]) ==> j == i
    ensures MatchingRules(key, rules) == [rules[i]]
  {
    var tail := rules[1..];
    assert forall j :: 0 <= j < |tail| ==> tail[j] == rules[j + 1];
    if i == 0 {
      NoMatch(key, tail);
    } else {
      OneMatch(key, tail, i - 1);
    }
  }

  /** Every allowed key resolves to exactly one copy rule, and that rule matches it. */
  lemma AllowedHasOneRule(p: Policy, key: Bytes)
    requires Accepted(p) && IsAllowed(key, p)
    ensures RuleForKey(key, p).Some? && Matches(key, RuleForKey(key, p).value)
  {
    hide Starts, AllPrefixes, Accepted, KeyShape, MatchingRules;
    var i :| 0 <= i < |p.allowed| && Matches(key, p.allowed[i]);
    forall j | 0 <= j < |p.allowed| && Matches(key, p.allowed[j])
      ensures j == i
    {
      PrefixAt(p, i);
      PrefixAt(p, j);
      UniquePrefix(p, key, i, j);
    }
    OneMatch(key, p.allowed, i);
  }

  /* ---------------------------------------------------------------- scan_source_keys */

  /** One SCAN reply: the next cursor and a page of keys, in which keys may repeat. */
  datatype Page = Page(cursor: int, keys: seq<Bytes>)

  ghost predicate Returned(pages: seq<Page>, n: nat, key: Bytes) {
    exists k: nat, i: nat :: k < n && k < |pages| && i < |pages[k].keys| && pages[k].keys[i] == key
  }

  /** How many keys of the first `n` pages are dropped, each as often as it is returned. */
  function Drops(pages: seq<Page>, n: nat, p: Policy): nat
    requires n <= |pages|
  {
    if n == 0 then 0 else Drops(pages, n - 1, p) + DropsOf(pages[n - 1].keys, p)
  }

  function DropsOf(keys: seq<Bytes>, p: Policy): nat {
    if keys == [] then 0
    else DropsOf(keys[..|keys| - 1], p) + (if !IsAllowed(keys[|keys| - 1], p) && IsDiscarded(keys[|keys| - 1], p) then 1 else 0)
  }

  /** The keys of the first `n` pages that are copied. */
  ghost function Copied(pages: seq<Page>, n: nat, p: Policy): set<Bytes> {
    set k: nat, i: nat | k < n && k < |pages| && i < |pages[k].keys| && IsAllowed(pages[k].keys[i], p) :: pages[k].keys[i]
  }

  /** The scan ends with page `n - 1`, the first one whose cursor is zero, and nothing in it is refused. */
  ghost predicate Scannable(pages: seq<Page>, n: nat, p: Policy) {
    && 0 < n <= |pages| && n <= MAX_SCAN_PAGES
    && pages[n - 1].cursor == 0 && (forall k :: 0 <= k < n - 1 ==> pages[k].cursor != 0)
    && (forall key :: Returned(pages, n, key) ==> IsAllowed(key, p) || IsDiscarded(key, p))
    && |Copied(pages, n, p)| <= MAX_KEYS && Drops(pages, n, p) <= MAX_KEYS
  }

  /** The loop of scan_source_keys over the replies `pages`; None where the source raises. */
  method ScanSourceKeys(pages: seq<Page>, p: Policy) returns (keys: Option<set<Bytes>>, discarded: nat, read: nat)
    requires Accepted(p)
    ensures keys.Some? ==> Scannable(pages, read, p) && discarded == Drops(pages, read, p)
    ensures keys.Some? ==> forall key :: key in keys.value <==> Returned(pages, read, key) && IsAllowed(key, p)
    ensures keys.Some? ==> forall key :: key in keys.value ==> RuleForKey(key, p).Some?
    ensures (exists n :: Scannable(pages, n, p)) ==> keys.Some?
  {
    hide IsAllowed, IsDiscarded, Accepted, RuleForKey, Returned, Copied, Drops, DropsOf, Scannable;
    NothingReturned(pages);
    NothingDropped(pages, p);
    var found: set<Bytes> := {};
    var unknown := 0;
    discarded, read := 0, 0;
    keys := None;
    while read < |pages|
      invariant read <= |pages| && (forall k :: 0 <= k < read ==> pages[k].cursor != 0)
      invariant read <= MAX_SCAN_PAGES && |found| <= MAX_KEYS && discarded <= MAX_KEYS && discarded == Drops(pages, read, p)
      invariant forall key :: key in found <==> Returned(pages, read, key) && IsAllowed(key, p)
      invariant unknown == 0 ==> forall key :: Returned(pages, read, key) ==> IsAllowed(key, p) || IsDiscarded(key, p)
      invariant unknown > 0 ==> exists key :: Returned(pages, read, key) && !IsAllowed(key, p) && !IsDiscarded(key, p)
    {
      if read + 1 > MAX_SCAN_PAGES {
        TooManyPages(pages, read, p);
        return;
      }
      var page := pages[read];
      ReturnedNext(pages, read);
      DropsNext(pages, read, p);
      NoneDropped(page.keys, p);
      for i := 0 to |page.keys|
        invariant |found| <= MAX_KEYS && discarded <= MAX_KEYS && discarded == Drops(pages, read, p) + DropsOf(page.keys[..i], p)
        invariant forall key :: key in found <==> (Returned(pages, read, key) || key in page.keys[..i]) && IsAllowed(key, p)
        invariant unknown == 0 ==> forall key :: Returned(pages, read, key) || key in page.keys[..i] ==> IsAllowed(key, p) || IsDiscarded(key, p)
        invariant unknown > 0 ==> exists key :: Returned(pages, read + 1, key) && !IsAllowed(key, p) && !IsDiscarded(key, p)
      {
        var key := page.keys[i];
        assert page.keys[..i + 1] == page.keys[..i] + [key];
        DropsOfNext(page.keys, i, p);
        ReturnedHere(pages, read, i);
        if IsAllowed(key, p) {
          found := found + {key};
          if |found| > MAX_KEYS {
            TooManyCopied(pages, read, p, found);
            return;
          }
        } else if IsDiscarded(key, p) {
          discarded := discarded + 1;
          if discarded > MAX_KEYS {
            DropsGrow(page.keys, i + 1, p);
            TooManyDropped(pages, read, p);
            return;
          }
        } else {
          unknown := unknown + 1;
        }
      }
      assert page.keys[..|page.keys|] == page.keys;
      read := read + 1;
      if page.cursor == 0 {
        if unknown > 0 {
          UnknownKey(pages, read, p);
          return;
        }
        forall key | key in found
          ensures RuleForKey(key, p).Some?
        {
          AllowedHasOneRule(p, key);
        }
        CopiedIs(pages, read, p, found);
        IsScannable(pages, read, p);
        keys := Some(found);
        return;
      }
    }
    NoEnd(pages, p);
  }

  lemma NothingDropped(pages: seq<Page>, p: Policy)
    ensures Drops(pages, 0, p) == 0
  {
  }

  lemma NoneDropped(keys: seq<Bytes>, p: Policy)
    ensures DropsOf(keys[..0], p) == 0
  {
  }

  lemma DropsNext(pages: seq<Page>, n: nat, p: Policy)
    requires n < |pages|
    ensures Drops(pages, n + 1, p) == Drops(pages, n, p) + DropsOf(pages[n].keys, p)
  {
  }

  lemma DropsOfNext(keys: seq<Bytes>, i: nat, p: Policy)
    requires i < |keys|
    ensures DropsOf(keys[..i + 1], p)
         == DropsOf(keys[..i], p) + (if !IsAllowed(keys[i], p) && IsDiscarded(keys[i], p) then 1 else 0)
  {
    hide IsAllowed, IsDiscarded;
    assert keys[..i + 1][..i] == keys[..i];
  }

  lemma IsScannable(pages: seq<Page>, n: nat, p: Policy)
    requires 0 < n <= |pages| && n <= MAX_SCAN_PAGES && pages[n - 1].cursor == 0
    requires forall k :: 0 <= k < n - 1 ==> pages[k].cursor != 0
    requires forall key :: Returned(pages, n, key) ==> IsAllowed(key, p) || IsDiscarded(key, p)
    requires |Copied(pages, n, p)| <= MAX_KEYS && Drops(pages, n, p) <= MAX_KEYS
    ensures Scannable(pages, n, p)
  {
    hide IsAllowed, IsDiscarded, Returned, Copied, Drops;
  }

  lemma TooManyPages(pages: seq<Page>, read: nat, p: Policy)
    requires read <= |pages| && read + 1 > MAX_SCAN_PAGES && forall k :: 0 <= k < read ==> pages[k].cursor != 0
    ensures forall n: nat :: !Scannable(pages, n, p)
  {
    hide IsAllowed, IsDiscarded, Returned, Copied, Drops;
  }

  lemma NoEnd(pages: seq<Page>, p: Policy)
    requires forall k :: 0 <= k < |pages| ==> pages[k].cursor != 0
    ensures forall n: nat :: !Scannable(pages, n, p)
  {
    hide IsAllowed, IsDiscarded, Returned, Copied, Drops;
  }

  lemma UnknownKey(pages: seq<Page>, read: nat, p: Policy)
    requires 0 < read <= |pages| && pages[read - 1].cursor == 0 && forall k :: 0 <= k < read - 1 ==> pages[k].cursor != 0
    requires exists key :: Returned(pages, read, key) && !IsAllowed(key, p) && !IsDiscarded(key, p)
    ensures forall n: nat :: !Scannable(pages, n, p)
  {
    hide IsAllowed, IsDiscarded, Returned, Copied, Drops;
    forall n: nat
      ensures !Scannable(pages, n, p)
    {
      assert n < read && n > 0 ==> pages[n - 1].cursor != 0;
      assert read < n ==> pages[read - 1].cursor == 0;
    }
  }

  lemma CopiedIs(pages: seq<Page>, n: nat, p: Policy, found: set<Bytes>)
    requires forall key :: key in found <==> Returned(pages, n, key) && IsAllowed(key, p)
    ensures found == Copied(pages, n, p)
  {
    hide IsAllowed;
    forall key | key in found
      ensures key in Copied(pages, n, p)
    {
      var k: nat, i: nat :| k < n && k < |pages| && i < |pages[k].keys| && pages[k].keys[i] == key;
      assert pages[k].keys[i] in Copied(pages, n, p);
    }
  }

  lemma TooManyCopied(pages: seq<Page>, read: nat, p: Policy, found: set<Bytes>)
    requires read < |pages| && forall k :: 0 <= k < read ==> pages[k].cursor != 0
    requires |found| > MAX_KEYS && forall key :: key in found ==> Returned(pages, read + 1, key) && IsAllowed(key, p)
    ensures !exists n :: Scannable(pages, n, p)
  {
    hide IsAllowed, IsDiscarded;
    forall n: nat | Scannable(pages, n, p)
      ensures false
    {
      assert n > read;
      forall key | key in found
        ensures key in Copied(pages, n, p)
      {
        var k: nat, i: nat :| k < read + 1 && k < |pages| && i < |pages[k].keys| && pages[k].keys[i] == key;
        assert pages[k].keys[i] in Copied(pages, n, p);
      }
      SubsetSize(found, Copied(pages, n, p));
    }
  }

  lemma {:induction false} SubsetSize<T>(a: set<T>, b: set<T>)
    requires a <= b
    ensures |a| <= |b|
  {
    if a != {} {
      var x :| x in a;
      SubsetSize(a - {x}, b - {x});
    }
  }

  lemma {:induction false} DropsGrow(keys: seq<Bytes>, i: nat, p: Policy)
    requires i <= |keys|
    ensures DropsOf(keys[..i], p) <= DropsOf(keys, p)
  {
    hide IsAllowed, IsDiscarded;
    if i < |keys| {
      DropsGrow(keys[..|keys| - 1], i, p);
      assert keys[..|keys| - 1][..i] == keys[..i];
    } else {
      assert keys[..i] == keys;
    }
  }

  lemma {:induction false} DropsMonotone(pages: seq<Page>, m: nat, n: nat, p: Policy)
    requires m <= n <= |pages|
    ensures Drops(pages, m, p) <= Drops(pages, n, p)
  {
    if m < n {
      DropsMonotone(pages, m, n - 1, p);
    }
  }

  lemma TooManyDropped(pages: seq<Page>, read: nat, p: Policy)
    requires read < |pages| && forall k :: 0 <= k < read ==> pages[k].cursor != 0
    requires Drops(pages, read + 1, p) > MAX_KEYS
    ensures !exists n :: Scannable(pages, n, p)
  {
    hide IsAllowed, IsDiscarded, Drops;
    forall n: nat | Scannable(pages, n, p)
      ensures false
    {
      DropsMonotone(pages, read + 1, n, p);
    }
  }

  lemma NothingReturned(pages: seq<Page>)
    ensures forall key :: !Returned(pages, 0, key)
  {
  }

  lemma ReturnedHere(pages: seq<Page>, k: nat, i: nat)
    requires k < |pages| && i < |pages[k].keys|
    ensures Returned(pages, k + 1, pages[k].keys[i])
  {
  }

  lemma ReturnedNext(pages: seq<Page>, n: nat)
    requires n < |pages|
    ensures forall key :: Returned(pages, n + 1, key) <==> Returned(pages, n, key) || key in pages[n].keys
  {
    forall key | key in pages[n].keys
      ensures Returned(pages, n + 1, key)
    {
      var i :| 0 <= i < |pages[n].keys| && pages[n].keys[i] == key;
      assert pages[n].keys[i] == key;
    }
    forall key | Returned(pages, n, key)
      ensures Returned(pages, n + 1, key)
    {
      var k: nat, i: nat :| k < n && k < |pages| && i < |pages[k].keys| && pages[k].keys[i] == key;
      assert pages[k].keys[i] == key;
    }
  }
}
