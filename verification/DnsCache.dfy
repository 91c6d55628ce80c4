/** The reverse-lookup cache of webui/dns_cache.py. Every section that holds the lock
    is one step; requests, submissions and resolver threads interleave freely. */
module DnsCache {
  import opened Common

  type Address = nat

  datatype Entry = Entry(name: Option<string>, expires: real)

  type Cache = map<Address, Entry>

  datatype Config = Config(maxEntries: int, positiveTtl: real, negativeTtl: real, lookupable: Address -> bool)

  /** `claimed` are the addresses a request has put in flight and will submit;
      `running` are the resolver tasks that have not stored their answer yet. */
  datatype State = State(cache: Cache, inflight: set<Address>, claimed: multiset<Address>, running: multiset<Address>,
                         hits: nat, misses: nat)

  const EMPTY := State(map[], {}, multiset{}, multiset{}, 0, 0)

  datatype Step =
    | Ask(ips: set<Address>, now: real)
    | Submit(ip: Address)
    | Answer(ip: Address, name: Option<string>, now: real, victims: set<Address>)

  // --- one step ----------------------------------------------------------------------------

  predicate Fresh(cache: Cache, ip: Address, now: real) {
    ip in cache && cache[ip].expires > now
  }

  function Pending(c: Config, s: State, ips: set<Address>, now: real): set<Address> {
    set ip | ip in ips && !Fresh(s.cache, ip, now) && ip !in s.inflight && c.lookupable(ip)
  }

  function Hits(cache: Cache, ips: set<Address>, now: real): set<Address> {
    set ip | ip in ips && Fresh(cache, ip, now)
  }

  predicate Named(name: Option<string>) {
    name.Some? && name.value != ""
  }

  function EntryOf(c: Config, name: Option<string>, now: real): Entry {
    Entry(name, now + if Named(name) then c.positiveTtl else c.negativeTtl)
  }

  /** How many entries a slice that ends at maxEntries // 10 takes. */
  function SliceLength(size: nat, maxEntries: int): nat {
    var end := maxEntries / 10;
    if end < 0 then Max(0, size + end) else if end < size then end else size
  }

  function EvictionCount(size: nat, maxEntries: int): nat {
    if size >= maxEntries then SliceLength(size, maxEntries) else 0
  }

  predicate NoLaterThan(cache: Cache, expires: real, others: set<Address>) {
    forall k :: k in others && k in cache ==> expires <= cache[k].expires
  }

  predicate ExpireFirst(cache: Cache, victims: set<Address>) {
    forall v :: v in victims && v in cache ==> NoLaterThan(cache, cache[v].expires, cache.Keys - victims)
  }

  /** The first n of the entries sorted by expiry; ties may fall either way. */
  predicate AreSoonest(cache: Cache, victims: set<Address>, n: nat) {
    victims <= cache.Keys && |victims| == n && ExpireFirst(cache, victims)
  }

  predicate Enabled(c: Config, s: State, step: Step) {
    match step
    case Ask(_, _) => true
    case Submit(ip) => ip in s.claimed
    case Answer(ip, _, _, victims) =>
      ip in s.running && AreSoonest(s.cache, victims, EvictionCount(|s.cache|, c.maxEntries))
  }

  function Next(c: Config, s: State, step: Step): State {
    match step
    case Ask(ips, now) =>
      var pending := Pending(c, s, ips, now);
      var hit := Hits(s.cache, ips, now);
      s.(inflight := s.inflight + pending, claimed := s.claimed + multiset(pending),
         hits := s.hits + |hit|, misses := s.misses + |ips - hit|)
    case Submit(ip) => s.(claimed := s.claimed - multiset{ip}, running := s.running + multiset{ip})
    case Answer(ip, name, now, victims) =>
      s.(cache := (s.cache - victims)[ip := EntryOf(c, name, now)],
         inflight := s.inflight - {ip}, running := s.running - multiset{ip})
  }

  // --- runs ----------------------------------------------------------------------------------

  predicate IsRun(c: Config, steps: seq<Step>) {
    steps == [] ||
    (IsRun(c, steps[..|steps| - 1]) && Enabled(c, After(c, steps[..|steps| - 1]), steps[|steps| - 1]))
  }

  function After(c: Config, steps: seq<Step>): State {
    if steps == [] then EMPTY else Next(c, After(c, steps[..|steps| - 1]), steps[|steps| - 1])
  }

  /** An address in flight has exactly one task, claimed or running; any other has none. */
  ghost predicate OneTaskEach(s: State) {
    forall ip :: s.claimed[ip] + s.running[ip] == if ip in s.inflight then 1 else 0
  }

  lemma StepKeepsOneTaskEach(c: Config, s: State, step: Step)
    requires OneTaskEach(s) && Enabled(c, s, step)
    ensures OneTaskEach(Next(c, s, step))
  {
    var t := Next(c, s, step);
    forall ip
      ensures t.claimed[ip] + t.running[ip] == if ip in t.inflight then 1 else 0
    {
      assert s.claimed[ip] + s.running[ip] == if ip in s.inflight then 1 else 0;
    }
  }

  /** In every run: one task for each address in flight, never two. */
  lemma {:induction false} EveryRunHasOneTaskEach(c: Config, steps: seq<Step>)
    requires IsRun(c, steps)
    ensures OneTaskEach(After(c, steps))
  {
    if steps != [] {
      var front := steps[..|steps| - 1];
      EveryRunHasOneTaskEach(c, front);
      StepKeepsOneTaskEach(c, After(c, front), steps[|steps| - 1]);
    }
  }

  /** How often a run has put ip in flight, and how often an answer for it was stored. */
  function Claims(c: Config, steps: seq<Step>, ip: Address): nat {
    if steps == [] then 0
    else
      var front, last := steps[..|steps| - 1], steps[|steps| - 1];
      Claims(c, front, ip) + if last.Ask? && ip in Pending(c, After(c, front), last.ips, last.now) then 1 else 0
  }

  function Answers(steps: seq<Step>, ip: Address): nat {
    if steps == [] then 0
    else
      var last := steps[|steps| - 1];
      Answers(steps[..|steps| - 1], ip) + if last.Answer? && last.ip == ip then 1 else 0
  }

  /** Every lookup is answered once: lookups begun are answers stored, plus the one
      still in flight if there is one. */
  lemma {:induction false} EveryClaimIsAnsweredOnce(c: Config, steps: seq<Step>, ip: Address)
    requires IsRun(c, steps)
    ensures Claims(c, steps, ip) == Answers(steps, ip) + if ip in After(c, steps).inflight then 1 else 0
  {
    if steps != [] {
      var front, last := steps[..|steps| - 1], steps[|steps| - 1];
      EveryClaimIsAnsweredOnce(c, front, ip);
      EveryRunHasOneTaskEach(c, front);
      var s := After(c, front);
      assert s.claimed[ip] + s.running[ip] == if ip in s.inflight then 1 else 0;
    }
  }

  /** What the last answer stored for ip says, if one was stored. */
  function LastAnswer(c: Config, steps: seq<Step>, ip: Address): Option<Entry> {
    if steps == [] then None
    else
      var last := steps[|steps| - 1];
      if last.Answer? && last.ip == ip then Some(EntryOf(c, last.name, last.now))
      else LastAnswer(c, steps[..|steps| - 1], ip)
  }

  /** Whatever is cached for an address is the last answer stored for it. */
  lemma {:induction false} CacheHoldsTheLastAnswer(c: Config, steps: seq<Step>, ip: Address)
    requires IsRun(c, steps) && ip in After(c, steps).cache
    ensures LastAnswer(c, steps, ip) == Some(After(c, steps).cache[ip])
  {
    var front, last := steps[..|steps| - 1], steps[|steps| - 1];
    if !(last.Answer? && last.ip == ip) {
      CacheHoldsTheLastAnswer(c, front, ip);
    }
  }

  // --- the size of the cache ----------------------------------------------------------------

  lemma EvictedSize(cache: Cache, victims: set<Address>)
    requires victims <= cache.Keys
    ensures |cache - victims| == |cache| - |victims|
  {
    assert (cache - victims).Keys == cache.Keys - victims;
  }

  lemma StoredSize(cache: Cache, ip: Address, e: Entry)
    ensures |cache[ip := e]| == if ip in cache then |cache| else |cache| + 1
  {
    assert cache[ip := e].Keys == cache.Keys + {ip};
  }

  lemma StepKeepsBound(c: Config, s: State, step: Step)
    requires c.maxEntries >= 10 && |s.cache| <= c.maxEntries && Enabled(c, s, step)
    ensures |Next(c, s, step).cache| <= c.maxEntries
  {
    if step.Answer? {
      EvictedSize(s.cache, step.victims);
      StoredSize(s.cache - step.victims, step.ip, EntryOf(c, step.name, step.now));
    }
  }

  lemma {:induction false} EveryRunIsBounded(c: Config, steps: seq<Step>)
    requires c.maxEntries >= 10 && IsRun(c, steps)
    ensures |After(c, steps).cache| <= c.maxEntries
  {
    if steps != [] {
      var front := steps[..|steps| - 1];
      EveryRunIsBounded(c, front);
      StepKeepsBound(c, After(c, front), steps[|steps| - 1]);
    }
  }

  lemma RunOneMore(c: Config, steps: seq<Step>, step: Step)
    requires IsRun(c, steps) && Enabled(c, After(c, steps), step)
    ensures IsRun(c, steps + [step]) && After(c, steps + [step]) == Next(c, After(c, steps), step)
  {
    assert (steps + [step])[..|steps|] == steps;
  }

  /** One address not seen before, asked for, submitted and answered. */
  lemma ResolveOneMore(c: Config, s: State, ip: Address)
    requires c.lookupable(ip) && 0 <= c.maxEntries < 10 && ip !in s.cache && ip !in s.inflight
    ensures var t := Next(c, s, Ask({ip}, 0.0));
            var u := Next(c, t, Submit(ip));
            var answer := Answer(ip, None, 0.0, {});
            && Enabled(c, t, Submit(ip)) && Enabled(c, u, answer)
            && Next(c, u, answer).inflight == s.inflight
            && Next(c, u, answer).cache == s.cache[ip := EntryOf(c, None, 0.0)]
  {
    assert Pending(c, s, {ip}, 0.0) == {ip};
    var t := Next(c, s, Ask({ip}, 0.0));
    assert t.inflight - {ip} == s.inflight && ip in t.claimed;
    var u := Next(c, t, Submit(ip));
    assert u.inflight == t.inflight && u.cache == s.cache && ip in u.running;
    NobodyIsEvicted(c, u, ip);
  }

  lemma NobodyIsEvicted(c: Config, s: State, ip: Address)
    requires 0 <= c.maxEntries < 10 && ip in s.running
    ensures Enabled(c, s, Answer(ip, None, 0.0, {}))
    ensures Next(c, s, Answer(ip, None, 0.0, {})).inflight == s.inflight - {ip}
    ensures Next(c, s, Answer(ip, None, 0.0, {})).cache == s.cache[ip := EntryOf(c, None, 0.0)]
  {
    assert s.cache - {} == s.cache;
  }

  function Resolving(ip: Address): seq<Step> {
    [Ask({ip}, 0.0), Submit(ip), Answer(ip, None, 0.0, {})]
  }

  lemma OneMoreIsHeld(c: Config, steps: seq<Step>, ips: set<Address>, ip: Address)
    requires 0 <= c.maxEntries < 10 && c.lookupable(ip) && ip !in ips && IsRun(c, steps) && Holds(After(c, steps), ips)
    ensures IsRun(c, steps + Resolving(ip)) && Holds(After(c, steps + Resolving(ip)), ips + {ip})
  {
    ResolveOneMore(c, After(c, steps), ip);
    StepsHoldOneMore(c, After(c, steps), ips, ip);
    RunThreeMore(c, steps, Ask({ip}, 0.0), Submit(ip), Answer(ip, None, 0.0, {}));
  }

  function ThreeSteps(c: Config, s: State, ip: Address): State {
    Next(c, Next(c, Next(c, s, Ask({ip}, 0.0)), Submit(ip)), Answer(ip, None, 0.0, {}))
  }

  lemma StepsHoldOneMore(c: Config, s: State, ips: set<Address>, ip: Address)
    requires Holds(s, ips)
    requires ThreeSteps(c, s, ip).inflight == s.inflight
    requires ThreeSteps(c, s, ip).cache == s.cache[ip := EntryOf(c, None, 0.0)]
    ensures Holds(ThreeSteps(c, s, ip), ips + {ip})
  {
    assert s.cache[ip := EntryOf(c, None, 0.0)].Keys == s.cache.Keys + {ip};
  }

  lemma OneByOne(steps: seq<Step>, a: Step, b: Step, d: Step)
    ensures steps + [a] + [b] + [d] == steps + [a, b, d]
  {
  }

  lemma RunThreeMore(c: Config, steps: seq<Step>, a: Step, b: Step, d: Step)
    requires IsRun(c, steps) && Enabled(c, After(c, steps), a)
    requires Enabled(c, Next(c, After(c, steps), a), b) && Enabled(c, Next(c, Next(c, After(c, steps), a), b), d)
    ensures IsRun(c, steps + [a, b, d])
    ensures After(c, steps + [a, b, d]) == Next(c, Next(c, Next(c, After(c, steps), a), b), d)
  {
    RunOneMore(c, steps, a);
    RunOneMore(c, steps + [a], b);
    RunOneMore(c, steps + [a] + [b], d);
    OneByOne(steps, a, b, d);
  }

  lemma PutBack(ips: set<Address>, ip: Address)
    requires ip in ips
    ensures ips - {ip} + {ip} == ips
  {
  }

  /** Resolving addresses one after the other caches them all, if nothing is evicted. */
  lemma {:induction false} OneByOneGrows(c: Config, ips: set<Address>) returns (steps: seq<Step>)
    requires 0 <= c.maxEntries < 10 && AllLookupable(c, ips)
    ensures IsRun(c, steps) && Holds(After(c, steps), ips)
    decreases |ips|
  {
    steps := [];
    if ips != {} {
      var ip :| ip in ips;
      var before := OneByOneGrows(c, ips - {ip});
      OneMoreIsHeld(c, before, ips - {ip}, ip);
      steps := before + Resolving(ip);
      PutBack(ips, ip);
    }
  }

  /** Just these addresses are cached, and nothing is in flight. */
  ghost predicate Holds(s: State, ips: set<Address>) {
    s.inflight == {} && s.cache.Keys == ips
  }

  ghost predicate AllLookupable(c: Config, ips: set<Address>) {
    forall ip :: ip in ips ==> c.lookupable(ip)
  }

  /** There are more than n addresses that may be looked up at all. */
  ghost predicate MoreThan(c: Config, n: int) {
    exists ips :: AllLookupable(c, ips) && |ips| > n
  }

  ghost predicate AlwaysBounded(c: Config) {
    forall steps :: IsRun(c, steps) ==> |After(c, steps).cache| <= c.maxEntries
  }

  lemma Exceeds(c: Config, steps: seq<Step>)
    requires IsRun(c, steps) && |After(c, steps).cache| > c.maxEntries
    ensures !AlwaysBounded(c)
  {
  }

  /** The cache is bounded by maxEntries in every run if and only if maxEntries is at
      least 10, or there are no more addresses than that: below 10 an eviction
      removes nothing. */
  lemma BoundedIffTenEntriesOrFewAddresses(c: Config)
    ensures AlwaysBounded(c) <==> c.maxEntries >= 10 || !MoreThan(c, c.maxEntries)
  {
    if c.maxEntries >= 10 {
      TenIsEnough(c);
    } else if MoreThan(c, c.maxEntries) {
      FewerIsNot(c);
    } else {
      FewAddressesAreBounded(c);
    }
  }

  /** Where ten addresses or more may be looked up, only the setting decides. */
  lemma BoundedIffTenEntries(c: Config)
    requires MoreThan(c, 9)
    ensures AlwaysBounded(c) <==> c.maxEntries >= 10
  {
    BoundedIffTenEntriesOrFewAddresses(c);
    var ips :| AllLookupable(c, ips) && |ips| > 9;
    assert c.maxEntries < 10 ==> |ips| > c.maxEntries;
  }

  /** Nothing but what may be looked up is ever in flight or cached. */
  lemma {:induction false} OnlyLookupable(c: Config, steps: seq<Step>)
    requires IsRun(c, steps)
    ensures AllLookupable(c, After(c, steps).cache.Keys) && AllLookupable(c, After(c, steps).inflight)
  {
    if steps != [] {
      var front := steps[..|steps| - 1];
      OnlyLookupable(c, front);
      EveryRunHasOneTaskEach(c, front);
      StepKeepsLookupable(c, After(c, front), steps[|steps| - 1]);
    }
  }

  lemma StepKeepsLookupable(c: Config, s: State, step: Step)
    requires OneTaskEach(s) && Enabled(c, s, step) && AllLookupable(c, s.cache.Keys) && AllLookupable(c, s.inflight)
    ensures AllLookupable(c, Next(c, s, step).cache.Keys) && AllLookupable(c, Next(c, s, step).inflight)
  {
    if step.Answer? {
      assert s.claimed[step.ip] + s.running[step.ip] == if step.ip in s.inflight then 1 else 0;
      assert step.ip in s.inflight;
    }
  }

  lemma FewAddressesAreBounded(c: Config)
    requires !MoreThan(c, c.maxEntries)
    ensures AlwaysBounded(c)
  {
    forall steps | IsRun(c, steps)
      ensures |After(c, steps).cache| <= c.maxEntries
    {
      OnlyLookupable(c, steps);
      assert |After(c, steps).cache| == |After(c, steps).cache.Keys|;
    }
  }

  lemma TenIsEnough(c: Config)
    requires c.maxEntries >= 10
    ensures AlwaysBounded(c)
  {
    forall steps | IsRun(c, steps)
      ensures |After(c, steps).cache| <= c.maxEntries
    {
      EveryRunIsBounded(c, steps);
    }
  }

  lemma FewerIsNot(c: Config)
    requires c.maxEntries < 10 && MoreThan(c, c.maxEntries)
    ensures !AlwaysBounded(c)
  {
    if c.maxEntries >= 0 {
      var ips :| AllLookupable(c, ips) && |ips| > c.maxEntries;
      var steps := OneByOneGrows(c, ips);
      assert |After(c, steps).cache| == |After(c, steps).cache.Keys|;
      Exceeds(c, steps);
    } else {
      Exceeds(c, []);
    }
  }

  lemma AnswerIs(c: Config, s: State, ip: Address, name: Option<string>, now: real, victims: set<Address>)
    ensures Next(c, s, Answer(ip, name, now, victims)) ==
            State((s.cache - victims)[ip := EntryOf(c, name, now)], s.inflight - {ip}, s.claimed,
                  s.running - multiset{ip},
                  s.hits, s.misses)
  {
  }

  // --- choosing whom to evict -----------------------------------------------------------

  lemma SoonestExists(cache: Cache, among: set<Address>) returns (soonest: Address)
    requires among != {} && among <= cache.Keys
    ensures soonest in among && forall k :: k in among ==> cache[soonest].expires <= cache[k].expires
  {
    soonest :| soonest in among;
    if among != {soonest} {
      var rest := among - {soonest};
      assert rest != {} by {
        assert among == rest + {soonest};
      }
      var other := SoonestExists(cache, rest);
      if cache[other].expires < cache[soonest].expires {
        soonest := other;
      }
      assert among == rest + {soonest} || other == soonest;
    }
  }

  /** There are always n entries that expire no later than all others. */
  lemma {:induction false} SoonestExist(cache: Cache, n: nat) returns (victims: set<Address>)
    requires n <= |cache|
    ensures AreSoonest(cache, victims, n)
  {
    victims := {};
    if n > 0 {
      var fewer := SoonestExist(cache, n - 1);
      var rest := cache.Keys - fewer;
      assert |rest| == |cache.Keys| - |fewer|;
      var next := SoonestExists(cache, rest);
      victims := fewer + {next};
    }
  }

  lemma TakenBack(claimed: multiset<Address>, pending: set<Address>)
    ensures claimed + multiset(pending) - multiset(pending) == claimed &&
            multiset(pending) <= claimed + multiset(pending)
  {
  }

  lemma SubmittedOneMore(claimed: multiset<Address>, running: multiset<Address>, pending: set<Address>,
                         done: set<Address>, ip: Address)
    requires multiset(pending) <= claimed && done <= pending && ip in pending && ip !in done
    ensures ip in claimed - multiset(done)
    ensures claimed - multiset(done) - multiset{ip} == claimed - multiset(done + {ip})
    ensures running + multiset(done) + multiset{ip} == running + multiset(done + {ip})
  {
    assert multiset(pending)[ip] == 1 && multiset(done)[ip] == 0;
  }

  function Names(cache: Cache, ips: set<Address>): map<Address, Option<string>>
    requires ips <= cache.Keys
  {
    map ip | ip in ips :: cache[ip].name
  }

  lemma NameOfOneMore(cache: Cache, ips: set<Address>, ip: Address)
    requires ips <= cache.Keys && ip in cache
    ensures Names(cache, ips + {ip}) == Names(cache, ips)[ip := cache[ip].name]
  {
  }

  lemma MoveOne(done: set<Address>, todo: set<Address>, ip: Address)
    requires ip in todo && done !! todo
    ensures (done + {ip}) + (todo - {ip}) == done + todo && done + {ip} !! todo - {ip} && ip !in done
  {
  }

  lemma HitsOfOneMore(cache: Cache, ips: set<Address>, ip: Address, now: real)
    requires ip !in ips
    ensures var hit := Hits(cache, ips, now); var more := Hits(cache, ips + {ip}, now);
            if Fresh(cache, ip, now) then more == hit + {ip} && |more| == |hit| + 1 && ips + {ip} - more == ips - hit
            else more == hit && |ips + {ip} - more| == |ips - hit| + 1
  {
    var hit, more := Hits(cache, ips, now), Hits(cache, ips + {ip}, now);
    if Fresh(cache, ip, now) {
      assert more == hit + {ip};
    } else {
      assert more == hit;
      assert ips + {ip} - hit == ips - hit + {ip};
    }
  }

  predicate MustAsk(c: Config, s: State, ip: Address, now: real) {
    !Fresh(s.cache, ip, now) && ip !in s.inflight && c.lookupable(ip)
  }

  lemma PendingOfOneMore(c: Config, s: State, ips: set<Address>, ip: Address, now: real)
    requires ip !in ips
    ensures var pending := Pending(c, s, ips, now); var more := Pending(c, s, ips + {ip}, now);
            && (ip in s.inflight + pending <==> ip in s.inflight)
            && if MustAsk(c, s, ip, now) then more == pending + {ip} &&
                multiset(more) == multiset(pending) + multiset{ip}
               else more == pending
  {
    var pending, more := Pending(c, s, ips, now), Pending(c, s, ips + {ip}, now);
    if MustAsk(c, s, ip, now) {
      assert more == pending + {ip};
    } else {
      assert more == pending;
    }
  }

  /** A state with one address more looked up. */
  function Counted(s: State, ip: Address, known: bool, claim: bool): State {
    s.(hits := s.hits + if known then 1 else 0, misses := s.misses + if known then 0 else 1,
       inflight := if claim then s.inflight + {ip} else s.inflight,
       claimed := if claim then s.claimed + multiset{ip} else s.claimed)
  }

  lemma AskOneMore(c: Config, s: State, ips: set<Address>, ip: Address, now: real)
    requires ip !in ips
    ensures var t := Next(c, s, Ask(ips, now));
            && t.cache == s.cache && (MustAsk(c, t, ip, now) <==> MustAsk(c, s, ip, now))
            && Next(c, s, Ask(ips + {ip}, now)) == Counted(t, ip, Fresh(t.cache, ip, now), MustAsk(c, t, ip, now))
  {
    var pending, more := Pending(c, s, ips, now), Pending(c, s, ips + {ip}, now);
    HitsOfOneMore(s.cache, ips, ip, now);
    PendingOfOneMore(c, s, ips, ip, now);
    var t, u := Next(c, s, Ask(ips, now)), Next(c, s, Ask(ips + {ip}, now));
    var w := Counted(t, ip, Fresh(s.cache, ip, now), MustAsk(c, s, ip, now));
    assert u.hits == w.hits;
    assert u.misses == w.misses;
    if MustAsk(c, s, ip, now) {
      SetsAssociate(s.inflight, pending, {ip});
      MultisetsAssociate(s.claimed, multiset(pending), multiset{ip});
    }
    assert u.inflight == w.inflight;
    assert u.claimed == w.claimed;
  }

  lemma SetsAssociate(a: set<Address>, b: set<Address>, c: set<Address>)
    ensures a + (b + c) == a + b + c
  {
  }

  lemma MultisetsAssociate(a: multiset<Address>, b: multiset<Address>, c: multiset<Address>)
    ensures a + (b + c) == a + b + c
  {
  }

  function Get(m: map<Address, Option<string>>, ip: Address): Option<string> {
    if ip in m then m[ip] else None
  }

  function Answered(pending: set<Address>, arrived: map<Address, Option<string>>): map<Address, Option<string>> {
    map ip | ip in pending && ip in arrived :: arrived[ip]
  }

  function NamesOnly(out: map<Address, Option<string>>): map<Address, string> {
    map ip | ip in out && Named(out[ip]) :: out[ip].value
  }

  // --- the same, said of the entries ------------------------------------------------------------

  /** The entry holds good for now. */
  predicate HoldsGood(cache: Cache, ip: Address, now: real) {
    ip in cache && now < cache[ip].expires
  }

  /** What a lookup finds, and whom it asks for. */
  ghost predicate IsLookUp(c: Config, cache: Cache, inflight: set<Address>, ips: set<Address>, now: real,
                           out: map<Address, Option<string>>, pending: set<Address>) {
    && (forall ip :: ip in out <==> ip in ips && HoldsGood(cache, ip, now))
    && (forall ip :: ip in out ==> ip in cache && out[ip] == cache[ip].name)
    && (forall ip :: ip in pending <==>
          ip in ips && !HoldsGood(cache, ip, now) && ip !in inflight && c.lookupable(ip))
  }

  /** The name the cache has for the address, or that its own task answered. */
  predicate IsNameOf(cache: Cache, pending: set<Address>, arrived: map<Address, Option<string>>, ips: set<Address>,
                     now: real, ip: Address, name: string) {
    && name != ""
    && ((ip in ips && HoldsGood(cache, ip, now) && cache[ip].name == Some(name)) ||
        (ip in pending && ip in arrived && arrived[ip] == Some(name)))
  }

  /** A tenth of the entries allowed, rounded down, once there are as many. (A negative
      setting leaves a tenth of it, rounded up, and evicts the others.) */
  predicate IsEvictionCount(n: nat, size: nat, maxEntries: int) {
    && (size < maxEntries ==> n == 0)
    && (0 <= maxEntries <= size ==> 10 * n <= maxEntries < 10 * n + 10)
    && (maxEntries < 0 ==>
          if 10 * (size - 1) < -maxEntries then n == 0 else 10 * (size - n - 1) < -maxEntries <= 10 * (size - n))
  }

  lemma EvictionCountIs(size: nat, maxEntries: int)
    ensures IsEvictionCount(EvictionCount(size, maxEntries), size, maxEntries)
  {
  }

  /** The victims expire no later than what stays. */
  ghost predicate GoFirst(cache: Cache, victims: set<Address>) {
    forall v, k :: v in victims && k in cache && k !in victims ==>
      v in cache && cache[v].expires <= cache[k].expires
  }

  /** The answer replaces whatever was there, for as long as it is good; the victims go and all others stay. */
  ghost predicate IsStored(c: Config, before: Cache, after: Cache, victims: set<Address>, ip: Address,
                           name: Option<string>, now: real) {
    && ip in after && after[ip].name == name
    && (name == None || name == Some("") ==> after[ip].expires == now + c.negativeTtl)
    && (name != None && name != Some("") ==> after[ip].expires == now + c.positiveTtl)
    && (forall k :: k != ip ==> (k in after <==> k in before && k !in victims))
    && (forall k :: k != ip && k in after ==> k in before && after[k] == before[k])
  }

  lemma Merged(cache: Cache, pending: set<Address>, arrived: map<Address, Option<string>>, ips: set<Address>, now: real)
    requires forall ip :: ip in pending ==> !HoldsGood(cache, ip, now)
    ensures var found := NamesOnly(Names(cache, Hits(cache, ips, now)) + Answered(pending, arrived));
            && (forall ip :: ip in found ==> IsNameOf(cache, pending, arrived, ips, now, ip, found[ip]))
            && (forall ip, name :: IsNameOf(cache, pending, arrived, ips, now, ip, name) ==> ip in found)
  {
    var out := Names(cache, Hits(cache, ips, now)) + Answered(pending, arrived);
    forall ip
      ensures Get(out, ip) == if ip in ips && HoldsGood(cache, ip, now) then cache[ip].name
                              else if ip in pending then Get(arrived, ip) else None
    {
    }
  }

  lemma LookUpIs(c: Config, s: State, ips: set<Address>, now: real)
    ensures IsLookUp(c, s.cache, s.inflight, ips, now, Names(s.cache, Hits(s.cache, ips, now)), Pending(c, s, ips, now))
    ensures Names(s.cache, Hits(s.cache, ips, now)).Keys == Hits(s.cache, ips, now)
    ensures |ips - Hits(s.cache, ips, now)| == |ips| - |Hits(s.cache, ips, now)|
  {
    var hit := Hits(s.cache, ips, now);
    assert hit + (ips - hit) == ips;
  }

  // --- the class ------------------------------------------------------------------------------

  class DnsCache {
    const config: Config
    var cache: Cache
    var inflight: set<Address>
    var hits: nat
    var misses: nat
    ghost var claimed: multiset<Address>
    ghost var running: multiset<Address>

    ghost function Now(): State
      reads this
    {
      State(cache, inflight, claimed, running, hits, misses)
    }

    constructor (config: Config)
      ensures this.config == config && Now() == EMPTY
      ensures cache == map[] && inflight == {} && hits == 0 && misses == 0
    {
      this.config := config;
      cache, inflight, hits, misses, claimed, running := map[], {}, 0, 0, multiset{}, multiset{};
    }

    /** One address of a request, under the lock. */
    method LookUpOne(ip: Address, now: real) returns (known: bool, claim: bool)
      modifies `hits, `misses, `inflight, `claimed
      ensures known == Fresh(cache, ip, now) && claim == MustAsk(config, old(Now()), ip, now)
      ensures Now() == Counted(old(Now()), ip, known, claim)
    {
      known, claim := Fresh(cache, ip, now), false;
      if known {
        hits := hits + 1;
        return;
      }
      misses := misses + 1;
      if ip in inflight || !config.lookupable(ip) {
        return;
      }
      inflight := inflight + {ip};
      claimed := claimed + multiset{ip};
      claim := true;
    }

    /** The locked section of reverse_many: what is known, and what to resolve. */
    method LookUp(ips: set<Address>, now: real) returns (out: map<Address, Option<string>>, pending: set<Address>)
      modifies `hits, `misses, `inflight, `claimed
      ensures Now() == Next(config, old(Now()), Ask(ips, now))
      ensures pending == Pending(config, old(Now()), ips, now)
      ensures out == Names(cache, Hits(cache, ips, now))
      ensures IsLookUp(config, cache, old(inflight), ips, now, out, pending)
      ensures hits == old(hits) + |out| && misses == old(misses) + |ips| - |out|
      ensures inflight == old(inflight) + pending
    {
      out, pending := map[], {};
      ghost var done: set<Address>, s := {}, Now();
      var todo := ips;
      while todo != {}
        invariant done + todo == ips && done !! todo
        invariant out == Names(cache, Hits(cache, done, now))
        invariant pending == Pending(config, s, done, now)
        invariant Now() == Next(config, s, Ask(done, now))
        decreases |todo|
      {
        var ip :| ip in todo;
        MoveOne(done, todo, ip);
        todo := todo - {ip};
        AskOneMore(config, s, done, ip, now);
        PendingOfOneMore(config, s, done, ip, now);
        HitsOfOneMore(cache, done, ip, now);
        var known, claim := LookUpOne(ip, now);
        assert claim == MustAsk(config, s, ip, now);
        if known {
          NameOfOneMore(cache, Hits(cache, done, now), ip);
          out := out[ip := cache[ip].name];
        } else if claim {
          pending := pending + {ip};
        }
        done := done + {ip};
      }
      assert done == ips;
      LookUpIs(config, s, ips, now);
    }

    ghost method Submitted(ip: Address)
      requires ip in claimed
      modifies `claimed, `running
      ensures Now() == Next(config, old(Now()), Submit(ip))
    {
      claimed := claimed - multiset{ip};
      running := running + multiset{ip};
    }

    /** reverse_many: one task is started for each address that is neither known nor in
        flight, and `arrived` is what those tasks answer before the deadline.  What they
        and others store meanwhile are steps of their own. */
    method ReverseMany(ips: set<Address>, now: real, arrived: map<Address, Option<string>>)
        returns (found: map<Address, string>, pending: set<Address>)
      modifies `hits, `misses, `inflight, `claimed, `running
      ensures pending == Pending(config, old(Now()), ips, now)
      ensures inflight == old(inflight) + pending && claimed == old(claimed) &&
              running == old(running) + multiset(pending)
      ensures forall ip :: ip in pending <==>
                ip in ips && !HoldsGood(cache, ip, now) && ip !in old(inflight) && config.lookupable(ip)
      ensures forall ip :: ip in found ==> IsNameOf(cache, pending, arrived, ips, now, ip, found[ip])
      ensures forall ip, name :: IsNameOf(cache, pending, arrived, ips, now, ip, name) ==> ip in found
    {
      var out;
      out, pending := LookUp(ips, now);
      SubmitAll(pending, claimed);
      TakenBack(old(claimed), pending);
      Merged(cache, pending, arrived, ips, now);
      found := NamesOnly(out + Answered(pending, arrived));
    }

    method SubmitAll(pending: set<Address>, ghost before: multiset<Address>)
      requires claimed == before && multiset(pending) <= before
      modifies `claimed, `running
      ensures claimed == before - multiset(pending) && running == old(running) + multiset(pending)
    {
      var todo := pending;
      ghost var done: set<Address> := {};
      while todo != {}
        invariant done + todo == pending && done !! todo
        invariant claimed == before - multiset(done) && running == old(running) + multiset(done)
        decreases |todo|
      {
        var ip :| ip in todo;
        MoveOne(done, todo, ip);
        SubmittedOneMore(before, old(running), pending, done, ip);
        Submitted(ip);
        todo, done := todo - {ip}, done + {ip};
      }
      assert done == pending;
    }

    /** Drops whatever expires soonest, if the cache is full. */
    method Evict() returns (ghost victims: set<Address>)
      modifies `cache
      ensures AreSoonest(old(cache), victims, EvictionCount(|old(cache)|, config.maxEntries))
      ensures cache == old(cache) - victims
      ensures GoFirst(old(cache), victims) && IsEvictionCount(|victims|, |old(cache)|, config.maxEntries)
    {
      EvictionCountIs(|cache|, config.maxEntries);
      victims := {};
      if |cache| >= config.maxEntries {
        var n := SliceLength(|cache|, config.maxEntries);
        ghost var some := SoonestExist(cache, n);
        var soonest: set<Address> :| soonest <= cache.Keys && AreSoonest(cache, soonest, n);
        victims := soonest;
        cache := cache - soonest;
      }
    }

    /** The locked section of _store, at the end of every resolver task. */
    method Store(ip: Address, name: Option<string>, now: real) returns (ghost victims: set<Address>)
      requires ip in running
      modifies `cache, `inflight, `running
      ensures AreSoonest(old(cache), victims, EvictionCount(|old(cache)|, config.maxEntries))
      ensures Now() == Next(config, old(Now()), Answer(ip, name, now, victims))
      ensures IsStored(config, old(cache), cache, victims, ip, name, now) && inflight == old(inflight) - {ip}
      ensures GoFirst(old(cache), victims) && IsEvictionCount(|victims|, |old(cache)|, config.maxEntries)
    {
      var entry := EntryOf(config, name, now);
      ghost var s := Now();
      victims := Evict();
      cache := cache[ip := entry];
      inflight := inflight - {ip};
      running := running - multiset{ip};
      AnswerIs(config, s, ip, name, now, victims);
    }
  }
}
