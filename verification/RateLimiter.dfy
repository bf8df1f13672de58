// The sliding-window rate limiter: pruned deques of hit times against the full
// history of accepted requests.
module RateLimiter {
  import opened Decimal

  // Who asks, and whether at a credential endpoint.
  datatype Client = Client(identity: string, credential: bool)

  datatype Budget = Budget(max: int, window: real)

  datatype Config = Config(general: Budget, credential: Budget, exempt: set<string>, credentialPaths: seq<string>)

  type Hits = map<string, seq<real>>

  datatype Outcome = Exempt | Accepted | Rejected
                   | Crashed  // nothing to base Retry-After on: no budget at all

  // Idle buckets are dropped above this many.
  const ROOM := 1024

  const SUFFIX := "|auth"

  // ------------------------------------------------------------------
  // One request
  // ------------------------------------------------------------------

  predicate StartsWith(s: string, prefix: string) {
    |prefix| <= |s| && s[..|prefix|] == prefix
  }

  predicate OnCredentialPath(c: Config, path: string) {
    exists i :: 0 <= i < |c.credentialPaths| && StartsWith(path, c.credentialPaths[i])
  }

  // Which of the two identities a request to the path goes by.
  function ClientOf(c: Config, path: string, credential: string, address: string): Client {
    var strict := OnCredentialPath(c, path);
    Client(if strict then address else credential, strict)
  }

  function BudgetOf(c: Config, client: Client): Budget {
    if client.credential then c.credential else c.general
  }

  // The key of the client's bucket.
  function KeyOf(client: Client): string {
    client.identity + (if client.credential then SUFFIX else "")
  }

  function Bucket(hits: Hits, key: string): seq<real> {
    if key in hits then hits[key] else []
  }

  // Without the leading hits before the cutoff.
  function Recent(bucket: seq<real>, cutoff: real): seq<real> {
    if bucket != [] && bucket[0] < cutoff then Recent(bucket[1..], cutoff) else bucket
  }

  predicate Stale(bucket: seq<real>, cutoff: real) {
    bucket == [] || bucket[|bucket| - 1] < cutoff
  }

  function Evict(hits: Hits, cutoff: real): Hits {
    map k | k in hits && !Stale(hits[k], cutoff) :: hits[k]
  }

  function Admit(c: Config, hits: Hits, client: Client, now: real): (Hits, Outcome) {
    var key, cutoff := KeyOf(client), now - BudgetOf(c, client).window;
    var bucket := Recent(Bucket(hits, key), cutoff);
    if |bucket| >= BudgetOf(c, client).max then
      (hits[key := bucket], if bucket == [] then Crashed else Rejected)
    else
      var grown := hits[key := bucket + [now]];
      (if |grown| > ROOM then Evict(grown, cutoff) else grown, Accepted)
  }

  class RateLimit {
    const config: Config
    var hits: Hits

    constructor (config: Config)
      ensures this.config == config && hits == map[]
    {
      this.config := config;
      hits := map[];
    }

    // The path is already canonical. Above its room the table is left without
    // buckets idle for the window of the request.
    method Dispatch(path: string, credential: string, address: string, now: real) returns (outcome: Outcome)
      modifies this
      ensures path in config.exempt ==> hits == old(hits) && outcome == Exempt
      ensures path !in config.exempt ==>
                (hits, outcome) == Admit(config, old(hits), ClientOf(config, path, credential, address), now)
      ensures outcome == Accepted && |hits| > ROOM ==>
                forall k :: k in hits ==>
                  !Stale(hits[k], now - BudgetOf(config, ClientOf(config, path, credential, address)).window)
    {
      if path in config.exempt {
        return Exempt;
      }
      var client := ClientOf(config, path, credential, address);
      var key, budget := KeyOf(client), BudgetOf(config, client);
      var cutoff := now - budget.window;
      var bucket := Bucket(hits, key);
      while bucket != [] && bucket[0] < cutoff
        invariant Recent(bucket, cutoff) == Recent(Bucket(old(hits), key), cutoff)
      {
        bucket := bucket[1..];
      }
      hits := hits[key := bucket];
      if |bucket| >= budget.max {
        return if bucket == [] then Crashed else Rejected;
      }
      hits := hits[key := bucket + [now]];
      assert hits == old(hits)[key := bucket + [now]];
      if |hits| > ROOM {
        var stale := set k | k in hits && Stale(hits[k], cutoff);
        ghost var grown := hits;
        hits := hits - stale;
        assert hits == Evict(grown, cutoff);
      }
      return Accepted;
    }
  }

  // Two clients share a bucket exactly when one identity is the other with the
  // suffix spelled out.
  lemma SameKeyIff(a: Client, b: Client)
    ensures KeyOf(a) == KeyOf(b) <==>
      || a == b
      || (a.credential && !b.credential && b.identity == a.identity + SUFFIX)
      || (b.credential && !a.credential && a.identity == b.identity + SUFFIX)
  {
    if a.credential == b.credential && KeyOf(a) == KeyOf(b) {
      assert |a.identity| == |b.identity|;
      assert a.identity == KeyOf(a)[..|a.identity|];
      assert b.identity == KeyOf(b)[..|b.identity|];
    }
  }

  // A forwarded address may spell the suffix out: its general requests then
  // count against the logins of the address without it.
  lemma ForwardedAddressShares(c: Config, path: string, login: string, address: string)
    requires !OnCredentialPath(c, path) && OnCredentialPath(c, login)
    ensures var general := ClientOf(c, path, "ip:" + address + SUFFIX, "ip:" + address + SUFFIX);
      var strict := ClientOf(c, login, "ip:" + address, "ip:" + address);
      general != strict && KeyOf(general) == KeyOf(strict)
  {
    SameKeyIff(Client("ip:" + address + SUFFIX, false), Client("ip:" + address, true));
  }

  // ------------------------------------------------------------------
  // Whole runs
  // ------------------------------------------------------------------

  datatype Request = Request(client: Client, time: real)

  // What the limiter holds, and every request it ever accepted.
  datatype Ledger = Ledger(hits: Hits, accepted: seq<Request>)

  const EMPTY := Ledger(map[], [])

  function Serve(c: Config, l: Ledger, r: Request): Ledger {
    var (hits, outcome) := Admit(c, l.hits, r.client, r.time);
    Ledger(hits, if outcome == Accepted then l.accepted + [r] else l.accepted)
  }

  function Served(c: Config, requests: seq<Request>): Ledger {
    if requests == [] then EMPTY
    else Serve(c, Served(c, requests[..|requests| - 1]), requests[|requests| - 1])
  }

  ghost predicate Monotone(requests: seq<Request>) {
    forall i, j :: 0 <= i < j < |requests| ==> requests[i].time <= requests[j].time
  }

  // When the requests of a bucket were accepted.
  function TimesOf(accepted: seq<Request>, key: string): seq<real> {
    if accepted == [] then []
    else
      var last := accepted[|accepted| - 1];
      var front := TimesOf(accepted[..|accepted| - 1], key);
      if KeyOf(last.client) == key then front + [last.time] else front
  }

  // The hits inside the closed window between the two times.
  function Within(times: seq<real>, from: real, to: real): seq<real> {
    if times == [] then []
    else
      var last := times[|times| - 1];
      var front := Within(times[..|times| - 1], from, to);
      if from <= last <= to then front + [last] else front
  }

  // Times in order, none after the clock.
  predicate UpTo(times: seq<real>, clock: real) {
    times != [] ==>
      var last := times[|times| - 1];
      last <= clock && UpTo(times[..|times| - 1], last)
  }

  ghost predicate Agree(bucket: seq<real>, times: seq<real>, from: real, clock: real) {
    UpTo(bucket, clock) && UpTo(times, clock) && Within(bucket, from, clock) == Within(times, from, clock)
  }

  // The bucket knows all that a window up to the clock has to know.
  ghost predicate Exact(l: Ledger, key: string, window: real, clock: real) {
    Agree(Bucket(l.hits, key), TimesOf(l.accepted, key), clock - window, clock)
  }

  // ------------------------------------------------------------------
  // Windows of a sorted sequence
  // ------------------------------------------------------------------

  lemma {:induction false} WithinAppend(s: seq<real>, t: real, from: real, to: real)
    ensures Within(s + [t], from, to) == if from <= t <= to then Within(s, from, to) + [t] else Within(s, from, to)
  {
    assert (s + [t])[..|s|] == s;
  }

  lemma {:induction false} TimesAppend(accepted: seq<Request>, r: Request, key: string)
    ensures TimesOf(accepted + [r], key) ==
      if KeyOf(r.client) == key then TimesOf(accepted, key) + [r.time] else TimesOf(accepted, key)
  {
    assert (accepted + [r])[..|accepted|] == accepted;
  }

  lemma {:induction false} WithinFirst(s: seq<real>, from: real, to: real)
    requires s != []
    ensures Within(s, from, to) == (if from <= s[0] <= to then [s[0]] else []) + Within(s[1..], from, to)
  {
    var front := s[..|s| - 1];
    if front == [] {
      assert s[1..] == [];
    } else {
      WithinFirst(front, from, to);
      assert s[1..][..|s| - 2] == front[1..];
    }
  }

  lemma {:induction false} UpToTail(s: seq<real>, clock: real)
    requires UpTo(s, clock) && s != []
    ensures UpTo(s[1..], clock) && s[0] <= clock
  {
    var front := s[..|s| - 1];
    if front != [] {
      UpToTail(front, s[|s| - 1]);
      assert s[1..][..|s| - 2] == front[1..];
    }
  }

  // A later clock and a later cutoff can be read off the earlier window.
  lemma {:induction false} WithinNarrows(s: seq<real>, from: real, to: real, from': real, to': real)
    requires from <= from' && UpTo(s, to)
    ensures Within(s, from', to') == Within(Within(s, from, to), from', to')
  {
    if s != [] {
      var front := s[..|s| - 1];
      WithinNarrows(front, from, to, from', to');
      WithinAppend(Within(front, from, to), s[|s| - 1], from', to');
    }
  }

  lemma {:induction false} WithinIsFewer(s: seq<real>, from: real, to: real, from': real, to': real)
    requires from <= from' && to' <= to
    ensures |Within(s, from', to')| <= |Within(s, from, to)| <= |s|
  {
    if s != [] {
      WithinIsFewer(s[..|s| - 1], from, to, from', to');
    }
  }

  // On sorted times, pruning the front leaves exactly the window.
  lemma {:induction false} RecentIsWindow(s: seq<real>, from: real, to: real)
    requires UpTo(s, to)
    ensures Recent(s, from) == Within(s, from, to)
    ensures UpTo(Recent(s, from), to)
  {
    if s != [] {
      if s[0] < from {
        UpToTail(s, to);
        RecentIsWindow(s[1..], from, to);
        WithinFirst(s, from, to);
      } else {
        AllWithin(s, from, to);
      }
    }
  }

  lemma {:induction false} AllWithin(s: seq<real>, from: real, to: real)
    requires UpTo(s, to) && s != [] && from <= s[0]
    ensures Within(s, from, to) == s
  {
    UpToTail(s, s[|s| - 1]);
    if |s| > 1 {
      AllWithin(s[..|s| - 1], from, to);
    }
  }

  lemma {:induction false} NoneWithin(s: seq<real>, from: real, to: real)
    requires UpTo(s, to)
    ensures Within(s, from, to) == [] <==> Stale(s, from)
  {
    if s != [] {
      NoneWithin(s[..|s| - 1], from, to);
    }
  }

  // ------------------------------------------------------------------
  // Exactness
  // ------------------------------------------------------------------

  lemma ExactLater(l: Ledger, key: string, window: real, clock: real, now: real)
    requires Exact(l, key, window, clock) && clock <= now
    ensures Exact(l, key, window, now)
  {
    WithinNarrows(Bucket(l.hits, key), clock - window, clock, now - window, now);
    WithinNarrows(TimesOf(l.accepted, key), clock - window, clock, now - window, now);
  }

  // A request is turned away exactly when the closed window of its budget
  // already holds all that the budget allows.
  lemma DecisionIsExact(c: Config, l: Ledger, client: Client, now: real)
    requires Exact(l, KeyOf(client), BudgetOf(c, client).window, now)
    ensures var b := BudgetOf(c, client);
      var used := Within(TimesOf(l.accepted, KeyOf(client)), now - b.window, now);
      && (Admit(c, l.hits, client, now).1 == Accepted <==> |used| < b.max)
      && (Admit(c, l.hits, client, now).1 == Crashed <==> used == [] && b.max <= 0)
  {
    RecentIsWindow(Bucket(l.hits, KeyOf(client)), now - BudgetOf(c, client).window, now);
  }

  // What the hits look like before eviction.
  function Grown(c: Config, hits: Hits, r: Request): Hits {
    var b := BudgetOf(c, r.client);
    var bucket := Recent(Bucket(hits, KeyOf(r.client)), r.time - b.window);
    hits[KeyOf(r.client) := if |bucket| >= b.max then bucket else bucket + [r.time]]
  }

  // The request makes the limiter drop this bucket.
  predicate Evicts(c: Config, l: Ledger, r: Request, key: string) {
    var grown := Grown(c, l.hits, r);
    && Admit(c, l.hits, r.client, r.time).1 == Accepted && |grown| > ROOM
    && key in grown && Stale(grown[key], r.time - BudgetOf(c, r.client).window)
  }

  // Pruning up to the cutoff takes hits the window still needs.
  ghost predicate Loses(bucket: seq<real>, from: real, cutoff: real) {
    exists i :: 0 <= i < |bucket| && from <= bucket[i] < cutoff
  }

  ghost predicate Prunes(c: Config, l: Ledger, r: Request, key: string, window: real) {
    KeyOf(r.client) == key
    && Loses(Bucket(l.hits, key), r.time - window, r.time - BudgetOf(c, r.client).window)
  }

  lemma EvictedBucket(hits: Hits, cutoff: real, key: string)
    ensures Bucket(Evict(hits, cutoff), key) ==
            if key in hits && Stale(hits[key], cutoff) then [] else Bucket(hits, key)
  {
  }

  lemma AdmitIs(c: Config, hits: Hits, r: Request)
    ensures var grown := Grown(c, hits, r);
      var (after, outcome) := Admit(c, hits, r.client, r.time);
      after == if outcome == Accepted && |grown| > ROOM then Evict(grown, r.time - BudgetOf(c, r.client).window)
               else grown
  {
  }

  lemma ServeIs(c: Config, l: Ledger, r: Request, key: string)
    ensures Bucket(Serve(c, l, r).hits, key) ==
      if Evicts(c, l, r, key) then [] else Bucket(Grown(c, l.hits, r), key)
    ensures TimesOf(Serve(c, l, r).accepted, key) ==
      if KeyOf(r.client) == key && Admit(c, l.hits, r.client, r.time).1 == Accepted
      then TimesOf(l.accepted, key) + [r.time] else TimesOf(l.accepted, key)
  {
    AdmitIs(c, l.hits, r);
    EvictedBucket(Grown(c, l.hits, r), r.time - BudgetOf(c, r.client).window, key);
    TimesAppend(l.accepted, r, key);
  }

  lemma UpToAppend(s: seq<real>, now: real)
    requires UpTo(s, now)
    ensures UpTo(s + [now], now)
  {
    assert (s + [now])[..|s|] == s;
  }

  lemma SameEnd(x: seq<real>, y: seq<real>, t: real)
    ensures x + [t] == y + [t] <==> x == y
  {
    assert x == (x + [t])[..|x|] && y == (y + [t])[..|y|];
    assert x + [t] == y + [t] ==> |x| == |y|;
  }

  lemma AppendAgrees(bucket: seq<real>, times: seq<real>, from: real, now: real)
    ensures Within(bucket + [now], from, now) == Within(times + [now], from, now) <==>
            Within(bucket, from, now) == Within(times, from, now)
  {
    WithinAppend(bucket, now, from, now);
    WithinAppend(times, now, from, now);
    SameEnd(Within(bucket, from, now), Within(times, from, now), now);
  }

  lemma LosesFront(s: seq<real>, from: real, cutoff: real)
    requires s != []
    ensures Loses(s, from, cutoff) <==> Loses(s[..|s| - 1], from, cutoff) || from <= s[|s| - 1] < cutoff
  {
    var front := s[..|s| - 1];
    if i :| 0 <= i < |front| && from <= front[i] < cutoff {
      assert s[i] == front[i];
    }
    if i :| 0 <= i < |s| && from <= s[i] < cutoff && i < |front| {
      assert front[i] == s[i];
    }
  }

  lemma {:induction false} TwoWindows(s: seq<real>, from: real, cutoff: real, now: real)
    requires UpTo(s, now)
    ensures |Within(Within(s, cutoff, now), from, now)| <= |Within(s, from, now)|
    ensures Within(Within(s, cutoff, now), from, now) == Within(s, from, now) <==> !Loses(s, from, cutoff)
    ensures Loses(s, from, cutoff) ==> |Within(Within(s, cutoff, now), from, now)| < |Within(s, from, now)|
  {
    if s != [] {
      var front, last := s[..|s| - 1], s[|s| - 1];
      TwoWindows(front, from, cutoff, now);
      LosesFront(s, from, cutoff);
      WithinAppend(Within(front, cutoff, now), last, from, now);
      SameEnd(Within(Within(front, cutoff, now), from, now), Within(front, from, now), last);
    }
  }

  // The pruned bucket agrees exactly when nothing needed was pruned.
  lemma PruneAgreesIff(bucket: seq<real>, times: seq<real>, from: real, cutoff: real, now: real)
    requires Agree(bucket, times, from, now)
    ensures Agree(Recent(bucket, cutoff), times, from, now) <==> !Loses(bucket, from, cutoff)
    ensures UpTo(Recent(bucket, cutoff), now)
    ensures Loses(bucket, from, cutoff) ==> Within(times, from, now) != []
  {
    RecentIsWindow(bucket, cutoff, now);
    TwoWindows(bucket, from, cutoff, now);
  }

  // So does the bucket with the new hit.
  lemma HitAgreesIff(bucket: seq<real>, times: seq<real>, from: real, cutoff: real, now: real)
    requires Agree(bucket, times, from, now)
    ensures Agree(Recent(bucket, cutoff) + [now], times + [now], from, now) <==> !Loses(bucket, from, cutoff)
    ensures UpTo(Recent(bucket, cutoff) + [now], now) && UpTo(times + [now], now)
    ensures Loses(bucket, from, cutoff) ==> Within(times + [now], from, now) != []
  {
    var pruned := Recent(bucket, cutoff);
    PruneAgreesIff(bucket, times, from, cutoff, now);
    UpToAppend(pruned, now);
    UpToAppend(times, now);
    AppendAgrees(pruned, times, from, now);
    WithinAppend(times, now, from, now);
  }

  // The bucket of the request before eviction, and its history.
  lemma OwnBucket(c: Config, l: Ledger, r: Request)
    ensures var key := KeyOf(r.client);
      var pruned := Recent(Bucket(l.hits, key), r.time - BudgetOf(c, r.client).window);
      var bucket := Bucket(Grown(c, l.hits, r), key);
      var times := TimesOf(Serve(c, l, r).accepted, key);
      || (bucket == pruned && times == TimesOf(l.accepted, key))
      || (bucket == pruned + [r.time] && times == TimesOf(l.accepted, key) + [r.time])
  {
    ServeIs(c, l, r, KeyOf(r.client));
  }

  ghost predicate AgreesUnless(bucket: seq<real>, times: seq<real>, from: real, now: real, lost: bool) {
    && UpTo(bucket, now) && UpTo(times, now)
    && (Agree(bucket, times, from, now) <==> !lost) && (lost ==> Within(times, from, now) != [])
  }

  lemma OwnAgrees(before: seq<real>, times: seq<real>, from: real, cutoff: real, now: real,
                  bucket: seq<real>, after: seq<real>)
    ensures Agree(before, times, from, now)
            && ((bucket == Recent(before, cutoff) && after == times)
                || (bucket == Recent(before, cutoff) + [now] && after == times + [now])) ==>
              AgreesUnless(bucket, after, from, now, Loses(before, from, cutoff))
  {
    if Agree(before, times, from, now) {
      PruneAgreesIff(before, times, from, cutoff, now);
      HitAgreesIff(before, times, from, cutoff, now);
    }
  }

  lemma OwnGrownAgrees(c: Config, l: Ledger, r: Request, from: real, after: seq<real>)
    requires after == TimesOf(Serve(c, l, r).accepted, KeyOf(r.client))
    ensures var key := KeyOf(r.client);
      Agree(Bucket(l.hits, key), TimesOf(l.accepted, key), from, r.time) ==>
        AgreesUnless(Bucket(Grown(c, l.hits, r), key), after, from, r.time,
                     Loses(Bucket(l.hits, key), from, r.time - BudgetOf(c, r.client).window))
  {
    var key := KeyOf(r.client);
    OwnBucket(c, l, r);
    OwnAgrees(Bucket(l.hits, key), TimesOf(l.accepted, key), from, r.time - BudgetOf(c, r.client).window, r.time,
              Bucket(Grown(c, l.hits, r), key), after);
  }

  lemma OtherGrownAgrees(c: Config, l: Ledger, r: Request, key: string)
    requires KeyOf(r.client) != key
    ensures Bucket(Grown(c, l.hits, r), key) == Bucket(l.hits, key)
    ensures TimesOf(Serve(c, l, r).accepted, key) == TimesOf(l.accepted, key)
  {
    ServeIs(c, l, r, key);
  }

  // Before eviction, only pruning can lose anything.
  lemma GrownAgreesIff(c: Config, l: Ledger, r: Request, key: string, window: real)
    requires Exact(l, key, window, r.time)
    ensures AgreesUnless(Bucket(Grown(c, l.hits, r), key), TimesOf(Serve(c, l, r).accepted, key),
                         r.time - window, r.time, Prunes(c, l, r, key, window))
  {
    if KeyOf(r.client) == key {
      OwnGrownAgrees(c, l, r, r.time - window, TimesOf(Serve(c, l, r).accepted, key));
    } else {
      OtherGrownAgrees(c, l, r, key);
    }
  }

  // Dropping the bucket is harmless exactly when it holds nothing needed.
  lemma DroppedAgreesIff(bucket: seq<real>, times: seq<real>, from: real, now: real, lost: bool)
    requires AgreesUnless(bucket, times, from, now, lost)
    ensures Agree([], times, from, now) <==> !lost && Stale(bucket, from)
  {
    NoneWithin(bucket, from, now);
    assert Within([], from, now) == [];
  }

  lemma LeftAgreesIff(left: seq<real>, bucket: seq<real>, times: seq<real>, from: real, now: real, lost: bool,
                      dropped: bool)
    ensures AgreesUnless(bucket, times, from, now, lost) && left == (if dropped then [] else bucket) ==>
              (Agree(left, times, from, now) <==> !(lost || (dropped && !Stale(bucket, from))))
  {
    if AgreesUnless(bucket, times, from, now, lost) {
      DroppedAgreesIff(bucket, times, from, now, lost);
    }
  }

  // The request makes the bucket forget a hit that the window still needs: it
  // prunes the hit, or drops the bucket that holds it.
  ghost predicate Forgets(c: Config, l: Ledger, r: Request, key: string, window: real) {
    || Prunes(c, l, r, key, window)
    || (Evicts(c, l, r, key) && !Stale(Bucket(Grown(c, l.hits, r), key), r.time - window))
  }

  // What a request leaves of a bucket, beside its history.
  lemma ServeLeaves(c: Config, l: Ledger, r: Request, key: string, window: real, left: seq<real>, times: seq<real>)
    requires Exact(l, key, window, r.time)
    requires left == Bucket(Serve(c, l, r).hits, key) && times == TimesOf(Serve(c, l, r).accepted, key)
    ensures Agree(left, times, r.time - window, r.time) <==> !Forgets(c, l, r, key, window)
  {
    ServeIs(c, l, r, key);
    GrownAgreesIff(c, l, r, key, window);
    LeftAgreesIff(left, Bucket(Grown(c, l.hits, r), key), times, r.time - window, r.time,
                  Prunes(c, l, r, key, window), Evicts(c, l, r, key));
  }

  // Nothing else loses a bucket its exactness.
  lemma ServeKeepsExactIff(c: Config, l: Ledger, r: Request, key: string, window: real)
    requires Exact(l, key, window, r.time)
    ensures Exact(Serve(c, l, r), key, window, r.time) <==> !Forgets(c, l, r, key, window)
  {
    ServeLeaves(c, l, r, key, window, Bucket(Serve(c, l, r).hits, key), TimesOf(Serve(c, l, r).accepted, key));
  }

  // After request i.
  ghost predicate ExactAfter(c: Config, requests: seq<Request>, key: string, window: real, i: nat)
    requires i < |requests|
  {
    Exact(Served(c, requests[..i + 1]), key, window, requests[i].time)
  }

  ghost predicate ForgetsAt(c: Config, requests: seq<Request>, key: string, window: real, i: nat)
    requires i < |requests|
  {
    Forgets(c, Served(c, requests[..i]), requests[i], key, window)
  }

  lemma ExactNextIff(c: Config, requests: seq<Request>, key: string, window: real, i: nat)
    requires Monotone(requests) && i < |requests| && (i > 0 ==> ExactAfter(c, requests, key, window, i - 1))
    ensures ExactAfter(c, requests, key, window, i) <==> !ForgetsAt(c, requests, key, window, i)
  {
    var before := Served(c, requests[..i]);
    if i > 0 {
      ExactLater(before, key, window, requests[i - 1].time, requests[i].time);
    } else {
      assert before == EMPTY;
    }
    assert requests[..i + 1][..i] == requests[..i];
    ServeKeepsExactIff(c, before, requests[i], key, window);
  }

  lemma {:induction false} ExactUntilForgotten(c: Config, requests: seq<Request>, key: string, window: real, i: nat)
    requires Monotone(requests) && i < |requests|
    requires forall j :: 0 <= j < |requests| ==> !ForgetsAt(c, requests, key, window, j)
    ensures ExactAfter(c, requests, key, window, i)
  {
    if i > 0 {
      ExactUntilForgotten(c, requests, key, window, i - 1);
    }
    ExactNextIff(c, requests, key, window, i);
  }

  // Over every run, for any window: a bucket is exact after every request
  // exactly when no request made it forget a hit the window still needed.
  lemma RunIsExactIff(c: Config, requests: seq<Request>, key: string, window: real)
    requires Monotone(requests)
    ensures (forall i :: 0 <= i < |requests| ==> ExactAfter(c, requests, key, window, i)) <==>
            (forall i :: 0 <= i < |requests| ==> !ForgetsAt(c, requests, key, window, i))
  {
    if forall i :: 0 <= i < |requests| ==> ExactAfter(c, requests, key, window, i) {
      forall i | 0 <= i < |requests| ensures !ForgetsAt(c, requests, key, window, i) {
        ExactNextIff(c, requests, key, window, i);
      }
    }
    if forall i :: 0 <= i < |requests| ==> !ForgetsAt(c, requests, key, window, i) {
      forall i | 0 <= i < |requests| ensures ExactAfter(c, requests, key, window, i) {
        ExactUntilForgotten(c, requests, key, window, i);
      }
    }
  }

  // No longer than either window: with equal windows, that of every request.
  predicate Shortest(c: Config, window: real) {
    window <= c.general.window && window <= c.credential.window
  }

  lemma StaleLater(bucket: seq<real>, cutoff: real, later: real)
    requires Stale(bucket, cutoff) && cutoff <= later
    ensures Stale(bucket, later)
  {
  }

  lemma ServeKeepsExact(c: Config, l: Ledger, r: Request, key: string, window: real)
    requires Exact(l, key, window, r.time) && Shortest(c, window)
    ensures Exact(Serve(c, l, r), key, window, r.time)
  {
    if Evicts(c, l, r, key) {
      StaleLater(Bucket(Grown(c, l.hits, r), key), r.time - BudgetOf(c, r.client).window, r.time - window);
    }
    ServeKeepsExactIff(c, l, r, key, window);
  }

  // Over every run, idle-bucket eviction included.
  lemma {:induction false} EveryRunIsExact(c: Config, requests: seq<Request>, key: string, window: real, now: real)
    requires Monotone(requests) && Shortest(c, window)
    requires requests != [] ==> requests[|requests| - 1].time <= now
    ensures Exact(Served(c, requests), key, window, now)
  {
    if requests != [] {
      var front, r := requests[..|requests| - 1], requests[|requests| - 1];
      EveryRunIsExact(c, front, key, window, r.time);
      ServeKeepsExact(c, Served(c, front), r, key, window);
      ExactLater(Served(c, requests), key, window, r.time, now);
    }
  }

  // ------------------------------------------------------------------
  // Consequences
  // ------------------------------------------------------------------

  lemma MonotoneFront(requests: seq<Request>, r: Request)
    requires Monotone(requests + [r])
    ensures Monotone(requests) && (requests != [] ==> requests[|requests| - 1].time <= r.time)
    ensures (requests + [r])[..|requests|] == requests
  {
    var all := requests + [r];
    forall i, j | 0 <= i < j < |requests| ensures requests[i].time <= requests[j].time {
      assert all[i].time <= all[j].time;
    }
    assert requests != [] ==> all[|requests| - 1].time <= all[|requests|].time;
  }

  // After a request its deque is the accepted history in the closed window.
  lemma DequeIsTheWindow(c: Config, requests: seq<Request>, r: Request)
    requires Monotone(requests + [r]) && Shortest(c, BudgetOf(c, r.client).window)
    requires BudgetOf(c, r.client).window >= 0.0
    ensures var l := Served(c, requests + [r]);
      Bucket(l.hits, KeyOf(r.client)) ==
      Within(TimesOf(l.accepted, KeyOf(r.client)), r.time - BudgetOf(c, r.client).window, r.time)
  {
    MonotoneFront(requests, r);
    EveryRunIsExact(c, requests, KeyOf(r.client), BudgetOf(c, r.client).window, r.time);
    StepLeavesTheWindow(c, Served(c, requests), r);
  }

  lemma StepLeavesTheWindow(c: Config, l: Ledger, r: Request)
    requires Exact(l, KeyOf(r.client), BudgetOf(c, r.client).window, r.time) && BudgetOf(c, r.client).window >= 0.0
    ensures Bucket(Serve(c, l, r).hits, KeyOf(r.client)) ==
      Within(TimesOf(Serve(c, l, r).accepted, KeyOf(r.client)), r.time - BudgetOf(c, r.client).window, r.time)
  {
    var key, from := KeyOf(r.client), r.time - BudgetOf(c, r.client).window;
    ServeIs(c, l, r, key);
    RecentIsAgreed(Bucket(l.hits, key), TimesOf(l.accepted, key), from, r.time);
    FreshBucketStays(c, l, r);
  }

  lemma RecentIsAgreed(bucket: seq<real>, times: seq<real>, from: real, now: real)
    requires Agree(bucket, times, from, now) && from <= now
    ensures Recent(bucket, from) == Within(times, from, now)
    ensures Recent(bucket, from) + [now] == Within(times + [now], from, now)
  {
    RecentIsWindow(bucket, from, now);
    WithinAppend(times, now, from, now);
  }

  // The bucket just appended to is not idle.
  lemma FreshBucketStays(c: Config, l: Ledger, r: Request)
    requires BudgetOf(c, r.client).window >= 0.0
    ensures !Evicts(c, l, r, KeyOf(r.client))
  {
  }

  // No closed window of the whole run, wherever it starts, holds more accepted
  // requests of a bucket than the largest budget of those that share it.
  lemma {:induction false} NoWindowOverflows(c: Config, requests: seq<Request>, key: string, window: real,
                                             most: nat, start: real)
    requires Monotone(requests) && Shortest(c, window)
    requires forall r :: r in requests && KeyOf(r.client) == key ==> BudgetOf(c, r.client).max <= most
    ensures |Within(TimesOf(Served(c, requests).accepted, key), start, start + window)| <= most
  {
    if requests != [] {
      var front, r := requests[..|requests| - 1], requests[|requests| - 1];
      NoWindowOverflows(c, front, key, window, most, start);
      EveryRunIsExact(c, front, key, window, r.time);
      OneMoreFits(c, Served(c, front), r, key, window, most, start);
    }
  }

  lemma OneMoreFits(c: Config, l: Ledger, r: Request, key: string, window: real, most: nat, start: real)
    requires Exact(l, key, window, r.time) && Shortest(c, window)
    requires KeyOf(r.client) == key ==> BudgetOf(c, r.client).max <= most
    requires |Within(TimesOf(l.accepted, key), start, start + window)| <= most
    ensures |Within(TimesOf(Serve(c, l, r).accepted, key), start, start + window)| <= most
  {
    ServeIs(c, l, r, key);
    if KeyOf(r.client) == key && Admit(c, l.hits, r.client, r.time).1 == Accepted {
      AcceptedHasRoom(c, l.hits, r.client, r.time);
      RoomForOne(Bucket(l.hits, key), TimesOf(l.accepted, key), r.time - BudgetOf(c, r.client).window, r.time,
                 start, window, most);
    }
  }

  lemma AcceptedHasRoom(c: Config, hits: Hits, client: Client, now: real)
    requires Admit(c, hits, client, now).1 == Accepted
    ensures |Recent(Bucket(hits, KeyOf(client)), now - BudgetOf(c, client).window)| < BudgetOf(c, client).max
  {
  }

  lemma RoomForOne(bucket: seq<real>, times: seq<real>, cutoff: real, now: real, start: real, window: real, most: nat)
    ensures Agree(bucket, times, now - window, now) && cutoff <= now - window && |Recent(bucket, cutoff)| < most
            && |Within(times, start, start + window)| <= most ==>
              |Within(times + [now], start, start + window)| <= most
  {
    RoomLeft(bucket, times, now - window, cutoff, now, most);
    RoomInWindow(times, now, start, window, most);
  }

  // A bucket with room for one more says so of the shorter window too.
  lemma RoomLeft(bucket: seq<real>, times: seq<real>, from: real, cutoff: real, now: real, most: nat)
    ensures Agree(bucket, times, from, now) && cutoff <= from && |Recent(bucket, cutoff)| < most ==>
              UpTo(times, now) && |Within(times, from, now)| < most
  {
    if Agree(bucket, times, from, now) && cutoff <= from {
      RecentIsWindow(bucket, cutoff, now);
      WithinIsFewer(bucket, cutoff, now, from, now);
    }
  }

  lemma RoomInWindow(times: seq<real>, now: real, start: real, w: real, most: nat)
    ensures UpTo(times, now) && |Within(times, now - w, now)| < most && |Within(times, start, start + w)| <= most ==>
              |Within(times + [now], start, start + w)| <= most
  {
    var to := start + w;
    WithinAppend(times, now, start, to);
    if UpTo(times, now) && start <= now <= to {
      ClampTop(times, start, to, now);
      assert now - w <= start;
      WithinIsFewer(times, now - w, now, start, now);
    }
  }

  lemma {:induction false} ClampTop(s: seq<real>, from: real, to: real, clock: real)
    requires UpTo(s, clock) && clock <= to
    ensures Within(s, from, to) == Within(s, from, clock)
  {
    if s != [] {
      ClampTop(s[..|s| - 1], from, to, clock);
    }
  }

  // ------------------------------------------------------------------
  // Calls, and what they are counted against
  // ------------------------------------------------------------------

  // One HTTP request as the middleware sees it: credential is what it presents,
  // or its address when it presents nothing.
  datatype Call = Call(path: string, credential: string, address: string, time: real)

  function RequestOf(c: Config, call: Call): Request {
    Request(ClientOf(c, call.path, call.credential, call.address), call.time)
  }

  // Calls to exempt paths pass by.
  function Requests(c: Config, calls: seq<Call>): seq<Request> {
    if calls == [] then []
    else
      var front, last := Requests(c, calls[..|calls| - 1]), calls[|calls| - 1];
      if last.path in c.exempt then front else front + [RequestOf(c, last)]
  }

  // What the limiter holds after the calls.
  function Handled(c: Config, calls: seq<Call>): Ledger {
    Served(c, Requests(c, calls))
  }

  function AnswerTo(c: Config, l: Ledger, call: Call): Outcome {
    if call.path in c.exempt then Exempt else Admit(c, l.hits, RequestOf(c, call).client, call.time).1
  }

  lemma ServedNext(c: Config, requests: seq<Request>, r: Request)
    ensures Served(c, requests + [r]) == Serve(c, Served(c, requests), r)
  {
    assert (requests + [r])[..|requests|] == requests;
  }

  lemma HandledNext(c: Config, calls: seq<Call>, call: Call)
    ensures Handled(c, calls + [call]) ==
            if call.path in c.exempt then Handled(c, calls) else Serve(c, Handled(c, calls), RequestOf(c, call))
  {
    assert (calls + [call])[..|calls|] == calls;
    ServedNext(c, Requests(c, calls), RequestOf(c, call));
  }

  // A credential path is one of those listed with anything behind it.
  lemma StrictIff(c: Config, path: string)
    ensures OnCredentialPath(c, path) <==>
            exists i, rest :: 0 <= i < |c.credentialPaths| && path == c.credentialPaths[i] + rest
  {
    forall i | 0 <= i < |c.credentialPaths|
      ensures StartsWith(path, c.credentialPaths[i]) <==> exists rest :: path == c.credentialPaths[i] + rest
    {
      var listed := c.credentialPaths[i];
      if StartsWith(path, listed) {
        assert path == listed + path[|listed|..];
      }
    }
  }

  // Which calls are counted together: on credential paths those from one
  // address, elsewhere those with one credential, wherever they come from; and
  // across the two only where a credential spells the suffix out.
  lemma CountedTogetherIff(c: Config, a: Call, b: Call)
    ensures var strictA, strictB := OnCredentialPath(c, a.path), OnCredentialPath(c, b.path);
      KeyOf(RequestOf(c, a).client) == KeyOf(RequestOf(c, b).client) <==>
        if strictA && strictB then a.address == b.address
        else if !strictA && !strictB then a.credential == b.credential
        else if strictA then b.credential == a.address + SUFFIX
        else a.credential == b.address + SUFFIX
  {
    SameKeyIff(RequestOf(c, a).client, RequestOf(c, b).client);
  }

  // When the calls were let in that went to credential paths from the address,
  // whatever they presented.
  function LoginTimes(c: Config, calls: seq<Call>, address: string): seq<real> {
    if calls == [] then []
    else
      var front, last := calls[..|calls| - 1], calls[|calls| - 1];
      var times := LoginTimes(c, front, address);
      if OnCredentialPath(c, last.path) && last.address == address && AnswerTo(c, Handled(c, front), last) == Accepted
      then times + [last.time] else times
  }

  // When those to other paths were let in that presented the credential.
  function VisitTimes(c: Config, calls: seq<Call>, credential: string): seq<real> {
    if calls == [] then []
    else
      var front, last := calls[..|calls| - 1], calls[|calls| - 1];
      var times := VisitTimes(c, front, credential);
      if !OnCredentialPath(c, last.path) && last.credential == credential
         && AnswerTo(c, Handled(c, front), last) == Accepted
      then times + [last.time] else times
  }

  function TimesBy(accepted: seq<Request>, client: Client): seq<real> {
    if accepted == [] then []
    else
      var last := accepted[|accepted| - 1];
      var front := TimesBy(accepted[..|accepted| - 1], client);
      if last.client == client then front + [last.time] else front
  }

  lemma TimesByNext(accepted: seq<Request>, r: Request, client: Client)
    ensures TimesBy(accepted + [r], client) ==
            if r.client == client then TimesBy(accepted, client) + [r.time] else TimesBy(accepted, client)
  {
    assert (accepted + [r])[..|accepted|] == accepted;
  }

  lemma {:induction false} CallTimesAre(c: Config, calls: seq<Call>, who: string)
    ensures LoginTimes(c, calls, who) == TimesBy(Handled(c, calls).accepted, Client(who, true))
    ensures VisitTimes(c, calls, who) == TimesBy(Handled(c, calls).accepted, Client(who, false))
  {
    if calls != [] {
      var front, last := calls[..|calls| - 1], calls[|calls| - 1];
      assert calls == front + [last];
      CallTimesAre(c, front, who);
      HandledNext(c, front, last);
      TimesByNext(Handled(c, front).accepted, RequestOf(c, last), Client(who, true));
      TimesByNext(Handled(c, front).accepted, RequestOf(c, last), Client(who, false));
    }
  }

  // One client's requests are some of those in its bucket.
  lemma {:induction false} SomeOfTheBucket(accepted: seq<Request>, client: Client, from: real, to: real)
    ensures |Within(TimesBy(accepted, client), from, to)| <= |Within(TimesOf(accepted, KeyOf(client)), from, to)|
  {
    if accepted != [] {
      var front, last := accepted[..|accepted| - 1], accepted[|accepted| - 1];
      SomeOfTheBucket(front, client, from, to);
      WithinAppend(TimesOf(front, KeyOf(client)), last.time, from, to);
      WithinAppend(TimesBy(front, client), last.time, from, to);
    }
  }

  lemma {:induction false} InOrderAlone(accepted: seq<Request>, client: Client, now: real)
    requires UpTo(TimesOf(accepted, KeyOf(client)), now)
    ensures UpTo(TimesBy(accepted, client), now)
  {
    if accepted != [] {
      var front, last := accepted[..|accepted| - 1], accepted[|accepted| - 1];
      if KeyOf(last.client) == KeyOf(client) {
        LastOfOrdered(TimesOf(front, KeyOf(client)), last.time, now);
        InOrderAlone(front, client, last.time);
        OrderedTo(TimesBy(front, client), last.time, now);
      } else {
        InOrderAlone(front, client, now);
      }
    }
  }

  lemma LastOfOrdered(s: seq<real>, t: real, now: real)
    requires UpTo(s + [t], now)
    ensures UpTo(s, t) && t <= now
  {
    assert (s + [t])[..|s|] == s;
  }

  lemma OrderedTo(s: seq<real>, t: real, now: real)
    requires UpTo(s, t) && t <= now
    ensures UpTo(s + [t], now)
    ensures UpTo(s, now)
  {
    assert (s + [t])[..|s|] == s;
  }

  // In no closed window are more of a client's requests let in than its own
  // budget, whoever else shares the bucket.
  lemma {:induction false} NoClientOverflows(c: Config, requests: seq<Request>, client: Client, window: real,
                                             most: nat, start: real)
    requires Monotone(requests) && Shortest(c, window) && BudgetOf(c, client).max <= most
    ensures |Within(TimesBy(Served(c, requests).accepted, client), start, start + window)| <= most
  {
    if requests != [] {
      var front, r := requests[..|requests| - 1], requests[|requests| - 1];
      NoClientOverflows(c, front, client, window, most, start);
      EveryRunIsExact(c, front, KeyOf(client), window, r.time);
      ClientFits(c, Served(c, front), r, client, window, most, start);
    }
  }

  lemma ClientFits(c: Config, l: Ledger, r: Request, client: Client, window: real, most: nat, start: real)
    requires Exact(l, KeyOf(client), window, r.time) && Shortest(c, window) && BudgetOf(c, client).max <= most
    requires |Within(TimesBy(l.accepted, client), start, start + window)| <= most
    ensures |Within(TimesBy(Serve(c, l, r).accepted, client), start, start + window)| <= most
  {
    TimesByNext(l.accepted, r, client);
    if r.client == client && Admit(c, l.hits, client, r.time).1 == Accepted {
      AcceptedHasRoom(c, l.hits, client, r.time);
      RoomLeft(Bucket(l.hits, KeyOf(client)), TimesOf(l.accepted, KeyOf(client)), r.time - window,
               r.time - BudgetOf(c, client).window, r.time, most);
      SomeOfTheBucket(l.accepted, client, r.time - window, r.time);
      InOrderAlone(l.accepted, client, r.time);
      RoomInWindow(TimesBy(l.accepted, client), r.time, start, window, most);
    }
  }

  lemma {:induction false} RequestsAreMonotone(c: Config, calls: seq<Call>)
    requires forall i, j :: 0 <= i < j < |calls| ==> calls[i].time <= calls[j].time
    ensures Monotone(Requests(c, calls))
    ensures forall r :: r in Requests(c, calls) ==> calls != [] && r.time <= calls[|calls| - 1].time
  {
    if calls != [] {
      var front, last := calls[..|calls| - 1], calls[|calls| - 1];
      RequestsAreMonotone(c, front);
      forall r | r in Requests(c, front) ensures r.time <= last.time {
        assert calls[|front| - 1].time <= last.time;
      }
      LatestLast(Requests(c, front), RequestOf(c, last));
    }
  }

  lemma LatestLast(requests: seq<Request>, r: Request)
    requires Monotone(requests) && forall q :: q in requests ==> q.time <= r.time
    ensures Monotone(requests + [r])
  {
    var all := requests + [r];
    forall i, j | 0 <= i < j < |all| ensures all[i].time <= all[j].time {
      assert all[i] in requests;
      if j < |requests| {
        assert requests[i].time <= requests[j].time;
      }
    }
  }

  // Under a monotone clock, and for windows no longer than either budget's: in
  // no closed window are more logins from one address let in than the
  // credential budget, however many credentials they try; and no more other
  // calls with one credential than the general budget, from however many
  // addresses.
  lemma LoginsAreBounded(c: Config, calls: seq<Call>, who: string, window: real, start: real)
    requires forall i, j :: 0 <= i < j < |calls| ==> calls[i].time <= calls[j].time
    requires Shortest(c, window) && c.credential.max >= 0 && c.general.max >= 0
    ensures |Within(LoginTimes(c, calls, who), start, start + window)| <= c.credential.max
    ensures |Within(VisitTimes(c, calls, who), start, start + window)| <= c.general.max
  {
    RequestsAreMonotone(c, calls);
    CallTimesAre(c, calls, who);
    NoClientOverflows(c, Requests(c, calls), Client(who, true), window, c.credential.max, start);
    NoClientOverflows(c, Requests(c, calls), Client(who, false), window, c.general.max, start);
  }

  // ------------------------------------------------------------------
  // Unequal windows
  // ------------------------------------------------------------------

  // One login in two minutes, one minute for the rest.
  const UNEQUAL := Config(Budget(300, 60.0), Budget(1, 120.0), {"/health"}, ["/api/auth/login"])

  const LOGIN := "/api/auth/login"

  const GENERAL := "/api/workflows"

  const CALLER := "ip:192.0.2.1"

  function LoginAt(time: real): Call {
    Call(LOGIN, CALLER, CALLER, time)
  }

  function Address(n: nat): string {
    "ip:2001:db8::" + Str(n)
  }

  function Visit(n: nat): Call {
    Call(GENERAL, Address(n), Address(n), 61.0)
  }

  // A login, and a minute later n visits from n other addresses.
  function Crowd(n: nat): seq<Call> {
    if n == 0 then [LoginAt(0.0)] else Crowd(n - 1) + [Visit(n - 1)]
  }

  function CallersKey(): string {
    CALLER + SUFFIX
  }

  lemma LoginIsStrict(time: real)
    ensures RequestOf(UNEQUAL, LoginAt(time)) == Request(Client(CALLER, true), time)
    ensures KeyOf(Client(CALLER, true)) == CallersKey()
  {
    assert LOGIN[..|LOGIN|] == LOGIN;
    assert StartsWith(LOGIN, UNEQUAL.credentialPaths[0]);
  }

  lemma VisitIsGeneral(n: nat)
    ensures RequestOf(UNEQUAL, Visit(n)) == Request(Client(Address(n), false), 61.0)
    ensures KeyOf(Client(Address(n), false)) == Address(n)
  {
    assert GENERAL[..|LOGIN| - 1][5] != LOGIN[5];
  }

  // All are accepted, and the caller's bucket is still there.
  ghost predicate Crowded(l: Ledger, n: nat) {
    && |l.hits| == n + 1 && CallersKey() in l.hits && l.hits[CallersKey()] == [0.0]
    && (forall k :: k in l.hits && k != CallersKey() ==> exists i: nat :: i < n && k == Address(i))
    && TimesOf(l.accepted, CallersKey()) == [0.0]
  }

  lemma CallerIsNobodyElse(n: nat)
    ensures Address(n) != CallersKey()
  {
    assert Address(n)[3] == '2' && CallersKey()[3] == '1';
  }

  lemma AddressesDiffer(m: nat, n: nat)
    requires Address(m) == Address(n)
    ensures m == n
  {
    assert Str(m) == Address(m)[|"ip:2001:db8::"|..] && Str(n) == Address(n)[|"ip:2001:db8::"|..];
    StrInjective(m, n);
  }

  function After(calls: seq<Call>): Ledger {
    Handled(UNEQUAL, calls)
  }

  lemma AfterNext(calls: seq<Call>, call: Call)
    requires call.path == LOGIN || call.path == GENERAL
    ensures After(calls + [call]) == Serve(UNEQUAL, After(calls), RequestOf(UNEQUAL, call))
  {
    PathsAreNotExempt();
    HandledNext(UNEQUAL, calls, call);
  }

  lemma PathsAreNotExempt()
    ensures LOGIN !in UNEQUAL.exempt && GENERAL !in UNEQUAL.exempt
  {
    assert |LOGIN| != |"/health"| && |GENERAL| != |"/health"|;
  }

  lemma FirstLogin(r: Request)
    requires r == Request(Client(CALLER, true), 0.0)
    ensures Serve(UNEQUAL, EMPTY, r) == Ledger(map[CallersKey() := [0.0]], [r])
  {
    LoginIsStrict(0.0);
    assert Recent([], 0.0 - 120.0) == [];
    assert [] + [0.0] == [0.0] && [] + [r] == [r];
  }

  lemma OneLogin()
    ensures After(Crowd(0)) == Ledger(map[CallersKey() := [0.0]], [Request(Client(CALLER, true), 0.0)])
  {
    assert Crowd(0) == [] + [LoginAt(0.0)];
    AfterNext([], LoginAt(0.0));
    LoginIsStrict(0.0);
    FirstLogin(Request(Client(CALLER, true), 0.0));
  }

  lemma CallerAlone()
    ensures Crowded(After(Crowd(0)), 0)
  {
    var r := Request(Client(CALLER, true), 0.0);
    OneLogin();
    LoginIsStrict(0.0);
    TimesAppend([], r, CallersKey());
    assert [] + [r] == [r] && [] + [0.0] == [0.0];
  }

  lemma {:induction false} CrowdFills(n: nat)
    requires n < ROOM
    ensures Crowded(After(Crowd(n)), n)
  {
    if n == 0 {
      CallerAlone();
    } else {
      CrowdFills(n - 1);
      CrowdGrows(n - 1);
    }
  }

  lemma CrowdGrows(n: nat)
    requires n + 1 < ROOM && Crowded(After(Crowd(n)), n)
    ensures Crowded(After(Crowd(n + 1)), n + 1)
  {
    AfterNext(Crowd(n), Visit(n));
    VisitIsGeneral(n);
    NewcomerFits(After(Crowd(n)), n, RequestOf(UNEQUAL, Visit(n)));
  }

  // The caller's key is not taken, and neither is that of anyone before.
  lemma Newcomer(l: Ledger, n: nat)
    requires Crowded(l, n)
    ensures Address(n) !in l.hits && Address(n) != CallersKey()
  {
    CallerIsNobodyElse(n);
    if Address(n) in l.hits {
      var i: nat :| i < n && Address(n) == Address(i);
      AddressesDiffer(n, i);
    }
  }

  lemma NewcomerFits(l: Ledger, n: nat, r: Request)
    requires Crowded(l, n) && n + 1 < ROOM && r == Request(Client(Address(n), false), 61.0)
    ensures Crowded(Serve(UNEQUAL, l, r), n + 1)
  {
    Newcomer(l, n);
    VisitIsGeneral(n);
    var after := Serve(UNEQUAL, l, r);
    assert Recent([], 61.0 - 60.0) == [];
    assert |l.hits[Address(n) := [] + [61.0]]| == n + 2;
    assert after.hits == l.hits[Address(n) := [] + [61.0]];
    TimesAppend(l.accepted, r, CallersKey());
    forall k | k in after.hits && k != CallersKey() ensures exists i: nat :: i < n + 1 && k == Address(i) {
      if k != Address(n) {
        var i: nat :| i < n && k == Address(i);
      }
    }
  }

  // In order, and none of them exempt.
  ghost predicate Plausible(calls: seq<Call>) {
    && (forall i, j :: 0 <= i < j < |calls| ==> calls[i].time <= calls[j].time)
    && (forall call :: call in calls ==> call.path !in UNEQUAL.exempt)
  }

  lemma PlausibleNext(calls: seq<Call>, call: Call)
    requires Plausible(calls) && (forall q :: q in calls ==> q.time <= call.time) && call.path !in UNEQUAL.exempt
    ensures Plausible(calls + [call])
  {
    var longer := calls + [call];
    forall i, j | 0 <= i < j < |longer| ensures longer[i].time <= longer[j].time {
      assert longer[i] == calls[i] && calls[i] in calls;
    }
  }

  lemma {:induction false} CrowdIsPlausible(n: nat)
    ensures |Crowd(n)| == n + 1 && Crowd(n)[0] == LoginAt(0.0)
    ensures Plausible(Crowd(n)) && forall call :: call in Crowd(n) ==> call.time <= 61.0
  {
    PathsAreNotExempt();
    if n > 0 {
      CrowdIsPlausible(n - 1);
      PlausibleNext(Crowd(n - 1), Visit(n - 1));
    }
  }

  lemma {:induction false} CrowdAt(n: nat)
    ensures |Crowd(n)| == n + 1 && forall i :: 0 < i <= n ==> Crowd(n)[i] == Visit(i - 1)
  {
    if n > 0 {
      CrowdAt(n - 1);
    }
  }

  // The newcomer that makes the table overflow drops the caller's bucket.
  lemma LastStraw(l: Ledger, n: nat, r: Request)
    requires Crowded(l, n) && n + 1 == ROOM && r == Request(Client(Address(n), false), 61.0)
    ensures CallersKey() !in Serve(UNEQUAL, l, r).hits
    ensures TimesOf(Serve(UNEQUAL, l, r).accepted, CallersKey()) == [0.0]
  {
    Newcomer(l, n);
    VisitIsGeneral(n);
    assert Recent([], 61.0 - 60.0) == [];
    assert |l.hits[Address(n) := [] + [61.0]]| == ROOM + 1;
    TimesAppend(l.accepted, r, CallersKey());
  }

  lemma LetInAgain(l: Ledger, r: Request)
    requires CallersKey() !in l.hits && TimesOf(l.accepted, CallersKey()) == [0.0]
    requires r == Request(Client(CALLER, true), 61.0)
    ensures |Within(TimesOf(Serve(UNEQUAL, l, r).accepted, CallersKey()), 0.0, 120.0)| == 2
  {
    LoginIsStrict(61.0);
    TimesAppend(l.accepted, r, CallersKey());
    assert [0.0] + [61.0] == [0.0, 61.0];
    assert [0.0, 61.0][..1] == [0.0] && [0.0][..0] == [];
  }

  lemma ForgottenAfter(n: nat)
    requires n + 1 == ROOM
    ensures |Within(TimesOf(After(Crowd(n + 1) + [LoginAt(61.0)]).accepted, CallersKey()), 0.0, 120.0)| == 2
  {
    var r := RequestOf(UNEQUAL, Visit(n));
    CrowdFills(n);
    AfterNext(Crowd(n), Visit(n));
    VisitIsGeneral(n);
    LastStraw(After(Crowd(n)), n, r);
    AfterNext(Crowd(n + 1), LoginAt(61.0));
    LoginIsStrict(61.0);
    LetInAgain(After(Crowd(n + 1)), RequestOf(UNEQUAL, LoginAt(61.0)));
  }

  lemma ForgottenCalls(n: nat) returns (calls: seq<Call>)
    requires n == ROOM
    ensures Plausible(calls) && |calls| == n + 2 && calls[0] == LoginAt(0.0) && calls[n + 1] == LoginAt(61.0)
    ensures forall i :: 0 < i <= n ==> calls[i] == Visit(i - 1)
    ensures |Within(TimesOf(After(calls).accepted, CallersKey()), 0.0, 120.0)| == 2
  {
    CrowdAt(n);
    CrowdIsPlausible(n);
    PathsAreNotExempt();
    PlausibleNext(Crowd(n), LoginAt(61.0));
    calls := Crowd(n) + [LoginAt(61.0)];
    ForgottenAfter(n - 1);
  }

  // With unequal windows eviction forgets: 1024 visits in between, and the
  // caller is let in twice within the window that has room for one.
  lemma EvictionForgets() returns (calls: seq<Call>)
    ensures Plausible(calls) && |calls| == ROOM + 2
    ensures calls[0] == LoginAt(0.0) && calls[ROOM + 1] == LoginAt(61.0)
    ensures forall i :: 0 < i <= ROOM ==> calls[i] == Visit(i - 1)
    ensures BudgetOf(UNEQUAL, RequestOf(UNEQUAL, LoginAt(0.0)).client) == Budget(1, 120.0)
    ensures |Within(TimesOf(After(calls).accepted, CallersKey()), 0.0, 120.0)| == 2
  {
    LoginIsStrict(0.0);
    calls := ForgottenCalls(ROOM);
  }
}
