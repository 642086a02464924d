/** What the limiter promises over whole runs. */
module RateTheorems {
  import opened Common
  import opened RateSpec

  /** One request against a single bucket. */
  datatype Hit = Hit(at: real, cost: real)

  /** One step of the limiter: a request, or what a cleanup does to one shard of the table.
      A cleanup reads the clock once, before its first shard. */
  datatype Event = Request(ip: Ip, at: real, cost: real) | Cleanup(at: real, maxAge: nat, shard: set<Ip>)

  datatype Command = Status | Auth | Upload | Download | Echo

  function CommandCost(c: Command): real {
    match c
    case Status => 1.0
    case Auth => 2.0
    case Upload => 5.0
    case Download => 5.0
    case Echo => 1.5
  }

  // ---- A single bucket -------------------------------------------------------

  function After(l: Limits, b: Bucket, hits: seq<Hit>): Bucket {
    if hits == [] then b
    else
      var n := |hits| - 1;
      Consumed(l, After(l, b, hits[..n]), hits[n].at, hits[n].cost).0
  }

  predicate Allows(l: Limits, b: Bucket, hits: seq<Hit>, next: Hit) {
    Consumed(l, After(l, b, hits), next.at, next.cost).1
  }

  function Answers(l: Limits, b: Bucket, hits: seq<Hit>): (r: seq<bool>)
    ensures |r| == |hits|
  {
    if hits == [] then []
    else
      var n := |hits| - 1;
      Answers(l, b, hits[..n]) + [Allows(l, b, hits[..n], hits[n])]
  }

  ghost predicate InOrder(hits: seq<Hit>) {
    forall i, j :: 0 <= i < j < |hits| ==> hits[i].at <= hits[j].at
  }

  /** The cost granted to the requests that fall in the window [from, to]. */
  function GrantedIn(hits: seq<Hit>, answers: seq<bool>, from: real, to: real): real
    requires |hits| == |answers|
  {
    if hits == [] then 0.0
    else
      var n := |hits| - 1;
      GrantedIn(hits[..n], answers[..n], from, to)
      + if answers[n] && from <= hits[n].at <= to then hits[n].cost else 0.0
  }

  /** How many requests that cost `cost` were granted in the window. */
  function AdmittedIn(hits: seq<Hit>, answers: seq<bool>, cost: real, from: real, to: real): nat
    requires |hits| == |answers|
  {
    if hits == [] then 0
    else
      var n := |hits| - 1;
      AdmittedIn(hits[..n], answers[..n], cost, from, to)
      + if answers[n] && from <= hits[n].at <= to && hits[n].cost == cost then 1 else 0
  }

  /** The cost granted to requests number i, i+1, ..., n-1. */
  function GrantedBetween(hits: seq<Hit>, answers: seq<bool>, i: nat, n: nat): real
    requires i <= n <= |hits| == |answers|
  {
    if i == n then 0.0
    else GrantedBetween(hits, answers, i, n - 1) + if answers[n - 1] then hits[n - 1].cost else 0.0
  }

  lemma AccruedSplits(l: Limits, a: real, b: real, c: real)
    requires l.Sensible() && a <= b <= c
    ensures 0.0 <= Accrued(l, a, b) <= Accrued(l, a, c)
    ensures 0.0 <= Accrued(l, b, c) <= Accrued(l, a, c)
    ensures Accrued(l, a, b) + Accrued(l, b, c) == Accrued(l, a, c)
  {
    var x, y := b - a, c - b;
    assert x * l.rate >= 0.0;
    assert y * l.rate >= 0.0;
    assert x * l.rate + y * l.rate == (x + y) * l.rate;
  }

  lemma AccruedGrows(l: Limits, a: real, now: real, later: real)
    requires l.Sensible() && now <= later
    ensures 0.0 <= Accrued(l, a, now) <= Accrued(l, a, later)
  {
    if a <= now {
      AccruedSplits(l, a, now, later);
    } else if a <= later {
      AccruedSplits(l, a, a, later);
    }
  }

  /** One request in numbers: what is left plus what was paid is at most what was
      there plus the refill, and never more than a full bucket. */
  lemma ConsumedBound(l: Limits, b: Bucket, at: real, cost: real)
    requires l.Sensible() && 0.0 <= b.tokens <= l.max && b.last <= at && cost >= 0.0
    ensures var (s, ok) := Consumed(l, b, at, cost);
            var paid := if ok then cost else 0.0;
            && s.last == at
            && 0.0 <= s.tokens <= s.tokens + paid <= l.max
            && s.tokens + paid <= b.tokens + Accrued(l, b.last, at)
  {
    AccruedGrows(l, b.last, b.last, at);
  }

  lemma {:induction false} BalanceStaysInRange(l: Limits, b: Bucket, hits: seq<Hit>)
    requires l.Sensible() && 0.0 <= b.tokens <= l.max
    requires InOrder(hits) && (hits != [] ==> b.last <= hits[0].at)
    requires forall h :: h in hits ==> h.cost >= 0.0
    ensures 0.0 <= After(l, b, hits).tokens <= l.max
    ensures hits != [] ==> After(l, b, hits).last == hits[|hits| - 1].at
  {
    if hits != [] {
      var n := |hits| - 1;
      BalanceStaysInRange(l, b, hits[..n]);
      assert hits[n] in hits;
      assert n > 0 ==> hits[..n][n - 1] == hits[n - 1];
      ConsumedBound(l, After(l, b, hits[..n]), hits[n].at, hits[n].cost);
    }
  }

  ghost predicate WindowInvariant(l: Limits, idle: bool, s: Bucket, granted: real, from: real, to: real) {
    if idle || s.last < from then granted == 0.0
    else if s.last <= to then granted + s.tokens <= l.max + Accrued(l, from, s.last)
    else granted <= l.max + Accrued(l, from, to)
  }

  lemma WindowStep(l: Limits, idle: bool, s: Bucket, granted: real, h: Hit, from: real, to: real)
    requires l.Sensible() && 0.0 <= s.tokens <= l.max && s.last <= h.at && h.cost >= 0.0 && from <= to
    requires WindowInvariant(l, idle, s, granted, from, to)
    ensures var (s', ok) := Consumed(l, s, h.at, h.cost);
            var paid := if ok && from <= h.at <= to then h.cost else 0.0;
            WindowInvariant(l, false, s', granted + paid, from, to)
  {
    ConsumedBound(l, s, h.at, h.cost);
    var (s', ok) := Consumed(l, s, h.at, h.cost);
    AccruedGrows(l, from, from, to);
    AccruedGrows(l, from, h.at, h.at);
    if from <= s.last {
      AccruedSplits(l, from, s.last, h.at);
      if s.last <= to { AccruedSplits(l, from, s.last, to); }
    }
  }

  lemma {:induction false} WindowHolds(l: Limits, b: Bucket, hits: seq<Hit>, from: real, to: real)
    requires l.Sensible() && 0.0 <= b.tokens <= l.max
    requires forall h :: h in hits ==> h.cost >= 0.0
    requires InOrder(hits) && (hits != [] ==> b.last <= hits[0].at) && from <= to
    ensures WindowInvariant(l, hits == [], After(l, b, hits), GrantedIn(hits, Answers(l, b, hits), from, to), from, to)
  {
    if hits != [] {
      var n := |hits| - 1;
      var init, h := hits[..n], hits[n];
      WindowHolds(l, b, init, from, to);
      BalanceStaysInRange(l, b, init);
      assert h in hits;
      assert n > 0 ==> init[n - 1] == hits[n - 1];
      assert Answers(l, b, hits)[..n] == Answers(l, b, init);
      WindowStep(l, init == [], After(l, b, init), GrantedIn(init, Answers(l, b, init), from, to), h, from, to);
    }
  }

  lemma WindowEnd(l: Limits, idle: bool, s: Bucket, granted: real, from: real, to: real)
    requires l.Sensible() && s.tokens >= 0.0 && from <= to
    requires WindowInvariant(l, idle, s, granted, from, to)
    ensures granted <= l.max + Accrued(l, from, to)
  {
    AccruedGrows(l, from, from, to);
    if from <= s.last <= to { AccruedSplits(l, from, s.last, to); }
  }

  /** Over any window, a bucket never grants more than a full bucket plus what is
      refilled during the window. */
  lemma WindowBound(l: Limits, t0: real, hits: seq<Hit>, from: real, to: real)
    requires l.Sensible() && InOrder(hits) && from <= to
    requires forall h :: h in hits ==> h.cost >= 0.0
    requires hits != [] ==> t0 <= hits[0].at
    ensures GrantedIn(hits, Answers(l, Fresh(l, t0), hits), from, to) <= l.max + Accrued(l, from, to)
  {
    var b := Fresh(l, t0);
    WindowHolds(l, b, hits, from, to);
    BalanceStaysInRange(l, b, hits);
    WindowEnd(l, hits == [], After(l, b, hits), GrantedIn(hits, Answers(l, b, hits), from, to), from, to);
  }

  /** The line through past request i: a full bucket then, refilled since, less
      everything granted from i on. Index n = |hits| stands for this instant. */
  function Line(l: Limits, hits: seq<Hit>, answers: seq<bool>, i: nat, now: real): real
    requires i <= |hits| == |answers|
  {
    if i == |hits| then l.max
    else l.max + Accrued(l, hits[i].at, now) - GrantedBetween(hits, answers, i, |hits|)
  }

  lemma {:induction false} GrantedBetweenPrefix(hits: seq<Hit>, answers: seq<bool>, i: nat, n: nat)
    requires i <= n < |hits| == |answers|
    ensures GrantedBetween(hits, answers, i, n)
         == GrantedBetween(hits[..|hits| - 1], answers[..|hits| - 1], i, n)
  {
    if i < n { GrantedBetweenPrefix(hits, answers, i, n - 1); }
  }

  lemma LineStep(l: Limits, hits: seq<Hit>, answers: seq<bool>, i: nat, now: real)
    requires l.Sensible() && 0 < |hits| == |answers| && i < |hits|
    requires InOrder(hits) && hits[|hits| - 1].at <= now
    ensures var n := |hits| - 1;
            var spent := if answers[n] then hits[n].cost else 0.0;
            var earlier := Line(l, hits[..n], answers[..n], i, hits[n].at);
            Line(l, hits, answers, i, now) == earlier + Accrued(l, hits[n].at, now) - spent
  {
    var n := |hits| - 1;
    GrantedBetweenPrefix(hits, answers, i, n);
    if i < n {
      assert hits[..n][i] == hits[i];
      AccruedSplits(l, hits[i].at, hits[n].at, now);
    }
  }

  lemma BalanceStep(l: Limits, b: Bucket, h: Hit, now: real)
    requires l.Sensible() && b.last <= h.at <= now
    ensures var (s, ok) := Consumed(l, b, h.at, h.cost);
            var spent := if ok then h.cost else 0.0;
            var carried := Refilled(l, b, h.at).tokens + Accrued(l, h.at, now) - spent;
            && s.last == h.at
            && Refilled(l, s, now).tokens == MinReal(carried, l.max)
  {}

  lemma LastIsTheLastHit(l: Limits, b: Bucket, hits: seq<Hit>)
    requires hits != []
    ensures After(l, b, hits).last == hits[|hits| - 1].at
  {
    var n := |hits| - 1;
    assert After(l, b, hits) == Consumed(l, After(l, b, hits[..n]), hits[n].at, hits[n].cost).0;
  }

  /** The closed form: the refilled balance is the lowest of the lines through all
      past requests, and no other number. */
  lemma {:induction false} BalanceIsTheLowestLine(l: Limits, t0: real, hits: seq<Hit>, now: real)
    returns (lowest: nat)
    requires l.Sensible() && InOrder(hits)
    requires hits != [] ==> t0 <= hits[0].at && hits[|hits| - 1].at <= now
    ensures lowest <= |hits|
    ensures var answers := Answers(l, Fresh(l, t0), hits);
            var balance := Refilled(l, After(l, Fresh(l, t0), hits), now).tokens;
            && balance == Line(l, hits, answers, lowest, now)
            && forall i :: 0 <= i <= |hits| ==> balance <= Line(l, hits, answers, i, now)
  {
    var b := Fresh(l, t0);
    var answers := Answers(l, b, hits);
    if hits == [] {
      AccruedGrows(l, t0, now, now);
      lowest := 0;
    } else {
      var n := |hits| - 1;
      var init, h := hits[..n], hits[n];
      if n > 0 { LastIsTheLastHit(l, b, init); }
      var before := BalanceIsTheLowestLine(l, t0, init, h.at);
      assert answers[..n] == Answers(l, b, init);
      BalanceStep(l, After(l, b, init), h, now);
      var balance := Refilled(l, After(l, b, hits), now).tokens;
      LineStep(l, hits, answers, before, now);
      forall i | 0 <= i <= |hits| ensures balance <= Line(l, hits, answers, i, now) {
        if i < |hits| { LineStep(l, hits, answers, i, now); }
      }
      lowest := if balance == l.max then |hits| else before;
    }
  }

  /** The same line in figures. */
  lemma LineInFigures(l: Limits, hits: seq<Hit>, answers: seq<bool>, i: nat, now: real)
    requires i < |hits| == |answers| && hits[i].at <= now
    ensures Line(l, hits, answers, i, now)
         == l.max + (now - hits[i].at) * l.rate - GrantedBetween(hits, answers, i, |hits|)
  {}

  /** The cost does not exceed the line through past request i, at the refill rate. */
  predicate Affords(l: Limits, hits: seq<Hit>, answers: seq<bool>, i: nat, h: Hit)
    requires i < |hits| == |answers|
  {
    h.cost <= l.max + (h.at - hits[i].at) * l.rate - GrantedBetween(hits, answers, i, |hits|)
  }

  lemma AffordsIsBelowLine(l: Limits, hits: seq<Hit>, answers: seq<bool>, i: nat, h: Hit)
    requires i < |hits| == |answers| && hits[i].at <= h.at
    ensures Affords(l, hits, answers, i, h) <==> h.cost <= Line(l, hits, answers, i, h.at)
  {
    LineInFigures(l, hits, answers, i, h.at);
  }

  lemma AllowedIffBelowLines(l: Limits, t0: real, hits: seq<Hit>, h: Hit)
    requires l.Sensible() && InOrder(hits)
    requires hits != [] ==> t0 <= hits[0].at && hits[|hits| - 1].at <= h.at
    ensures var answers := Answers(l, Fresh(l, t0), hits);
            Allows(l, Fresh(l, t0), hits, h) <==>
            forall i :: 0 <= i <= |hits| ==> h.cost <= Line(l, hits, answers, i, h.at)
  {
    var lowest := BalanceIsTheLowestLine(l, t0, hits, h.at);
  }

  /** A request is granted exactly if its cost is there: no more than the maximum, nor, for
      any past request, than the maximum plus what has accrued since at the refill rate less
      what has been granted since. */
  lemma GrantedIff(l: Limits, t0: real, hits: seq<Hit>, h: Hit)
    requires l.Sensible() && InOrder(hits)
    requires hits != [] ==> t0 <= hits[0].at && hits[|hits| - 1].at <= h.at
    ensures var answers := Answers(l, Fresh(l, t0), hits);
            Allows(l, Fresh(l, t0), hits, h) <==>
            h.cost <= l.max && forall i :: 0 <= i < |hits| ==> Affords(l, hits, answers, i, h)
  {
    var answers := Answers(l, Fresh(l, t0), hits);
    AllowedIffBelowLines(l, t0, hits, h);
    forall i | 0 <= i < |hits| ensures Affords(l, hits, answers, i, h) <==> h.cost <= Line(l, hits, answers, i, h.at) {
      assert hits[i].at <= hits[|hits| - 1].at;
      AffordsIsBelowLine(l, hits, answers, i, h);
    }
    assert Line(l, hits, answers, |hits|, h.at) == l.max;
  }

  /** What was granted from an instant on was granted from the first request since. */
  lemma {:induction false} GrantedSince(hits: seq<Hit>, answers: seq<bool>, from: real, to: real) returns (i: nat)
    requires |hits| == |answers| && InOrder(hits) && (hits != [] ==> hits[|hits| - 1].at <= to)
    ensures i <= |hits| && GrantedIn(hits, answers, from, to) == GrantedBetween(hits, answers, i, |hits|)
    ensures i < |hits| ==> from <= hits[i].at
    ensures i > 0 ==> hits[i - 1].at < from
  {
    if hits == [] {
      i := 0;
    } else {
      var n := |hits| - 1;
      if hits[n].at < from {
        i := GrantedSince(hits[..n], answers[..n], from, to);
        if i < n { assert false; }
        i := |hits|;
      } else {
        i := GrantedSince(hits[..n], answers[..n], from, to);
        GrantedBetweenPrefix(hits, answers, i, n);
      }
    }
  }

  /** It is the lowest of the lines through all instants, the start included: none is lower
      than those through the requests and this instant. */
  lemma BalanceIsBelowEveryLine(l: Limits, t0: real, hits: seq<Hit>, now: real, t: real)
    requires l.Sensible() && InOrder(hits) && t0 <= t <= now
    requires hits != [] ==> t0 <= hits[0].at && hits[|hits| - 1].at <= now
    ensures var answers := Answers(l, Fresh(l, t0), hits);
            Refilled(l, After(l, Fresh(l, t0), hits), now).tokens
              <= l.max + Accrued(l, t, now) - GrantedIn(hits, answers, t, now)
  {
    var answers := Answers(l, Fresh(l, t0), hits);
    var lowest := BalanceIsTheLowestLine(l, t0, hits, now);
    var i := GrantedSince(hits, answers, t, now);
    AccruedSplits(l, t, if i < |hits| then hits[i].at else now, now);
    assert Refilled(l, After(l, Fresh(l, t0), hits), now).tokens <= Line(l, hits, answers, i, now);
  }

  /** Refilling in several steps is refilling once. */
  lemma RefillsCompose(l: Limits, b: Bucket, mid: real, now: real)
    requires l.Sensible() && b.last <= mid <= now
    ensures Refilled(l, Refilled(l, b, mid), now) == Refilled(l, b, now)
  {
    AccruedSplits(l, b.last, mid, now);
  }

  /** A clock reading older than the bucket's own counts as no time at all: nothing accrues,
      and the bucket is stale only for an age limit of zero. */
  lemma OldReadingsCountAsNone(l: Limits, b: Bucket, now: real, maxAge: nat)
    requires now <= b.last
    ensures Refilled(l, b, now) == Bucket(MinReal(b.tokens, l.max), now)
    ensures Stale(b, now, maxAge) <==> maxAge == 0
  {}

  // ---- The whole limiter -----------------------------------------------------

  function TableAfter(l: Limits, es: seq<Event>): Table {
    if es == [] then map[]
    else
      var n := |es| - 1;
      var t := TableAfter(l, es[..n]);
      match es[n]
      case Request(ip, at, cost) => Requested(l, t, ip, at, cost).0
      case Cleanup(at, maxAge, shard) => CleanedShard(t, shard, at, maxAge)
  }

  /** A whole cleanup is that of its shards, one after the other. */
  lemma ShardsMakeUpCleanup(t: Table, a: set<Ip>, b: set<Ip>, now: real, maxAge: nat)
    ensures CleanedShard(CleanedShard(t, a, now, maxAge), b, now, maxAge) == CleanedShard(t, a + b, now, maxAge)
    ensures t.Keys <= a ==> CleanedShard(t, a, now, maxAge) == Cleaned(t, now, maxAge)
  {}

  /** What one IP asked for, and what it was answered. */
  function OwnHits(es: seq<Event>, ip: Ip): seq<Hit> {
    if es == [] then []
    else
      var n := |es| - 1;
      OwnHits(es[..n], ip)
      + if es[n].Request? && es[n].ip == ip then [Hit(es[n].at, es[n].cost)] else []
  }

  function OwnAnswers(l: Limits, es: seq<Event>, ip: Ip): seq<bool> {
    if es == [] then []
    else
      var n := |es| - 1;
      OwnAnswers(l, es[..n], ip)
      + if es[n].Request? && es[n].ip == ip
        then [Requested(l, TableAfter(l, es[..n]), ip, es[n].at, es[n].cost).1]
        else []
  }

  function DropCleanups(es: seq<Event>): seq<Event> {
    if es == [] then []
    else
      var n := |es| - 1;
      DropCleanups(es[..n]) + if es[n].Request? then [es[n]] else []
  }

  /** Each IP's requests read the clock one after the other, under the lock of its bucket;
      those of different IPs need not. A cleanup has read it before anything it precedes,
      but may lag behind requests that it follows. */
  ghost predicate ClockOrder(es: seq<Event>) {
    forall i, j :: 0 <= i < j < |es| && es[j].Request? && (es[i].Request? ==> es[i].ip == es[j].ip) ==>
      es[i].at <= es[j].at
  }

  /** Every cleanup waits at least as long as an empty bucket takes to fill up. */
  ghost predicate PatientCleanups(l: Limits, es: seq<Event>) {
    forall e :: e in es && e.Cleanup? ==> Accrued(l, 0.0, e.maxAge as real) >= l.max
  }

  predicate Full(l: Limits, b: Bucket, now: real) {
    b.tokens + Accrued(l, b.last, now) >= l.max
  }

  lemma FullStaysFull(l: Limits, b: Bucket, now: real, later: real)
    requires l.Sensible() && now <= later && Full(l, b, now)
    ensures Full(l, b, later)
    ensures Refilled(l, b, later) == Refilled(l, Fresh(l, later), later)
  {
    AccruedGrows(l, b.last, now, later);
  }

  lemma FullWhenStale(l: Limits, b: Bucket, now: real, maxAge: nat)
    requires l.Sensible() && b.tokens >= 0.0 && Accrued(l, 0.0, maxAge as real) >= l.max
    requires Stale(b, now, maxAge)
    ensures Full(l, b, now)
  {
    AccruedSplits(l, 0.0, maxAge as real, Since(now, b.last));
  }

  lemma TokensStayNonNegative(l: Limits, b: Bucket, at: real, cost: real)
    requires l.Sensible() && b.tokens >= 0.0
    ensures Consumed(l, b, at, cost).0.tokens >= 0.0
  {
    AccruedGrows(l, b.last, at, at);
  }

  /** The latest clock reading that a request of this IP comes after for certain. */
  function Horizon(es: seq<Event>, ip: Ip): Option<real> {
    if es == [] then None
    else
      var n := |es| - 1;
      var h := Horizon(es[..n], ip);
      if es[n].Request? && es[n].ip != ip then h
      else if h.Some? && es[n].at <= h.value then h
      else Some(es[n].at)
  }

  lemma {:induction false} HorizonIsPast(es: seq<Event>, e: Event)
    requires ClockOrder(es + [e]) && e.Request?
    ensures Horizon(es, e.ip).Some? ==> Horizon(es, e.ip).value <= e.at
  {
    if es != [] {
      var n := |es| - 1;
      var all, shorter := es + [e], es[..n] + [e];
      forall i, j | 0 <= i < j < |shorter| && shorter[j].Request?
                    && (shorter[i].Request? ==> shorter[i].ip == shorter[j].ip)
        ensures shorter[i].at <= shorter[j].at
      {
        assert shorter[i] == all[i] && shorter[j] == all[if j < n then j else n + 1];
      }
      HorizonIsPast(es[..n], e);
      assert all[n] == es[n] && all[n + 1] == e;
    }
  }

  /** The IP's entry is bucket b, or is missing while b is full anyway. */
  ghost predicate Mirrors(l: Limits, t: Table, ip: Ip, b: Bucket, horizon: Option<real>) {
    && b.tokens >= 0.0
    && (ip in t ==> t[ip] == b)
    && (ip !in t ==> if horizon.None? then b.tokens >= l.max else Full(l, b, horizon.value))
  }

  lemma MirrorsRequest(l: Limits, t: Table, ip: Ip, b: Bucket, horizon: Option<real>, at: real, cost: real)
    requires l.Sensible() && Mirrors(l, t, ip, b, horizon) && (horizon.Some? ==> horizon.value <= at)
    ensures var (t', ok) := Requested(l, t, ip, at, cost);
            ok == Consumed(l, b, at, cost).1 && Mirrors(l, t', ip, Consumed(l, b, at, cost).0, Some(at))
  {
    AccruedGrows(l, b.last, at, at);
    if ip !in t {
      if horizon.Some? { FullStaysFull(l, b, horizon.value, at); } else { FullStaysFull(l, b, at, at); }
    }
    TokensStayNonNegative(l, b, at, cost);
  }

  lemma MirrorsCleanup(l: Limits, t: Table, ip: Ip, b: Bucket, horizon: Option<real>, e: Event)
    requires l.Sensible() && Mirrors(l, t, ip, b, horizon)
    requires e.Cleanup? && Accrued(l, 0.0, e.maxAge as real) >= l.max
    ensures var later := if horizon.Some? && e.at <= horizon.value then horizon else Some(e.at);
            Mirrors(l, CleanedShard(t, e.shard, e.at, e.maxAge), ip, b, later)
  {
    var later := if horizon.Some? && e.at <= horizon.value then horizon.value else e.at;
    if ip !in t {
      AccruedGrows(l, b.last, e.at, e.at);
      if horizon.Some? { FullStaysFull(l, b, horizon.value, later); }
    } else if Stale(b, e.at, e.maxAge) {
      FullWhenStale(l, b, e.at, e.maxAge);
      FullStaysFull(l, b, e.at, later);
    }
  }

  /** The limiter, cleanups and all, simulated by one bucket per IP. */
  lemma {:induction false} BucketSimulates(l: Limits, es: seq<Event>, ip: Ip, t0: real)
    requires l.Sensible() && ClockOrder(es) && PatientCleanups(l, es)
    ensures OwnAnswers(l, es, ip) == Answers(l, Fresh(l, t0), OwnHits(es, ip))
    ensures Mirrors(l, TableAfter(l, es), ip, After(l, Fresh(l, t0), OwnHits(es, ip)), Horizon(es, ip))
  {
    if es != [] {
      var n := |es| - 1;
      var init, e := es[..n], es[n];
      BucketSimulates(l, init, ip, t0);
      var hits, t, h := OwnHits(init, ip), TableAfter(l, init), Horizon(init, ip);
      assert e in es && init + [e] == es;
      if e.Request? && e.ip == ip {
        HorizonIsPast(init, e);
        var hit := Hit(e.at, e.cost);
        assert OwnHits(es, ip) == hits + [hit];
        assert (hits + [hit])[..|hits|] == hits;
        MirrorsRequest(l, t, ip, After(l, Fresh(l, t0), hits), h, e.at, e.cost);
      } else {
        assert OwnHits(es, ip) == hits;
        if e.Cleanup? { MirrorsCleanup(l, t, ip, After(l, Fresh(l, t0), hits), h, e); }
      }
    }
  }

  /** Each IP is answered as if it had a bucket to itself, filled at any earlier or
      later instant t0 whatever, and nobody else used the limiter. */
  lemma PerIpProjection(l: Limits, es: seq<Event>, ip: Ip, t0: real)
    requires l.Sensible() && ClockOrder(es) && PatientCleanups(l, es)
    ensures OwnAnswers(l, es, ip) == Answers(l, Fresh(l, t0), OwnHits(es, ip))
  {
    BucketSimulates(l, es, ip, t0);
  }

  lemma {:induction false} DroppingKeepsHits(es: seq<Event>, ip: Ip)
    ensures OwnHits(DropCleanups(es), ip) == OwnHits(es, ip)
  {
    if es != [] {
      var n := |es| - 1;
      DroppingKeepsHits(es[..n], ip);
      var d := DropCleanups(es[..n]);
      if es[n].Request? {
        var d' := DropCleanups(es);
        assert d' == d + [es[n]] && d'[..|d|] == d;
        assert OwnHits(d', ip) == OwnHits(d, ip) + if es[n].ip == ip then [Hit(es[n].at, es[n].cost)] else [];
      } else {
        assert DropCleanups(es) == d;
      }
    }
  }

  lemma {:induction false} DroppingKeepsOrder(es: seq<Event>)
    requires ClockOrder(es)
    ensures ClockOrder(DropCleanups(es))
    ensures forall e :: e in DropCleanups(es) ==> e in es && e.Request?
  {
    if es != [] {
      var n := |es| - 1;
      DroppingKeepsOrder(es[..n]);
      var d := DropCleanups(es[..n]);
      forall i | 0 <= i < |d| && es[n].Request? && d[i].ip == es[n].ip ensures d[i].at <= es[n].at {
        assert d[i] in es[..n];
        var k :| 0 <= k < n && es[..n][k] == d[i];
        assert es[k] == d[i];
      }
    }
  }

  ghost predicate CleanupsUnseen(l: Limits, es: seq<Event>) {
    forall ip :: OwnAnswers(l, es, ip) == OwnAnswers(l, DropCleanups(es), ip)
  }

  lemma PatientCleanupsAreUnseen(l: Limits, es: seq<Event>)
    requires l.Sensible() && ClockOrder(es) && PatientCleanups(l, es)
    ensures CleanupsUnseen(l, es)
  {
    forall ip ensures OwnAnswers(l, es, ip) == OwnAnswers(l, DropCleanups(es), ip) {
      DroppingKeepsHits(es, ip);
      DroppingKeepsOrder(es);
      BucketSimulates(l, es, ip, 0.0);
      BucketSimulates(l, DropCleanups(es), ip, 0.0);
    }
  }

  /** Empty the bucket, clean up as soon as allowed, ask for a full bucket again. */
  function HastyRun(l: Limits, maxAge: nat): seq<Event> {
    [Request(0, 0.0, l.max), Cleanup(maxAge as real, maxAge, {0}), Request(0, maxAge as real, l.max)]
  }

  lemma OneMoreEvent(l: Limits, es: seq<Event>, e: Event)
    ensures e.Request? ==>
              && TableAfter(l, es + [e]) == Requested(l, TableAfter(l, es), e.ip, e.at, e.cost).0
              && OwnAnswers(l, es + [e], e.ip)
                 == OwnAnswers(l, es, e.ip) + [Requested(l, TableAfter(l, es), e.ip, e.at, e.cost).1]
              && DropCleanups(es + [e]) == DropCleanups(es) + [e]
    ensures e.Cleanup? ==>
              && TableAfter(l, es + [e]) == CleanedShard(TableAfter(l, es), e.shard, e.at, e.maxAge)
              && (forall ip :: OwnAnswers(l, es + [e], ip) == OwnAnswers(l, es, ip))
              && DropCleanups(es + [e]) == DropCleanups(es)
  {
    assert (es + [e])[..|es|] == es;
  }

  lemma HastyCleanupIsSeen(l: Limits, maxAge: nat)
    requires l.Sensible() && Accrued(l, 0.0, maxAge as real) < l.max
    ensures ClockOrder(HastyRun(l, maxAge)) && !CleanupsUnseen(l, HastyRun(l, maxAge))
  {
    var a := maxAge as real;
    var e0, e1, e2 := Request(0, 0.0, l.max), Cleanup(a, maxAge, {0}), Request(0, a, l.max);
    AccruedGrows(l, 0.0, 0.0, a);
    OneMoreEvent(l, [], e0);
    OneMoreEvent(l, [e0], e1);
    OneMoreEvent(l, [e0, e1], e2);
    OneMoreEvent(l, [e0], e2);
    assert [] + [e0] == [e0] && [e0] + [e1] == [e0, e1];
    assert [e0, e1] + [e2] == HastyRun(l, maxAge) && [e0] + [e2] == [e0, e2];
    assert TableAfter(l, [e0]) == map[0 := Bucket(0.0, 0.0)];
    assert TableAfter(l, [e0, e1]) == map[];
    assert OwnAnswers(l, [e0, e1, e2], 0) == [true, true];
    assert OwnAnswers(l, [e0, e2], 0) == [true, false];
  }

  ghost predicate CleanupsAllUse(es: seq<Event>, maxAge: nat) {
    forall e :: e in es && e.Cleanup? ==> e.maxAge == maxAge
  }

  /** Cleanups with a given age limit are never noticed by any IP, in any run,
      exactly when an empty bucket is full again by that age. */
  lemma CleanupUnobservableIff(l: Limits, maxAge: nat)
    requires l.Sensible()
    ensures (forall es :: ClockOrder(es) && CleanupsAllUse(es, maxAge) ==> CleanupsUnseen(l, es))
        <==> maxAge as real * l.rate >= l.max
  {
    assert Accrued(l, 0.0, maxAge as real) == maxAge as real * l.rate;
    if Accrued(l, 0.0, maxAge as real) >= l.max {
      forall es | ClockOrder(es) && CleanupsAllUse(es, maxAge)
        ensures CleanupsUnseen(l, es)
      {
        PatientCleanupsAreUnseen(l, es);
      }
    } else {
      HastyCleanupIsSeen(l, maxAge);
      assert CleanupsAllUse(HastyRun(l, maxAge), maxAge);
    }
  }

  lemma SnocInOrder(hits: seq<Hit>, h: Hit)
    requires InOrder(hits) && (hits != [] ==> hits[|hits| - 1].at <= h.at)
    ensures InOrder(hits + [h])
  {}

  lemma {:induction false} OwnHitsCameIn(es: seq<Event>, ip: Ip, h: Hit)
    requires h in OwnHits(es, ip)
    ensures Request(ip, h.at, h.cost) in es
  {
    var n := |es| - 1;
    if h in OwnHits(es[..n], ip) { OwnHitsCameIn(es[..n], ip, h); } else { assert es[n] in es; }
  }

  lemma {:induction false} OwnHitsInOrder(es: seq<Event>, ip: Ip)
    requires ClockOrder(es)
    ensures InOrder(OwnHits(es, ip))
  {
    if es != [] {
      var n := |es| - 1;
      var hits := OwnHits(es[..n], ip);
      OwnHitsInOrder(es[..n], ip);
      if es[n].Request? && es[n].ip == ip {
        if hits != [] {
          var last := hits[|hits| - 1];
          OwnHitsCameIn(es[..n], ip, last);
          var k :| 0 <= k < n && es[..n][k] == Request(ip, last.at, last.cost);
          assert es[k] == Request(ip, last.at, last.cost);
        }
        SnocInOrder(hits, Hit(es[n].at, es[n].cost));
      }
    }
  }

  lemma {:induction false} OwnHitsCost(es: seq<Event>, ip: Ip)
    requires forall e :: e in es && e.Request? ==> e.cost >= 0.0
    ensures forall h :: h in OwnHits(es, ip) ==> h.cost >= 0.0
  {
    if es != [] {
      OwnHitsCost(es[..|es| - 1], ip);
      assert es[|es| - 1] in es;
    }
  }

  const TRANSFER_COST := 5.0

  lemma {:induction false} AdmittedCostsAtLeast(hits: seq<Hit>, answers: seq<bool>, from: real, to: real)
    requires |hits| == |answers| && forall h :: h in hits ==> h.cost >= 0.0
    ensures TRANSFER_COST * AdmittedIn(hits, answers, TRANSFER_COST, from, to) as real
         <= GrantedIn(hits, answers, from, to)
  {
    if hits != [] {
      var n := |hits| - 1;
      AdmittedCostsAtLeast(hits[..n], answers[..n], from, to);
      assert hits[n] in hits;
    }
  }

  function FirstAt(hits: seq<Hit>): real {
    if hits == [] then 0.0 else hits[0].at
  }

  /** In any interleaving with other IPs and with patient cleanups, a request of an IP is
      granted exactly if that IP's own past requests have left its cost. */
  lemma RequestIsGrantedIff(l: Limits, es: seq<Event>, ip: Ip, at: real, cost: real)
    requires l.Sensible() && ClockOrder(es + [Request(ip, at, cost)]) && PatientCleanups(l, es)
    ensures |OwnHits(es, ip)| == |OwnAnswers(l, es, ip)|
    ensures var hits, answers := OwnHits(es, ip), OwnAnswers(l, es, ip);
            Requested(l, TableAfter(l, es), ip, at, cost).1 <==>
            cost <= l.max && forall i :: 0 <= i < |hits| ==> Affords(l, hits, answers, i, Hit(at, cost))
  {
    var hits, e := OwnHits(es, ip), Request(ip, at, cost);
    ClockOrderPrefix(es, e);
    OwnHitsInOrder(es, ip);
    HorizonIsPast(es, e);
    if hits != [] { OwnHitsBefore(es, e, hits[|hits| - 1]); }
    BucketSimulates(l, es, ip, FirstAt(hits));
    MirrorsRequest(l, TableAfter(l, es), ip, After(l, Fresh(l, FirstAt(hits)), hits), Horizon(es, ip), at, cost);
    GrantedIff(l, FirstAt(hits), hits, Hit(at, cost));
  }

  lemma ClockOrderPrefix(es: seq<Event>, e: Event)
    requires ClockOrder(es + [e])
    ensures ClockOrder(es)
  {
    forall i, j | 0 <= i < j < |es| && es[j].Request? && (es[i].Request? ==> es[i].ip == es[j].ip)
      ensures es[i].at <= es[j].at
    {
      assert (es + [e])[i] == es[i] && (es + [e])[j] == es[j];
    }
  }

  lemma OwnHitsBefore(es: seq<Event>, e: Event, h: Hit)
    requires ClockOrder(es + [e]) && e.Request? && h in OwnHits(es, e.ip)
    ensures h.at <= e.at
  {
    OwnHitsCameIn(es, e.ip, h);
    var k :| 0 <= k < |es| && es[k] == Request(e.ip, h.at, h.cost);
    assert (es + [e])[k] == es[k] && (es + [e])[|es|] == e;
  }

  /** In any interleaving with other IPs and with patient cleanups, one IP is granted
      at most max + rate * T in any window of T seconds. */
  lemma GrantedPerWindow(l: Limits, es: seq<Event>, ip: Ip, from: real, to: real)
    requires l.Sensible() && ClockOrder(es) && PatientCleanups(l, es) && from <= to
    requires forall e :: e in es && e.Request? ==> e.cost >= 0.0
    ensures |OwnHits(es, ip)| == |OwnAnswers(l, es, ip)|
    ensures GrantedIn(OwnHits(es, ip), OwnAnswers(l, es, ip), from, to) <= l.max + (to - from) * l.rate
  {
    var hits := OwnHits(es, ip);
    OwnHitsInOrder(es, ip);
    OwnHitsCost(es, ip);
    BucketSimulates(l, es, ip, FirstAt(hits));
    WindowBound(l, FirstAt(hits), hits, from, to);
    AccruedInFigures(l, from, to);
  }

  lemma AccruedInFigures(l: Limits, from: real, to: real)
    requires from <= to
    ensures Accrued(l, from, to) == (to - from) * l.rate
  {}

  /** So the uploads and downloads of one IP together number at most a fifth of it: they cost
      five, more than any other command. */
  lemma TransfersPerWindow(l: Limits, es: seq<Event>, ip: Ip, from: real, to: real)
    requires l.Sensible() && ClockOrder(es) && PatientCleanups(l, es) && from <= to
    requires forall e :: e in es && e.Request? ==> e.cost >= 0.0
    ensures CommandCost(Upload) == CommandCost(Download) == TRANSFER_COST == 5.0
    ensures CommandCost(Status) == 1.0 && CommandCost(Auth) == 2.0 && CommandCost(Echo) == 1.5
    ensures |OwnHits(es, ip)| == |OwnAnswers(l, es, ip)|
    ensures AdmittedIn(OwnHits(es, ip), OwnAnswers(l, es, ip), TRANSFER_COST, from, to) as real
         <= (l.max + (to - from) * l.rate) / 5.0
  {
    GrantedPerWindow(l, es, ip, from, to);
    OwnHitsCost(es, ip);
    AdmittedCostsAtLeast(OwnHits(es, ip), OwnAnswers(l, es, ip), from, to);
  }
}
