/** The sliding-window rate limiter for uploads (server/uploadpic.go). Times are nanoseconds of a monotonic clock. */
module RateLimiter {

  const REQUEST_INTERVAL: int := 60_000_000_000

  datatype Request = Request(ip: string, at: int)

  /** The times of an address's requests from a given time on, in order. */
  function Times(log: seq<Request>, ip: string, from: int): seq<int> {
    if log == [] then []
    else
      var init, last := Times(log[..|log| - 1], ip, from), log[|log| - 1];
      if last.ip == ip && last.at >= from then init + [last.at] else init
  }

  /** The requests of an address that are at most one minute old at a given time. */
  function Recent(log: seq<Request>, ip: string, now: int): seq<int> {
    Times(log, ip, now - REQUEST_INTERVAL)
  }

  predicate InOrder(log: seq<Request>) {
    forall i, j :: 0 <= i < j < |log| ==> log[i].at <= log[j].at
  }

  /** The time of the address's latest request, if it made one. */
  function LastTime(log: seq<Request>, ip: string, default_: int): int {
    if log == [] then default_
    else if log[|log| - 1].ip == ip then log[|log| - 1].at
    else LastTime(log[..|log| - 1], ip, default_)
  }

  function From(list: seq<int>, cutoff: int): seq<int> {
    if list == [] then []
    else
      var init, last := From(list[..|list| - 1], cutoff), list[|list| - 1];
      if last >= cutoff then init + [last] else init
  }

  predicate Sorted(list: seq<int>) {
    forall i, j :: 0 <= i < j < |list| ==> list[i] <= list[j]
  }

  lemma {:induction false} TimesFrom(log: seq<Request>, ip: string, from: int, later: int)
    requires from <= later
    ensures Times(log, ip, later) == From(Times(log, ip, from), later)
  {
    if log != [] {
      var init, last := log[..|log| - 1], log[|log| - 1];
      TimesFrom(init, ip, from, later);
      if last.ip == ip && last.at >= from {
        var t := Times(init, ip, from);
        assert (t + [last.at])[..|t|] == t;
      }
    }
  }

  lemma {:induction false} TimesBounded(log: seq<Request>, ip: string, from: int, latest: int)
    requires InOrder(log) && forall i :: 0 <= i < |log| ==> log[i].at <= latest
    ensures Sorted(Times(log, ip, from))
    ensures forall k :: 0 <= k < |Times(log, ip, from)| ==> from <= Times(log, ip, from)[k] <= latest
  {
    if log != [] {
      var init, last := log[..|log| - 1], log[|log| - 1];
      forall i | 0 <= i < |init| ensures init[i].at <= last.at {
        assert log[i] == init[i];
      }
      TimesBounded(init, ip, from, last.at);
    }
  }

  /** In a sorted list the elements from the cutoff on are what remains once smaller ones are taken off the front. */
  lemma {:induction false} FromAll(list: seq<int>, cutoff: int)
    requires forall k :: 0 <= k < |list| ==> list[k] >= cutoff
    ensures From(list, cutoff) == list
  {
    if list != [] {
      FromAll(list[..|list| - 1], cutoff);
      assert list == list[..|list| - 1] + [list[|list| - 1]];
    }
  }

  lemma {:induction false} FromDropsFirst(list: seq<int>, cutoff: int)
    requires list != [] && list[0] < cutoff
    ensures From(list, cutoff) == From(list[1..], cutoff)
  {
    if |list| > 1 {
      var init := list[..|list| - 1];
      FromDropsFirst(init, cutoff);
      assert list[1..][..|list| - 2] == init[1..];
    } else {
      assert list[..0] == [];
    }
  }

  function CountsOf(counts: map<string, seq<int>>, ip: string): seq<int> {
    if ip in counts then counts[ip] else []
  }

  /** What is stored for an address are its requests up to a minute before its own latest one. */
  ghost predicate Reflects(counts: map<string, seq<int>>, log: seq<Request>) {
    forall ip :: CountsOf(counts, ip) == Recent(log, ip, LastTime(log, ip, 0))
  }

  class Limiter {
    var counts: map<string, seq<int>>
    ghost var log: seq<Request>

    ghost predicate Valid()
      reads this
    {
      InOrder(log) && Reflects(counts, log)
    }

    constructor ()
      ensures Valid() && log == []
    {
      counts := map[];
      log := [];
    }

    /**
     * Records the request, and says whether the address made at most `maxRequests` requests, this one and
     * refused ones included, in the minute up to now. Requires the clock not to run backwards.
     */
    method CheckAndUpdateRateLimit(ip: string, now: int, maxRequests: int) returns (allowed: bool)
      requires Valid() && InOrder(log + [Request(ip, now)])
      modifies this
      ensures Valid() && log == old(log) + [Request(ip, now)]
      ensures CountsOf(counts, ip) == Recent(log, ip, now)
      ensures allowed <==> |Recent(log, ip, now)| <= maxRequests
    {
      RecentGrows(log, ip, now);
      var list := DropExpired(CountsOf(counts, ip) + [now], now);
      StillReflects(counts, log, Request(ip, now), list);
      counts := counts[ip := list];
      log := log + [Request(ip, now)];
      allowed := |list| <= maxRequests;
    }
  }

  lemma StillReflects(counts: map<string, seq<int>>, log: seq<Request>, r: Request, list: seq<int>)
    requires Reflects(counts, log) && list == Recent(log + [r], r.ip, r.at)
    ensures Reflects(counts[r.ip := list], log + [r])
  {
  }

  /** Takes times off the front while they are more than a minute old; of a sorted list that leaves the recent ones. */
  method DropExpired(times: seq<int>, now: int) returns (list: seq<int>)
    requires Sorted(times)
    ensures list == From(times, now - REQUEST_INTERVAL)
  {
    list := times;
    while |list| > 0 && now - list[0] > REQUEST_INTERVAL
      invariant Sorted(list)
      invariant From(list, now - REQUEST_INTERVAL) == From(times, now - REQUEST_INTERVAL)
    {
      FromDropsFirst(list, now - REQUEST_INTERVAL);
      list := list[1..];
    }
    FromAll(list, now - REQUEST_INTERVAL);
  }

  lemma FromSnoc(list: seq<int>, last: int, cutoff: int)
    ensures From(list + [last], cutoff) == From(list, cutoff) + if last >= cutoff then [last] else []
  {
  }

  lemma RecentSnoc(log: seq<Request>, ip: string, now: int)
    ensures Recent(log + [Request(ip, now)], ip, now) == Recent(log, ip, now) + [now]
  {
  }

  /** Nothing forgotten earlier is recent again. */
  lemma ForgottenForGood(log: seq<Request>, ip: string, now: int)
    requires forall i :: 0 <= i < |log| ==> log[i].at <= now
    ensures From(Recent(log, ip, LastTime(log, ip, 0)), now - REQUEST_INTERVAL) == Recent(log, ip, now)
  {
    var last := LastTime(log, ip, 0);
    LastTimeBound(log, ip, now);
    if last <= now {
      TimesFrom(log, ip, last - REQUEST_INTERVAL, now - REQUEST_INTERVAL);
    } else {
      NoTimes(log, ip, last - REQUEST_INTERVAL);
      NoTimes(log, ip, now - REQUEST_INTERVAL);
    }
  }

  /** The new request joins the recent ones. */
  lemma RecentGrows(log: seq<Request>, ip: string, now: int)
    requires InOrder(log + [Request(ip, now)])
    ensures var stored := Recent(log, ip, LastTime(log, ip, 0)) + [now];
            Sorted(stored) && From(stored, now - REQUEST_INTERVAL) == Recent(log + [Request(ip, now)], ip, now)
  {
    EarlierInOrder(log, Request(ip, now));
    ForgottenForGood(log, ip, now);
    RecentSnoc(log, ip, now);
    var recent := Recent(log, ip, LastTime(log, ip, 0));
    FromSnoc(recent, now, now - REQUEST_INTERVAL);
    TimesBounded(log, ip, LastTime(log, ip, 0) - REQUEST_INTERVAL, now);
    SortedSnoc(recent, now);
  }

  lemma SortedSnoc(list: seq<int>, last: int)
    requires Sorted(list) && forall k :: 0 <= k < |list| ==> list[k] <= last
    ensures Sorted(list + [last])
  {
  }

  lemma EarlierInOrder(log: seq<Request>, r: Request)
    requires InOrder(log + [r])
    ensures InOrder(log) && forall i :: 0 <= i < |log| ==> log[i].at <= r.at
  {
    var log' := log + [r];
    forall i | 0 <= i < |log| ensures log[i].at <= r.at && forall j :: i < j < |log| ==> log[i].at <= log[j].at {
      assert log'[i] == log[i] && log'[|log|] == r;
      assert forall j :: i < j < |log| ==> log'[j] == log[j];
    }
  }

  lemma {:induction false} LastTimeBound(log: seq<Request>, ip: string, latest: int)
    requires forall i :: 0 <= i < |log| ==> log[i].at <= latest
    ensures LastTime(log, ip, 0) <= latest || forall i :: 0 <= i < |log| ==> log[i].ip != ip
  {
    if log != [] && log[|log| - 1].ip != ip {
      LastTimeBound(log[..|log| - 1], ip, latest);
    }
  }

  lemma {:induction false} NoTimes(log: seq<Request>, ip: string, from: int)
    requires forall i :: 0 <= i < |log| ==> log[i].ip != ip
    ensures Times(log, ip, from) == []
  {
    if log != [] {
      NoTimes(log[..|log| - 1], ip, from);
    }
  }

  // ---------------------------------------------------------------- any one-minute window

  /** The verdict on the i-th request of a run with a fixed limit. */
  predicate Allowed(log: seq<Request>, i: nat, maxRequests: int)
    requires i < |log|
  {
    |Recent(log[..i + 1], log[i].ip, log[i].at)| <= maxRequests
  }

  /** The requests among the first n that an address made from a given time on. */
  function MadeSince(log: seq<Request>, n: nat, ip: string, from: int): set<nat>
    requires n <= |log|
  {
    set j: nat | j < n && log[j].ip == ip && log[j].at >= from
  }

  lemma {:induction false} TimesCount(log: seq<Request>, n: nat, ip: string, from: int)
    requires n <= |log|
    ensures |Times(log[..n], ip, from)| == |MadeSince(log, n, ip, from)|
  {
    if n > 0 {
      TimesCount(log, n - 1, ip, from);
      OneMoreMade(log, n, ip, from);
      assert log[..n][..n - 1] == log[..n - 1];
    }
  }

  lemma OneMoreMade(log: seq<Request>, n: nat, ip: string, from: int)
    requires 0 < n <= |log|
    ensures |MadeSince(log, n, ip, from)|
         == |MadeSince(log, n - 1, ip, from)| + if log[n - 1].ip == ip && log[n - 1].at >= from then 1 else 0
  {
    var made, before := MadeSince(log, n, ip, from), MadeSince(log, n - 1, ip, from);
    if log[n - 1].ip == ip && log[n - 1].at >= from {
      assert made == before + {n - 1};
    } else {
      assert made == before;
    }
  }

  /** Allowed if and only if the address has made no more than the limit in the last 60 seconds, this one included. */
  lemma AllowedExactly(log: seq<Request>, i: nat, maxRequests: int)
    requires i < |log|
    ensures Allowed(log, i, maxRequests)
            <==> |MadeSince(log, i + 1, log[i].ip, log[i].at - 60_000_000_000)| <= maxRequests
  {
    TimesCount(log, i + 1, log[i].ip, log[i].at - REQUEST_INTERVAL);
  }

  /** How many of the first n requests of an address were allowed within the minute that starts at `start`. */
  function AllowedInWindow(log: seq<Request>, n: nat, ip: string, start: int, maxRequests: int): nat
    requires n <= |log|
  {
    if n == 0 then 0
    else
      var r := log[n - 1];
      AllowedInWindow(log, n - 1, ip, start, maxRequests)
      + if r.ip == ip && start <= r.at <= start + REQUEST_INTERVAL && Allowed(log, n - 1, maxRequests) then 1 else 0
  }

  lemma {:induction false} WindowWithinTimes(log: seq<Request>, n: nat, ip: string, start: int, maxRequests: int)
    requires n <= |log|
    ensures AllowedInWindow(log, n, ip, start, maxRequests) <= |Times(log[..n], ip, start)|
  {
    if n > 0 {
      WindowWithinTimes(log, n - 1, ip, start, maxRequests);
      assert log[..n][..n - 1] == log[..n - 1];
    }
  }

  lemma {:induction false} FewerFromLater(log: seq<Request>, ip: string, from: int, later: int)
    requires from <= later
    ensures |Times(log, ip, later)| <= |Times(log, ip, from)|
  {
    if log != [] {
      FewerFromLater(log[..|log| - 1], ip, from, later);
    }
  }

  /** With a fixed limit, no one-minute window of any run sees more allowed requests of an address than the limit. */
  lemma {:induction false} WindowLimit(log: seq<Request>, n: nat, ip: string, start: int, maxRequests: int)
    requires n <= |log|
    ensures AllowedInWindow(log, n, ip, start, maxRequests) <= if maxRequests < 0 then 0 else maxRequests
  {
    if n > 0 {
      WindowLimit(log, n - 1, ip, start, maxRequests);
      var r := log[n - 1];
      if r.ip == ip && start <= r.at <= start + REQUEST_INTERVAL && Allowed(log, n - 1, maxRequests) {
        WindowWithinTimes(log, n, ip, start, maxRequests);
        FewerFromLater(log[..n], ip, r.at - REQUEST_INTERVAL, start);
      }
    }
  }
}
