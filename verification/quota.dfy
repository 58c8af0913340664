/**
 * The per-provider daily quota gate of the news gateway (`apiUsage`,
 * `canUseAPI` and the hourly reset sweep). Each provider has a call counter
 * and a reset time; once the reset time has passed the counter restarts
 * from zero and the reset time moves one day past the current time.
 */
module Quota {
  import opened Seqs

  /** One day in milliseconds. */
  const Day := 86400000

  datatype Provider = Currents | NewsData | NewsApi

  /** The free-tier daily ceilings: Currents 600, NewsData.io 200, NewsAPI 100. */
  function DailyLimit(p: Provider): nat {
    match p
    case Currents => 600
    case NewsData => 200
    case NewsApi => 100
  }

  datatype Usage = Usage(count: nat, resetTime: int)

  /** The `apiUsage` table: one usage record per provider. */
  datatype Quotas = Quotas(currents: Usage, newsdata: Usage, newsapi: Usage) {

    function Get(p: Provider): Usage {
      match p
      case Currents => currents
      case NewsData => newsdata
      case NewsApi => newsapi
    }

    function Set(p: Provider, u: Usage): (q: Quotas)
      ensures q.Get(p) == u
      ensures forall o :: o != p ==> q.Get(o) == Get(o)
    {
      match p
      case Currents => this.(currents := u)
      case NewsData => this.(newsdata := u)
      case NewsApi => this.(newsapi := u)
    }
  }

  /** Every counter is within its provider's ceiling. */
  predicate WithinLimits(q: Quotas) {
    forall p :: q.Get(p).count <= DailyLimit(p)
  }

  /** The table at process start: every counter 0, reset one day after `start`. */
  function Initial(start: int): (q: Quotas)
    ensures WithinLimits(q)
    ensures forall p :: q.Get(p).count == 0 && q.Get(p).resetTime == start + Day
  {
    Quotas(Usage(0, start + Day), Usage(0, start + Day), Usage(0, start + Day))
  }

  /** The reset rule shared by the gate and the sweep: an overdue record
      restarts at zero with its reset time one day past `now`. */
  function Refresh(u: Usage, now: int): (r: Usage)
    ensures now > u.resetTime ==> r.count == 0 && r.resetTime == now + Day
    ensures now <= u.resetTime ==> r == u
    ensures r.count <= u.count
    ensures now <= r.resetTime
  {
    if now > u.resetTime then Usage(0, now + Day) else u
  }

  datatype Gate = Gate(allowed: bool, usage: Usage)

  /** `canUseAPI` on one record: apply any pending reset, refuse when the
      counter has reached the ceiling, otherwise count the call. */
  function CanUse(u: Usage, limit: nat, now: int): (g: Gate)
    ensures var base := Refresh(u, now);
      && (g.allowed <==> base.count < limit)
      && (g.allowed ==> g.usage == base.(count := base.count + 1))
      && (!g.allowed ==> g.usage == base)
  {
    var base := Refresh(u, now);
    if base.count >= limit then Gate(false, base)
    else Gate(true, base.(count := base.count + 1))
  }

  datatype Consumed = Consumed(allowed: bool, quotas: Quotas)

  /** `canUseAPI(name, limit)` on the whole table: only the named provider's
      record can change, and the ceiling is never exceeded. */
  function TryConsume(q: Quotas, p: Provider, now: int): (r: Consumed)
    ensures r.quotas.Get(p) == CanUse(q.Get(p), DailyLimit(p), now).usage
    ensures r.allowed == CanUse(q.Get(p), DailyLimit(p), now).allowed
    ensures forall o :: o != p ==> r.quotas.Get(o) == q.Get(o)
    ensures WithinLimits(q) ==> WithinLimits(r.quotas)
  {
    var g := CanUse(q.Get(p), DailyLimit(p), now);
    Consumed(g.allowed, q.Set(p, g.usage))
  }

  /** The hourly sweep: every overdue provider is reset, the others are left
      as they are. */
  function Sweep(q: Quotas, now: int): (r: Quotas)
    ensures forall p :: now > q.Get(p).resetTime ==> r.Get(p) == Usage(0, now + Day)
    ensures forall p :: now <= q.Get(p).resetTime ==> r.Get(p) == q.Get(p)
    ensures WithinLimits(q) ==> WithinLimits(r)
  {
    Quotas(Refresh(q.currents, now), Refresh(q.newsdata, now), Refresh(q.newsapi, now))
  }

  /** A sweep at the moment of a call does not change the call's outcome:
      the gate applies the same reset itself, so the decision and the
      provider's own record come out the same. */
  lemma {:induction false} SweepIsInvisibleToGate(q: Quotas, p: Provider, now: int)
    ensures TryConsume(Sweep(q, now), p, now).allowed == TryConsume(q, p, now).allowed
    ensures TryConsume(Sweep(q, now), p, now).quotas.Get(p) == TryConsume(q, p, now).quotas.Get(p)
  {
    assert Sweep(q, now).Get(p) == Refresh(q.Get(p), now);
    assert Refresh(Refresh(q.Get(p), now), now) == Refresh(q.Get(p), now);
  }

  datatype Tally = Tally(accepted: nat, usage: Usage)

  /** A series of gate checks on one record at the given times. */
  function Run(u: Usage, limit: nat, times: seq<int>): (t: Tally)
    ensures t.accepted <= |times|
    decreases |times|
  {
    if |times| == 0 then Tally(0, u)
    else
      var g := CanUse(u, limit, times[0]);
      var rest := Run(g.usage, limit, times[1..]);
      Tally((if g.allowed then 1 else 0) + rest.accepted, rest.usage)
  }

  /** Within one reset window the gate admits exactly as many calls as the
      ceiling leaves room for, and the counter records each of them. */
  lemma {:induction false} WindowAdmitsUpToLimit(u: Usage, limit: nat, times: seq<int>)
    requires u.count <= limit
    requires forall i :: 0 <= i < |times| ==> times[i] <= u.resetTime
    ensures Run(u, limit, times).accepted == Min(|times|, limit - u.count)
    ensures Run(u, limit, times).usage == u.(count := u.count + Min(|times|, limit - u.count))
    decreases |times|
  {
    if |times| > 0 {
      var g := CanUse(u, limit, times[0]);
      assert Refresh(u, times[0]) == u;
      WindowAdmitsUpToLimit(g.usage, limit, times[1..]);
    }
  }

  /** Once the reset time has passed, the next call is admitted and the
      counter restarts at one, however full it was. */
  lemma ResetAdmitsAgain(u: Usage, limit: nat, now: int)
    requires limit > 0 && now > u.resetTime
    ensures CanUse(u, limit, now) == Gate(true, Usage(1, now + Day))
  {
  }
}
