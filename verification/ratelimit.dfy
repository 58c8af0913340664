/**
 * The web client's request limiter (the axios request interceptor): a
 * fixed one-second window per endpoint admitting at most five requests,
 * and the five-minute cleanup of stale entries.
 */
module RateLimit {
  import opened Seqs

  const Window := 1000
  const MaxPerWindow := 5
  const StaleAfter := 300000

  /** A window's request count and the time it opened. */
  datatype Entry = Entry(count: nat, timestamp: int)

  type Table = map<string, Entry>

  datatype Decision = Decision(accepted: bool, table: Table)

  /** Every entry has counted between one and five requests. */
  predicate Valid(t: Table) {
    forall e :: e in t ==> 1 <= t[e].count <= MaxPerWindow
  }

  /** One request to `endpoint` at `now`. An unknown endpoint or a closed
      window starts a fresh window with one request; an open window with
      five requests rejects; otherwise the count grows and the window keeps
      its start. */
  function Request(t: Table, endpoint: string, now: int): (d: Decision)
    ensures endpoint !in t ==> d == Decision(true, t[endpoint := Entry(1, now)])
    ensures endpoint in t && now - t[endpoint].timestamp >= Window ==>
      d == Decision(true, t[endpoint := Entry(1, now)])
    ensures endpoint in t && now - t[endpoint].timestamp < Window && t[endpoint].count >= MaxPerWindow ==>
      d == Decision(false, t)
    ensures endpoint in t && now - t[endpoint].timestamp < Window && t[endpoint].count < MaxPerWindow ==>
      d == Decision(true, t[endpoint := t[endpoint].(count := t[endpoint].count + 1)])
  {
    if endpoint in t then
      var e := t[endpoint];
      if now - e.timestamp < Window then
        if e.count >= MaxPerWindow then Decision(false, t)
        else Decision(true, t[endpoint := Entry(e.count + 1, e.timestamp)])
      else Decision(true, t[endpoint := Entry(1, now)])
    else Decision(true, t[endpoint := Entry(1, now)])
  }

  /** A request keeps the table valid and never touches another endpoint's
      entry. */
  lemma RequestPreservesValid(t: Table, endpoint: string, now: int)
    requires Valid(t)
    ensures Valid(Request(t, endpoint, now).table)
    ensures endpoint in Request(t, endpoint, now).table
    ensures forall e :: e != endpoint ==>
      (e in Request(t, endpoint, now).table <==> e in t) &&
      (e in t ==> Request(t, endpoint, now).table[e] == t[e])
  {
  }

  datatype Tally = Tally(accepted: nat, table: Table)

  /** A series of requests to one endpoint at the given times. */
  function Burst(t: Table, endpoint: string, times: seq<int>): (r: Tally)
    ensures r.accepted <= |times|
    decreases |times|
  {
    if |times| == 0 then Tally(0, t)
    else
      var d := Request(t, endpoint, times[0]);
      var rest := Burst(d.table, endpoint, times[1..]);
      Tally((if d.accepted then 1 else 0) + rest.accepted, rest.table)
  }

  /** Inside an open window the requests are admitted until the count reaches
      five, then all rejected; the window keeps its start. */
  lemma {:induction false} OpenWindowAdmits(t: Table, endpoint: string, times: seq<int>)
    requires endpoint in t && 1 <= t[endpoint].count <= MaxPerWindow
    requires forall i :: 0 <= i < |times| ==> times[i] - t[endpoint].timestamp < Window
    ensures Burst(t, endpoint, times).accepted == Min(|times|, MaxPerWindow - t[endpoint].count)
    ensures endpoint in Burst(t, endpoint, times).table
    ensures Burst(t, endpoint, times).table[endpoint] ==
      t[endpoint].(count := t[endpoint].count + Min(|times|, MaxPerWindow - t[endpoint].count))
    decreases |times|
  {
    if |times| > 0 {
      var d := Request(t, endpoint, times[0]);
      assert forall i :: 0 <= i < |times| - 1 ==> times[1..][i] == times[i + 1];
      OpenWindowAdmits(d.table, endpoint, times[1..]);
    }
  }

  /** Requests within one second of a window's first request: at most five
      are admitted, and exactly five when there are at least five. */
  lemma AtMostFivePerWindow(t: Table, endpoint: string, times: seq<int>)
    requires |times| > 0
    requires endpoint !in t || times[0] - t[endpoint].timestamp >= Window
    requires forall i :: 0 <= i < |times| ==> times[i] - times[0] < Window
    ensures Burst(t, endpoint, times).accepted == Min(|times|, MaxPerWindow)
  {
    var d := Request(t, endpoint, times[0]);
    assert d.table[endpoint] == Entry(1, times[0]);
    assert forall i :: 0 <= i < |times| - 1 ==> times[1..][i] == times[i + 1];
    OpenWindowAdmits(d.table, endpoint, times[1..]);
  }

  /** The five-minute cleanup: exactly the entries whose window opened more
      than five minutes ago are deleted, the rest are kept as they are. */
  function Cleanup(t: Table, now: int): (r: Table)
    ensures forall e :: e in r <==> e in t && now - t[e].timestamp <= StaleAfter
    ensures forall e :: e in r ==> r[e] == t[e]
    ensures Valid(t) ==> Valid(r)
  {
    map e | e in t && now - t[e].timestamp <= StaleAfter :: t[e]
  }

  /** Cleanup never changes a decision: a deleted entry's window is long
      closed, so the request opens a fresh one either way. */
  lemma CleanupIsInvisible(t: Table, endpoint: string, now: int)
    ensures Request(Cleanup(t, now), endpoint, now).accepted == Request(t, endpoint, now).accepted
    ensures Request(Cleanup(t, now), endpoint, now).table[endpoint] == Request(t, endpoint, now).table[endpoint]
  {
  }
}
