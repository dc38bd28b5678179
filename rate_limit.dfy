/** The contact endpoint's fixed-window rate limiter: a process-wide map from
    client address to the number of requests seen in the current window and
    the time at which that window ends. */
module RateLimit {

  /** Length of a window: 15 minutes, in milliseconds. */
  const WindowMs: int := 15 * 60 * 1000

  /** Requests admitted per client and window. */
  const MaxRequests: int := 5

  /** The record stored per client address. */
  datatype Entry = Entry(count: int, resetTime: int)

  /** The answer of one check and the map it leaves behind. */
  datatype Decision = Decision(allowed: bool, entries: map<string, Entry>)

  /** The record that opens a new window at time `now`. */
  function FreshEntry(now: int): Entry
  {
    Entry(1, now + WindowMs)
  }

  /** Every stored count lies in 1..MaxRequests. */
  ghost predicate CountsInRange(m: map<string, Entry>)
  {
    forall ip :: ip in m ==> 1 <= m[ip].count <= MaxRequests
  }

  function Min(a: int, b: int): int
  {
    if a <= b then a else b
  }

  /** What `checkRateLimit(ip)` answers at time `now` when the map holds `m`,
      and the map it leaves. */
  function Admit(m: map<string, Entry>, ip: string, now: int): (d: Decision)
    // denied exactly when the client's window is still open (`now` has not
    // passed its end) and already holds MaxRequests requests
    ensures !d.allowed <==> ip in m && now <= m[ip].resetTime && m[ip].count >= MaxRequests
    // an unseen client, or one whose window ended strictly before `now`,
    // starts a new window holding this one request
    ensures ip !in m || now > m[ip].resetTime ==> d.entries == m[ip := FreshEntry(now)]
    // inside an open window an admitted request adds one to the count and
    // keeps the window's end; a denied one changes nothing
    ensures ip in m && now <= m[ip].resetTime ==>
      d.entries == if d.allowed then m[ip := Entry(m[ip].count + 1, m[ip].resetTime)] else m
    // only the client's own record is touched
    ensures d.entries.Keys == m.Keys + {ip}
    ensures forall other :: other in m && other != ip ==> d.entries[other] == m[other]
    ensures CountsInRange(m) ==> CountsInRange(d.entries)
  {
    if ip !in m then
      Decision(true, m[ip := FreshEntry(now)])
    else
      var userData := m[ip];
      if now > userData.resetTime then
        Decision(true, m[ip := FreshEntry(now)])
      else if userData.count >= MaxRequests then
        Decision(false, m)
      else
        Decision(true, m[ip := userData.(count := userData.count + 1)])
  }

  /** The process-wide limiter state. */
  class RateLimiter {
    var entries: map<string, Entry>

    ghost predicate Valid()
      reads this
    {
      CountsInRange(entries)
    }

    constructor ()
      ensures Valid() && entries == map[]
    {
      entries := map[];
    }

    /** `checkRateLimit(ip)`, with the clock reading `now` passed in. */
    method Check(ip: string, now: int) returns (allowed: bool)
      requires Valid()
      modifies this
      ensures Valid()
      ensures allowed == Admit(old(entries), ip, now).allowed
      ensures entries == Admit(old(entries), ip, now).entries
    {
      if ip !in entries {
        entries := entries[ip := FreshEntry(now)];
        return true;
      }
      var userData := entries[ip];
      if now > userData.resetTime {
        entries := entries[ip := FreshEntry(now)];
        return true;
      }
      if userData.count >= MaxRequests {
        return false;
      }
      entries := entries[ip := userData.(count := userData.count + 1)];
      return true;
    }
  }

  /** How many of a run of requests were admitted, and the map afterwards. */
  datatype Tally = Tally(admitted: nat, entries: map<string, Entry>)

  /** Requests from one client at the clock readings `times`, in that order. */
  function Replay(m: map<string, Entry>, ip: string, times: seq<int>): (t: Tally)
    ensures t.admitted <= |times|
    ensures CountsInRange(m) ==> CountsInRange(t.entries)
    ensures forall other :: other in m && other != ip ==> other in t.entries && t.entries[other] == m[other]
    decreases |times|
  {
    if times == [] then
      Tally(0, m)
    else
      var d := Admit(m, ip, times[0]);
      var rest := Replay(d.entries, ip, times[1..]);
      Tally((if d.allowed then 1 else 0) + rest.admitted, rest.entries)
  }

  /** A run split in two is the second half replayed on what the first left. */
  lemma {:induction false} ReplayAppend(m: map<string, Entry>, ip: string, a: seq<int>, b: seq<int>)
    ensures Replay(m, ip, a + b).admitted == Replay(m, ip, a).admitted + Replay(Replay(m, ip, a).entries, ip, b).admitted
    ensures Replay(m, ip, a + b).entries == Replay(Replay(m, ip, a).entries, ip, b).entries
    decreases |a|
  {
    if a != [] {
      assert (a + b)[0] == a[0] && (a + b)[1..] == a[1..] + b;
      ReplayAppend(Admit(m, ip, a[0]).entries, ip, a[1..], b);
    } else {
      assert a + b == b;
    }
  }

  /** Inside an open window, requests are admitted until the count reaches
      MaxRequests and denied after that; the window's end does not move. */
  lemma {:induction false} OpenWindowAdmits(m: map<string, Entry>, ip: string, times: seq<int>)
    requires CountsInRange(m) && ip in m
    requires forall k :: 0 <= k < |times| ==> times[k] <= m[ip].resetTime
    ensures Replay(m, ip, times).admitted == Min(|times|, MaxRequests - m[ip].count)
    ensures ip in Replay(m, ip, times).entries
    ensures Replay(m, ip, times).entries[ip].resetTime == m[ip].resetTime
    decreases |times|
  {
    if times != [] {
      var d := Admit(m, ip, times[0]);
      assert forall k :: 0 <= k < |times[1..]| ==> times[1..][k] == times[k + 1];
      OpenWindowAdmits(d.entries, ip, times[1..]);
    }
  }

  /** A request from an unseen client, or after its window has ended, opens a
      window in which exactly the first MaxRequests requests are admitted. */
  lemma NewWindowAdmits(m: map<string, Entry>, ip: string, times: seq<int>)
    requires CountsInRange(m) && times != []
    requires ip !in m || times[0] > m[ip].resetTime
    requires forall k :: 0 <= k < |times| ==> times[k] <= times[0] + WindowMs
    ensures Replay(m, ip, times).admitted == Min(|times|, MaxRequests)
  {
    var d := Admit(m, ip, times[0]);
    assert forall k :: 0 <= k < |times[1..]| ==> times[1..][k] == times[k + 1];
    OpenWindowAdmits(d.entries, ip, times[1..]);
  }

  /** Index of the first reading in `times` later than `reset`, or `|times|`. */
  function FirstAfter(times: seq<int>, reset: int): (j: nat)
    ensures j <= |times|
    ensures forall k :: 0 <= k < j ==> times[k] <= reset
    ensures j < |times| ==> times[j] > reset
  {
    if times == [] then 0
    else if times[0] > reset then 0
    else 1 + FirstAfter(times[1..], reset)
  }

  /** Within any span of WindowMs milliseconds one client gets at most
      2 * MaxRequests - 1 requests admitted, in whatever order the clock
      readings come: the span meets at most two windows, and the earlier one
      was opened before the span began. */
  lemma SpanAdmitsAtMost(m: map<string, Entry>, ip: string, times: seq<int>, start: int)
    requires CountsInRange(m)
    requires forall k :: 0 <= k < |times| ==> start <= times[k] <= start + WindowMs
    ensures Replay(m, ip, times).admitted <= 2 * MaxRequests - 1
  {
    if times == [] {
    } else if ip !in m || times[0] > m[ip].resetTime {
      NewWindowAdmits(m, ip, times);
    } else {
      SpanAcrossWindowEnd(m, ip, times, start);
    }
  }

  /** The case of the lemma above where the span starts inside an open window:
      the requests up to the window's end, then the ones after it, which all
      fall in the next window. */
  lemma SpanAcrossWindowEnd(m: map<string, Entry>, ip: string, times: seq<int>, start: int)
    requires CountsInRange(m) && ip in m
    requires forall k :: 0 <= k < |times| ==> start <= times[k] <= start + WindowMs
    ensures Replay(m, ip, times).admitted <= 2 * MaxRequests - 1
  {
    var j := FirstAfter(times, m[ip].resetTime);
    var before, after := times[..j], times[j..];
    assert times == before + after;
    ReplayAppend(m, ip, before, after);
    OpenWindowAdmits(m, ip, before);
    if after != [] {
      NewWindowAdmits(Replay(m, ip, before).entries, ip, after);
    }
  }

  /** The bound above is reached: a request opens a window at time `t`; four
      requests at the window's last millisecond and five just after it are all
      admitted, nine admissions within two milliseconds. */
  lemma BoundaryBurst(ip: string, t: int)
    ensures Admit(map[], ip, t) == Decision(true, map[ip := Entry(1, t + WindowMs)])
    ensures Replay(map[ip := Entry(1, t + WindowMs)], ip,
                   seq(4, _ => t + WindowMs) + seq(5, _ => t + WindowMs + 1)).admitted == 9
  {
    var m := map[ip := Entry(1, t + WindowMs)];
    var a := seq(4, _ => t + WindowMs);
    var b := seq(5, _ => t + WindowMs + 1);
    ReplayAppend(m, ip, a, b);
    OpenWindowAdmits(m, ip, a);
    NewWindowAdmits(Replay(m, ip, a).entries, ip, b);
  }
}
