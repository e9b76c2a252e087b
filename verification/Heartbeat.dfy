/** The heartbeat of agent.go: the writer's ticker closes an agent that forwarded nothing for too long.
    Times are in nanoseconds; the stored time and the deadline are cut to whole seconds. */
module Heartbeat {

  const SECOND: int := 1_000_000_000

  /** time.Time.Unix: whole seconds, rounded down. */
  function Unix(t: int): int { t / SECOND }

  /** The test at a tick, on the stored seconds of the last forwarded packet. */
  predicate Expired(lastAt: int, now: int, heartbeat: int) {
    lastAt < Unix(now - heartbeat)
  }

  /** In nanoseconds: with a heartbeat of a minute, a packet at 1.9 seconds, kept as second 1, is too old from
      62 seconds on, 60.1 seconds later. */
  lemma SampleExpiry()
    ensures Unix(1_900_000_000) == 1
    ensures !Expired(Unix(1_900_000_000), 61_999_999_999, 60_000_000_000)
    ensures Expired(Unix(1_900_000_000), 62_000_000_000, 60_000_000_000)
  {
  }

  /** The test fires exactly when the idle time reaches the heartbeat plus what was missing to the next
      full second at the last packet: never up to one heartbeat of idleness, always from one second more. */
  lemma ExpiredIff(last: int, now: int, heartbeat: int)
    ensures Expired(Unix(last), now, heartbeat) <==> now - last >= heartbeat + SECOND - last % SECOND
    ensures now - last <= heartbeat ==> !Expired(Unix(last), now, heartbeat)
    ensures now - last >= heartbeat + SECOND ==> Expired(Unix(last), now, heartbeat)
  {
    var t, u := Unix(last), Unix(now - heartbeat);
    assert last == t * SECOND + last % SECOND;
    assert now - heartbeat == u * SECOND + (now - heartbeat) % SECOND;
  }

  /** Ticks at start + heartbeat, start + 2 heartbeats, ... each serviced at once: no tick within one
      heartbeat of the last packet fires, and the first that fires when no other packet follows comes less
      than two heartbeats and a second after it. A client that never forwards anything has the time of its
      agent's creation, before the ticker's start; then this holds unless a heartbeat and a second lie
      between the two, where the first tick fires. */
  method TickUntilExpired(start: int, heartbeat: int, last: int) returns (k: int, now: int)
    requires heartbeat > 0
    ensures Expired(Unix(last), now, heartbeat) && k >= 1 && now == Tick(start, heartbeat, k)
    ensures heartbeat < now - last && (k == 1 || now - last < 2 * heartbeat + SECOND)
    ensures start - last < heartbeat + SECOND ==> now - last < 2 * heartbeat + SECOND
    ensures start - last >= heartbeat + SECOND ==> k == 1
    ensures forall j :: 1 <= j && Tick(start, heartbeat, j) < now ==>
      !Expired(Unix(last), Tick(start, heartbeat, j), heartbeat)
  {
    k := 1;
    now := Tick(start, heartbeat, 1);
    while !Expired(Unix(last), now, heartbeat)
      invariant k >= 1 && now == Tick(start, heartbeat, k)
      invariant forall j :: 1 <= j < k ==> !Expired(Unix(last), Tick(start, heartbeat, j), heartbeat)
      invariant k == 1 || now - last < 2 * heartbeat + SECOND
      decreases last + heartbeat + SECOND - now
    {
      ExpiredIff(last, now, heartbeat);
      assert now - last < heartbeat + SECOND;
      TickNext(start, heartbeat, k);
      k := k + 1;
      now := now + heartbeat;
    }
    ExpiredIff(last, now, heartbeat);
    TickOrder(start, heartbeat, k);
  }

  function Tick(start: int, heartbeat: int, k: int): int { start + k * heartbeat }

  lemma TickNext(start: int, heartbeat: int, k: int)
    ensures Tick(start, heartbeat, k + 1) == Tick(start, heartbeat, k) + heartbeat
  {
  }

  lemma TickOrder(start: int, heartbeat: int, k: int)
    requires heartbeat > 0
    ensures forall j :: Tick(start, heartbeat, j) < Tick(start, heartbeat, k) ==> j < k
  {
    forall j | Tick(start, heartbeat, j) < Tick(start, heartbeat, k) ensures j < k {
      if j >= k { Monotone(k, j, heartbeat); }
    }
  }

  lemma Monotone(a: int, b: int, c: int)
    requires a <= b && c > 0
    ensures a * c <= b * c
  {
    assert (b - a) * c >= 0;
  }

  /** The bound is sharp at every tick but the first: with the last packet on a full second, and the k-th
      tick one nanosecond short of a heartbeat and a second after it, the first tick to fire is the next
      one, two heartbeats and a second less a nanosecond after the packet. */
  lemma BoundIsSharp(heartbeat: int, seconds: int, k: int)
    requires heartbeat > 0 && k >= 1
    ensures var last := seconds * SECOND; var start := last + SECOND - 1 - (k - 1) * heartbeat;
      && Expired(Unix(last), Tick(start, heartbeat, k + 1), heartbeat)
      && Tick(start, heartbeat, k + 1) - last == 2 * heartbeat + SECOND - 1
      && forall j :: 1 <= j <= k ==> !Expired(Unix(last), Tick(start, heartbeat, j), heartbeat)
  {
    var last := seconds * SECOND;
    var start := last + SECOND - 1 - (k - 1) * heartbeat;
    TickNext(start, heartbeat, k - 1);
    TickNext(start, heartbeat, k);
    assert Tick(start, heartbeat, k - 1) == last + SECOND - 1;
    ExpiredIff(last, Tick(start, heartbeat, k + 1), heartbeat);
    forall j | 1 <= j <= k ensures !Expired(Unix(last), Tick(start, heartbeat, j), heartbeat) {
      Monotone(j, k, heartbeat);
      ExpiredIff(last, Tick(start, heartbeat, j), heartbeat);
    }
  }
}
