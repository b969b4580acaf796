/** `calculateTimeRemaining` of `components/deal-countdown.tsx`, with the
    current time passed in as integer milliseconds. */
module DealCountdown {

  // Milliseconds per second, minute (60 000), hour (3 600 000) and day
  // (86 400 000) are written out as literals below.

  datatype TimeRemaining = TimeRemaining(days: nat, hours: nat, minutes: nat, seconds: nat)

  /** `Math.max(target - now, 0)`. */
  function Remaining(target: int, now: int): (r: nat)
    ensures r >= target - now
    ensures r == 0 || r == target - now
  {
    if target - now > 0 then target - now else 0
  }

  /** The milliseconds the four fields stand for. */
  function Millis(t: TimeRemaining): nat
  {
    t.days * 86400000 + t.hours * 3600000 + t.minutes * 60000 + t.seconds * 1000
  }

  function TotalSeconds(t: TimeRemaining): nat
  {
    t.days * 86400 + t.hours * 3600 + t.minutes * 60 + t.seconds
  }

  function CalculateTimeRemaining(target: int, now: int): (t: TimeRemaining)
    ensures t.hours < 24 && t.minutes < 60 && t.seconds < 60
    ensures Millis(t) <= Remaining(target, now) < Millis(t) + 1000
  {
    var diff := Remaining(target, now);
    var t := TimeRemaining(
      diff / 86400000,
      (diff % 86400000) / 3600000,
      (diff % 3600000) / 60000,
      (diff % 60000) / 1000);
    ModNest(diff, 86400000, 24, 3600000);
    ModNest(diff, 3600000, 60, 60000);
    ModNest(diff, 60000, 60, 1000);
    t
  }

  /** Taking the remainder by a multiple first does not change the
      remainder by the smaller unit. */
  lemma ModNest(x: nat, big: nat, k: nat, unit: nat)
    requires unit > 0 && k > 0 && big == k * unit
    ensures (x % big) % unit == x % unit
    ensures x == big * (x / big) + unit * ((x % big) / unit) + (x % big) % unit
  {
    var q := x / big;
    var r := x % big;
    assert x == big * q + r;
    var q2 := r / unit;
    var r2 := r % unit;
    assert r == unit * q2 + r2;
    assert big * q == unit * (k * q);
    assert x == unit * (k * q + q2) + r2;
    assert 0 <= r2 < unit;
    DivModUnique(x, unit, k * q + q2, r2);
  }

  lemma MulAtLeast(a: int, b: int)
    requires a >= 0 && b >= 1
    ensures a * b >= a
  {
  }

  lemma DivModUnique(x: int, unit: int, q: int, r: int)
    requires unit > 0 && 0 <= r < unit && x == unit * q + r
    ensures x % unit == r
  {
    var q0 := x / unit;
    var r0 := x % unit;
    assert x == unit * q0 + r0;
    assert unit * (q - q0) == r0 - r;
    if q > q0 {
      MulAtLeast(unit, q - q0);
    } else if q < q0 {
      MulAtLeast(unit, q0 - q);
    }
  }

  /** What the component shows 'Deal has Ended' for. */
  predicate Ended(t: TimeRemaining)
    ensures Ended(t) <==> Millis(t) == 0
    ensures Ended(t) <==> TotalSeconds(t) == 0
  {
    t.days == 0 && t.hours == 0 && t.minutes == 0 && t.seconds == 0
  }

  /** The deal reads as ended exactly when less than a second remains. */
  lemma EndedIffUnderOneSecond(target: int, now: int)
    ensures Ended(CalculateTimeRemaining(target, now)) <==> Remaining(target, now) < 1000
  {
    var t := CalculateTimeRemaining(target, now);
    if !Ended(t) {
      assert Millis(t) >= 1000;
    }
  }

  /** Once the target time is reached, every field is 0. */
  lemma EndedAtTarget(target: int, now: int)
    requires now >= target
    ensures CalculateTimeRemaining(target, now) == TimeRemaining(0, 0, 0, 0)
  {
    EndedIffUnderOneSecond(target, now);
  }

  /** As time passes, the whole seconds shown never go up. */
  lemma NeverIncreases(target: int, now: int, later: int)
    requires now <= later
    ensures TotalSeconds(CalculateTimeRemaining(target, later)) <= TotalSeconds(CalculateTimeRemaining(target, now))
  {
    SecondsFollowMillis(CalculateTimeRemaining(target, now), Remaining(target, now),
                        CalculateTimeRemaining(target, later), Remaining(target, later));
  }

  lemma SecondsFollowMillis(a: TimeRemaining, ra: nat, b: TimeRemaining, rb: nat)
    requires Millis(a) <= ra < Millis(a) + 1000
    requires Millis(b) <= rb < Millis(b) + 1000
    requires rb <= ra
    ensures TotalSeconds(b) <= TotalSeconds(a)
  {
    assert Millis(a) == 1000 * TotalSeconds(a);
    assert Millis(b) == 1000 * TotalSeconds(b);
  }
}
