/** The countdown card of the front end: whether a resolved date is shown at all, and, when
    it is, whether classes have started or how many days, hours, minutes and seconds
    remain. The clock reading and the parsed target instant are parameters, in
    milliseconds. */
module Countdown {
  import opened Strings
  import opened Registry
  import Handler

  /** The presentation rule: a date is shown only when it is official or its confidence
      is at least 0.6. */
  predicate ShowDate(info: Handler.Resolved) {
    Truthy(info.date) && (info.official || info.confidence >= 0.6)
  }

  /** What the card renders once the response has arrived. */
  datatype View =
    | Unconfirmed(fallbackNote: bool)
    | Started
    | Counting(days: int, hours: int, minutes: int, secs: int, soon: bool)

  const SecondsPerDay := 3600 * 24

  /** The card for the response `info`, the target instant `target` (the parsed date) and
      the clock reading `now`. */
  function Card(info: Handler.Resolved, target: int, now: int): (v: View)
    ensures v.Unconfirmed? <==> !ShowDate(info)
    ensures v.Unconfirmed? ==> (v.fallbackNote <==> info.usedFallback)
    ensures v.Started? <==> ShowDate(info) && target - now <= 0
    ensures v.Counting? ==> Remaining(v) == (target - now) / 1000 && v.soon == (v.days < 7)
    ensures v.Counting? ==> v.days >= 0 && 0 <= v.hours < 24 && 0 <= v.minutes < 60 && 0 <= v.secs < 60
  {
    if !ShowDate(info) then Unconfirmed(info.usedFallback)
    else
      var diff := target - now;
      if diff <= 0 then Started
      else
        var seconds := diff / 1000;
        var days := seconds / SecondsPerDay;
        var hours := (seconds % SecondsPerDay) / 3600;
        var minutes := (seconds % 3600) / 60;
        var secs := seconds % 60;
        Breakdown(seconds);
        Counting(days, hours, minutes, secs, days < 7)
  }

  /** The whole seconds a countdown stands for. */
  function Remaining(v: View): int
    requires v.Counting?
  {
    v.days * SecondsPerDay + v.hours * 3600 + v.minutes * 60 + v.secs
  }

  /** The d/h/m/s fields add back up to the seconds they were cut from, each below its
      unit. */
  lemma Breakdown(seconds: nat)
    ensures var days, hours, minutes, secs :=
        seconds / SecondsPerDay, (seconds % SecondsPerDay) / 3600, (seconds % 3600) / 60, seconds % 60;
      days * SecondsPerDay + hours * 3600 + minutes * 60 + secs == seconds
      && 0 <= hours < 24 && 0 <= minutes < 60 && 0 <= secs < 60 && days >= 0
  {
    var r := seconds % SecondsPerDay;
    assert seconds == (seconds / SecondsPerDay) * SecondsPerDay + r;
    var q := seconds / 3600;
    assert seconds == q * 3600 + seconds % 3600;
    // a day is 24 whole hours, so cutting days first leaves the hour remainder unchanged
    assert q == (seconds / SecondsPerDay) * 24 + r / 3600 by {
      DivOfSum(seconds / SecondsPerDay, r);
    }
    assert r == (r / 3600) * 3600 + seconds % 3600;
    assert seconds % 3600 == ((seconds % 3600) / 60) * 60 + seconds % 60 by {
      ModOfHour(seconds);
    }
  }

  lemma DivOfSum(d: nat, r: nat)
    requires r < 86400
    ensures (d * 86400 + r) / 3600 == d * 24 + r / 3600
    ensures (d * 86400 + r) % 3600 == r % 3600
  {
    assert d * 86400 + r == (d * 24 + r / 3600) * 3600 + r % 3600;
  }

  lemma ModOfHour(s: nat)
    ensures s % 60 == (s % 3600) % 60
  {
    assert s == (s / 3600) * 3600 + s % 3600;
    assert s == ((s / 3600) * 60) * 60 + s % 3600;
  }

  /** The breakdown is the only one with fields in range: any other way of writing the same
      seconds as days, hours below 24, minutes and seconds below 60 gives the same fields. */
  lemma BreakdownUnique(seconds: nat, d: int, h: int, m: int, s: int)
    requires 0 <= d && 0 <= h < 24 && 0 <= m < 60 && 0 <= s < 60
    requires d * SecondsPerDay + h * 3600 + m * 60 + s == seconds
    ensures d == seconds / SecondsPerDay && h == (seconds % SecondsPerDay) / 3600
    ensures m == (seconds % 3600) / 60 && s == seconds % 60
  {
    var below := h * 3600 + m * 60 + s;
    assert 0 <= below < SecondsPerDay;
    assert seconds / SecondsPerDay == d && seconds % SecondsPerDay == below by {
      DivModUnique(seconds, SecondsPerDay, d, below);
    }
    assert below / 3600 == h && below % 3600 == m * 60 + s by {
      DivModUnique(below, 3600, h, m * 60 + s);
    }
    assert seconds / 3600 == d * 24 + h && seconds % 3600 == m * 60 + s by {
      DivModUnique(seconds, 3600, d * 24 + h, m * 60 + s);
    }
    assert (m * 60 + s) / 60 == m && (m * 60 + s) % 60 == s by {
      DivModUnique(m * 60 + s, 60, m, s);
    }
    assert seconds % 60 == s by {
      DivModUnique(seconds, 60, (d * 24 + h) * 60 + m, s);
    }
  }

  lemma DivModUnique(n: int, k: int, q: int, r: int)
    requires k > 0 && 0 <= r < k && n == q * k + r
    ensures n / k == q && n % k == r
  {
    var q0, r0 := n / k, n % k;
    assert (q - q0) * k == r0 - r;
    NoSmallMultiple(q - q0, k);
  }

  /** A multiple of k strictly between -k and k is zero. */
  lemma NoSmallMultiple(a: int, k: int)
    requires k > 0 && -k < a * k < k
    ensures a == 0
  {
    if a >= 1 {
      AtLeastOnce(a, k);
      assert false;
    } else if a <= -1 {
      AtLeastOnce(-a, k);
      assert false;
    }
  }

  lemma AtLeastOnce(a: int, k: int)
    requires a >= 1 && k > 0
    ensures a * k >= k
  {
  }

  /** The card is marked as soon exactly when less than a week remains. */
  lemma SoonWithinAWeek(info: Handler.Resolved, target: int, now: int)
    requires ShowDate(info) && target - now > 0
    ensures Card(info, target, now).soon <==> target - now < 7 * SecondsPerDay * 1000
  {
  }

  /** A fallback answer of the handler is never shown as a countdown. */
  lemma FallbackNeverShown(name: Option<string>, table: seq<Record>, env: Handler.Env, target: int, now: int)
    requires Handler.Resolve(name, table, env).Answer? && Handler.Resolve(name, table, env).body.usedFallback
    ensures Card(Handler.Resolve(name, table, env).body, target, now) == Unconfirmed(true)
  {
  }

  /** A registry answer is always shown. */
  lemma RegistryAnswerShown(u: Record)
    requires Trusted(u)
    ensures ShowDate(Handler.FromRegistry(u))
  {
  }
}
