/**
 Waiting helps: after the time tg_with_in_iops_limit computes, the bio is within that
 limit; and a bio that is asked for again whenever its wait is over goes after a bounded
 number of rounds. The wait for the byte limit is rounded down, so that one round may not
 be enough.
 */
module ThrottleWaits {
  import opened Numbers
  import opened ThrottleSlice

  // ----- arithmetic

  lemma {:induction false} Quotient(x: nat, m: nat)
    requires m > 0
    ensures x / m * m <= x < x / m * m + m
  {
    assert x == x / m * m + x % m;
  }

  lemma {:induction false} AtLeast(x: nat, y: nat, m: nat)
    requires m > 0 && y * m <= x
    ensures y <= x / m
  {
    Quotient(x, m);
    if y > x / m { MulMono(m, x / m + 1, y); }
  }

  /** In one tick more than an amount takes, the rate allows it. */
  lemma {:induction false} Affordable(amount: nat, hz: nat, rate: nat, ticks: nat)
    requires hz > 0 && rate > 0 && ticks > Ticks(amount, hz, rate)
    ensures amount <= Allowed(rate, ticks, hz)
  {
    ProductNat(amount, hz);
    ProductNat(rate, ticks);
    Quotient(amount * hz, rate);
    MulMono(rate, amount * hz / rate + 1, ticks);
    AtLeast(rate * ticks, amount, hz);
  }

  lemma {:induction false} LaterAllows(rate: nat, hz: nat, ticks: nat, more: nat, amount: nat)
    requires hz > 0 && ticks <= more && amount <= Allowed(rate, ticks, hz)
    ensures amount <= Allowed(rate, more, hz)
  {
    MulMono(rate, ticks, more);
    MulMono(hz, amount, Allowed(rate, ticks, hz));
    ProductNat(rate, more);
    AtLeast(rate * more, amount, hz);
  }

  // ----- the two limits

  /** Enough time has passed for the byte limit. */
  lemma {:induction false} BpsOver(u: Rule, s: Slice, size: nat, now: nat)
    requires RuleOk(u) && s.start <= now && now - s.start > Ticks(s.bytes + size, u.hz, u.bps)
    ensures BpsWait(u, s, size, now) == 0
  {
    Affordable(s.bytes + size, u.hz, u.bps, now - s.start);
    LaterAllows(u.bps, u.hz, now - s.start, Elapsed(u, s, now), s.bytes + size);
  }

  lemma {:induction false} IopsOver(u: Rule, s: Slice, now: nat)
    requires RuleOk(u) && s.start <= now && now - s.start > Ticks(s.ios + 1, u.hz, u.iops)
    ensures IopsWait(u, s, now) == 0 <==> s.ios + 1 <= UINT_MAX
  {
    Affordable(s.ios + 1, u.hz, u.iops, now - s.start);
    LaterAllows(u.iops, u.hz, now - s.start, Elapsed(u, s, now), s.ios + 1);
  }

  /** After the wait the bio is within the limit on their number, if and only if that number
      is one the saturated limit can reach. */
  lemma {:induction false} IopsWaitHelps(u: Rule, s: Slice, now: nat)
    requires RuleOk(u) && s.start <= now && IopsWait(u, s, now) > 0
    ensures IopsWait(u, s, now + IopsWait(u, s, now)) == 0 <==> s.ios + 1 <= UINT_MAX
  {
    IopsOver(u, s, now + IopsWait(u, s, now));
  }

  // ----- rounds

  /** A direction asks for the same bio again whenever its wait is over: the slice and the
      time after `k` refusals, or up to the first consent. */
  function Patient(u: Rule, s: Slice, size: nat, now: nat, k: nat): (Slice, nat)
    requires RuleOk(u)
    decreases k
  {
    var v := MayDispatch(u, s, size, now);
    if k == 0 || v.ok then (s, now) else Patient(u, v.slice, size, now + v.wait, k - 1)
  }

  /** When the time since the slice began is enough for both limits. */
  function Enough(u: Rule, s: Slice, size: nat): nat
    requires RuleOk(u)
  {
    s.start + Max(Ticks(s.bytes + size, u.hz, u.bps), Ticks(s.ios + 1, u.hz, u.iops)) + 1
  }

  lemma {:induction false} EnoughGoes(u: Rule, s: Slice, size: nat, now: nat)
    requires RuleOk(u) && !Unlimited(u) && !Used(s, now) && s.ios + 1 <= UINT_MAX && Enough(u, s, size) <= now
    ensures MayDispatch(u, s, size, now).ok
  {
    var t := Renew(u, s, now);
    BpsOver(u, t, size, now);
    IopsOver(u, t, now);
  }

  /** A refusal keeps what the slice has counted, and the slice lasts until the wait is over. */
  lemma {:induction false} RefusedKeeps(u: Rule, s: Slice, size: nat, now: nat)
    requires RuleOk(u) && !Unlimited(u) && !Used(s, now) && !MayDispatch(u, s, size, now).ok
    ensures var v := MayDispatch(u, s, size, now);
            && v.wait > 0 && !Used(v.slice, now + v.wait)
            && v.slice.start == s.start && v.slice.bytes == s.bytes && v.slice.ios == s.ios
  {
  }

  /** The bio may go after `k` rounds. */
  predicate GoesAfter(u: Rule, s: Slice, size: nat, now: nat, k: nat)
    requires RuleOk(u)
  {
    var p := Patient(u, s, size, now, k);
    MayDispatch(u, p.0, size, p.1).ok
  }

  /** The first round, and the rest. */
  lemma {:induction false} GoesNext(u: Rule, s: Slice, size: nat, now: nat, k: nat, rest: nat, v: Verdict, due: nat)
    requires RuleOk(u) && k == rest + 1 && v == MayDispatch(u, s, size, now) && due == now + v.wait
    ensures GoesAfter(u, s, size, now, k) <==> v.ok || GoesAfter(u, v.slice, size, due, rest)
  {
  }

  lemma {:induction false} GoesNow(u: Rule, s: Slice, size: nat, now: nat)
    requires RuleOk(u)
    ensures GoesAfter(u, s, size, now, 0) <==> MayDispatch(u, s, size, now).ok
  {
  }

  lemma {:induction false} PatientGoes(u: Rule, s: Slice, size: nat, now: nat, k: nat)
    requires RuleOk(u) && !Unlimited(u) && !Used(s, now) && s.ios + 1 <= UINT_MAX && Enough(u, s, size) <= now + k
    ensures GoesAfter(u, s, size, now, k)
    decreases k
  {
    if k == 0 {
      EnoughGoes(u, s, size, now);
      GoesNow(u, s, size, now);
    } else {
      var v, rest: nat := MayDispatch(u, s, size, now), k - 1;
      var due := now + v.wait;
      if !v.ok {
        RefusedKeeps(u, s, size, now);
        PatientGoes(u, v.slice, size, due, rest);
      }
      GoesNext(u, s, size, now, k, rest, v, due);
    }
  }

  lemma {:induction false} Saturated(u: Rule, s: Slice, size: nat, now: nat)
    requires RuleOk(u) && !Unlimited(u) && !Used(s, now) && s.ios + 1 > UINT_MAX
    ensures !MayDispatch(u, s, size, now).ok
  {
    assert IopsWait(u, Renew(u, s, now), now) > 0;
  }

  /** A number of bios that the saturated limit cannot reach never goes. */
  lemma {:induction false} NeverGoes(u: Rule, s: Slice, size: nat, now: nat, k: nat)
    requires RuleOk(u) && !Unlimited(u) && !Used(s, now) && s.ios + 1 > UINT_MAX
    ensures !GoesAfter(u, s, size, now, k)
    decreases k
  {
    Saturated(u, s, size, now);
    if k == 0 {
      GoesNow(u, s, size, now);
    } else {
      var v, rest: nat := MayDispatch(u, s, size, now), k - 1;
      var due := now + v.wait;
      RefusedKeeps(u, s, size, now);
      NeverGoes(u, v.slice, size, due, rest);
      GoesNext(u, s, size, now, k, rest, v, due);
    }
  }

  /** Asking with the renewed slice is asking with the old one. */
  lemma {:induction false} SameAnswer(u: Rule, s: Slice, size: nat, now: nat, r: Slice)
    requires RuleOk(u) && !Unlimited(u) && r == Renew(u, s, now)
    ensures MayDispatch(u, r, size, now) == MayDispatch(u, s, size, now) && !Used(r, now)
  {
    assert Renew(u, r, now) == r;
  }

  lemma {:induction false} GoesSame(u: Rule, s: Slice, size: nat, now: nat, k: nat, r: Slice)
    requires RuleOk(u) && !Unlimited(u) && r == Renew(u, s, now)
    ensures GoesAfter(u, r, size, now, k) <==> GoesAfter(u, s, size, now, k)
  {
    SameAnswer(u, s, size, now, r);
    if k == 0 {
      GoesNow(u, s, size, now);
      GoesNow(u, r, size, now);
    } else {
      var v, rest: nat := MayDispatch(u, s, size, now), k - 1;
      GoesNext(u, s, size, now, k, rest, v, now + v.wait);
      GoesNext(u, r, size, now, k, rest, v, now + v.wait);
    }
  }

  /** A bio that waits goes after no more rounds than there are ticks until both limits have
      had enough time. */
  lemma {:induction false} WaitingEnds(u: Rule, s: Slice, size: nat, now: nat) returns (k: nat)
    requires RuleOk(u) && !Unlimited(u) && Renew(u, s, now).ios + 1 <= UINT_MAX
    ensures GoesAfter(u, s, size, now, k) && now + k <= Max(now, Enough(u, Renew(u, s, now), size))
  {
    var r := Renew(u, s, now);
    k := if Enough(u, r, size) <= now then 0 else Enough(u, r, size) - now;
    SameAnswer(u, s, size, now, r);
    PatientGoes(u, r, size, now, k);
    GoesSame(u, s, size, now, k, r);
  }

  /** It goes at all if and only if the bios charged to its slice leave room for one more
      below the largest count. */
  lemma {:induction false} WaitingEndsExactly(u: Rule, s: Slice, size: nat, now: nat)
    requires RuleOk(u) && !Unlimited(u)
    ensures (exists k: nat :: GoesAfter(u, s, size, now, k)) <==> Renew(u, s, now).ios + 1 <= UINT_MAX
  {
    if Renew(u, s, now).ios + 1 <= UINT_MAX {
      var k := WaitingEnds(u, s, size, now);
    } else {
      forall k: nat
        ensures !GoesAfter(u, s, size, now, k)
      {
        StaysPut(u, s, size, now, k);
      }
    }
  }

  lemma {:induction false} StaysPut(u: Rule, s: Slice, size: nat, now: nat, k: nat)
    requires RuleOk(u) && !Unlimited(u) && Renew(u, s, now).ios + 1 > UINT_MAX
    ensures !GoesAfter(u, s, size, now, k)
  {
    var r := Renew(u, s, now);
    SameAnswer(u, s, size, now, r);
    NeverGoes(u, r, size, now, k);
    GoesSame(u, s, size, now, k, r);
  }

  /** One round may not be enough for the byte limit: at two bytes in three ticks, three
      bytes are asked for, and after the one tick that is waited one is still too many. */
  lemma {:induction false} OneRoundTooFew()
    ensures var u, s := Rule(3, 1, 2, 1000), Slice(0, 0, 0, 1000);
            RuleOk(u) && !MayDispatch(u, s, 3, 3).ok && !MayDispatch(u, s, 3, 3 + MayDispatch(u, s, 3, 3).wait).ok
  {
    var u, s := Rule(3, 1, 2, 1000), Slice(0, 0, 0, 1000);
    assert Elapsed(u, s, 3) == 3 && Allowed(2, 3, 3) == 2 && Ticks(1, 3, 2) == 1;
    assert BpsWait(u, s, 3, 3) == 1;
    assert Elapsed(u, s, 4) == 4 && Allowed(2, 4, 3) == 2;
    assert BpsWait(u, s, 3, 4) > 0;
  }
}
