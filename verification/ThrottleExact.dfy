/**
 What the throttle lets through, exactly, in rates and times: not only does no more go
 than the rate allows, everything goes that the rate allows up to the end of the current
 slice interval, and a bio that has to wait is not made to wait longer than it takes.
 */
module ThrottleExact {
  import opened Numbers
  import opened ThrottleSlice
  import opened ThrottleGroup
  import opened ThrottleWaits

  // ----- arithmetic

  /** The amount an interval allows, rounded down, is the greatest that fits the rate. */
  lemma {:induction false} AllowedExact(amount: nat, rate: nat, ticks: nat, hz: nat)
    requires hz > 0
    ensures amount <= Allowed(rate, ticks, hz) <==> amount * hz <= rate * ticks
  {
    ProductNat(rate, ticks);
    if amount <= Allowed(rate, ticks, hz) {
      MulMono(hz, amount, Allowed(rate, ticks, hz));
    } else if amount * hz <= rate * ticks {
      AtLeast(rate * ticks, amount, hz);
    }
  }

  /** `k` periods of `m` ticks are the fewest that cover `x` ticks, and at least one. */
  predicate Covers(k: nat, m: nat, x: nat) { k >= 1 && x <= k * m && (k == 1 || (k - 1) * m < x) }

  lemma {:induction false} RoundUpCovers(x: nat, m: nat) returns (k: nat)
    requires m > 0 && x > 0
    ensures Covers(k, m, x) && RoundUp(x, m) == k * m
  {
    k := (x + m - 1) / m;
    Quotient(x + m - 1, m);
    assert (k - 1) * m == k * m - m;
  }

  /** The same number of periods for the same time. */
  lemma {:induction false} CoversOnce(k: nat, j: nat, m: nat, x: nat)
    requires Covers(k, m, x) && Covers(j, m, x)
    ensures k == j
  {
    if k < j { MulMono(m, k, j - 1); }
    if j < k { MulMono(m, j, k - 1); }
  }

  // ----- which bios may go

  /** The counts a bio is asked with: those of the slice, or none if it is over. */
  function InForce(s: Slice, now: nat): Slice { if s.start <= now <= s.end then s else Slice(0, 0, now, now) }

  /** Within both limits over `ticks` ticks. */
  predicate Fits(u: Rule, bytes: nat, ios: nat, ticks: nat) {
    bytes * u.hz <= u.bps * ticks && ios * u.hz <= u.iops * ticks && ios <= UINT_MAX
  }

  lemma {:induction false} BpsExact(u: Rule, s: Slice, size: nat, now: nat)
    requires RuleOk(u) && s.start <= now
    ensures BpsWait(u, s, size, now) == 0 <==> (s.bytes + size) * u.hz <= u.bps * Elapsed(u, s, now)
  {
    AllowedExact(s.bytes + size, u.bps, Elapsed(u, s, now), u.hz);
  }

  lemma {:induction false} IopsExact(u: Rule, s: Slice, now: nat)
    requires RuleOk(u) && s.start <= now
    ensures IopsWait(u, s, now) == 0 <==>
            (s.ios + 1) * u.hz <= u.iops * Elapsed(u, s, now) && s.ios + 1 <= UINT_MAX
  {
    AllowedExact(s.ios + 1, u.iops, Elapsed(u, s, now), u.hz);
  }

  lemma {:induction false} ElapsedCovers(u: Rule, s: Slice, now: nat) returns (k: nat)
    requires RuleOk(u) && s.start <= now
    ensures Covers(k, u.slice, now - s.start) && Elapsed(u, s, now) == k * u.slice
  {
    k := RoundUpCovers(if now == s.start then u.slice else now - s.start, u.slice);
    if now == s.start { CoversOnce(k, 1, u.slice, u.slice); }
  }

  /** A bio may go if and only if, with it, what the slice has counted is within both rates
      over the slice intervals begun since the slice started. */
  lemma {:induction false} MayExactly(u: Rule, s: Slice, size: nat, now: nat) returns (k: nat)
    requires RuleOk(u) && !Unlimited(u)
    ensures var f := InForce(s, now);
            && Covers(k, u.slice, now - f.start)
            && (MayDispatch(u, s, size, now).ok <==> Fits(u, f.bytes + size, f.ios + 1, k * u.slice))
  {
    var t := Renew(u, s, now);
    k := ElapsedCovers(u, t, now);
    BpsExact(u, t, size, now);
    IopsExact(u, t, now);
  }

  /** Asking leaves the counts in force, in a slice that reaches a slice's length and the
      wait ahead, and that was so before or is as short as whole intervals allow. */
  lemma {:induction false} AskedSlice(u: Rule, s: Slice, size: nat, now: nat)
    requires RuleOk(u) && !Unlimited(u)
    ensures var v, f := MayDispatch(u, s, size, now), InForce(s, now);
            && v.slice == f.(end := v.slice.end) && now + Max(u.slice, v.wait) <= v.slice.end
            && ((v.slice == s && s.start <= now <= s.end) || v.slice.end < now + Max(u.slice, v.wait) + u.slice)
  {
  }

  /** After its slice is over, a bio goes at once if and only if it fits one slice. */
  lemma {:induction false} FirstGoes(u: Rule, s: Slice, size: nat, now: nat)
    requires RuleOk(u) && !Unlimited(u) && Used(s, now)
    ensures MayDispatch(u, s, size, now).ok <==> size * u.hz <= u.bps * u.slice && u.hz <= u.iops * u.slice
  {
    var k := MayExactly(u, s, size, now);
    CoversOnce(k, 1, u.slice, 0);
  }

  /** A submitted bio passes if and only if nothing waits before it and it may go. */
  lemma {:induction false} PassesExactly(u: Rule, l: Lane, b: Bio, now: nat) returns (k: nat)
    requires RuleOk(u) && !Unlimited(u) && l.lim == LimiterOf(u)
    ensures var f := InForce(l.slice, now);
            && Covers(k, u.slice, now - f.start)
            && (Passes(l, b, now) <==> l.queued == 0 && Fits(u, f.bytes + b.size, f.ios + 1, k * u.slice))
  {
    k := MayExactly(u, l.slice, b.size, now);
  }

  // ----- how long the others wait

  /** The wait for the byte limit ends when the rate allows the bytes, give or take a tick
      and the time of a byte: `d` ticks after the slice started. */
  lemma {:induction false} BpsWaitTight(u: Rule, s: Slice, size: nat, now: nat, d: nat)
    requires RuleOk(u) && s.start <= now && BpsWait(u, s, size, now) > 0
    requires d == now + BpsWait(u, s, size, now) - s.start
    ensures d >= 1 && (s.bytes + size) * u.hz < u.bps * (d + 1) && u.bps * (d - 1) < (s.bytes + size + 1) * u.hz
  {
    var rnd := Elapsed(u, s, now);
    var allowed := Allowed(u.bps, rnd, u.hz);
    var extra: nat := s.bytes + size - allowed;
    ProductNat(u.bps, rnd);
    ProductNat(extra, u.hz);
    Quotient(u.bps * rnd, u.hz);
    Quotient(extra * u.hz, u.bps);
    BpsTicks(u.bps, u.hz, rnd, allowed, extra, Ticks(extra, u.hz, u.bps), d);
  }

  lemma {:induction false} BpsTicks(bps: nat, hz: nat, rnd: nat, allowed: nat, extra: nat, wait: nat, d: nat)
    requires hz > 0 && bps > 0 && extra > 0 && d == rnd + if wait == 0 then 1 else wait
    requires allowed * hz <= bps * rnd < allowed * hz + hz
    requires wait * bps <= extra * hz < wait * bps + bps
    ensures (allowed + extra) * hz < bps * (d + 1) && bps * (d - 1) < (allowed + extra + 1) * hz
  {
    assert (allowed + extra) * hz == allowed * hz + extra * hz;
    assert (allowed + extra + 1) * hz == allowed * hz + extra * hz + hz;
    assert bps * (rnd + wait + 1) == bps * rnd + wait * bps + bps;
    MulMono(bps, rnd + wait + 1, d + 1);
    if wait == 0 {
      MulMono(hz, 1, extra);
    } else {
      assert bps * (rnd + wait) == bps * rnd + wait * bps;
      MulMono(bps, d - 1, d);
    }
  }

  /** The wait for the limit on bios ends with the first tick after which the rate allows
      them, or with the next tick. */
  lemma {:induction false} IopsWaitTight(u: Rule, s: Slice, now: nat, d: nat)
    requires RuleOk(u) && s.start <= now && IopsWait(u, s, now) > 0 && d == now + IopsWait(u, s, now) - s.start
    ensures d >= 1 && (s.ios + 1) * u.hz < u.iops * d
    ensures u.iops * (d - 1) <= (s.ios + 1) * u.hz || d == now - s.start + 1
  {
    ProductNat(s.ios + 1, u.hz);
    Quotient((s.ios + 1) * u.hz, u.iops);
    var wait := Ticks(s.ios + 1, u.hz, u.iops) + 1;
    MulMono(u.iops, wait, d);
  }

  /** A bio that is refused waits for the bytes if these are too many, else for the bios. */
  lemma {:induction false} RefusedWaits(u: Rule, s: Slice, size: nat, now: nat, d: nat) returns (k: nat)
    requires RuleOk(u) && !Unlimited(u) && !MayDispatch(u, s, size, now).ok
    requires d == now + MayDispatch(u, s, size, now).wait - InForce(s, now).start
    ensures var f := InForce(s, now);
            && Covers(k, u.slice, now - f.start) && d >= 1
            && if (f.bytes + size) * u.hz > u.bps * (k * u.slice)
               then (f.bytes + size) * u.hz < u.bps * (d + 1) && u.bps * (d - 1) < (f.bytes + size + 1) * u.hz
               else && (f.ios + 1) * u.hz < u.iops * d
                    && (u.iops * (d - 1) <= (f.ios + 1) * u.hz || d == now - f.start + 1)
  {
    var t := Renew(u, s, now);
    k := ElapsedCovers(u, t, now);
    BpsExact(u, t, size, now);
    if BpsWait(u, t, size, now) > 0 { BpsWaitTight(u, t, size, now, d); } else { IopsWaitTight(u, t, now, d); }
  }

  /** A group is due when the first bio of one of its directions may be asked for again, and
      no later than that of the other. */
  lemma {:induction false} WaitLeast(g: Group, now: nat)
    requires g.read.bios != [] || g.write.bios != []
    ensures g.read.bios != [] ==> Wait(g, now) <= Ask(g.read, g.read.bios[0].size, now).wait
    ensures g.write.bios != [] ==> Wait(g, now) <= Ask(g.write, g.write.bios[0].size, now).wait
    ensures (g.read.bios != [] && Wait(g, now) == Ask(g.read, g.read.bios[0].size, now).wait)
            || (g.write.bios != [] && Wait(g, now) == Ask(g.write, g.write.bios[0].size, now).wait)
  {
  }

  // ----- what trimming takes off

  /** `y` is what is left of `x` when as much is taken off as a credit of `ticks` ticks at
      the rate allows. */
  predicate Deducted(x: nat, y: nat, hz: nat, rate: nat, ticks: nat) {
    y <= x && (x - y) * hz <= rate * ticks && (y == 0 || rate * ticks < (x - y + 1) * hz)
  }

  lemma {:induction false} DeductedIs(x: nat, hz: nat, rate: nat, ticks: nat, cut: nat)
    requires hz > 0 && cut == Allowed(rate, ticks, hz)
    ensures Deducted(x, if x >= cut then x - cut else 0, hz, rate, ticks)
  {
    AllowedExact(cut + 1, rate, ticks, hz);
    if x < cut { MulMono(hz, x, cut); }
  }

  lemma {:induction false} WholePeriods(x: nat, m: nat) returns (k: nat)
    requires m > 0
    ensures k * m <= x < k * m + m && Whole(x, m) == k * m
  {
    k := x / m;
    Quotient(x, m);
  }

  /** Trimming moves the start of a slice on by its whole intervals and takes exactly their
      credit off both counts, unless they give none; the slice then ends with the first
      interval that is at least one ahead. */
  lemma {:induction false} TrimExact(u: Rule, s: Slice, now: nat) returns (k: nat, e: nat)
    requires RuleOk(u) && !Used(s, now)
    ensures k * u.slice <= now - s.start < k * u.slice + u.slice
    ensures var t, ticks := Trim(u, s, now), k * u.slice;
            && Deducted(s.bytes, t.bytes, u.hz, u.bps, ticks) && Deducted(s.ios, t.ios, u.hz, u.iops, ticks)
            && t.start == s.start + (if u.bps * ticks < u.hz && u.iops * ticks < u.hz then 0 else ticks)
            && Covers(e, u.slice, now + u.slice) && t.end == e * u.slice
  {
    k := WholePeriods(now - s.start, u.slice);
    e := RoundUpCovers(now + u.slice, u.slice);
    var ticks := k * u.slice;
    DeductedIs(s.bytes, u.hz, u.bps, ticks, Allowed(u.bps, ticks, u.hz));
    DeductedIs(s.ios, u.hz, u.iops, ticks, Allowed(u.iops, ticks, u.hz));
    AllowedExact(1, u.bps, ticks, u.hz);
    AllowedExact(1, u.iops, ticks, u.hz);
  }
}
