/**
 The slice arithmetic of the I/O throttle (block/blk-throttle.c) for one group and
 direction, and the rate it guarantees. Times are jiffies, counted without wrap-around,
 and never decrease.
 */
module ThrottleSlice {
  import opened Numbers

  const UINT_MAX: nat := 0xFFFF_FFFF
  const BPS_UNLIMITED: nat := 0xFFFF_FFFF_FFFF_FFFF
  const IOPS_UNLIMITED: nat := 0xFFFF_FFFF

  /** A group's limits in one direction; `slice` is throtl_slice, in ticks of 1/hz s. */
  datatype Rule = Rule(hz: nat, slice: nat, bps: nat, iops: nat)

  predicate RuleOk(u: Rule) { u.hz > 0 && u.slice > 0 && u.bps > 0 && u.iops > 0 }

  /** tg_no_rule_group. */
  predicate Unlimited(u: Rule) { u.bps == BPS_UNLIMITED && u.iops == IOPS_UNLIMITED }

  /** bytes_disp, io_disp, slice_start and slice_end. */
  datatype Slice = Slice(bytes: nat, ios: nat, start: nat, end: nat)

  datatype Verdict = Verdict(ok: bool, wait: nat, slice: Slice)

  // ----- arithmetic

  /** roundup: the least multiple of `m` not below `x`. */
  function RoundUp(x: nat, m: nat): (r: nat)
    requires m > 0
    ensures x <= r < x + m
  {
    assert x + m - 1 == (x + m - 1) / m * m + (x + m - 1) % m;
    (x + m - 1) / m * m
  }

  /** The ticks of the whole slices in `x` ticks; none if there is no whole slice. */
  function Whole(x: nat, m: nat): (r: nat)
    requires m > 0
    ensures r <= x && (r == 0 <==> x / m == 0)
  {
    assert x == x / m * m + x % m;
    if x / m == 0 then 0 else x / m * m
  }

  /** What a rate allows in some ticks, rounded down. */
  function Allowed(rate: nat, ticks: nat, hz: nat): (r: nat)
    requires hz > 0
    ensures r * hz <= rate * ticks
  {
    ProductNat(rate, ticks);
    rate * ticks / hz
  }

  lemma {:induction false} ProductNat(a: nat, b: nat)
    ensures a * b >= 0
  {
  }

  /** The ticks an amount takes at a rate, rounded down. */
  function Ticks(amount: nat, hz: nat, rate: nat): nat
    requires rate > 0
  {
    ProductNat(amount, hz);
    amount * hz / rate
  }

  // ----- the slice functions

  /** throtl_start_new_slice. */
  function NewSlice(u: Rule, now: nat): Slice { Slice(0, 0, now, now + u.slice) }

  /** throtl_slice_used. */
  predicate Used(s: Slice, now: nat) { !(s.start <= now <= s.end) }

  /** throtl_trim_slice. */
  function Trim(u: Rule, s: Slice, now: nat): Slice
    requires RuleOk(u)
  {
    if Used(s, now) then s
    else
      var t := s.(end := RoundUp(now + u.slice, u.slice));
      var ticks := Whole(now - s.start, u.slice);
      var bytes, ios := Allowed(u.bps, ticks, u.hz), Allowed(u.iops, ticks, u.hz);
      if ticks == 0 || (bytes == 0 && ios == 0) then t
      else t.(bytes := if s.bytes >= bytes then s.bytes - bytes else 0,
              ios := if s.ios >= ios then s.ios - ios else 0,
              start := s.start + ticks)
  }

  /** The time since the slice began, rounded up; one slice if it has just begun. */
  function Elapsed(u: Rule, s: Slice, now: nat): (r: nat)
    requires RuleOk(u) && s.start <= now
    ensures now - s.start <= r <= now - s.start + u.slice
  {
    RoundUp(if now == s.start then u.slice else now - s.start, u.slice)
  }

  /** tg_with_in_bps_limit: zero if within the limit, else the time to wait. */
  function BpsWait(u: Rule, s: Slice, size: nat, now: nat): nat
    requires RuleOk(u) && s.start <= now
  {
    var rnd := Elapsed(u, s, now);
    var allowed := Allowed(u.bps, rnd, u.hz);
    if s.bytes + size <= allowed then 0
    else
      var wait := Ticks(s.bytes + size - allowed, u.hz, u.bps);
      (if wait == 0 then 1 else wait) + (rnd - (now - s.start))
  }

  /** tg_with_in_iops_limit, likewise. */
  function IopsWait(u: Rule, s: Slice, now: nat): nat
    requires RuleOk(u) && s.start <= now
  {
    var rate := Allowed(u.iops, Elapsed(u, s, now), u.hz);
    if s.ios + 1 <= (if rate > UINT_MAX then UINT_MAX else rate) then 0
    else
      var wait := Ticks(s.ios + 1, u.hz, u.iops) + 1;
      if wait > now - s.start then wait - (now - s.start) else 1
  }

  /** The first half of tg_may_dispatch: a slice that reaches a slice's length ahead. */
  function Renew(u: Rule, s: Slice, now: nat): (r: Slice)
    requires RuleOk(u)
    ensures r.start <= now && now + u.slice <= r.end
  {
    if Used(s, now) then NewSlice(u, now)
    else if s.end < now + u.slice then s.(end := RoundUp(now + u.slice, u.slice))
    else s
  }

  /** tg_may_dispatch. */
  function MayDispatch(u: Rule, s: Slice, size: nat, now: nat): Verdict
    requires RuleOk(u)
  {
    if Unlimited(u) then Verdict(true, 0, s)
    else
      var t := Renew(u, s, now);
      var bps := BpsWait(u, t, size, now);
      var iops := if bps == 0 then IopsWait(u, t, now) else 0;
      var wait := if bps > iops then bps else iops;
      if wait == 0 then Verdict(true, 0, t)
      else Verdict(false, wait, if t.end < now + wait then t.(end := RoundUp(now + wait, u.slice)) else t)
  }

  /** throtl_charge_bio. */
  function Charge(s: Slice, size: nat): Slice { s.(bytes := s.bytes + size, ios := s.ios + 1) }

  // ----- the rate

  /** Bytes and bios dispatched in all since the first slice was opened at `since`. */
  datatype Sent = Sent(bytes: nat, ios: nat, since: nat)

  /** What is dispatched beyond the current slice's count fits the time before the
      slice, and the total fits the time to the slice's end and to a slice from now. */
  predicate Metered(hz: nat, slice: nat, rate: nat, total: nat, used: nat, start: nat, end: nat, since: nat, now: nat) {
    && since <= start <= now && start <= end && used <= total
    && (total - used) * hz <= rate * (start - since)
    && total * hz <= rate * (end - since)
    && total * hz <= rate * (now + slice - since)
  }

  predicate WithinRate(u: Rule, s: Slice, t: Sent, now: nat) {
    && Metered(u.hz, u.slice, u.bps, t.bytes, s.bytes, s.start, s.end, t.since, now)
    && Metered(u.hz, u.slice, u.iops, t.ios, s.ios, s.start, s.end, t.since, now)
  }

  lemma {:induction false} MeterLater(hz: nat, slice: nat, rate: nat, total: nat, used: nat, start: nat, end: nat,
                                      since: nat, now: nat, later: nat)
    requires Metered(hz, slice, rate, total, used, start, end, since, now) && now <= later
    ensures Metered(hz, slice, rate, total, used, start, end, since, later)
  {
    MulMono(rate, now + slice - since, later + slice - since);
  }

  lemma {:induction false} MeterStart(hz: nat, slice: nat, rate: nat, total: nat, used: nat, start: nat, end: nat,
                                      since: nat, now: nat)
    requires Metered(hz, slice, rate, total, used, start, end, since, now) && end < now
    ensures Metered(hz, slice, rate, total, 0, now, now + slice, since, now)
  {
    MulMono(rate, end - since, now - since);
  }

  lemma {:induction false} MeterExtend(hz: nat, slice: nat, rate: nat, total: nat, used: nat, start: nat, end: nat,
                                       since: nat, now: nat, end': nat)
    requires Metered(hz, slice, rate, total, used, start, end, since, now) && end <= end'
    ensures Metered(hz, slice, rate, total, used, start, end', since, now)
  {
    MulMono(rate, end - since, end' - since);
  }

  lemma {:induction false} MeterCharge(hz: nat, slice: nat, rate: nat, total: nat, used: nat, start: nat, end: nat,
                                       since: nat, now: nat, n: nat)
    requires Metered(hz, slice, rate, total, used, start, end, since, now) && now + slice <= end
    requires (used + n) * hz <= rate * (now - start + slice)
    ensures Metered(hz, slice, rate, total + n, used + n, start, end, since, now)
  {
    assert (total + n) * hz == (total - used) * hz + (used + n) * hz;
    assert rate * (now + slice - since) == rate * (start - since) + rate * (now - start + slice);
    MulMono(rate, now + slice - since, end - since);
  }

  /** Saturating subtraction of `cut`, which `ticks` allow. */
  lemma {:induction false} MeterTrim(hz: nat, slice: nat, rate: nat, total: nat, used: nat, start: nat, end: nat,
                                     since: nat, now: nat, ticks: nat, cut: nat, end': nat)
    requires Metered(hz, slice, rate, total, used, start, end, since, now)
    requires start + ticks <= now && now + slice <= end' && cut * hz <= rate * ticks
    ensures Metered(hz, slice, rate, total, if used >= cut then used - cut else 0, start + ticks, end', since, now)
  {
    assert rate * (start + ticks - since) == rate * (start - since) + rate * ticks;
    MulMono(rate, now + slice - since, end' - since);
    if used >= cut {
      assert (total - (used - cut)) * hz == (total - used) * hz + cut * hz;
    } else {
      assert total * hz == (total - used) * hz + used * hz;
      MulMono(hz, used, cut);
    }
  }

  // ----- each slice function keeps the rate

  lemma {:induction false} RateLater(u: Rule, s: Slice, t: Sent, now: nat, later: nat)
    requires WithinRate(u, s, t, now) && now <= later
    ensures WithinRate(u, s, t, later)
  {
    MeterLater(u.hz, u.slice, u.bps, t.bytes, s.bytes, s.start, s.end, t.since, now, later);
    MeterLater(u.hz, u.slice, u.iops, t.ios, s.ios, s.start, s.end, t.since, now, later);
  }

  /** Nothing dispatched yet: the rate may as well be counted from the current slice. */
  lemma {:induction false} FreshRate(u: Rule, s: Slice, t: Sent, now: nat)
    requires WithinRate(u, s, t, now) && t.bytes == 0 && t.ios == 0
    ensures WithinRate(u, s, Sent(0, 0, s.start), now)
  {
  }

  lemma {:induction false} RateExtend(u: Rule, s: Slice, t: Sent, now: nat, end: nat)
    requires WithinRate(u, s, t, now) && s.end <= end
    ensures WithinRate(u, s.(end := end), t, now)
  {
    MeterExtend(u.hz, u.slice, u.bps, t.bytes, s.bytes, s.start, s.end, t.since, now, end);
    MeterExtend(u.hz, u.slice, u.iops, t.ios, s.ios, s.start, s.end, t.since, now, end);
  }

  lemma {:induction false} RenewRate(u: Rule, s: Slice, t: Sent, now: nat)
    requires RuleOk(u) && WithinRate(u, s, t, now)
    ensures WithinRate(u, Renew(u, s, now), t, now)
  {
    if Used(s, now) {
      MeterStart(u.hz, u.slice, u.bps, t.bytes, s.bytes, s.start, s.end, t.since, now);
      MeterStart(u.hz, u.slice, u.iops, t.ios, s.ios, s.start, s.end, t.since, now);
    } else {
      RateExtend(u, s, t, now, Renew(u, s, now).end);
    }
  }

  /** Asking whether a bio may go keeps the rate, whatever the answer. */
  lemma {:induction false} AskRate(u: Rule, s: Slice, t: Sent, size: nat, now: nat)
    requires RuleOk(u) && WithinRate(u, s, t, now)
    ensures WithinRate(u, MayDispatch(u, s, size, now).slice, t, now)
  {
    if !Unlimited(u) {
      RenewRate(u, s, t, now);
      var r := Renew(u, s, now);
      RateExtend(u, r, t, now, MayDispatch(u, s, size, now).slice.end);
    }
  }

  lemma {:induction false} TrimRate(u: Rule, s: Slice, t: Sent, now: nat)
    requires RuleOk(u) && WithinRate(u, s, t, now)
    ensures WithinRate(u, Trim(u, s, now), t, now)
  {
    if !Used(s, now) {
      var ticks, end := Whole(now - s.start, u.slice), RoundUp(now + u.slice, u.slice);
      if Trim(u, s, now) == s.(end := end) {
        MeterTrim(u.hz, u.slice, u.bps, t.bytes, s.bytes, s.start, s.end, t.since, now, 0, 0, end);
        MeterTrim(u.hz, u.slice, u.iops, t.ios, s.ios, s.start, s.end, t.since, now, 0, 0, end);
      } else {
        MeterTrim(u.hz, u.slice, u.bps, t.bytes, s.bytes, s.start, s.end, t.since, now,
                  ticks, Allowed(u.bps, ticks, u.hz), end);
        MeterTrim(u.hz, u.slice, u.iops, t.ios, s.ios, s.start, s.end, t.since, now,
                  ticks, Allowed(u.iops, ticks, u.hz), end);
      }
    }
  }

  lemma {:induction false} Granted(rate: nat, hz: nat, used: nat, rnd: nat, ticks: nat)
    requires hz > 0 && used <= Allowed(rate, rnd, hz) && rnd <= ticks
    ensures used * hz <= rate * ticks
  {
    MulMono(hz, used, Allowed(rate, rnd, hz));
    MulMono(rate, rnd, ticks);
  }

  /** A bio that may go is within what the rate allows up to a slice from now. */
  lemma {:induction false} GrantBound(u: Rule, s: Slice, size: nat, now: nat)
    requires RuleOk(u) && s.start <= now && BpsWait(u, s, size, now) == 0 && IopsWait(u, s, now) == 0
    ensures (s.bytes + size) * u.hz <= u.bps * (now - s.start + u.slice)
    ensures (s.ios + 1) * u.hz <= u.iops * (now - s.start + u.slice)
  {
    Granted(u.bps, u.hz, s.bytes + size, Elapsed(u, s, now), now - s.start + u.slice);
    Granted(u.iops, u.hz, s.ios + 1, Elapsed(u, s, now), now - s.start + u.slice);
  }

  lemma {:induction false} ChargeRate(u: Rule, s: Slice, t: Sent, size: nat, now: nat)
    requires RuleOk(u) && WithinRate(u, s, t, now) && now + u.slice <= s.end
    requires BpsWait(u, s, size, now) == 0 && IopsWait(u, s, now) == 0
    ensures WithinRate(u, Charge(s, size), Sent(t.bytes + size, t.ios + 1, t.since), now)
  {
    GrantBound(u, s, size, now);
    MeterCharge(u.hz, u.slice, u.bps, t.bytes, s.bytes, s.start, s.end, t.since, now, size);
    MeterCharge(u.hz, u.slice, u.iops, t.ios, s.ios, s.start, s.end, t.since, now, 1);
  }

  /** Asking, charging and trimming keep the rate. */
  lemma {:induction false} DispatchRate(u: Rule, s: Slice, t: Sent, size: nat, now: nat)
    requires RuleOk(u) && WithinRate(u, s, t, now) && !Unlimited(u) && MayDispatch(u, s, size, now).ok
    ensures WithinRate(u, Trim(u, Charge(MayDispatch(u, s, size, now).slice, size), now),
                       Sent(t.bytes + size, t.ios + 1, t.since), now)
  {
    RenewRate(u, s, t, now);
    var r := Renew(u, s, now);
    ChargeRate(u, r, t, size, now);
    TrimRate(u, Charge(r, size), Sent(t.bytes + size, t.ios + 1, t.since), now);
  }

  /** Asking again in the same tick gives the same answer and changes nothing. */
  lemma {:induction false} AskTwice(u: Rule, s: Slice, size: nat, now: nat)
    requires RuleOk(u)
    ensures var v := MayDispatch(u, s, size, now); MayDispatch(u, v.slice, size, now) == v && (v.ok <==> v.wait == 0)
  {
    if !Unlimited(u) {
      var v := MayDispatch(u, s, size, now);
      var r := Renew(u, s, now);
      assert Renew(u, v.slice, now) == v.slice;
      assert BpsWait(u, v.slice, size, now) == BpsWait(u, r, size, now);
      assert IopsWait(u, v.slice, now) == IopsWait(u, r, now);
    }
  }

  // ----- the limiter

  /** The slice functions as the group code uses them: ask for a bio, charge one that may
      go, and the rate they keep. */
  datatype Limiter = Limiter(unlimited: bool, ask: (Slice, nat, nat) -> Verdict, spend: (Slice, nat, nat) -> Slice,
                             within: (Slice, Sent, nat) -> bool)

  /** What the group code relies on. */
  ghost predicate Limits(m: Limiter) {
    && (forall s, t, size, now :: m.within(s, t, now) ==> m.within(m.ask(s, size, now).slice, t, now))
    && (forall s, t, size, now :: m.within(s, t, now) && !m.unlimited && m.ask(s, size, now).ok ==>
          m.within(m.spend(s, size, now), Sent(t.bytes + size, t.ios + 1, t.since), now))
    && (forall s, size, now :: m.ask(m.ask(s, size, now).slice, size, now) == m.ask(s, size, now))
    && (forall s, size, now :: m.spend(m.ask(s, size, now).slice, size, now) == m.spend(s, size, now))
    && (forall s, size, now :: m.ask(s, size, now).ok <==> m.ask(s, size, now).wait == 0)
    && (forall s, t, now, later :: m.within(s, t, now) && now <= later ==> m.within(s, t, later))
    && (forall s, t, now :: m.within(s, t, now) && t.bytes == 0 && t.ios == 0 ==> m.within(s, Sent(0, 0, s.start), now))
  }

  /** tg_may_dispatch, then throtl_charge_bio and throtl_trim_slice. */
  function Spend(u: Rule, s: Slice, size: nat, now: nat): Slice
    requires RuleOk(u)
  {
    Trim(u, Charge(MayDispatch(u, s, size, now).slice, size), now)
  }

  function LimiterOf(u: Rule): Limiter
    requires RuleOk(u)
  {
    Limiter(Unlimited(u), (s: Slice, size: nat, now: nat) => MayDispatch(u, s, size, now),
            (s: Slice, size: nat, now: nat) => Spend(u, s, size, now),
            (s: Slice, t: Sent, now: nat) => WithinRate(u, s, t, now))
  }

  /** A rule's slice functions are a limiter. */
  lemma {:induction false} SliceLimits(u: Rule)
    requires RuleOk(u)
    ensures Limits(LimiterOf(u))
  {
    var m := LimiterOf(u);
    forall s, t, size, now | m.within(s, t, now)
      ensures m.within(m.ask(s, size, now).slice, t, now)
    {
      AskRate(u, s, t, size, now);
    }
    forall s, t, size, now | m.within(s, t, now) && !m.unlimited && m.ask(s, size, now).ok
      ensures m.within(m.spend(s, size, now), Sent(t.bytes + size, t.ios + 1, t.since), now)
    {
      DispatchRate(u, s, t, size, now);
    }
    forall s, size, now
      ensures m.ask(m.ask(s, size, now).slice, size, now) == m.ask(s, size, now)
      ensures m.spend(m.ask(s, size, now).slice, size, now) == m.spend(s, size, now)
      ensures m.ask(s, size, now).ok <==> m.ask(s, size, now).wait == 0
    {
      AskTwice(u, s, size, now);
    }
    forall s, t, now, later | m.within(s, t, now) && now <= later
      ensures m.within(s, t, later)
    {
      RateLater(u, s, t, now, later);
    }
    forall s, t, now | m.within(s, t, now) && t.bytes == 0 && t.ios == 0
      ensures m.within(s, Sent(0, 0, s.start), now)
    {
      FreshRate(u, s, t, now);
    }
  }
}
