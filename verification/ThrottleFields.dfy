/**
 The slice of one group and direction as the kernel keeps it, in fields updated in place
 (block/blk-throttle.c). Each method is proved to do what ThrottleSlice says, whose
 lemmas bound the rate.
 */
module ThrottleFields {
  import opened ThrottleSlice

  class SliceFields {
    const rule: Rule
    var bytesDisp: nat
    var ioDisp: nat
    var sliceStart: nat
    var sliceEnd: nat

    function View(): Slice
      reads this
    {
      Slice(bytesDisp, ioDisp, sliceStart, sliceEnd)
    }

    /** throtl_start_new_slice. */
    method StartNewSlice(now: nat)
      modifies this
      ensures View() == NewSlice(rule, now)
    {
      bytesDisp, ioDisp := 0, 0;
      sliceStart, sliceEnd := now, now + rule.slice;
    }

    /** throtl_extend_slice and throtl_set_slice_end. */
    method ExtendSlice(end: nat)
      requires RuleOk(rule)
      modifies `sliceEnd
      ensures sliceEnd == RoundUp(end, rule.slice)
    {
      sliceEnd := RoundUp(end, rule.slice);
    }

    /** throtl_trim_slice. */
    method TrimSlice(now: nat)
      requires RuleOk(rule) && sliceStart <= sliceEnd
      modifies this
      ensures View() == Trim(rule, old(View()), now)
    {
      if !(sliceStart <= now <= sliceEnd) {
        return;
      }
      ExtendSlice(now + rule.slice);
      var nrSlices := (now - sliceStart) / rule.slice;
      if nrSlices == 0 {
        return;
      }
      var ticks := Whole(now - sliceStart, rule.slice);
      var bytesTrim, ioTrim := Allowed(rule.bps, ticks, rule.hz), Allowed(rule.iops, ticks, rule.hz);
      if bytesTrim == 0 && ioTrim == 0 {
        return;
      }
      if bytesDisp >= bytesTrim {
        bytesDisp := bytesDisp - bytesTrim;
      } else {
        bytesDisp := 0;
      }
      if ioDisp >= ioTrim {
        ioDisp := ioDisp - ioTrim;
      } else {
        ioDisp := 0;
      }
      sliceStart := sliceStart + ticks;
    }

    /** tg_may_dispatch: may a bio of `size` bytes go, and if not, when? */
    method AskDispatch(size: nat, now: nat) returns (ok: bool, wait: nat)
      requires RuleOk(rule)
      modifies this
      ensures MayDispatch(rule, old(View()), size, now) == Verdict(ok, wait, View())
    {
      if Unlimited(rule) {
        return true, 0;
      }
      if !(sliceStart <= now <= sliceEnd) {
        StartNewSlice(now);
      } else if sliceEnd < now + rule.slice {
        ExtendSlice(now + rule.slice);
      }
      assert View() == Renew(rule, old(View()), now);
      var bpsWait, iopsWait := BpsWait(rule, View(), size, now), 0;
      if bpsWait == 0 {
        iopsWait := IopsWait(rule, View(), now);
        if iopsWait == 0 {
          return true, 0;
        }
      }
      ok, wait := false, if bpsWait > iopsWait then bpsWait else iopsWait;
      if sliceEnd < now + wait {
        ExtendSlice(now + wait);
      }
    }

    /** throtl_charge_bio. */
    method ChargeBio(size: nat)
      modifies `bytesDisp, `ioDisp
      ensures View() == Charge(old(View()), size)
    {
      bytesDisp, ioDisp := bytesDisp + size, ioDisp + 1;
    }

    /** tg_dispatch_one_bio, for a bio that may go: everything dispatched so far stays
        within the rate. */
    method DispatchBio(size: nat, now: nat, ghost sent: Sent) returns (ok: bool, wait: nat)
      requires RuleOk(rule) && !Unlimited(rule) && WithinRate(rule, View(), sent, now)
      modifies this
      ensures ok ==> WithinRate(rule, View(), Sent(sent.bytes + size, sent.ios + 1, sent.since), now)
      ensures !ok ==> wait > 0 && WithinRate(rule, View(), sent, now)
      ensures View() == if ok then Spend(rule, old(View()), size, now)
              else MayDispatch(rule, old(View()), size, now).slice
    {
      ghost var before := View();
      ok, wait := AskDispatch(size, now);
      AskRate(rule, before, sent, size, now);
      if ok {
        DispatchRate(rule, before, sent, size, now);
        ChargeBio(size);
        TrimSlice(now);
      }
    }
  }
}
