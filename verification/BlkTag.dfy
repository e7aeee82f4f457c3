/**
 The tag map of one queue as the kernel has it: a bit map and an index array, searched,
 written and copied in place.
 */
module BlkTag {
  import opened SearchTree
  import opened TagSpec

  datatype Error = Ok | Busy

  /** find_first_zero_bit. */
  method FindFirstZero(bits: array<bool>, depth: nat) returns (tag: nat)
    requires depth <= bits.Length
    ensures tag <= depth && (tag < depth ==> !bits[tag]) && forall i :: 0 <= i < tag ==> bits[i]
  {
    tag := 0;
    while tag < depth && bits[tag]
      invariant tag <= depth && forall i :: 0 <= i < tag ==> bits[i]
    {
      tag := tag + 1;
    }
  }

  function SetBits(bits: seq<bool>): set<nat> { set i: nat | 0 <= i < |bits| && bits[i] }

  class QueueTags {
    var bits: array<bool>
    var index: array<Maybe>
    var depth: nat
    var uses: map<nat, Use>

    ghost predicate Shape()
      reads this
    {
      bits.Length == index.Length && depth <= index.Length
    }

    ghost function View(): Tags
      reads this, bits, index
    {
      Tags(SetBits(bits[..]), index[..], depth, uses)
    }

    /** init_tag_map. */
    constructor (depth: nat, nrRequests: nat)
      ensures Shape() && fresh(bits) && fresh(index) && Initial(View()) && index.Length == Capped(depth, nrRequests)
    {
      var d := if depth > nrRequests * 2 then nrRequests * 2 else depth;
      bits := new bool[d](i => false);
      index := new Maybe[d](i => None);
      this.depth := d;
      uses := map[];
    }

    /** test_and_set_bit_lock on a clear bit. */
    method TakeBit(rq: nat, tag: nat, sync: bool)
      requires Shape() && rq !in uses && tag < Limit(depth, sync) && !bits[tag]
      modifies `uses, bits
      ensures Enabled(old(View()), Claim(rq, tag, sync)) && View() == Next(old(View()), Claim(rq, tag, sync))
    {
      bits[tag] := true;
      uses := uses[rq := Use(tag, Claimed, sync)];
      assert SetBits(bits[..]) == old(SetBits(bits[..])) + {tag};
    }

    method PutIndex(rq: nat)
      requires Shape() && At(View(), rq, Claimed) && uses[rq].tag < index.Length
      modifies `uses, index
      ensures View() == Next(old(View()), WriteIndex(rq))
    {
      index[uses[rq].tag] := Some(rq);
      uses := uses[rq := uses[rq].(stage := Held)];
    }

    /** blk_queue_start_tag: busy when no tag is free below the limit, or too many async
        requests are in flight; otherwise the lowest free tag is taken. */
    method StartTag(rq: nat, sync: bool, asyncInFlight: nat) returns (busy: bool, tag: nat)
      requires Shape() && rq !in uses
      modifies this, bits, index
      ensures Shape() && bits == old(bits) && index == old(index)
      ensures busy ==> View() == old(View())
      ensures busy <==> || (forall i :: 0 <= i < Limit(depth, sync) ==> i in old(View()).bits)
                        || (!sync && depth > 1 && asyncInFlight > Limit(depth, false))
      ensures !busy ==> Enabled(old(View()), Claim(rq, tag, sync)) && forall i :: 0 <= i < tag ==> i in old(View()).bits
      ensures !busy ==> View() == Next(Next(old(View()), Claim(rq, tag, sync)), WriteIndex(rq))
    {
      var max := depth;
      if !sync && max > 1 {
        max := max - 2;
        if max == 0 {
          max := 1;
        }
        if asyncInFlight > max {
          return true, 0;
        }
      }
      tag := FindFirstZero(bits, max);
      busy := tag >= max;
      if !busy {
        TakeBit(rq, tag, sync);
        PutIndex(rq);
      }
    }

    /** The first half of blk_queue_end_tag. */
    method DropIndex(rq: nat)
      requires Shape() && At(View(), rq, Held) && uses[rq].tag < index.Length
      modifies `uses, index
      ensures View() == Next(old(View()), ClearIndex(rq))
    {
      index[uses[rq].tag] := None;
      uses := uses[rq := uses[rq].(stage := Releasing)];
    }

    /** clear_bit_unlock. */
    method DropBit(rq: nat)
      requires Shape() && At(View(), rq, Releasing) && uses[rq].tag < bits.Length
      modifies `uses, bits
      ensures View() == Next(old(View()), ClearBit(rq))
    {
      bits[uses[rq].tag] := false;
      assert SetBits(bits[..]) == old(SetBits(bits[..])) - {uses[rq].tag};
      uses := uses - {rq};
    }

    /** blk_queue_end_tag. The tag is always within the map, indexed and busy. */
    method EndTag(rq: nat)
      requires Shape() && Valid(View()) && At(View(), rq, Held)
      modifies this, bits, index
      ensures Shape() && bits == old(bits) && index == old(index)
      ensures View() == Next(Next(old(View()), ClearIndex(rq)), ClearBit(rq))
    {
      Indexed(View(), rq);
      assert index[uses[rq].tag] == Some(rq) && bits[uses[rq].tag];
      DropIndex(rq);
      DropBit(rq);
    }

    /** init_tag_map and the copies of blk_queue_resize_tags: the new arrays, after capping,
        must hold what the old ones held. */
    method Regrow(newDepth: nat, nrRequests: nat)
      requires Shape() && newDepth > index.Length && Capped(newDepth, nrRequests) >= index.Length
      modifies this
      ensures Shape() && fresh(bits) && fresh(index) && uses == old(uses)
      ensures View() == Tags(old(View()).bits, Copied(old(index[..]), Capped(newDepth, nrRequests)),
                             Capped(newDepth, nrRequests), uses)
    {
      var d := if newDepth > nrRequests * 2 then nrRequests * 2 else newDepth;
      var oldIndex, oldBits := index, bits;
      var newBits := new bool[d](i => false);
      var newIndex := new Maybe[d](i => None);
      for i := 0 to oldIndex.Length
        invariant forall k :: 0 <= k < i ==> newIndex[k] == oldIndex[k] && newBits[k] == oldBits[k]
        invariant forall k :: i <= k < d ==> newIndex[k] == None && !newBits[k]
        invariant unchanged(this) && unchanged(oldIndex) && unchanged(oldBits)
      {
        newIndex[i], newBits[i] := oldIndex[i], oldBits[i];
      }
      assert newIndex[..] == Copied(oldIndex[..], d);
      assert SetBits(newBits[..]) == SetBits(oldBits[..]);
      bits, index, depth := newBits, newIndex, d;
    }

    /** blk_queue_resize_tags. */
    method ResizeTags(newDepth: nat, nrRequests: nat, shared: bool) returns (e: Error)
      requires Shape() && forall rq :: rq in uses ==> uses[rq].stage == Held
      requires newDepth > index.Length && !shared ==> Capped(newDepth, nrRequests) >= index.Length
      modifies this
      ensures Shape() && uses == old(uses)
      ensures e == (if newDepth > old(index.Length) && shared then Busy else Ok)
      ensures e == Busy ==> View() == old(View())
      ensures e == Ok ==> View() == Next(old(View()),
                            if newDepth <= old(index.Length) then SetDepth(newDepth) else Grow(newDepth, nrRequests))
    {
      if newDepth <= index.Length {
        depth := newDepth;
        return Ok;
      }
      if shared {
        return Busy;
      }
      Regrow(newDepth, nrRequests);
      e := Ok;
    }
  }

  lemma {:induction false} Indexed(t: Tags, rq: nat)
    requires Valid(t) && At(t, rq, Held)
    ensures t.uses[rq].tag < |t.index| && t.index[t.uses[rq].tag] == Some(rq) && t.uses[rq].tag in t.bits
  {
  }
}
