/**
 On a pipe that does not purge, every slot outside the queue has `len` 0: in every reachable state, even between
 the updates of a write or a read.
 */
module UnusedSlots {
  import opened Types
  import opened PipeSpec
  import opened PipeSteps
  import K = KernelMachine

  /** Every slot with a length is in the queue, except perhaps slot `i`. */
  ghost predicate TidyBut(r: Ring, i: nat)
    requires WellFormed(r)
  {
    forall j :: 0 <= j < |r.slots| && j != i && r.slots[j].len != 0 ==> InQueue(r, j)
  }

  /** A write has set the length of the head slot before it moves the head on. */
  ghost predicate SlotsOk(p: Pipe)
    requires WellFormed(p.ring)
  {
    !p.ring.purge ==>
      if p.crit.Held? && p.crit.pc.Head? then TidyBut(p.ring, p.ring.head) else Tidy(p.ring)
  }

  /** The queue's slots depend on head and tail only, on a pipe of more than one message. */
  lemma SameQueue(r: Ring, r': Ring, i: nat)
    requires WellFormed(r) && WellFormed(r') && r.maxMessages > 1
    requires r' == r.(slots := r'.slots)
    ensures InQueue(r, i) <==> InQueue(r', i)
  {
    assert forall k :: 0 <= k < Count(r) ==> Place(r, k) == Place(r', k);
  }

  lemma OneSlotTidy(r: Ring)
    requires WellFormed(r) && r.maxMessages == 1
    ensures Tidy(r)
  {
    if r.slots[0].len != 0 {
      assert Place(r, 0) == 0;
    }
  }

  lemma FillTidy(r: Ring, r': Ring, i: nat)
    requires WellFormed(r) && WellFormed(r') && r' == r.(slots := r'.slots)
    requires Tidy(r) && i < r.maxMessages && r'.slots == r.slots[i := r'.slots[i]]
    ensures TidyBut(r', i)
    ensures r'.slots[i].len == 0 || r'.slots[i].len == r.slots[i].len ==> Tidy(r')
  {
    if r.maxMessages == 1 {
      OneSlotTidy(r');
    } else {
      forall j | 0 <= j < |r'.slots| && r'.slots[j].len != 0 && (j == i ==> r'.slots[i].len == r.slots[i].len)
        ensures InQueue(r', j)
      {
        SameQueue(r, r', j);
      }
    }
  }

  lemma HeadTidy(r: Ring)
    requires WellFormed(r) && TidyBut(r, r.head) && (r.maxMessages > 1 ==> !IsFull(r))
    ensures Tidy(AdvanceHead(r))
  {
    var r' := AdvanceHead(r);
    if r.maxMessages == 1 {
      OneSlotTidy(r');
    } else {
      IncWraps(r, r.head);
      forall i | 0 <= i < |r'.slots| && r'.slots[i].len != 0 ensures InQueue(r', i) {
        if i == r.head {
          assert Place(r', Count(r)) == i;
        } else {
          var k :| 0 <= k < Count(r) && Place(r, k) == i;
          assert Place(r', k) == i;
        }
      }
    }
  }

  lemma TailTidy(r: Ring)
    requires WellFormed(r) && Tidy(r) && r.slots[r.tail].len == 0 && (r.maxMessages > 1 ==> !IsEmpty(r))
    ensures Tidy(AdvanceTail(r))
  {
    var r' := AdvanceTail(r);
    if r.maxMessages == 1 {
      OneSlotTidy(r');
    } else {
      IncWraps(r, r.tail);
      forall i | 0 <= i < |r'.slots| && r'.slots[i].len != 0 ensures InQueue(r', i) {
        var k :| 0 <= k < Count(r) && Place(r, k) == i;
        assert k > 0;
        assert Place(r', k - 1) == i;
      }
    }
  }

  /** Every update of a write or a read keeps it. */
  lemma AdvanceKeepsSlots(p: Pipe)
    requires PipeOk(p) && p.crit.Held? && SlotsOk(p)
    ensures WellFormed(Advance(p).ring) && SlotsOk(Advance(p))
  {
    AdvanceRefines(p);
    var r, r' := p.ring, Advance(p).ring;
    if !r.purge {
      match p.crit.pc
      case Copy => FillTidy(r, r', r.head);
      case Length => FillTidy(r, r', r.head);
      case Head => HeadTidy(r);
      case Clear => FillTidy(r, r', r.tail);
      case Tail => TailTidy(r);
      case _ =>
    }
  }

  ghost predicate AllSlotsOk(k: K.Kernel) {
    forall id :: id in k.pipes ==> WellFormed(k.pipes[id].ring) && SlotsOk(k.pipes[id])
  }

  lemma NextKeepsSlots(k: K.Kernel, e: K.Event)
    requires K.Sound(k) && AllSlotsOk(k) && K.Enabled(k, e)
    ensures AllSlotsOk(K.Next(k, e))
  {
    if e.Micro? {
      assert PipeOk(k.pipes[e.pipe]);
      AdvanceKeepsSlots(k.pipes[e.pipe]);
    }
  }

  /** In every run, whatever the interleaving: outside the queue a pipe that does not purge has no length left over. */
  lemma {:induction false} UnusedSlotsAreEmpty(ks: seq<K.Kernel>, es: seq<K.Event>, k: nat, id: PipeId)
    requires K.IsRun(ks, es) && k < |ks| && id in ks[k].pipes
    ensures WellFormed(ks[k].pipes[id].ring)
    ensures !ks[k].pipes[id].ring.purge && ks[k].pipes[id].crit.Free? ==> Tidy(ks[k].pipes[id].ring)
  {
    AlwaysSlotsOk(ks, es, k);
  }

  lemma {:induction false} AlwaysSlotsOk(ks: seq<K.Kernel>, es: seq<K.Event>, k: nat)
    requires K.IsRun(ks, es) && k < |ks|
    ensures AllSlotsOk(ks[k])
  {
    if k > 0 {
      AlwaysSlotsOk(ks, es, k - 1);
      StepKeepsSlots(ks, es, k - 1);
    }
  }

  lemma StepKeepsSlots(ks: seq<K.Kernel>, es: seq<K.Event>, k: nat)
    requires K.IsRun(ks, es) && k < |es| && AllSlotsOk(ks[k])
    ensures AllSlotsOk(ks[k + 1])
  {
    K.AlwaysSound(ks, es, k);
    NextKeepsSlots(ks[k], es[k]);
  }
}
