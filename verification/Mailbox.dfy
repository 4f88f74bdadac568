/**
  The bounded typed mailbox. Its ring refines a first-in first-out queue of
  (id, payload bytes); every operation is one section under its lock.
 */
module Mailbox {
  import opened Common
  import opened MailboxSchema
  import opened MailboxRing

  const UINT64_MAX: nat := 0xFFFF_FFFF_FFFF_FFFF

  datatype Terminal = Open | Draining | Cancelled

  datatype Status =
    | Done | InvalidArgument | TypeMismatch | Full | Empty | IsClosed | IsCancelled | BufferTooSmall | AllocationFailed

  // Counts one more, up to the largest 64-bit count.
  function Increment(counter: nat): (r: nat)
    ensures counter < UINT64_MAX ==> r == counter + 1
    ensures counter == UINT64_MAX ==> r == UINT64_MAX
  {
    if counter != UINT64_MAX then counter + 1 else counter
  }

  function AddSize(counter: nat, amount: nat): nat {
    if counter + amount > UINT64_MAX then UINT64_MAX else counter + amount
  }

  predicate Declares(schema: seq<EventType>, id: nat) {
    exists i :: 0 <= i < |schema| && schema[i].id == id
  }

  predicate Misaligned(address: nat, t: Type) { t.align != 0 && address % t.align != 0 }

  class Mailbox {
    const schema: seq<EventType>
    const capacity: nat
    const stride: nat
    const maxPayload: nat
    const slots: array<nat>
    const payloads: array<bv8>
    var head: nat
    var count: nat
    var peakPending: nat
    var accepted: nat
    var received: nat
    var rejectedFull: nat
    var rejectedClosed: nat
    var rejectedCancelled: nat
    var cancelled: nat
    var terminal: Terminal
    var waiter: Option<nat>

    // Everything ever accepted, received and dropped by a cancel, in order.
    ghost var sent: seq<Item>
    ghost var taken: seq<Item>
    ghost var dropped: seq<Item>

    function View(): Ring
      reads this, slots, payloads
    {
      Ring(schema, stride, capacity, slots[..], payloads[..], head, count)
    }

    ghost predicate Valid()
      reads this, slots, payloads
    {
      && (slots as object) != payloads
      && Ok(View()) && Sorted(schema)
      && (forall i :: 0 <= i < |schema| ==> schema[i].id != 0 && schema[i].payload.align != 0)
      && Accounted() && Logged()
      && (waiter.Some? ==> count == 0 && terminal == Open)
      && (terminal == Cancelled ==> count == 0)
      && count <= peakPending <= capacity
    }

    // Accepted events are received, cancelled or pending, until the counter saturates.
    ghost predicate Accounted()
      reads this
    {
      && accepted <= UINT64_MAX && received <= UINT64_MAX && cancelled <= UINT64_MAX
      && (accepted < UINT64_MAX ==> accepted == received + cancelled + count)
    }

    // What went in comes out in order, except for what a cancel dropped.
    ghost predicate Logged()
      requires Ok(View())
      reads this, slots, payloads
    {
      && sent == taken + dropped + Contents(View())
      && (dropped != [] ==> terminal == Cancelled)
    }

    ghost function Queue(): seq<Item>
      requires Valid()
      reads this, slots, payloads
    {
      Contents(View())
    }

    // The declared type of the oldest event.
    ghost function HeadType(): EventType
      requires Valid() && count > 0
      reads this, slots, payloads
    {
      HeadEntry(View())
    }

    constructor (declared: seq<EventType>, extent: Extent, slotStride: nat, slotCount: nat)
      requires SchemaOk(declared) && Fits(declared, extent) && slotCount > 0
      requires AlignSize(extent.size, extent.align) == Some(slotStride)
      ensures Valid() && Queue() == [] && terminal == Open && waiter == None
      ensures schema == SortById(declared) && capacity == slotCount && stride == slotStride && maxPayload == extent.size
      ensures accepted == received == cancelled == 0 && sent == []
      ensures fresh(slots) && fresh(payloads)
    {
      SortedCopy(declared);
      schema := SortById(declared);
      capacity, stride, maxPayload := slotCount, slotStride, extent.size;
      slots := new nat[slotCount](_ => 0);
      payloads := new bv8[Offset(slotCount, slotStride)];
      head, count, peakPending := 0, 0, 0;
      accepted, received, cancelled := 0, 0, 0;
      rejectedFull, rejectedClosed, rejectedCancelled := 0, 0, 0;
      terminal, waiter := Open, None;
      sent, taken, dropped := [], [], [];
      new;
      forall i | 0 <= i < |schema|
        ensures schema[i].id != 0 && schema[i].payload.align != 0 && schema[i].payload.size <= stride
      {
        assert schema[i] in declared;
        var j :| 0 <= j < |declared| && declared[j] == schema[i];
        assert EntryOk(declared, j);
      }
    }

    // Copy a payload into the byte buffer.
    method CopyIn(at: nat, data: seq<bv8>)
      requires at + |data| <= payloads.Length
      modifies payloads
      ensures payloads[..] == Overwrite(old(payloads[..]), at, data)
    {
      for b := 0 to |data|
        invariant forall i :: 0 <= i < payloads.Length ==>
          payloads[i] == if at <= i < at + b then data[i - at] else old(payloads[i])
      {
        payloads[at + b] := data[b];
      }
    }

    method TrySend(id: nat, ptype: Type, data: seq<bv8>) returns (status: Status, wake: Option<nat>)
      requires Valid() && |data| == ptype.size
      modifies this`count, this`peakPending, this`accepted, this`waiter, this`sent,
               this`rejectedFull, this`rejectedClosed, this`rejectedCancelled, slots, payloads
      ensures Valid()
      ensures status == InvalidArgument <==> !Declares(schema, id)
      ensures status == TypeMismatch <==> Declares(schema, id) && EventType(id, ptype) !in schema
      ensures EventType(id, ptype) in schema ==>
                && (status == Done <==> terminal == Open && old(count) != capacity)
                && (status == Full <==> terminal == Open && old(count) == capacity)
                && (status == IsClosed <==> terminal == Draining)
                && (status == IsCancelled <==> terminal == Cancelled)
      ensures rejectedFull == if status == Full then Increment(old(rejectedFull)) else old(rejectedFull)
      ensures rejectedClosed == if status == IsClosed then Increment(old(rejectedClosed)) else old(rejectedClosed)
      ensures rejectedCancelled == if status == IsCancelled then Increment(old(rejectedCancelled)) else old(rejectedCancelled)
      ensures peakPending == (if count > old(peakPending) then count else old(peakPending))
      ensures status == Done ==>
                && Queue() == old(Queue()) + [Item(id, data)] && sent == old(sent) + [Item(id, data)]
                && accepted == Increment(old(accepted)) && wake == old(waiter) && waiter == None && count == old(count) + 1
      ensures status != Done ==>
                count == old(count) && Queue() == old(Queue()) && sent == old(sent) && accepted == old(accepted)
                && wake == None && waiter == old(waiter)
    {
      hide Ok, Contents, Offset;
      wake := None;
      var found := TypeIndex(schema, id);
      if found.None? {
        return InvalidArgument, None;
      }
      var t := found.value;
      assert schema[t] in schema;
      OneTypePerId(schema, t, id);
      if schema[t].payload != ptype {
        return TypeMismatch, None;
      }
      assert schema[t] == EventType(id, ptype);
      if terminal == Cancelled {
        rejectedCancelled := Increment(rejectedCancelled);
        return IsCancelled, None;
      }
      if terminal == Draining {
        rejectedClosed := Increment(rejectedClosed);
        return IsClosed, None;
      }
      if count == capacity {
        rejectedFull := Increment(rejectedFull);
        return Full, None;
      }
      wake := Store(t, data);
      status := Done;
    }

    // Write one admitted event behind the queue.
    method Store(t: nat, data: seq<bv8>) returns (wake: Option<nat>)
      requires Valid() && t < |schema| && |data| == schema[t].payload.size && terminal == Open && count < capacity
      modifies this`count, this`peakPending, this`accepted, this`waiter, this`sent, slots, payloads
      ensures Valid()
      ensures Queue() == old(Queue()) + [Item(schema[t].id, data)] && sent == old(sent) + [Item(schema[t].id, data)]
      ensures accepted == Increment(old(accepted)) && wake == old(waiter) && waiter == None && count == old(count) + 1
      ensures peakPending == (if count > old(peakPending) then count else old(peakPending))
    {
      hide Ok, Contents, Sorted, Put, Offset;
      PutAppends(View(), t, data);
      WriteTail(t, data);
      count := count + 1;
      if count > peakPending {
        peakPending := count;
      }
      Bounds(View());
      accepted := Increment(accepted);
      wake := waiter;
      waiter := None;
      sent := sent + [Item(schema[t].id, data)];
    }

    // Fill the slot behind the queue.
    method WriteTail(t: nat, data: seq<bv8>)
      requires Valid() && t < |schema| && |data| == schema[t].payload.size && count < capacity
      modifies slots, payloads
      ensures View().(count := count + 1) == Put(old(View()), t, data)
    {
      hide Contents, Offset, Sorted, Overwrite, Accounted, Logged;
      ghost var was := View();
      var tail := if count >= capacity - head then count - (capacity - head) else head + count;
      SlotInBounds(was, tail, t);
      CopyIn(Offset(tail, stride), data);
      slots[tail] := t;
      assert slots[..] == was.slots[tail := t];
    }

    method TryReceive(outCapacity: nat, address: nat) returns (status: Status, id: nat, ptype: Option<Type>, data: seq<bv8>)
      requires Valid()
      modifies this`head, this`count, this`received, this`taken
      ensures Valid() && sent == old(sent) && dropped == old(dropped)
      ensures old(count) == 0 ==>
                && (status == Empty <==> terminal == Open) && (status == IsClosed <==> terminal == Draining)
                && (status == IsCancelled <==> terminal == Cancelled)
      ensures old(count) > 0 ==>
                status == if outCapacity < old(HeadType()).payload.size then BufferTooSmall
                          else if Misaligned(address, old(HeadType()).payload) then InvalidArgument
                          else Done
      ensures old(count) > 0 ==>
                && old(HeadType()) in schema && old(HeadType()).id == old(Queue())[0].id
                && old(HeadType()).payload.size == |old(Queue())[0].bytes|
      ensures status == Done ==>
                && old(Queue()) == [Item(id, data)] + Queue() && taken == old(taken) + [Item(id, data)]
                && received == Increment(old(received)) && count == old(count) - 1
                && ptype.Some? && EventType(id, ptype.value) == old(HeadType())
      ensures status != Done ==>
                Queue() == old(Queue()) && taken == old(taken) && received == old(received) && count == old(count)
    {
      hide Ok, Contents, Offset, Sorted;
      id, ptype, data := 0, None, [];
      if count == 0 {
        if terminal == Cancelled { return IsCancelled, 0, None, []; }
        if terminal == Draining { return IsClosed, 0, None, []; }
        return Empty, 0, None, [];
      }
      ghost var was := View();
      Bounds(was);
      TakeRemoves(was);
      var t := schema[slots[head]];
      HeadIsOldest(was);
      assert t == HeadType() && t in schema;
      if outCapacity < t.payload.size {
        return BufferTooSmall, 0, None, [];
      }
      if address % t.payload.align != 0 {
        return InvalidArgument, 0, None, [];
      }
      var at := Offset(head, stride);
      SlotInBounds(was, head, slots[head]);
      data := payloads[at..at + t.payload.size];
      head := if head + 1 == capacity then 0 else head + 1;
      count := count - 1;
      received := Increment(received);
      taken := taken + [Item(t.id, data)];
      assert View() == Take(was);
      assert Contents(was) == [Contents(was)[0]] + Contents(was)[1..];
      status, id, ptype := Done, t.id, Some(t.payload);
    }

    // An empty mailbox that was never cancelled has delivered all it accepted.
    lemma AllDelivered()
      requires Valid() && count == 0 && terminal != Cancelled
      ensures sent == taken
    {
      assert Queue() == [];
    }

    method Close() returns (status: Status, wake: Option<nat>)
      requires Valid()
      modifies this`terminal, this`waiter
      ensures Valid() && Queue() == old(Queue())
      ensures waiter == None && (status == Done <==> old(terminal) == Open)
      ensures (status == IsClosed <==> old(terminal) == Draining) && (status == IsCancelled <==> old(terminal) == Cancelled)
      ensures terminal == if old(terminal) == Open then Draining else old(terminal)
      ensures wake == if status == Done then old(waiter) else None
    {
      wake := None;
      if terminal == Cancelled {
        return IsCancelled, None;
      }
      if terminal == Draining {
        return IsClosed, None;
      }
      terminal := Draining;
      wake := waiter;
      waiter := None;
      status := Done;
    }

    method Cancel() returns (status: Status, wake: Option<nat>)
      requires Valid()
      modifies this`terminal, this`cancelled, this`head, this`count, this`waiter, this`dropped
      ensures Valid() && Queue() == [] && terminal == Cancelled && sent == old(sent) && taken == old(taken)
      ensures status == if old(terminal) == Cancelled then IsCancelled else Done
      ensures status == Done ==>
                dropped == old(Queue()) && cancelled == AddSize(old(cancelled), old(count)) && wake == old(waiter)
      ensures status != Done ==> dropped == old(dropped) && cancelled == old(cancelled) && wake == None
      ensures waiter == None
    {
      hide Ok, Contents, Sorted;
      wake := None;
      if terminal == Cancelled {
        return IsCancelled, None;
      }
      ClearEmpties(View());
      dropped := Contents(View());
      terminal := Cancelled;
      cancelled := AddSize(cancelled, count);
      head, count := 0, 0;
      wake := waiter;
      waiter := None;
      status := Done;
    }

    // Arm a waker: it is stored, invoked at once, or refused.
    method WaitArm(waker: nat) returns (armed: bool, invoke: bool)
      requires Valid()
      modifies this`waiter
      ensures Valid() && Queue() == old(Queue()) && terminal == old(terminal)
      ensures sent == old(sent) && taken == old(taken) && dropped == old(dropped)
      ensures invoke <==> old(count) != 0 || old(terminal) != Open
      ensures armed <==> invoke || old(waiter).None?
      ensures waiter == if armed && !invoke then Some(waker) else old(waiter)
    {
      var ready := count != 0 || terminal != Open;
      if !ready && waiter.Some? {
        return false, false;
      }
      if !ready {
        waiter := Some(waker);
      }
      armed, invoke := true, ready;
    }

    method WaitCancel()
      requires Valid()
      modifies this`waiter
      ensures Valid() && waiter == None && Queue() == old(Queue())
    {
      waiter := None;
    }
  }

  // Ids are unique in a sorted schema, so an id names one type.
  lemma OneTypePerId(schema: seq<EventType>, t: nat, id: nat)
    requires Sorted(schema) && t < |schema| && schema[t].id == id
    ensures forall p :: EventType(id, p) in schema ==> p == schema[t].payload
  {
    forall p | EventType(id, p) in schema ensures p == schema[t].payload {
      var i :| 0 <= i < |schema| && schema[i] == EventType(id, p);
      assert i == t;
    }
  }

  // Validate, size and allocate, in the order the checks are made.
  method Init(declared: seq<EventType>, capacity: nat, memory: bool) returns (status: Status, m: Mailbox?)
    ensures status == Done <==> m != null
    ensures m != null ==> fresh(m) && fresh(m.slots) && fresh(m.payloads) && m.Valid() && m.Queue() == []
    ensures m != null ==> m.schema == SortById(declared) && m.capacity == capacity && m.terminal == Open && m.waiter == None
                          && m.sent == [] && m.accepted == m.received == m.cancelled == 0
    ensures status == if !Representable(declared, capacity) then InvalidArgument
                      else if !memory then AllocationFailed else Done
  {
    SizeMultiplyExact(|declared|, EVENT_TYPE_BYTES);
    SizeMultiplyExact(capacity, SLOT_BYTES);
    if declared == [] || capacity == 0 || SizeMultiply(|declared|, EVENT_TYPE_BYTES).None?
       || SizeMultiply(capacity, SLOT_BYTES).None? {
      return InvalidArgument, null;
    }
    var extent := Measure(declared);
    if extent.None? {
      return InvalidArgument, null;
    }
    forall e | Fits(declared, e) ensures e == extent.value {
      FitsUnique(declared, e, extent.value);
    }
    var stride := AlignSize(extent.value.size, extent.value.align);
    if stride.Some? {
      SizeMultiplyExact(capacity, stride.value);
    }
    if stride.None? || SizeMultiply(capacity, stride.value).None? {
      return InvalidArgument, null;
    }
    if !memory {
      return AllocationFailed, null;
    }
    status := Done;
    m := new Mailbox(declared, extent.value, stride.value, capacity);
  }

  // A valid schema and capacity whose every size stays in the range of size_t.
  ghost predicate Representable(declared: seq<EventType>, capacity: nat) {
    && SchemaOk(declared) && capacity > 0
    && |declared| * EVENT_TYPE_BYTES <= SIZE_MAX
    && capacity * SLOT_BYTES <= SIZE_MAX
    && exists e :: Fits(declared, e) && PayloadsFit(e, capacity)
  }

  predicate PayloadsFit(e: Extent, capacity: nat) {
    AlignSize(e.size, e.align).Some? && capacity * AlignSize(e.size, e.align).value <= SIZE_MAX
  }

  lemma FitsUnique(declared: seq<EventType>, e: Extent, f: Extent)
    requires Fits(declared, e) && Fits(declared, f)
    ensures e == f
  {
    var i :| 0 <= i < |declared| && declared[i].payload.size == e.size;
    var j :| 0 <= j < |declared| && declared[j].payload.size == f.size;
    var k :| 0 <= k < |declared| && declared[k].payload.align == e.align;
    var l :| 0 <= l < |declared| && declared[l].payload.align == f.align;
    assert e.size == declared[i].payload.size <= f.size && f.size == declared[j].payload.size <= e.size;
    assert e.align == declared[k].payload.align <= f.align && f.align == declared[l].payload.align <= e.align;
  }
}
