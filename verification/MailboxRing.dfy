/**
  The mailbox's ring of byte slots, as values: which item each slot holds and
  how sending and receiving move the queue.
 */
module MailboxRing {
  import opened Common
  import opened MailboxSchema

  datatype Item = Item(id: nat, bytes: seq<bv8>)

  datatype Ring = Ring(
    schema: seq<EventType>, stride: nat, capacity: nat,
    slots: seq<nat>, payloads: seq<bv8>, head: nat, count: nat)

  // The slot `i` places after the head, as the code wraps it.
  function Wrap(head: nat, i: nat, capacity: nat): nat
    requires head < capacity && i <= capacity
  {
    if i >= capacity - head then i - (capacity - head) else head + i
  }

  lemma WrapIsModular(head: nat, i: nat, capacity: nat)
    requires head < capacity && i <= capacity
    ensures Wrap(head, i, capacity) == (head + i) % capacity
  {
    if i >= capacity - head {
      Remainder(head + i, capacity, 1, head + i - capacity);
    } else {
      Remainder(head + i, capacity, 0, head + i);
    }
  }

  lemma WrapDistinct(head: nat, i: nat, j: nat, capacity: nat)
    requires head < capacity && i < j < capacity
    ensures Wrap(head, i, capacity) != Wrap(head, j, capacity)
    ensures Wrap(head, i, capacity) < capacity && Wrap(head, j, capacity) < capacity
  {
  }

  predicate StrideFits(schema: seq<EventType>, stride: nat) {
    forall t :: 0 <= t < |schema| ==> schema[t].payload.size <= stride
  }

  predicate Ok(r: Ring) {
    && r.head < r.capacity == |r.slots| && r.count <= r.capacity
    && |r.payloads| == Offset(r.capacity, r.stride)
    && StrideFits(r.schema, r.stride)
    && forall i :: 0 <= i < r.count ==> r.slots[Wrap(r.head, i, r.capacity)] < |r.schema|
  }

  lemma Bounds(r: Ring)
    requires Ok(r)
    ensures r.head < r.capacity == |r.slots| && r.count <= r.capacity
  {
  }

  // Where a slot's bytes start.
  function Offset(s: nat, stride: nat): nat { s * stride }

  lemma OffsetsGrow(s: nat, t: nat, stride: nat)
    requires s < t
    ensures Offset(s, stride) + stride <= Offset(t, stride)
  {
    MultiplyGrows(s + 1, t, stride);
  }

  // A slot's bytes lie inside the payload buffer.
  lemma SlotInBounds(r: Ring, s: nat, t: nat)
    requires Ok(r) && s < r.capacity && t < |r.schema|
    ensures Offset(s, r.stride) + r.schema[t].payload.size <= |r.payloads|
  {
    OffsetsGrow(s, r.capacity, r.stride);
  }

  // Different slots do not overlap, whatever types they hold.
  lemma SlotsDisjoint(r: Ring, s: nat, t: nat, ofS: nat, ofT: nat)
    requires Ok(r) && s < r.capacity && t < r.capacity && s != t && ofS < |r.schema| && ofT < |r.schema|
    ensures || Offset(s, r.stride) + r.schema[ofS].payload.size <= Offset(t, r.stride)
            || Offset(t, r.stride) + r.schema[ofT].payload.size <= Offset(s, r.stride)
  {
    hide Offset;
    if s < t {
      OffsetsGrow(s, t, r.stride);
    } else {
      OffsetsGrow(t, s, r.stride);
    }
  }

  // Every slot starts aligned for every declared type.
  lemma SlotsAligned(schema: seq<EventType>, e: Extent, stride: nat, s: nat, t: nat)
    requires SchemaOk(schema) && Fits(schema, e) && t < |schema|
    requires AlignSize(e.size, e.align) == Some(stride)
    ensures schema[t].payload.align != 0 && Offset(s, stride) % schema[t].payload.align == 0
  {
    assert EntryOk(schema, t);
    var a := schema[t].payload.align;
    AlignmentsDivide(a, e.align);
    MultiplesChain(stride, e.align, a);
    MultiplesScale(s, stride, a);
  }

  lemma MultiplesChain(n: nat, b: nat, a: nat)
    requires AlignmentValid(a) && b > 0 && b % a == 0 && n % b == 0
    ensures n % a == 0
  {
    hide PowerOfTwo;
    var k, j := n / b, b / a;
    assert n == k * b && b == j * a;
    assert n == (k * j) * a;
    MultipleOf(k * j, a);
  }

  lemma MultiplesScale(s: nat, n: nat, a: nat)
    requires AlignmentValid(a) && n % a == 0
    ensures (s * n) % a == 0
  {
    hide PowerOfTwo;
    var q := n / a;
    assert n == q * a;
    assert s * n == (s * q) * a;
    MultipleOf(s * q, a);
  }

  // A multiple leaves no remainder, counted up one step at a time.
  lemma {:induction false} MultipleOf(m: nat, a: nat)
    requires a > 0
    ensures (m * a) % a == 0
  {
    if m > 0 {
      MultipleOf(m - 1, a);
      StepOver((m - 1) * a, a);
      assert m * a == (m - 1) * a + a;
    }
  }

  lemma StepOver(x: nat, a: nat)
    requires a > 0
    ensures (x + a) % a == x % a
  {
    var q, r := x / a, x % a;
    assert x + a == (q + 1) * a + r;
    Remainder(x + a, a, q + 1, r);
  }

  function ItemAt(r: Ring, s: nat): Item
    requires Ok(r) && s < r.capacity && r.slots[s] < |r.schema|
  {
    SlotInBounds(r, s, r.slots[s]);
    var t := r.schema[r.slots[s]];
    Item(t.id, r.payloads[Offset(s, r.stride)..Offset(s, r.stride) + t.payload.size])
  }

  // The queue the ring stands for, oldest first.
  function Contents(r: Ring): (q: seq<Item>)
    requires Ok(r)
    ensures |q| == r.count
  {
    seq(r.count, i requires 0 <= i < r.count => ItemAt(r, Wrap(r.head, i, r.capacity)))
  }

  function Overwrite(bytes: seq<bv8>, at: nat, data: seq<bv8>): (r: seq<bv8>)
    requires at + |data| <= |bytes|
    ensures |r| == |bytes|
  {
    bytes[..at] + data + bytes[at + |data|..]
  }

  function Put(r: Ring, t: nat, data: seq<bv8>): Ring
    requires Ok(r) && r.count < r.capacity && t < |r.schema| && |data| == r.schema[t].payload.size
  {
    var tail := Wrap(r.head, r.count, r.capacity);
    SlotInBounds(r, tail, t);
    r.(slots := r.slots[tail := t], payloads := Overwrite(r.payloads, Offset(tail, r.stride), data), count := r.count + 1)
  }

  function Take(r: Ring): Ring
    requires Ok(r) && r.count > 0
  {
    r.(head := if r.head + 1 == r.capacity then 0 else r.head + 1, count := r.count - 1)
  }

  lemma OverwriteElsewhere(bytes: seq<bv8>, at: nat, data: seq<bv8>, lo: nat, hi: nat)
    requires at + |data| <= |bytes| && lo <= hi <= |bytes|
    requires hi <= at || at + |data| <= lo
    ensures Overwrite(bytes, at, data)[lo..hi] == bytes[lo..hi]
  {
  }

  lemma PutOk(r: Ring, t: nat, data: seq<bv8>)
    requires Ok(r) && r.count < r.capacity && t < |r.schema| && |data| == r.schema[t].payload.size
    ensures Ok(Put(r, t, data))
  {
    hide Offset;
  }

  lemma PutKeepsSlot(r: Ring, t: nat, data: seq<bv8>, i: nat)
    requires Ok(r) && r.count < r.capacity && t < |r.schema| && |data| == r.schema[t].payload.size && i < r.count
    ensures Ok(Put(r, t, data))
    ensures ItemAt(Put(r, t, data), Wrap(r.head, i, r.capacity)) == ItemAt(r, Wrap(r.head, i, r.capacity))
  {
    hide Offset;
    PutOk(r, t, data);
    var tail, s := Wrap(r.head, r.count, r.capacity), Wrap(r.head, i, r.capacity);
    var size := r.schema[r.slots[s]].payload.size;
    WrapDistinct(r.head, i, r.count, r.capacity);
    SlotInBounds(r, tail, t);
    SlotInBounds(r, s, r.slots[s]);
    SlotsDisjoint(r, s, tail, r.slots[s], t);
    var at, lo := Offset(tail, r.stride), Offset(s, r.stride);
    OverwriteElsewhere(r.payloads, at, data, lo, lo + size);
  }

  // Sending appends; nothing already queued is touched.
  lemma PutAppends(r: Ring, t: nat, data: seq<bv8>)
    requires Ok(r) && r.count < r.capacity && t < |r.schema| && |data| == r.schema[t].payload.size
    ensures Ok(Put(r, t, data))
    ensures Contents(Put(r, t, data)) == Contents(r) + [Item(r.schema[t].id, data)]
  {
    hide Offset;
    PutOk(r, t, data);
    var p := Put(r, t, data);
    forall i | 0 <= i < r.count ensures Contents(p)[i] == Contents(r)[i] {
      PutKeepsSlot(r, t, data, i);
    }
    var tail := Wrap(r.head, r.count, r.capacity);
    SlotInBounds(r, tail, t);
    assert p.payloads[Offset(tail, r.stride)..Offset(tail, r.stride) + |data|] == data;
  }

  // Receiving removes the oldest item.
  lemma TakeRemoves(r: Ring)
    requires Ok(r) && r.count > 0
    ensures Ok(Take(r)) && r.slots[r.head] < |r.schema|
    ensures Contents(r)[0] == ItemAt(r, r.head) && Contents(Take(r)) == Contents(r)[1..]
  {
    hide Offset;
    var k := Take(r);
    forall i | 0 <= i < k.count ensures Wrap(k.head, i, k.capacity) == Wrap(r.head, i + 1, r.capacity) {
    }
    assert forall i :: 0 <= i < k.count ==> k.slots[Wrap(k.head, i, k.capacity)] == r.slots[Wrap(r.head, i + 1, r.capacity)];
    assert Wrap(r.head, 0, r.capacity) == r.head;
    forall i | 0 <= i < k.count ensures Contents(k)[i] == Contents(r)[i + 1] {
      assert ItemAt(k, Wrap(k.head, i, k.capacity)) == ItemAt(r, Wrap(r.head, i + 1, r.capacity));
    }
  }

  function HeadEntry(r: Ring): EventType
    requires Ok(r) && r.count > 0
  {
    TakeRemoves(r);
    r.schema[r.slots[r.head]]
  }

  lemma HeadIsOldest(r: Ring)
    requires Ok(r) && r.count > 0
    ensures HeadEntry(r).id == Contents(r)[0].id
    ensures HeadEntry(r).payload.size == |Contents(r)[0].bytes|
  {
    hide Contents;
    TakeRemoves(r);
  }

  // Cancelling drops everything at once.
  lemma ClearEmpties(r: Ring)
    requires Ok(r)
    ensures Ok(r.(head := 0, count := 0)) && Contents(r.(head := 0, count := 0)) == []
  {
  }
}
