/**
  A mailbox schema: what it must satisfy, the slot stride it implies, and the
  sorted copy that sends search.
 */
module MailboxSchema {
  import opened Common

  const MAX_ALIGN: nat := 16          // alignment of the inline capture storage
  const EVENT_TYPE_BYTES: nat := 16
  const SLOT_BYTES: nat := 8

  // A payload descriptor: its identity and layout, whether it describes a type at
  // all, and whether values of it may be copied and dropped as plain bytes.
  datatype Type = Type(tag: nat, size: nat, align: nat, described: bool, trivial: bool)

  datatype EventType = EventType(id: nat, payload: Type)

  // ---- Sizes ----

  function SizeMultiply(left: nat, right: nat): Option<nat> {
    if left == 0 || right == 0 || left > SIZE_MAX / right then None else Some(left * right)
  }

  lemma SizeMultiplyExact(left: nat, right: nat)
    ensures SizeMultiply(left, right).Some? <==> 0 < left * right <= SIZE_MAX
  {
    if left > 0 && right > 0 {
      var q := SIZE_MAX / right;
      assert q * right <= SIZE_MAX < q * right + right;
      if left <= q {
        MultiplyGrows(left, q, right);
      } else {
        MultiplyGrows(q + 1, left, right);
      }
    }
  }

  predicate PowerOfTwo(n: nat) {
    n == 1 || (n > 1 && n % 2 == 0 && PowerOfTwo(n / 2))
  }

  predicate AlignmentValid(a: nat) {
    a != 0 && PowerOfTwo(a) && a <= MAX_ALIGN
  }

  // Powers of two are tested and rounded to with masks in the code; both are
  // written as arithmetic here.
  lemma ValidAlignments(a: nat)
    ensures AlignmentValid(a) <==> a == 1 || a == 2 || a == 4 || a == 8 || a == 16
  {
    if a <= 16 && a > 1 && a % 2 == 0 {
      assert PowerOfTwo(a) == PowerOfTwo(a / 2);
      assert a / 2 > 1 && (a / 2) % 2 == 0 ==> PowerOfTwo(a / 2) == PowerOfTwo(a / 4);
      assert a / 4 > 1 && (a / 4) % 2 == 0 ==> PowerOfTwo(a / 4) == PowerOfTwo(a / 8);
    }
  }

  // A smaller valid alignment divides a larger one.
  lemma AlignmentsDivide(a: nat, b: nat)
    requires AlignmentValid(a) && AlignmentValid(b) && a <= b
    ensures b % a == 0
  {
    ValidAlignments(a);
    ValidAlignments(b);
  }

  function AlignSize(size: nat, align: nat): (r: Option<nat>)
    ensures r.Some? <==> size != 0 && AlignmentValid(align) && size + align <= SIZE_MAX + 1
    ensures r.Some? ==> size <= r.value < size + align && r.value % align == 0 && r.value <= SIZE_MAX
  {
    if size == 0 || !AlignmentValid(align) then None
    else if size > SIZE_MAX - (align - 1) then None
    else
      var padded := size + (align - 1);
      RoundsUp(padded, align);
      Some(padded - padded % align)
  }

  lemma RoundsUp(x: nat, a: nat)
    requires AlignmentValid(a)
    ensures (x - x % a) % a == 0
  {
    ValidAlignments(a);
  }

  // ---- Measuring a schema ----

  predicate TypeOk(t: Type) {
    t.described && t.size != 0 && AlignmentValid(t.align) && t.trivial
  }

  predicate EntryOk(schema: seq<EventType>, i: nat)
    requires i < |schema|
  {
    && schema[i].id != 0
    && TypeOk(schema[i].payload)
    && forall j :: 0 <= j < i ==> schema[j].id != schema[i].id
  }

  predicate SchemaOk(schema: seq<EventType>) {
    schema != [] && forall i :: 0 <= i < |schema| ==> EntryOk(schema, i)
  }

  datatype Extent = Extent(size: nat, align: nat)

  // The least extent that fits every declared type.
  predicate Fits(schema: seq<EventType>, e: Extent) {
    && (forall i :: 0 <= i < |schema| ==> schema[i].payload.size <= e.size && schema[i].payload.align <= e.align)
    && (exists i :: 0 <= i < |schema| && schema[i].payload.size == e.size)
    && (exists i :: 0 <= i < |schema| && schema[i].payload.align == e.align)
  }

  method Measure(schema: seq<EventType>) returns (r: Option<Extent>)
    ensures r.Some? <==> SchemaOk(schema)
    ensures r.Some? ==> Fits(schema, r.value)
  {
    if schema == [] {
      return None;
    }
    var size, align := 0, 0;
    for index := 0 to |schema|
      invariant forall i :: 0 <= i < index ==> EntryOk(schema, i)
      invariant index == 0 ==> size == align == 0
      invariant index > 0 ==> Fits(schema[..index], Extent(size, align))
    {
      var t := schema[index].payload;
      if schema[index].id == 0 || !t.described || t.size == 0 || !AlignmentValid(t.align) || !t.trivial {
        assert !EntryOk(schema, index);
        return None;
      }
      var unique := IdIsNew(schema, index);
      if !unique {
        assert !EntryOk(schema, index);
        return None;
      }
      FitsStep(schema, index, Extent(size, align));
      if t.size > size {
        size := t.size;
      }
      if t.align > align {
        align := t.align;
      }
    }
    assert schema[..|schema|] == schema;
    r := Some(Extent(size, align));
  }

  method IdIsNew(schema: seq<EventType>, index: nat) returns (unique: bool)
    requires index < |schema|
    ensures unique <==> forall j :: 0 <= j < index ==> schema[j].id != schema[index].id
  {
    for previous := 0 to index
      invariant forall j :: 0 <= j < previous ==> schema[j].id != schema[index].id
    {
      if schema[previous].id == schema[index].id {
        return false;
      }
    }
    unique := true;
  }

  function Widen(e: Extent, t: Type): Extent {
    Extent(if t.size > e.size then t.size else e.size, if t.align > e.align then t.align else e.align)
  }

  lemma FitsStep(schema: seq<EventType>, k: nat, e: Extent)
    requires k < |schema| && TypeOk(schema[k].payload)
    requires if k == 0 then e == Extent(0, 0) else Fits(schema[..k], e)
    ensures Fits(schema[..k + 1], Widen(e, schema[k].payload))
  {
    var shorter, longer, w := schema[..k], schema[..k + 1], Widen(e, schema[k].payload);
    assert longer[k] == schema[k];
    if k > 0 {
      var i :| 0 <= i < |shorter| && shorter[i].payload.size == e.size;
      var j :| 0 <= j < |shorter| && shorter[j].payload.align == e.align;
      assert longer[i] == shorter[i] && longer[j] == shorter[j];
      forall n | 0 <= n < |longer| ensures longer[n].payload.size <= w.size && longer[n].payload.align <= w.align {
        if n < k {
          assert longer[n] == shorter[n];
        }
      }
    }
  }

  // ---- The sorted copy ----

  predicate Sorted(schema: seq<EventType>) {
    forall i, j :: 0 <= i < j < |schema| ==> schema[i].id < schema[j].id
  }

  function Insert(x: EventType, sorted: seq<EventType>): seq<EventType> {
    if sorted == [] || x.id < sorted[0].id then [x] + sorted else [sorted[0]] + Insert(x, sorted[1..])
  }

  // The schema in increasing id order.
  function SortById(schema: seq<EventType>): seq<EventType> {
    if schema == [] then [] else Insert(schema[|schema| - 1], SortById(schema[..|schema| - 1]))
  }

  lemma {:induction false} InsertHolds(x: EventType, sorted: seq<EventType>)
    ensures multiset(Insert(x, sorted)) == multiset(sorted) + multiset{x}
  {
    if sorted != [] && x.id >= sorted[0].id {
      InsertHolds(x, sorted[1..]);
      assert sorted == [sorted[0]] + sorted[1..];
    }
  }

  lemma {:induction false} InsertSorts(x: EventType, sorted: seq<EventType>)
    requires Sorted(sorted) && forall i :: 0 <= i < |sorted| ==> sorted[i].id != x.id
    ensures Sorted(Insert(x, sorted))
  {
    if sorted != [] && x.id >= sorted[0].id {
      var rest := sorted[1..];
      var longer := Insert(x, rest);
      InsertSorts(x, rest);
      InsertHolds(x, rest);
      forall j | 0 <= j < |longer| ensures sorted[0].id < longer[j].id {
        assert longer[j] in multiset(longer);
        assert longer[j] in rest || longer[j] == x;
      }
    }
  }

  lemma {:induction false} SortByIdSorts(schema: seq<EventType>)
    requires forall i, j :: 0 <= i < j < |schema| ==> schema[i].id != schema[j].id
    ensures Sorted(SortById(schema)) && multiset(SortById(schema)) == multiset(schema)
  {
    if schema != [] {
      var last := |schema| - 1;
      var rest := schema[..last];
      SortByIdSorts(rest);
      assert schema == rest + [schema[last]];
      forall i | 0 <= i < |SortById(rest)| ensures SortById(rest)[i].id != schema[last].id {
        assert SortById(rest)[i] in multiset(SortById(rest));
        assert SortById(rest)[i] in multiset(rest);
        var j :| 0 <= j < |rest| && rest[j] == SortById(rest)[i];
        assert schema[j].id != schema[last].id;
      }
      InsertSorts(schema[last], SortById(rest));
      InsertHolds(schema[last], SortById(rest));
    }
  }

  // The sorted copy declares exactly the ids of the schema, with their types.
  lemma SortedCopy(schema: seq<EventType>)
    requires SchemaOk(schema)
    ensures Sorted(SortById(schema)) && |SortById(schema)| == |schema|
    ensures forall x :: x in SortById(schema) <==> x in schema
  {
    forall i, j | 0 <= i < j < |schema| ensures schema[i].id != schema[j].id {
      assert EntryOk(schema, j);
    }
    SortByIdSorts(schema);
    forall x ensures x in SortById(schema) <==> x in schema {
      assert x in multiset(SortById(schema)) <==> x in multiset(schema);
    }
    assert |multiset(SortById(schema))| == |multiset(schema)|;
  }

  // ---- Finding a declared id ----

  method TypeIndex(schema: seq<EventType>, id: nat) returns (r: Option<nat>)
    requires Sorted(schema)
    ensures r.Some? ==> r.value < |schema| && schema[r.value].id == id
    ensures r.Some? <==> id != 0 && exists i :: 0 <= i < |schema| && schema[i].id == id
  {
    if id == 0 {
      return None;
    }
    var left, right := 0, |schema|;
    while left < right
      invariant left <= right <= |schema|
      invariant forall i :: 0 <= i < |schema| && !(left <= i < right) ==> schema[i].id != id
    {
      var middle := left + (right - left) / 2;
      if schema[middle].id == id {
        return Some(middle);
      }
      if schema[middle].id < id {
        left := middle + 1;
      } else {
        right := middle;
      }
    }
    r := None;
  }
}
