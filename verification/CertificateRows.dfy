/**
  The rows of a plan certificate: one for every call of every instruction.
 */
module CertificateRows {
  import opened Common
  import opened Certificate

  const STATEFUL: nat := 1  // the stateful effect bit

  datatype Row = Row(
    opcode: Opcode, instruction: nat, callIndex: nat, effects: nat, properties: nat,
    input: nat, output: nat, callable: nat, hasSize: bool, size: nat)

  predicate Intrinsic(inst: Inst) { inst.opcode == Take || inst.opcode == Skip }

  // How many calls an instruction makes: a fused map makes one per chained function.
  function CallCount(inst: Inst): nat { if inst.opcode == Map then |inst.chain| else 1 }

  function CallAt(inst: Inst, c: nat): Call
    requires c < CallCount(inst)
  {
    if inst.opcode == Map then inst.chain[c] else inst.call
  }

  function Or(t: Option<nat>, otherwise: nat): nat { if t.Some? then t.value else otherwise }

  function RowOf(inst: Inst, pc: nat, c: nat): Row
    requires c < CallCount(inst)
  {
    var call := CallAt(inst, c);
    Row(inst.opcode, pc, c,
        if Intrinsic(inst) then STATEFUL else call.effects,
        if Intrinsic(inst) then 0 else call.properties,
        Or(call.input, inst.input), Or(call.output, inst.output), call.callable, inst.hasSize, inst.size)
  }

  // Where the rows of instruction `pc` start.
  function Start(code: seq<Inst>, pc: nat): nat
    requires pc <= |code|
  {
    if pc == 0 then 0 else Start(code, pc - 1) + CallCount(code[pc - 1])
  }

  lemma {:induction false} StartsGrow(code: seq<Inst>, p: nat, q: nat)
    requires p < q <= |code|
    ensures Start(code, p) + CallCount(code[p]) <= Start(code, q)
    decreases q
  {
    if p + 1 < q {
      StartsGrow(code, p, q - 1);
    }
  }

  // ---- Counting ----

  predicate AllCall(code: seq<Inst>) {
    forall pc :: 0 <= pc < |code| ==> CallCount(code[pc]) > 0
  }

  method CountRows(code: seq<Inst>) returns (r: Option<nat>)
    ensures r == if AllCall(code) && Start(code, |code|) <= SIZE_MAX then Some(Start(code, |code|)) else None
  {
    var count := 0;
    for pc := 0 to |code|
      invariant count == Start(code, pc) <= SIZE_MAX
      invariant forall k :: 0 <= k < pc ==> CallCount(code[k]) > 0
    {
      var calls := CallCount(code[pc]);
      if calls == 0 || count > SIZE_MAX - calls {
        StartsGrow(code, pc, |code|);
        return None;
      }
      count := count + calls;
    }
    r := Some(count);
  }

  // ---- Filling ----

  predicate CallOk(inst: Inst, pc: nat, c: nat)
    requires c < CallCount(inst)
  {
    pc <= UINT32_MAX && c <= UINT32_MAX && if Intrinsic(inst) then inst.hasSize else CallAt(inst, c).valid
  }

  method CheckCall(inst: Inst, pc: nat, c: nat) returns (ok: bool)
    requires c < CallCount(inst)
    ensures ok <==> CallOk(inst, pc, c)
  {
    if pc > UINT32_MAX || c > UINT32_MAX { return false; }
    if inst.opcode == Take || inst.opcode == Skip { return inst.hasSize; }
    return if inst.opcode == Map then inst.chain[c].valid else inst.call.valid;
  }

  predicate InstOk(code: seq<Inst>, pc: nat)
    requires pc < |code|
  {
    forall c :: 0 <= c < CallCount(code[pc]) ==> CallOk(code[pc], pc, c)
  }

  predicate CodeOk(code: seq<Inst>) {
    forall pc :: 0 <= pc < |code| ==> InstOk(code, pc)
  }

  // The rows of the first `pc` instructions are in place.
  ghost predicate Filled(code: seq<Inst>, pc: nat, rows: seq<Row>)
    requires pc <= |code|
  {
    forall k :: 0 <= k < pc ==> InstFilled(code, k, CallCount(code[k]), rows)
  }

  ghost predicate InstFilled(code: seq<Inst>, k: nat, calls: nat, rows: seq<Row>)
    requires k < |code| && calls <= CallCount(code[k])
  {
    var first := Start(code, k);
    first + calls <= |rows| && forall c :: 0 <= c < calls ==> rows[first + c] == RowOf(code[k], k, c)
  }

  lemma NothingFilled(code: seq<Inst>, k: nat, rows: seq<Row>)
    requires k < |code| && Start(code, k) <= |rows|
    ensures InstFilled(code, k, 0, rows)
  {
  }

  lemma {:induction false} InstKept(code: seq<Inst>, k: nat, calls: nat, rows: seq<Row>, at: nat, row: Row)
    requires k < |code| && calls <= CallCount(code[k]) && InstFilled(code, k, calls, rows)
    requires Start(code, k) + calls <= at < |rows|
    ensures InstFilled(code, k, calls, rows[at := row])
  {
    hide RowOf, Start;
  }

  lemma {:induction false} InstGrows(code: seq<Inst>, k: nat, c: nat, rows: seq<Row>)
    requires k < |code| && c < CallCount(code[k]) && InstFilled(code, k, c, rows) && Start(code, k) + c < |rows|
    ensures InstFilled(code, k, c + 1, rows[Start(code, k) + c := RowOf(code[k], k, c)])
  {
    hide RowOf, Start;
  }

  method FillInst(code: seq<Inst>, pc: nat, rows: array<Row>) returns (ok: bool)
    requires pc < |code| && Start(code, pc) + CallCount(code[pc]) <= rows.Length
    requires Filled(code, pc, rows[..])
    modifies rows
    ensures ok <==> InstOk(code, pc)
    ensures ok ==> Filled(code, pc + 1, rows[..])
  {
    hide RowOf, InstFilled, CallOk;
    var inst := code[pc];
    NothingFilled(code, pc, rows[..]);
    var first := Start(code, pc);
    for c := 0 to CallCount(inst)
      invariant Filled(code, pc, rows[..]) && InstFilled(code, pc, c, rows[..])
      invariant forall i :: 0 <= i < c ==> CallOk(inst, pc, i)
    {
      var called := CheckCall(inst, pc, c);
      if !called {
        return false;
      }
      ghost var was, row := rows[..], RowOf(inst, pc, c);
      forall k | 0 <= k < pc ensures InstFilled(code, k, CallCount(code[k]), was[first + c := row]) {
        StartsGrow(code, k, pc);
        InstKept(code, k, CallCount(code[k]), was, first + c, row);
      }
      InstGrows(code, pc, c, was);
      rows[first + c] := RowOf(inst, pc, c);
      assert rows[..] == was[first + c := row];
    }
    ok := true;
  }

  // Fill a zeroed row array; None if a call has no valid contract.
  method FillRows(code: seq<Inst>, count: nat) returns (r: Option<seq<Row>>)
    requires count == Start(code, |code|)
    ensures r.Some? <==> CodeOk(code)
    ensures r.Some? ==> |r.value| == count && Filled(code, |code|, r.value)
  {
    hide RowOf, InstFilled;
    var rows := new Row[count](_ => Row(Filter, 0, 0, 0, 0, 0, 0, 0, false, 0));
    for pc := 0 to |code|
      invariant Filled(code, pc, rows[..])
      invariant forall k :: 0 <= k < pc ==> InstOk(code, k)
    {
      StartsGrow(code, pc, |code|);
      var ok := FillInst(code, pc, rows);
      if !ok {
        return None;
      }
    }
    r := Some(rows[..]);
  }

  // ---- What the rows say ----

  // The instruction and call a row position belongs to.
  lemma {:induction false} Locate(code: seq<Inst>, upto: nat, at: nat) returns (pc: nat, c: nat)
    requires upto <= |code| && at < Start(code, upto)
    ensures pc < upto && c < CallCount(code[pc]) && at == Start(code, pc) + c
  {
    if at >= Start(code, upto - 1) {
      pc, c := upto - 1, at - Start(code, upto - 1);
    } else {
      pc, c := Locate(code, upto - 1, at);
    }
  }

  lemma RowIs(code: seq<Inst>, rows: seq<Row>, pc: nat, c: nat)
    requires Filled(code, |code|, rows) && pc < |code| && c < CallCount(code[pc])
    ensures Start(code, pc) + c < |rows| && rows[Start(code, pc) + c] == RowOf(code[pc], pc, c)
  {
    hide RowOf, Start;
    assert InstFilled(code, pc, CallCount(code[pc]), rows);
  }

  // A row says what its call and its instruction say: the chained call of a fused map,
  // the instruction's own call otherwise, with the instruction's types where the call
  // has none, and the intrinsic contract for TAKE and SKIP.
  lemma RowFields(code: seq<Inst>, rows: seq<Row>, pc: nat, c: nat)
    requires Filled(code, |code|, rows) && pc < |code| && c < CallCount(code[pc])
    ensures Start(code, pc) + c < |rows|
    ensures var row, inst := rows[Start(code, pc) + c], code[pc];
            && row.opcode == inst.opcode && row.instruction == pc && row.callIndex == c
            && row.hasSize == inst.hasSize && row.size == inst.size
            && (inst.opcode == Map ==>
                  c < |inst.chain| && RowTakes(row, inst, inst.chain[c]) &&
                  row.effects == inst.chain[c].effects && row.properties == inst.chain[c].properties)
            && (inst.opcode != Map ==> c == 0 && RowTakes(row, inst, inst.call))
            && (inst.opcode == Take || inst.opcode == Skip ==> row.effects == STATEFUL && row.properties == 0)
            && (inst.opcode == Filter || inst.opcode == FlatMap || inst.opcode == Reduce ==>
                  row.effects == inst.call.effects && row.properties == inst.call.properties)
  {
    hide Start, Filled;
    RowIs(code, rows, pc, c);
  }

  // The row names this callable, and the call's types where it has them.
  predicate RowTakes(row: Row, inst: Inst, call: Call) {
    && row.callable == call.callable
    && (call.input.Some? ==> row.input == call.input.value) && (call.input.None? ==> row.input == inst.input)
    && (call.output.Some? ==> row.output == call.output.value) && (call.output.None? ==> row.output == inst.output)
  }

  // Rows come in instruction order, then call order, with no position twice.
  lemma {:induction false} RowsAreOrdered(code: seq<Inst>, rows: seq<Row>, i: nat, j: nat)
    requires |rows| == Start(code, |code|) && Filled(code, |code|, rows) && i < j < |rows|
    ensures rows[i].instruction < rows[j].instruction
            || (rows[i].instruction == rows[j].instruction && rows[i].callIndex < rows[j].callIndex)
  {
    hide Start, Filled;
    var p, c := Locate(code, |code|, i);
    var q, d := Locate(code, |code|, j);
    RowIs(code, rows, p, c);
    RowIs(code, rows, q, d);
    if q < p {
      StartsGrow(code, q, p);
    }
  }

  // Every row is a call of the code, and every call of the code has its row.
  lemma {:induction false} RowsAreCalls(code: seq<Inst>, rows: seq<Row>)
    requires |rows| == Start(code, |code|) && Filled(code, |code|, rows)
    ensures forall i :: 0 <= i < |rows| ==> IsCall(code, rows[i])
    ensures forall pc, c :: 0 <= pc < |code| && 0 <= c < CallCount(code[pc]) ==> RowOf(code[pc], pc, c) in rows
  {
    hide RowOf, Start, Filled;
    forall i | 0 <= i < |rows| ensures IsCall(code, rows[i]) {
      var p, c := Locate(code, |code|, i);
      RowIs(code, rows, p, c);
    }
    forall pc, c | 0 <= pc < |code| && 0 <= c < CallCount(code[pc]) ensures RowOf(code[pc], pc, c) in rows {
      RowIs(code, rows, pc, c);
    }
  }

  ghost predicate IsCall(code: seq<Inst>, row: Row) {
    exists pc, c :: 0 <= pc < |code| && 0 <= c < CallCount(code[pc]) && row == RowOf(code[pc], pc, c)
  }
}
