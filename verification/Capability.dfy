// Capabilities, what they authorize, and what the operations on a table of them do.
module Capability {
  import opened Base

  datatype CapType =
    | Null | Untyped | CNodeCap | Frame | PageTable | Thread | VSpace
    | Endpoint | Notification | IrqHandler | IoPort | IoMem | Process

  datatype CapError = InvalidCap | NotPermitted

  datatype Result<+T> = Ok(value: T) | Err(error: CapError)

  // One capability; what `obj` and `badge` mean depends on the type.
  datatype CapEntry = CapEntry(capType: CapType, obj: nat, badge: nat)

  type Slots = seq<Option<CapEntry>>

  // ----- Constructors and authority tests -----

  // An I/O-port range, packed as base in the high half and count in the low half.
  function IoPortCap(base: nat, count: nat): CapEntry
    requires base < 0x1_0000 && count < 0x1_0000
  {
    CapEntry(IoPort, base * 0x1_0000 + count, 0)
  }

  function IoMemCap(base: nat, len: nat): CapEntry {
    CapEntry(IoMem, base, len)
  }

  function UntypedCap(bytes: nat): CapEntry {
    CapEntry(Untyped, bytes, 0)
  }

  function EndpointCap(id: nat): CapEntry {
    CapEntry(Endpoint, id, 0)
  }

  function NotificationCap(id: nat): CapEntry {
    CapEntry(Notification, id, 0)
  }

  function ProcessCap(pid: nat): CapEntry {
    CapEntry(Process, pid, 0)
  }

  function FrameCap(phys: nat, pages: nat): CapEntry {
    CapEntry(Frame, phys, pages)
  }

  predicate AuthorizesPort(cap: CapEntry, port: nat, size: nat) {
    var base, count := cap.obj / 0x1_0000 % 0x1_0000, cap.obj % 0x1_0000;
    cap.capType == IoPort && base <= port && port + (if size < 1 then 1 else size) <= base + count
  }

  predicate AuthorizesMmio(cap: CapEntry, phys: nat, len: nat) {
    cap.capType == IoMem
    && phys + len < U64_LIMIT && cap.obj + cap.badge < U64_LIMIT
    && cap.obj <= phys && phys + len <= cap.obj + cap.badge
  }

  ghost predicate SlotsAuthorizePort(slots: Slots, port: nat, size: nat) {
    exists i :: 0 <= i < |slots| && slots[i].Some? && AuthorizesPort(slots[i].value, port, size)
  }

  predicate SlotsAuthorizeMmio(slots: Slots, phys: nat, len: nat) {
    exists i :: 0 <= i < |slots| && slots[i].Some? && AuthorizesMmio(slots[i].value, phys, len)
  }

  predicate InRange(a: nat, base: nat, count: nat) {
    base <= a < base + count
  }

  // Packing and unpacking agree: the capability authorizes exactly the accesses
  // all of whose port addresses lie inside its range.
  lemma PortRangeExact(base: nat, count: nat, port: nat, size: nat)
    requires base < 0x1_0000 && count < 0x1_0000
    ensures AuthorizesPort(IoPortCap(base, count), port, size) <==>
            forall a: nat :: InRange(a, port, if size < 1 then 1 else size) ==> InRange(a, base, count)
  {
    var cap := IoPortCap(base, count);
    assert cap.obj / 0x1_0000 == base && cap.obj % 0x1_0000 == count;
    var width := if size < 1 then 1 else size;
    assert AuthorizesPort(cap, port, size) <==> base <= port && port + width <= base + count;
    var last: nat := port + width - 1;
    if forall a: nat :: InRange(a, port, width) ==> InRange(a, base, count) {
      assert InRange(port, port, width) && InRange(last, port, width);
      assert InRange(port, base, count) && InRange(last, base, count);
    }
  }

  // Likewise for device memory; a capability whose range would wrap round authorizes
  // nothing.
  lemma MmioRangeExact(base: nat, len: nat, phys: nat, n: nat)
    requires n > 0
    ensures AuthorizesMmio(IoMemCap(base, len), phys, n) <==>
            base + len < U64_LIMIT && forall a: nat :: InRange(a, phys, n) ==> InRange(a, base, len)
  {
    var last: nat := phys + n - 1;
    if forall a: nat :: InRange(a, phys, n) ==> InRange(a, base, len) {
      assert InRange(phys, phys, n) && InRange(last, phys, n);
      assert InRange(phys, base, len) && InRange(last, base, len);
    }
  }

  // ----- What the table operations do -----

  function Get(slots: Slots, i: nat): Option<CapEntry> {
    if i < |slots| then slots[i] else None
  }

  predicate CanInsert(slots: Slots, i: nat) {
    i < |slots| && slots[i].None?
  }

  function Insert(slots: Slots, i: nat, cap: CapEntry): Slots {
    if CanInsert(slots, i) then slots[i := Some(cap)] else slots
  }

  predicate IsUntyped(slot: Option<CapEntry>) {
    slot.Some? && slot.value.capType == Untyped
  }

  // The first slot at or after `i` whose budget covers `amount`.
  function FindBudget(slots: Slots, amount: nat, i: nat): (k: nat)
    requires i <= |slots|
    ensures i <= k <= |slots|
    ensures k < |slots| ==> IsUntyped(slots[k]) && slots[k].value.obj >= amount
    ensures forall j :: i <= j < k ==> !(IsUntyped(slots[j]) && slots[j].value.obj >= amount)
    decreases |slots| - i
  {
    if i == |slots| || (IsUntyped(slots[i]) && slots[i].value.obj >= amount) then i
    else FindBudget(slots, amount, i + 1)
  }

  function Charge(slots: Slots, amount: nat): (Slots, bool) {
    var k := FindBudget(slots, amount, 0);
    if k == |slots| then (slots, false)
    else (slots[k := Some(slots[k].value.(obj := slots[k].value.obj - amount))], true)
  }

  function SaturatingAdd(a: nat, b: nat): nat {
    Min(a + b, U64_MAX)
  }

  // Refunds go to the first Untyped slot, whatever slot was charged.
  function Refund(slots: Slots, amount: nat): Slots {
    var k := FindBudget(slots, 0, 0);
    if k == |slots| then slots
    else slots[k := Some(slots[k].value.(obj := SaturatingAdd(slots[k].value.obj, amount)))]
  }

  function Budget(slot: Option<CapEntry>): nat {
    if IsUntyped(slot) then slot.value.obj else 0
  }

  // The whole Untyped budget of a table.
  function TotalBudget(slots: Slots): nat {
    if slots == [] then 0 else Budget(slots[0]) + TotalBudget(slots[1..])
  }

  // ----- Laws of the budget -----

  lemma {:induction false} TotalBudgetUpdate(slots: Slots, k: nat, slot: Option<CapEntry>)
    requires k < |slots|
    ensures TotalBudget(slots[k := slot]) + Budget(slots[k]) == TotalBudget(slots) + Budget(slot)
  {
    if k == 0 {
      assert slots[0 := slot][1..] == slots[1..];
    } else {
      assert slots[k := slot][1..] == slots[1..][k - 1 := slot];
      TotalBudgetUpdate(slots[1..], k - 1, slot);
    }
  }

  // A charge takes exactly `amount` from the total, and fails only when no single
  // slot could cover it.
  lemma ChargeExact(slots: Slots, amount: nat)
    ensures var (after, ok) := Charge(slots, amount);
      && (ok <==> exists i :: 0 <= i < |slots| && IsUntyped(slots[i]) && slots[i].value.obj >= amount)
      && (ok ==> TotalBudget(after) + amount == TotalBudget(slots))
      && (!ok ==> after == slots)
  {
    var k := FindBudget(slots, amount, 0);
    if k < |slots| {
      TotalBudgetUpdate(slots, k, Some(slots[k].value.(obj := slots[k].value.obj - amount)));
    }
  }

  // The slot a refund lands in, when it is not the slot the charge came from, held
  // less than `amount`; so the refund saturates exactly when that does not fit.
  ghost predicate RefundFits(slots: Slots, amount: nat) {
    var first := FindBudget(slots, 0, 0);
    first < |slots| && slots[first].value.obj < amount ==> slots[first].value.obj + amount <= U64_MAX
  }

  // Undoing a charge restores the total budget, even when the refund lands in
  // another slot; it does so exactly when the refund does not saturate.
  lemma ChargeThenRefund(slots: Slots, amount: nat)
    requires Charge(slots, amount).1
    requires forall i :: 0 <= i < |slots| && IsUntyped(slots[i]) ==> slots[i].value.obj <= U64_MAX
    ensures TotalBudget(Refund(Charge(slots, amount).0, amount)) == TotalBudget(slots) <==> RefundFits(slots, amount)
  {
    var k := FindBudget(slots, amount, 0);
    var charged := Charge(slots, amount).0;
    var first := FindBudget(slots, 0, 0);
    FirstUntypedStays(slots, charged, k);
    ChargeExact(slots, amount);
    var value := charged[first].value.obj;
    TotalBudgetUpdate(charged, first, Some(charged[first].value.(obj := SaturatingAdd(value, amount))));
  }

  lemma FirstUntypedStays(slots: Slots, charged: Slots, k: nat)
    requires |charged| == |slots| && k < |slots| && IsUntyped(slots[k])
    requires forall i :: 0 <= i < |slots| ==> IsUntyped(slots[i]) == IsUntyped(charged[i])
    ensures FindBudget(charged, 0, 0) == FindBudget(slots, 0, 0) < |slots|
  {
    var a, b := FindBudget(slots, 0, 0), FindBudget(charged, 0, 0);
    assert a <= k && b <= k;
    assert IsUntyped(charged[a]) && IsUntyped(slots[b]);
  }

  // A table that loses budget: the charge empties the second slot, and the refund
  // saturates in the first.
  lemma RefundLosesBudget()
    ensures var slots: Slots := [Some(UntypedCap(0x8000_0000_0000_0000)), Some(UntypedCap(U64_MAX))];
      var (charged, ok) := Charge(slots, U64_MAX);
      ok && TotalBudget(Refund(charged, U64_MAX)) + 0x8000_0000_0000_0000 == TotalBudget(slots)
  {
    var slots: Slots := [Some(UntypedCap(0x8000_0000_0000_0000)), Some(UntypedCap(U64_MAX))];
    var charged: Slots := [slots[0], Some(UntypedCap(0))];
    assert Charge(slots, U64_MAX) == (charged, true) by {
      assert FindBudget(slots, U64_MAX, 0) == 1;
      assert slots[1 := charged[1]] == charged;
    }
    var refunded: Slots := [Some(UntypedCap(U64_MAX)), Some(UntypedCap(0))];
    assert Refund(charged, U64_MAX) == refunded by {
      assert charged[0 := refunded[0]] == refunded;
    }
    TwoBudgets(slots);
    TwoBudgets(refunded);
  }

  lemma TwoBudgets(slots: Slots)
    requires |slots| == 2
    ensures TotalBudget(slots) == Budget(slots[0]) + Budget(slots[1])
  {
    assert TotalBudget(slots[1..]) == Budget(slots[1]);
  }

  // Every amount the kernel ever charges is far below 2^63, so its refunds fit.
  lemma SmallRefundFits(slots: Slots, amount: nat)
    requires amount <= 0x8000_0000_0000_0000
    ensures RefundFits(slots, amount)
  {
  }

  // A charge neither fills nor empties a slot.
  lemma ChargeKeepsRoom(slots: Slots, amount: nat, k: nat)
    ensures CanInsert(Charge(slots, amount).0, k) <==> CanInsert(slots, k)
  {
  }

  lemma {:induction false} InsertTotal(slots: Slots, i: nat, cap: CapEntry)
    requires CanInsert(slots, i)
    ensures TotalBudget(Insert(slots, i, cap)) == TotalBudget(slots) + Budget(Some(cap))
  {
    TotalBudgetUpdate(slots, i, Some(cap));
  }
}
