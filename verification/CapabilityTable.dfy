// The capability table object, which updates its slots in place.
module CapabilityTable {
  import opened Base
  import opened Capability

  class CNode {
    var slots: Slots

    constructor (len: nat)
      ensures slots == seq(len, _ => None)
    {
      slots := seq(len, _ => None);
    }

    method Get(i: nat) returns (r: Result<CapEntry>)
      ensures r == match Capability.Get(slots, i) case Some(c) => Ok(c) case None => Err(InvalidCap)
    {
      if i >= |slots| {
        return Err(InvalidCap);
      }
      match slots[i] {
        case Some(c) => r := Ok(c);
        case None => r := Err(InvalidCap);
      }
    }

    method Insert(i: nat, cap: CapEntry) returns (r: Result<()>)
      modifies this
      ensures slots == Capability.Insert(old(slots), i, cap)
      ensures r.Ok? <==> CanInsert(old(slots), i)
      ensures r.Err? ==> r.error == if i < |old(slots)| then NotPermitted else InvalidCap
    {
      if i >= |slots| {
        return Err(InvalidCap);
      }
      if slots[i].Some? {
        return Err(NotPermitted);
      }
      slots := slots[i := Some(cap)];
      r := Ok(());
    }

    method Copy(src: nat, dst: nat) returns (r: Result<()>)
      modifies this
      ensures r.Ok? <==> Capability.Get(old(slots), src).Some? && CanInsert(old(slots), dst)
      ensures r.Ok? ==> slots == old(slots)[dst := old(slots)[src]]
      ensures r.Err? ==> slots == old(slots)
    {
      var cap := Get(src);
      if cap.Err? {
        return Err(cap.error);
      }
      r := Insert(dst, cap.value);
    }

    method Delete(i: nat) returns (r: Result<CapEntry>)
      modifies this
      ensures r.Ok? <==> Capability.Get(old(slots), i).Some?
      ensures r.Ok? ==> Some(r.value) == old(slots)[i] && slots == old(slots)[i := None]
      ensures r.Err? ==> slots == old(slots) && r.error == InvalidCap
    {
      if i >= |slots| || slots[i].None? {
        return Err(InvalidCap);
      }
      r := Ok(slots[i].value);
      slots := slots[i := None];
    }

    method AuthorizesMmio(phys: nat, len: nat) returns (ok: bool)
      ensures ok <==> SlotsAuthorizeMmio(slots, phys, len)
    {
      for i := 0 to |slots|
        invariant forall j :: 0 <= j < i ==> !(slots[j].Some? && Capability.AuthorizesMmio(slots[j].value, phys, len))
      {
        if slots[i].Some? && Capability.AuthorizesMmio(slots[i].value, phys, len) {
          return true;
        }
      }
      ok := false;
    }

    method AuthorizesPort(port: nat, size: nat) returns (ok: bool)
      ensures ok <==> SlotsAuthorizePort(slots, port, size)
    {
      for i := 0 to |slots|
        invariant forall j :: 0 <= j < i ==> !(slots[j].Some? && Capability.AuthorizesPort(slots[j].value, port, size))
      {
        if slots[i].Some? && Capability.AuthorizesPort(slots[i].value, port, size) {
          return true;
        }
      }
      ok := false;
    }

    method ChargeUntyped(amount: nat) returns (ok: bool)
      modifies this
      ensures (slots, ok) == Charge(old(slots), amount)
    {
      for i := 0 to |slots|
        invariant slots == old(slots)
        invariant FindBudget(slots, amount, 0) == FindBudget(slots, amount, i)
      {
        if slots[i].Some? && slots[i].value.capType == Untyped && slots[i].value.obj >= amount {
          slots := slots[i := Some(slots[i].value.(obj := slots[i].value.obj - amount))];
          return true;
        }
      }
      ok := false;
    }

    method RefundUntyped(amount: nat)
      modifies this
      ensures slots == Refund(old(slots), amount)
    {
      for i := 0 to |slots|
        invariant slots == old(slots)
        invariant FindBudget(slots, 0, 0) == FindBudget(slots, 0, i)
      {
        if slots[i].Some? && slots[i].value.capType == Untyped {
          slots := slots[i := Some(slots[i].value.(obj := SaturatingAdd(slots[i].value.obj, amount)))];
          return;
        }
      }
    }
  }
}
