/** Impairment, write-off and recovery: what they do to the NAV, and what they leave of the debt. */
module VaultLosses {
  import opened Results
  import opened FloorArithmetic
  import opened MapSums
  import opened RateSchedule
  import opened Facility
  import opened Vault
  import opened VaultPrice

  /** A facility on the performing book that can be written off at `at`: it is there, not written off yet, and neither
      clock has passed `at`. */
  predicate CanWriteOff(v: Vault, id: string, at: int) {
    && id in v.facilities
    && !v.facilities[id].impaired
    && v.facilities[id].Solvent()
    && v.clock <= at && v.facilities[id].lastAccrualAt <= at
    && Get(v.borrowerReserve, id) >= 0
  }

  lemma ImpairmentReleased(v: Vault, id: string)
    requires id in v.facilities && v.facilities[id].impaired
    ensures Nav(v.(impairmentBy := v.impairmentBy - {id})) == Nav(v)
  {
    var v' := v.(impairmentBy := v.impairmentBy - {id});
    if id in v.impairmentBy {
      SumWithout(ImpairmentOn(v), id);
      assert ImpairmentOn(v) - {id} == ImpairmentOn(v');
    } else {
      assert ImpairmentOn(v') == ImpairmentOn(v);
    }
  }

  /** Off the book: the NAV loses the facility's worth and gains back what had been impaired. */
  lemma NavAfterRemoval(v: Vault, id: string)
    requires id in v.facilities
    ensures Nav(RemoveFromBook(v, id)) == Nav(v) - WorthOf(v, id) + ImpairmentOf(v, id)
  {
    hide Nav;
    NavAfterFacility(v, id, MarkWrittenOff(v.facilities[id]));
    ImpairmentReleased(WithFacility(v, id, MarkWrittenOff(v.facilities[id])), id);
  }

  /** What the reserve pays: exactly `used`, all of it allocated. */
  lemma ReservePays(v: Vault, id: string, at: int, used: int)
    requires id in v.facilities && !v.facilities[id].impaired && v.facilities[id].Solvent()
    requires v.clock == at == v.facilities[id].lastAccrualAt
    requires 0 <= used <= v.facilities[id].LegalDebt() && used <= Get(v.borrowerReserve, id)
    ensures var (v', r) := PayFromReserve(v, id, at, used);
      var l, l' := v.facilities[id], v'.facilities[id];
      var alloc := Waterfall(l.fees, l.Unpaid(), l.principal, used);
      && r.Ok? && alloc.excess == 0
      && l'.LegalDebt() == l.LegalDebt() - used
      && l'.principal == l.principal - alloc.principal && l'.Unpaid() == l.Unpaid() - alloc.interest
      && l'.impaired == l.impaired && l'.lastAccrualAt == at && l'.frozen == l.frozen
      && v' == UseReserve(WithFacility(v, id, l'), id, if id in v.borrowerReserve then used else 0).(
           borrowerReserve := v'.borrowerReserve)
      && Get(v'.borrowerReserve, id) == Get(v.borrowerReserve, id) - used
  {
    var l := v.facilities[id];
    assert l.UnpaidAt(at) == l.Unpaid() && l.Accrued(at) == l;
    if used > 0 {
      RepaymentReducesDebt(l, at, used);
    } else {
      assert v.facilities[id := l] == v.facilities;
    }
  }

  lemma NavAfterReserve(v: Vault, id: string, at: int, used: int)
    requires id in v.facilities && !v.facilities[id].impaired && v.facilities[id].Solvent()
    requires v.clock == at == v.facilities[id].lastAccrualAt
    requires 0 <= used <= v.facilities[id].LegalDebt() && used <= Get(v.borrowerReserve, id)
    ensures var v' := PayFromReserve(v, id, at, used).0; var l := v.facilities[id];
      && Nav(v') == Nav(v) + Waterfall(l.fees, l.Unpaid(), l.principal, used).fees
      && WorthOf(v', id) == v'.facilities[id].principal + v'.facilities[id].Unpaid()
      && ImpairmentOf(v', id) == ImpairmentOf(v, id)
  {
    hide Nav, PayFromReserve;
    ReservePays(v, id, at, used);
    var v' := PayFromReserve(v, id, at, used).0;
    var moved := WithFacility(v, id, v'.facilities[id]);
    NavAfterFacility(v, id, v'.facilities[id]);
    SharesMoveNoNav(moved, v');
  }

  /**
   A write-off: the reserve pays down the debt by exactly what it holds (or by all of it), nothing is in excess, and
   NAV moves by the fees collected, less the loss, plus whatever impairment had already been taken.
   */
  lemma WriteOffSettlesTheBook(v: Vault, id: string, at: int)
    requires CanWriteOff(v, id, at)
    ensures var (v', r) := WriteOff(v, id, at);
      var before := v.facilities[id].Accrued(at);
      var used := Min(Get(v.borrowerReserve, id), before.LegalDebt());
      var alloc := Waterfall(before.fees, before.Unpaid(), before.principal, used);
      && r == Ok(WriteOffResult(used, before.principal - alloc.principal, before.Unpaid() - alloc.interest))
      && id in v'.facilities && v'.facilities[id].LegalDebt() == before.LegalDebt() - used && alloc.excess == 0
      && v'.facilities[id].impaired && v'.facilities[id].frozen && id !in v'.impairmentBy
      && Get(v'.borrowerReserve, id) == Get(v.borrowerReserve, id) - used
      && Nav(v') == Nav(v.(clock := at)) + alloc.fees - (r.value.lossPrincipal + r.value.lossInterest)
        + ImpairmentOf(v, id)
  {
    hide Nav, PayFromReserve, Integral, UnitsIn, AccumOf, Waterfall;
    var l := v.facilities[id].Accrued(at);
    AccrualKeepsSolvent(v.facilities[id], at);
    var ticked := v.(clock := at);
    var w := WithFacility(ticked, id, l);
    EarlyAccrualKeepsNav(ticked, id, at);
    assert w == AccrueFacility(ticked, id, at);
    var used := ReserveToUse(v, id, l);
    ReservePays(w, id, at, used);
    NavAfterReserve(w, id, at, used);
    NavAfterRemoval(PayFromReserve(w, id, at, used).0, id);
    assert ImpairmentOf(w, id) == ImpairmentOf(v, id);
  }

  /** Impairing first changes nothing about a write-off: not the loss, not the NAV, not anything else. */
  lemma ImpairingFirstIsNoDifferent(v: Vault, id: string, amount: int, at: int)
    requires CanWriteOff(v, id, at) && Impair(v, id, amount).1.Ok?
    ensures WriteOff(Impair(v, id, amount).0, id, at) == WriteOff(v, id, at)
  {
    hide Nav, Repay, Integral, UnitsIn, AccumOf, Waterfall, PayFromReserve;
    var u := Impair(v, id, amount).0;
    WriteOffSettlesTheBook(v, id, at);
    assert u == v.(impairmentBy := u.impairmentBy);
    assert u.impairmentBy - {id} == v.impairmentBy - {id};
    var l := v.facilities[id].Accrued(at);
    var used := ReserveToUse(v, id, l);
    ImpairmentIsNotRead(WithFacility(v.(clock := at), id, l), u.impairmentBy, id, at, used);
  }

  lemma ImpairmentIsNotRead(v: Vault, impairmentBy: map<string, int>, id: string, at: int, used: int)
    requires id in v.facilities
    ensures PayFromReserve(v.(impairmentBy := impairmentBy), id, at, used)
         == (PayFromReserve(v, id, at, used).0.(impairmentBy := impairmentBy), PayFromReserve(v, id, at, used).1)
    ensures PayFromReserve(v, id, at, used).0.impairmentBy == v.impairmentBy
  {
    hide Repay, Get;
    var u := v.(impairmentBy := impairmentBy);
    if used != 0 && id in v.borrowerReserve {
      var (paid, _) := Repay(v.facilities[id], at, used);
      assert UseReserve(u, id, used) == UseReserve(v, id, used).(impairmentBy := impairmentBy);
      assert UseReserve(WithFacility(u, id, paid), id, used)
          == UseReserve(WithFacility(v, id, paid), id, used).(impairmentBy := impairmentBy);
      hide UseReserve, WithFacility;
    }
  }

  /** NAV recognises exactly the impairment; the debt does not move. */
  lemma ImpairmentLowersNavOnly(v: Vault, id: string, amount: int)
    requires Impair(v, id, amount).1.Ok? && !v.facilities[id].impaired
    ensures var v' := Impair(v, id, amount).0; v'.facilities == v.facilities && Nav(v') == Nav(v) - amount
  {
    var v' := Impair(v, id, amount).0;
    assert ImpairmentOn(v') == ImpairmentOn(v)[id := Get(v.impairmentBy, id) + amount];
    SumUpdate(ImpairmentOn(v), id, Get(v.impairmentBy, id) + amount);
  }

  /** After a write-off time stops for the debt, and what is recovered is NAV, up to what is still owed. */
  lemma RecoveryAfterWriteOff(v: Vault, id: string, at: int, amount: int)
    requires id in v.facilities && v.facilities[id].impaired && v.facilities[id].frozen && v.facilities[id].Solvent()
    requires v.clock <= at && v.facilities[id].lastAccrualAt <= at && amount > 0
    ensures var (v', r) := Recover(v, id, at, amount);
      && r.Ok? && v'.facilities[id].LegalDebt() == v.facilities[id].LegalDebt() - (amount - r.value.excess)
      && Nav(v') == Nav(v.(clock := at)) + (amount - r.value.excess)
      && Get(v'.borrowerRefundable, id) == Get(v.borrowerRefundable, id) + r.value.excess
      && r.value.excess == Max(0, amount - v.facilities[id].LegalDebt())
  {
    hide Nav, Repay, Integral, UnitsIn, AccumOf;
    var l := v.facilities[id];
    assert l.Accrued(at).LegalDebt() == l.LegalDebt();
    RepaymentReducesDebt(l, at, amount);
    AcceptedRepayment(l, at, amount);
    var held := v.(clock := at, cash := v.cash + amount);
    var (v', r) := Recover(v, id, at, amount);
    NavAfterFacility(held, id, Repay(l, at, amount).0);
    SharesMoveNoNav(v.(clock := at), held);
    SharesMoveNoNav(WithFacility(held, id, Repay(l, at, amount).0), v');
  }

  lemma OneFacilityNav(v: Vault, id: string)
    requires v.facilities.Keys == {id} == v.impairmentBy.Keys && !v.facilities[id].impaired
    ensures Nav(v) == v.cash + v.facilities[id].principal + v.facilities[id].UnpaidAt(v.clock) - v.impairmentBy[id]
  {
    SumOfOne(PrincipalBy(v.facilities), id);
    SumOfOne(InterestBy(v.facilities, v.clock), id);
    SumOfOne(ImpairmentOn(v), id);
  }

  lemma SumOfOne(m: map<string, int>, key: string)
    requires m.Keys == {key}
    ensures Sum(m) == m[key]
  {
    SumWithout(m, key);
    assert m - {key} == map[];
  }
}
