/** The facility ledger as the source keeps it: an object whose fields each operation updates. */
module FacilityLedger {
  import opened Results
  import opened FloorArithmetic
  import opened RateSchedule
  import opened Facility

  class FacilityLedger {
    const facilityId: string
    const capitalize: bool
    var principal: int
    var fees: int
    var interestAccum: int
    var lastAccrualAt: int
    var segments: seq<RateSegment>
    var writtenOffPrincipal: int
    var writtenOffInterest: int
    var impaired: bool
    var accrualFrozen: bool
    var history: seq<Entry>

    ghost predicate Valid()
      reads this
    {
      segments != []
    }

    /** The book value of this object. */
    ghost function Book(): (l: Ledger)
      reads this
      ensures l.Valid() <==> Valid()
    {
      Ledger(capitalize, principal, fees, interestAccum, lastAccrualAt, segments,
             writtenOffPrincipal, writtenOffInterest, impaired, accrualFrozen, history)
    }

    constructor (facilityId: string, rateBps: int, capitalize: bool, openedAt: int)
      ensures Valid() && Book() == Opened(rateBps, capitalize, openedAt) && this.facilityId == facilityId
    {
      this.facilityId := facilityId;
      this.capitalize := capitalize;
      principal, fees, interestAccum := 0, 0, 0;
      writtenOffPrincipal, writtenOffInterest := 0, 0;
      impaired, accrualFrozen, history := false, false, [];
      segments := [RateSegment(openedAt, rateBps)];
      lastAccrualAt := openedAt;
    }

    function UnpaidInterest(): int
      reads this
    {
      UnitsIn(interestAccum)
    }

    method CurrentRate(at: int) returns (rate: int)
      requires Valid()
      ensures rate == RateAt(segments, at)
    {
      rate := segments[0].rateBps;
      for i := 0 to |segments|
        invariant rate == match Started(segments[..i], at) case Some(s) => s.rateBps case None => segments[0].rateBps
      {
        assert segments[..i + 1][..i] == segments[..i];
        if segments[i].start <= at {
          rate := segments[i].rateBps;
        }
      }
      assert segments[..|segments|] == segments;
    }

    /** The next boundary after `t`: the first segment start strictly between `t` and `until`, or `until`. */
    method NextBoundary(t: int, until: int) returns (nxt: int)
      requires Valid() && t < until
      ensures t < nxt <= until && NoStartWithin(segments, t, nxt - 1)
    {
      nxt := until;
      for i := 0 to |segments|
        invariant t < nxt <= until && NoStartWithin(segments[..i], t, nxt - 1)
      {
        assert segments[..i + 1] == segments[..i] + [segments[i]];
        if t < segments[i].start < nxt {
          nxt := segments[i].start;
        }
      }
      assert segments[..|segments|] == segments;
    }

    method UnpaidInterestAt(at: int) returns (units: int)
      requires Valid()
      ensures units == Book().UnpaidAt(at)
    {
      if accrualFrozen || at <= lastAccrualAt {
        return UnpaidInterest();
      }
      var accum, t := interestAccum, lastAccrualAt;
      while t < at
        invariant lastAccrualAt <= t <= at
        invariant accum == interestAccum + Integral(principal, segments, lastAccrualAt, t)
      {
        var rate := CurrentRate(t);
        var nxt := NextBoundary(t, at);
        IntegralOfStretch(principal, segments, t, nxt);
        IntegralSplits(principal, segments, lastAccrualAt, t, nxt);
        accum := accum + principal * rate * (nxt - t);
        t := nxt;
      }
      units := UnitsIn(accum);
    }

    method Accrue(at: int) returns (r: Result<(), Error>)
      requires Valid()
      modifies this`interestAccum, this`lastAccrualAt
      ensures (Book(), r) == Facility.Accrue(old(Book()), at)
    {
      if at < lastAccrualAt {
        return Err(AccrualBackwards);
      }
      if accrualFrozen {
        lastAccrualAt := at;
        return Ok(());
      }
      var t := lastAccrualAt;
      while t < at
        invariant lastAccrualAt == old(lastAccrualAt) <= t <= at
        invariant interestAccum == old(interestAccum) + Integral(principal, segments, lastAccrualAt, t)
      {
        var rate := CurrentRate(t);
        var nxt := NextBoundary(t, at);
        IntegralOfStretch(principal, segments, t, nxt);
        IntegralSplits(principal, segments, lastAccrualAt, t, nxt);
        interestAccum := interestAccum + principal * rate * (nxt - t);
        t := nxt;
      }
      lastAccrualAt := at;
      r := Ok(());
    }

    method SetRate(at: int, rateBps: int) returns (r: Result<(), Error>)
      requires Valid()
      modifies this
      ensures Valid() && (Book(), r) == Facility.SetRate(old(Book()), at, rateBps)
    {
      r := Accrue(at);
      if r.Err? {
        return;
      }
      segments := WithRate(segments, at, rateBps);
      history := history + [RateSet(at, rateBps)];
    }

    method Borrow(at: int, amount: int) returns (r: Result<(), Error>)
      requires Valid()
      modifies this
      ensures Valid() && (Book(), r) == Facility.Borrow(old(Book()), at, amount)
    {
      if amount <= 0 {
        return Err(AmountNotPositive);
      }
      r := Accrue(at);
      if r.Err? {
        return;
      }
      if capitalize {
        var cap := UnpaidInterest();
        principal := principal + cap;
        interestAccum := interestAccum - AccumOf(cap);
      }
      principal := principal + amount;
      history := history + [Borrowed(at, amount)];
    }

    method ChargeFee(at: int, amount: int) returns (r: Result<(), Error>)
      requires Valid()
      modifies this
      ensures Valid() && (Book(), r) == Facility.ChargeFee(old(Book()), at, amount)
    {
      r := Accrue(at);
      if r.Err? {
        return;
      }
      fees := fees + amount;
      history := history + [FeeCharged(at, amount)];
    }

    method AllocateRepayment(at: int, amount: int) returns (r: Result<Alloc, Error>)
      requires Valid()
      modifies this
      ensures Valid() && (Book(), r) == Repay(old(Book()), at, amount)
    {
      if amount <= 0 {
        return Err(AmountNotPositive);
      }
      var accrued := Accrue(at);
      if accrued.Err? {
        return Err(accrued.error);
      }
      var remaining := amount;
      var toFees := Min(remaining, fees);
      fees := fees - toFees;
      remaining := remaining - toFees;
      var toInterest := Min(remaining, UnpaidInterest());
      interestAccum := interestAccum - AccumOf(toInterest);
      remaining := remaining - toInterest;
      var toPrincipal := Min(remaining, principal);
      principal := principal - toPrincipal;
      remaining := remaining - toPrincipal;
      var alloc := Alloc(toFees, toInterest, toPrincipal, remaining);
      history := history + [Repaid(at, alloc)];
      r := Ok(alloc);
    }

    /** The marks the vault sets on a facility it writes off. */
    method MarkAsWrittenOff()
      requires Valid()
      modifies this`impaired, this`accrualFrozen, this`writtenOffPrincipal, this`writtenOffInterest
      ensures Valid() && Book() == MarkWrittenOff(old(Book()))
    {
      impaired := true;
      accrualFrozen := true;
      writtenOffPrincipal := writtenOffPrincipal + principal;
      writtenOffInterest := writtenOffInterest + UnpaidInterest();
    }
  }
}
