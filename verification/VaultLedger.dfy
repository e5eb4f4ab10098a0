/** The vault as the source keeps it: one object updated in place, holding its facilities as objects of their own. */
module VaultLedger {
  import opened Results
  import opened FloorArithmetic
  import opened MapSums
  import opened Facility
  import opened V = Vault
  import FacilityLedger

  type FacilityObject = FacilityLedger.FacilityLedger

  /** The book values of facility objects. */
  ghost function Books(facilities: map<string, FacilityObject>): (books: map<string, Ledger>)
    reads facilities.Values
    ensures books.Keys == facilities.Keys
  {
    map id | id in facilities :: facilities[id].Book()
  }

  /** Every object is a ledger, and no two ids share one. */
  ghost predicate Separate(facilities: map<string, FacilityObject>)
    reads facilities.Values
  {
    && (forall id :: id in facilities ==> facilities[id].Valid())
    && (forall a, b :: a in facilities && b in facilities && a != b ==> facilities[a] != facilities[b])
  }

  lemma FacilityAdded(facilities: map<string, FacilityObject>, id: string, f: FacilityObject)
    requires Separate(facilities) && f.Valid() && f !in facilities.Values
    ensures Separate(facilities[id := f]) && Books(facilities[id := f]) == Books(facilities)[id := f.Book()]
  {
    hide FacilityLedger.FacilityLedger.Book;
    assert forall i :: i in facilities ==> facilities[i] in facilities.Values;
  }

  lemma RefusedDrawChangesNothing(l: Ledger, at: int, amount: int)
    requires Borrow(l, at, amount).1.Err?
    ensures Borrow(l, at, amount).0 == l
  {
  }

  lemma RefusedPaymentChangesNothing(l: Ledger, at: int, amount: int)
    requires Repay(l, at, amount).1.Err?
    ensures Repay(l, at, amount).0 == l
  {
  }

  class VaultLedger {
    const virtualShares: int
    const virtualAssets: int
    var clock: int
    var cash: int
    var totalShares: int
    var sharesOf: map<string, int>
    var facilities: map<string, FacilityObject>
    var impairmentBy: map<string, int>
    var borrowerReserve: map<string, int>
    var borrowerRefundable: map<string, int>
    var sourceEscrow: map<string, int>
    var inFlight: map<string, int>

    /** Facilities are objects of their own, and impairments are of facilities in the book. */
    ghost predicate Valid()
      reads this, facilities.Values
    {
      Separate(facilities) && impairmentBy.Keys <= facilities.Keys
    }

    /** The book value of this object and everything in it. */
    ghost function Book(): (v: Vault)
      reads this, facilities.Values
    {
      Vault(virtualShares, virtualAssets, clock, cash, totalShares, sharesOf, Books(facilities), impairmentBy,
            borrowerReserve, borrowerRefundable, sourceEscrow, inFlight)
    }

    /** The facility object an id names, if there is one. */
    ghost function Named(id: string): set<FacilityObject>
      reads this
    {
      if id in facilities then {facilities[id]} else {}
    }

    constructor (virtualShares: int, virtualAssets: int)
      ensures Valid() && Book() == Fresh(virtualShares, virtualAssets) && facilities == map[]
    {
      this.virtualShares, this.virtualAssets := virtualShares, virtualAssets;
      clock, cash, totalShares := 0, 0, 0;
      sharesOf, facilities, impairmentBy := map[], map[], map[];
      borrowerReserve, borrowerRefundable, sourceEscrow, inFlight := map[], map[], map[], map[];
    }

    // ---- views

    method PerformingPrincipal() returns (sum: int)
      requires Valid()
      ensures sum == Sum(PrincipalBy(Books(facilities)))
    {
      hide Sum;
      sum := 0;
      ghost var all := PrincipalBy(Books(facilities));
      SumStartsAndEnds(all);
      var done, todo := {}, facilities.Keys;
      while todo != {}
        invariant done !! todo && done + todo == facilities.Keys
        invariant sum == Sum(Restrict(all, done))
        decreases todo
      {
        var id :| id in todo;
        SumGrows(all, done, id);
        var f := facilities[id];
        if !f.impaired {
          sum := sum + f.principal;
        }
        done, todo := done + {id}, todo - {id};
      }
      assert done == all.Keys;
    }

    method PerformingInterest() returns (sum: int)
      requires Valid()
      ensures sum == Sum(InterestBy(Books(facilities), clock))
    {
      hide Sum;
      sum := 0;
      ghost var all := InterestBy(Books(facilities), clock);
      SumStartsAndEnds(all);
      var done, todo := {}, facilities.Keys;
      while todo != {}
        invariant done !! todo && done + todo == facilities.Keys
        invariant sum == Sum(Restrict(all, done))
        decreases todo
      {
        var id :| id in todo;
        SumGrows(all, done, id);
        var f := facilities[id];
        if !f.impaired {
          var units := f.UnpaidInterestAt(clock);
          sum := sum + units;
        }
        done, todo := done + {id}, todo - {id};
      }
      assert done == all.Keys;
    }

    lemma LiveImpairments()
      requires Valid()
      ensures ImpairmentOn(Book()).Keys == impairmentBy.Keys
      ensures forall id :: id in impairmentBy ==>
        ImpairmentOn(Book())[id] == if facilities[id].impaired then 0 else impairmentBy[id]
    {
    }

    method Impairment() returns (sum: int)
      requires Valid()
      ensures sum == Sum(ImpairmentOn(Book()))
    {
      hide Sum;
      sum := 0;
      ghost var all := ImpairmentOn(Book());
      SumStartsAndEnds(all);
      LiveImpairments();
      hide ImpairmentOn, ImpairmentOf, Separate, Books, FacilityLedger.FacilityLedger.Book;
      var done, todo := {}, impairmentBy.Keys;
      while todo != {}
        invariant done !! todo && done + todo == impairmentBy.Keys
        invariant sum == Sum(Restrict(all, done))
        decreases todo
      {
        var id :| id in todo;
        SumGrows(all, done, id);
        if !facilities[id].impaired {
          sum := sum + impairmentBy[id];
        }
        done, todo := done + {id}, todo - {id};
      }
      assert done == all.Keys;
    }

    method Nav() returns (nav: int)
      requires Valid()
      ensures nav == V.Nav(Book())
    {
      hide Sum, PrincipalBy, InterestBy, ImpairmentOn;
      var principal := PerformingPrincipal();
      var interest := PerformingInterest();
      var impairment := Impairment();
      nav := cash + principal + interest - impairment;
    }

    // ---- shares

    method ConvertToShares(assets: int) returns (r: Result<int, Error>)
      requires Valid()
      ensures r == ToShares(Book(), assets)
    {
      hide Books, Separate;
      var nav := Nav();
      if nav + virtualAssets == 0 {
        return Err(DivisionByZero);
      }
      r := Ok(FloorDiv(assets * (totalShares + virtualShares), nav + virtualAssets));
    }

    method ConvertToAssets(shares: int) returns (r: Result<int, Error>)
      requires Valid()
      ensures r == ToAssets(Book(), shares)
    {
      hide Books, Separate;
      var nav := Nav();
      if totalShares + virtualShares == 0 {
        return Err(DivisionByZero);
      }
      r := Ok(FloorDiv(shares * (nav + virtualAssets), totalShares + virtualShares));
    }

    method Deposit(lp: string, assets: int) returns (r: Result<int, Error>)
      requires Valid()
      modifies this`cash, this`totalShares, this`sharesOf
      ensures Valid() && (Book(), r) == V.Deposit(old(Book()), lp, assets)
    {
      hide Books, Separate, ToShares;
      r := ConvertToShares(assets);
      if r.Err? {
        return;
      }
      if r.value <= 0 {
        return Err(DepositTooSmall);
      }
      cash := cash + assets;
      totalShares := totalShares + r.value;
      sharesOf := sharesOf[lp := Get(sharesOf, lp) + r.value];
    }

    method Withdraw(lp: string, shares: int) returns (r: Result<int, Error>)
      requires Valid()
      modifies this`cash, this`totalShares, this`sharesOf
      ensures Valid() && (Book(), r) == V.Withdraw(old(Book()), lp, shares)
    {
      hide Books, Separate, ToAssets;
      if shares > Get(sharesOf, lp) {
        return Err(InsufficientShares);
      }
      r := ConvertToAssets(shares);
      if r.Err? {
        return;
      }
      if r.value > cash {
        return Err(InsufficientCash);
      }
      cash := cash - r.value;
      totalShares := totalShares - shares;
      if lp !in sharesOf {
        return Err(MissingKey);
      }
      sharesOf := sharesOf[lp := sharesOf[lp] - shares];
    }

    method Donate(assets: int)
      requires Valid()
      modifies this`cash
      ensures Valid() && Book() == V.Donate(old(Book()), assets)
    {
      hide Books, Separate;
      cash := cash + assets;
    }

    method Tick(at: int) returns (r: Result<(), Error>)
      requires Valid()
      modifies this`clock
      ensures Valid() && (Book(), r) == V.Tick(old(Book()), at)
    {
      hide Books, Separate;
      if at < clock {
        return Err(ClockBackwards);
      }
      clock := at;
      r := Ok(());
    }

    // ---- lending

    method OpenFacility(id: string, rateBps: int, capitalize: bool, at: int) returns (f: FacilityObject)
      requires Valid()
      modifies this`facilities
      ensures Valid() && fresh(f) && facilities == old(facilities)[id := f]
      ensures Book() == V.OpenFacility(old(Book()), id, rateBps, capitalize, at)
    {
      hide Opened, Books, Separate, FacilityLedger.FacilityLedger.Book;
      f := NewFacility(id, rateBps, capitalize, at);
      FacilityAdded(facilities, id, f);
      facilities := facilities[id := f];
    }

    /** A facility object of its own, not yet in the book. */
    method NewFacility(id: string, rateBps: int, capitalize: bool, at: int) returns (f: FacilityObject)
      requires Valid()
      ensures fresh(f) && f.Valid() && f.Book() == Opened(rateBps, capitalize, at) && f !in facilities.Values
      ensures Separate(facilities) && Books(facilities) == old(Books(facilities))
    {
      hide Opened, FacilityLedger.FacilityLedger.Book;
      f := new FacilityLedger.FacilityLedger(id, rateBps, capitalize, at);
    }

    /** `borrow` on the facility object: its book changes, no other does. */
    method BorrowOn(id: string, at: int, amount: int) returns (r: Result<(), Error>)
      requires Valid() && id in facilities
      modifies facilities[id]
      ensures Separate(facilities)
      ensures var (l, result) := Borrow(old(Books(facilities))[id], at, amount);
        r == result && Books(facilities) == old(Books(facilities))[id := l]
    {
      hide Borrow, FacilityLedger.FacilityLedger.Book;
      r := facilities[id].Borrow(at, amount);
    }

    method Draw(id: string, at: int, amount: int) returns (r: Result<(), Error>)
      requires Valid()
      modifies this`clock, this`cash, Named(id)
      ensures Valid() && (Book(), r) == V.Draw(old(Book()), id, at, amount)
    {
      hide Borrow, Books, Separate;
      if id !in facilities {
        return Err(MissingKey);
      }
      if amount > cash {
        return Err(InsufficientCash);
      }
      r := Tick(at);
      if r.Err? {
        return;
      }
      ghost var books := Books(facilities);
      r := BorrowOn(id, at, amount);
      if r.Err? {
        RefusedDrawChangesNothing(books[id], at, amount);
        assert books[id := books[id]] == books;
        return;
      }
      cash := cash - amount;
    }

    // ---- the cash pipeline

    method SourceReceipt(settlement: string, amount: int)
      requires Valid()
      modifies this`sourceEscrow
      ensures Valid() && Book() == V.SourceReceipt(old(Book()), settlement, amount)
    {
      hide Books, Separate;
      sourceEscrow := sourceEscrow[settlement := Get(sourceEscrow, settlement) + amount];
    }

    method StartLeg(settlement: string, amount: int) returns (r: Result<(), Error>)
      requires Valid()
      modifies this`sourceEscrow, this`inFlight
      ensures Valid() && (Book(), r) == V.StartLeg(old(Book()), settlement, amount)
    {
      hide Books, Separate;
      if amount > Get(sourceEscrow, settlement) {
        return Err(LegExceedsEscrow);
      }
      if settlement !in sourceEscrow {
        return Err(MissingKey);
      }
      sourceEscrow := sourceEscrow[settlement := sourceEscrow[settlement] - amount];
      inFlight := inFlight[settlement := Get(inFlight, settlement) + amount];
      r := Ok(());
    }

    method DestinationReceipt(settlement: string, amount: int) returns (r: Result<(), Error>)
      requires Valid()
      modifies this`inFlight, this`cash
      ensures Valid() && (Book(), r) == V.DestinationReceipt(old(Book()), settlement, amount)
    {
      hide Books, Separate;
      if amount > Get(inFlight, settlement) {
        return Err(ReceiptExceedsInFlight);
      }
      if settlement !in inFlight {
        return Err(MissingKey);
      }
      inFlight := inFlight[settlement := inFlight[settlement] - amount];
      cash := cash + amount;
      r := Ok(());
    }

    method RepayFor(id: string, at: int, amount: int, thirdParty: bool) returns (r: Result<Alloc, Error>)
      requires Valid()
      modifies this`clock, this`cash, this`borrowerRefundable, Named(id)
      ensures Valid() && (Book(), r) == V.RepayFor(old(Book()), id, at, amount, thirdParty)
    {
      r := Allocate(id, at, amount, if thirdParty then amount else 0);
    }

    /** `allocate_repayment` on the facility object: its book changes, no other does. */
    method AllocateOn(id: string, at: int, amount: int) returns (r: Result<Alloc, Error>)
      requires Valid() && id in facilities
      modifies facilities[id]
      ensures Separate(facilities)
      ensures var (l, result) := Repay(old(Books(facilities))[id], at, amount);
        r == result && Books(facilities) == old(Books(facilities))[id := l]
    {
      hide Repay, FacilityLedger.FacilityLedger.Book;
      r := facilities[id].AllocateRepayment(at, amount);
    }

    /** Tick, book the cash that comes with the call, allocate, and hand the excess to the borrower. */
    method Allocate(id: string, at: int, amount: int, booked: int) returns (r: Result<Alloc, Error>)
      requires Valid()
      modifies this`clock, this`cash, this`borrowerRefundable, Named(id)
      ensures Valid() && (Book(), r) == Settle(old(Book()), id, at, amount, booked)
    {
      hide Repay, Books, Separate, Get;
      if id !in facilities {
        return Err(MissingKey);
      }
      var ticked := Tick(at);
      if ticked.Err? {
        return Err(ticked.error);
      }
      ghost var books := Books(facilities);
      cash := cash + booked;
      r := AllocateOn(id, at, amount);
      if r.Err? {
        RefusedPaymentChangesNothing(books[id], at, amount);
        assert books[id := books[id]] == books;
        return;
      }
      if r.value.excess != 0 {
        cash := cash - r.value.excess;
        borrowerRefundable := borrowerRefundable[id := Get(borrowerRefundable, id) + r.value.excess];
      }
    }

    method FundReserve(id: string, amount: int)
      requires Valid()
      modifies this`borrowerReserve
      ensures Valid() && Book() == V.FundReserve(old(Book()), id, amount)
    {
      hide Books, Separate;
      borrowerReserve := borrowerReserve[id := Get(borrowerReserve, id) + amount];
    }

    // ---- losses

    method Impair(id: string, amount: int) returns (r: Result<(), Error>)
      requires Valid()
      modifies this`impairmentBy
      ensures Valid() && (Book(), r) == V.Impair(old(Book()), id, amount)
    {
      hide Separate, UnitsIn, Get;
      if id !in facilities {
        return Err(MissingKey);
      }
      var f := facilities[id];
      var already := Get(impairmentBy, id);
      if amount > f.principal + f.UnpaidInterest() - already {
        return Err(ImpairmentExceedsExposure);
      }
      impairmentBy := impairmentBy[id := already + amount];
      r := Ok(());
    }

    /** `accrue` on the facility object: its book changes, no other does. */
    method AccrueOn(id: string, at: int) returns (r: Result<(), Error>)
      requires Valid() && id in facilities
      modifies facilities[id]
      ensures Separate(facilities)
      ensures var (l, result) := Accrue(old(Books(facilities))[id], at);
        r == result && Books(facilities) == old(Books(facilities))[id := l]
    {
      hide Accrue, FacilityLedger.FacilityLedger.Book;
      r := facilities[id].Accrue(at);
    }

    /** First-loss cash of the borrower, through the waterfall. */
    method UseReserve(id: string, at: int, used: int) returns (r: Result<(), Error>)
      requires Valid() && id in facilities
      modifies this`cash, this`borrowerReserve, facilities[id]
      ensures Valid() && (Book(), r) == PayFromReserve(old(Book()), id, at, used)
    {
      hide Repay, Books, Separate;
      if used == 0 {
        return Ok(());
      }
      if id !in borrowerReserve {
        return Err(MissingKey);
      }
      ghost var books := Books(facilities);
      borrowerReserve := borrowerReserve[id := borrowerReserve[id] - used];
      cash := cash + used;
      var alloc := AllocateOn(id, at, used);
      if alloc.Err? {
        RefusedPaymentChangesNothing(books[id], at, used);
        assert books[id := books[id]] == books;
        return Err(alloc.error);
      }
      r := Ok(());
    }

    /** The write-off marks on the facility object: its book changes, no other does. */
    method MarkOn(id: string)
      requires Valid() && id in facilities
      modifies facilities[id]
      ensures Separate(facilities)
      ensures Books(facilities) == old(Books(facilities))[id := MarkWrittenOff(old(Books(facilities))[id])]
    {
      hide MarkWrittenOff, FacilityLedger.FacilityLedger.Book;
      facilities[id].MarkAsWrittenOff();
    }

    /** Off the performing book; the debt stays in the facility object. */
    method TakeLoss(id: string) returns (lossPrincipal: int, lossInterest: int)
      requires Valid() && id in facilities
      modifies this`impairmentBy, facilities[id]
      ensures Valid() && Book() == RemoveFromBook(old(Book()), id)
      ensures lossPrincipal == old(Books(facilities))[id].principal
        && lossInterest == old(Books(facilities))[id].Unpaid()
    {
      hide Books, Separate, MarkWrittenOff, Ledger.Unpaid;
      lossPrincipal, lossInterest := BookedLoss(id);
      impairmentBy := impairmentBy - {id};
      assert impairmentBy.Keys <= facilities.Keys;
      MarkOn(id);
    }

    method BookedLoss(id: string) returns (lossPrincipal: int, lossInterest: int)
      requires id in facilities
      ensures lossPrincipal == Books(facilities)[id].principal && lossInterest == Books(facilities)[id].Unpaid()
    {
      lossPrincipal, lossInterest := facilities[id].principal, facilities[id].UnpaidInterest();
    }

    method LegalDebtOf(id: string) returns (debt: int)
      requires id in facilities
      ensures debt == Books(facilities)[id].LegalDebt()
    {
      var f := facilities[id];
      debt := f.principal + f.UnpaidInterest() + f.fees;
    }

    method WriteOff(id: string, at: int) returns (r: Result<WriteOffResult, Error>)
      requires Valid()
      modifies this`clock, this`cash, this`borrowerReserve, this`impairmentBy, Named(id)
      ensures Valid() && (Book(), r) == V.WriteOff(old(Book()), id, at)
    {
      hide PayFromReserve, RemoveFromBook, Books, Separate, Ledger.Accrued, Ledger.LegalDebt, Ledger.Unpaid;
      if id !in facilities {
        return Err(MissingKey);
      }
      var ticked := Tick(at);
      if ticked.Err? {
        return Err(ticked.error);
      }
      ghost var books := Books(facilities);
      var accrued := AccrueOn(id, at);
      if accrued.Err? {
        assert books[id := books[id]] == books;
        return Err(accrued.error);
      }
      var debt := LegalDebtOf(id);
      var used := Min(Get(borrowerReserve, id), debt);
      var paid := UseReserve(id, at, used);
      if paid.Err? {
        return Err(paid.error);
      }
      var lossPrincipal, lossInterest := TakeLoss(id);
      r := Ok(WriteOffResult(used, lossPrincipal, lossInterest));
    }

    method Recover(id: string, at: int, amount: int) returns (r: Result<Alloc, Error>)
      requires Valid()
      modifies this`clock, this`cash, this`borrowerRefundable, Named(id)
      ensures Valid() && (Book(), r) == V.Recover(old(Book()), id, at, amount)
    {
      r := Allocate(id, at, amount, amount);
    }
  }
}
