/**
 * The vending machine: racks of products addressed by rack number, and a
 * controller that accumulates a cash balance and moves between the states
 * NoMoney, MoneyInserted and Dispense.  Amounts are integer cents.
 *
 * The value-level part (Snapshot, InsertMoneyStep, SelectProductStep, Run)
 * describes one call on the machine as a function; the classes below are
 * proved to follow it, and the lemmas state what the machine promises.
 */
module VendingMachine {
  import opened Optional

  datatype ProductType = Chocolate | Snack | Beverage

  /** An immutable catalogue entry; `price` is in cents. */
  datatype Product = Product(id: int, name: string, price: int, productType: ProductType)

  /** What a rack holds, seen from outside: its current product (if ever loaded) and its count. */
  datatype Slot = Slot(product: Option<Product>, quantity: int)

  datatype StateTag = NoMoney | MoneyInserted | Dispense

  datatype RefundReason = RackUnavailable | InsufficientFunds

  /** What the machine reports to the customer for one call. */
  datatype Notice =
    | MoneyAccepted(total: int)
    | Busy
    | InsertMoneyFirst
    | Refunded(amount: int, reason: RefundReason)
    | Dispensed(product: Product, change: Option<int>)

  /** The whole observable state of a machine. */
  datatype Snapshot = Snapshot(state: StateTag, amount: int, selected: int, stock: map<int, Slot>)

  datatype Reply = Reply(after: Snapshot, notice: Notice)

  /** A rack that was never loaded holds nothing. */
  ghost predicate WellStocked(stock: map<int, Slot>) {
    forall n :: n in stock ==> (stock[n].product.None? ==> stock[n].quantity == 0)
  }

  /** What holds between two public calls. */
  ghost predicate Idle(s: Snapshot) {
    && s.state != Dispense
    && s.selected == -1
    && (s.state == NoMoney ==> s.amount == 0)
    && WellStocked(s.stock)
  }

  function ResetSession(s: Snapshot): Snapshot {
    s.(amount := 0, selected := -1, state := NoMoney)
  }

  function Decremented(slot: Slot): Slot {
    slot.(quantity := if slot.quantity > 0 then slot.quantity - 1 else slot.quantity)
  }

  function InsertMoneyStep(s: Snapshot, amt: int): Reply {
    match s.state
    case NoMoney => Reply(s.(amount := s.amount + amt, state := MoneyInserted), MoneyAccepted(s.amount + amt))
    case MoneyInserted => Reply(s.(amount := s.amount + amt), MoneyAccepted(s.amount + amt))
    case Dispense => Reply(s, Busy)
  }

  function DispenseStep(s: Snapshot): Reply
    requires s.selected in s.stock && s.stock[s.selected].product.Some?
  {
    var slot := s.stock[s.selected];
    var p := slot.product.value;
    var change := s.amount - p.price;
    Reply(ResetSession(s.(stock := s.stock[s.selected := Decremented(slot)])),
          Dispensed(p, if change > 0 then Some(change) else None))
  }

  function SelectProductStep(s: Snapshot, n: int): Reply
    requires WellStocked(s.stock)
  {
    match s.state
    case NoMoney => Reply(s, InsertMoneyFirst)
    case Dispense => Reply(s, Busy)
    case MoneyInserted =>
      if n !in s.stock || s.stock[n].quantity <= 0 then
        Reply(ResetSession(s), Refunded(s.amount, RackUnavailable))
      else if s.amount < s.stock[n].product.value.price then
        Reply(ResetSession(s), Refunded(s.amount, InsufficientFunds))
      else
        DispenseStep(s.(selected := n, state := Dispense))
  }

  // ---------------------------------------------------------------------------
  // Properties of one call

  /** Both public calls keep the between-calls invariant. */
  lemma StepsKeepIdle(s: Snapshot, amt: int, n: int)
    requires Idle(s)
    ensures Idle(InsertMoneyStep(s, amt).after)
    ensures Idle(SelectProductStep(s, n).after)
  {
    var r := SelectProductStep(s, n);
    if s.state == MoneyInserted && n in s.stock && s.stock[n].quantity > 0 && s.amount >= s.stock[n].product.value.price {
      forall k | k in r.after.stock ensures (r.after.stock[k].product.None? ==> r.after.stock[k].quantity == 0) {
        if k != n {
          assert r.after.stock[k] == s.stock[k];
        }
      }
    }
  }

  /** Inserting money adds exactly that amount, leaves the stock alone, and ends in MoneyInserted. */
  lemma InsertMoneyAccumulates(s: Snapshot, amt: int)
    requires s.state != Dispense
    ensures InsertMoneyStep(s, amt).after == s.(amount := s.amount + amt, state := MoneyInserted)
    ensures InsertMoneyStep(s, amt).notice == MoneyAccepted(s.amount + amt)
  {
  }

  /** Every selection made with money inserted ends the session, whatever its outcome. */
  lemma SelectionEndsSession(s: Snapshot, n: int)
    requires WellStocked(s.stock) && s.state == MoneyInserted
    ensures var r := SelectProductStep(s, n);
      r.after.state == NoMoney && r.after.amount == 0 && r.after.selected == -1
  {
  }

  /**
   * A selection either refunds the whole amount and keeps every rack as it
   * was, or dispenses one unit of the selected rack's product, returns as
   * change what was paid beyond the price, and keeps every other rack.
   */
  lemma SelectionOutcomes(s: Snapshot, n: int)
    requires WellStocked(s.stock) && s.state == MoneyInserted
    ensures var r := SelectProductStep(s, n);
      match r.notice
      case Refunded(a, why) =>
        && a == s.amount
        && r.after.stock == s.stock
        && (why == RackUnavailable <==> (n !in s.stock || s.stock[n].quantity <= 0))
      case Dispensed(p, change) =>
        && n in s.stock && s.stock[n].quantity >= 1
        && s.stock[n].product == Some(p)
        && p.price <= s.amount
        && r.after.stock == s.stock[n := Slot(Some(p), s.stock[n].quantity - 1)]
        && (change == None <==> s.amount == p.price)
        && (change.Some? ==> change.value == s.amount - p.price && change.value > 0)
      case _ => false
  {
  }

  /** A selection succeeds exactly when the rack exists, is stocked and the amount covers the price. */
  lemma DispensesIffPaidAndStocked(s: Snapshot, n: int)
    requires WellStocked(s.stock) && s.state == MoneyInserted
    ensures SelectProductStep(s, n).notice.Dispensed? <==>
      (n in s.stock && s.stock[n].quantity > 0 && s.stock[n].product.value.price <= s.amount)
  {
  }

  /** With no money inserted, or while dispensing, a selection changes nothing. */
  lemma RejectedSelectionChangesNothing(s: Snapshot, n: int)
    requires WellStocked(s.stock) && s.state != MoneyInserted
    ensures SelectProductStep(s, n).after == s
    ensures SelectProductStep(s, n).notice == (if s.state == NoMoney then InsertMoneyFirst else Busy)
  {
  }

  // ---------------------------------------------------------------------------
  // Properties of a whole run of calls

  datatype Call = InsertMoney(amt: int) | SelectProduct(rackNo: int)

  function Apply(s: Snapshot, c: Call): Reply
    requires WellStocked(s.stock)
  {
    match c
    case InsertMoney(a) => InsertMoneyStep(s, a)
    case SelectProduct(n) => SelectProductStep(s, n)
  }

  /** The state after a sequence of calls and the notices given along the way. */
  function Run(s: Snapshot, calls: seq<Call>): (r: (Snapshot, seq<Notice>))
    requires Idle(s)
    ensures Idle(r.0) && |r.1| == |calls|
    decreases |calls|
  {
    if calls == [] then (s, [])
    else
      var first := Apply(s, calls[0]);
      StepsKeepIdle(s, if calls[0].InsertMoney? then calls[0].amt else 0,
                       if calls[0].SelectProduct? then calls[0].rackNo else 0);
      var rest := Run(first.after, calls[1..]);
      (rest.0, [first.notice] + rest.1)
  }

  function Inserted(calls: seq<Call>): int {
    if calls == [] then 0
    else (if calls[0].InsertMoney? then calls[0].amt else 0) + Inserted(calls[1..])
  }

  /** Money handed back for one notice: a refund, or the price kept plus the change returned. */
  function PaidOut(n: Notice): int {
    match n
    case Refunded(a, _) => a
    case Dispensed(p, change) => p.price + (if change.Some? then change.value else 0)
    case _ => 0
  }

  function TotalPaidOut(ns: seq<Notice>): int {
    if ns == [] then 0 else PaidOut(ns[0]) + TotalPaidOut(ns[1..])
  }

  /**
   * Every cent is accounted for: what was held at the start plus everything
   * inserted equals what is still held plus every refund, every price kept
   * and every change returned.
   */
  lemma {:induction false} MoneyIsConserved(s: Snapshot, calls: seq<Call>)
    requires Idle(s)
    ensures s.amount + Inserted(calls) == Run(s, calls).0.amount + TotalPaidOut(Run(s, calls).1)
    decreases |calls|
  {
    if calls != [] {
      var first := Apply(s, calls[0]);
      StepsKeepIdle(s, if calls[0].InsertMoney? then calls[0].amt else 0,
                       if calls[0].SelectProduct? then calls[0].rackNo else 0);
      MoneyIsConserved(first.after, calls[1..]);
      var rest := Run(first.after, calls[1..]);
      assert Run(s, calls).1 == [first.notice] + rest.1;
      assert TotalPaidOut([first.notice] + rest.1) == PaidOut(first.notice) + TotalPaidOut(rest.1);
      match calls[0]
      case InsertMoney(a) =>
      case SelectProduct(n) =>
        if s.state == MoneyInserted {
          SelectionOutcomes(s, n);
        }
    }
  }

  function Insertions(amts: seq<int>): seq<Call> {
    if amts == [] then [] else [InsertMoney(amts[0])] + Insertions(amts[1..])
  }

  function Sum(xs: seq<int>): int {
    if xs == [] then 0 else xs[0] + Sum(xs[1..])
  }

  /** Repeated insertions add up: the amount grows by their sum and the stock is untouched. */
  lemma {:induction false} InsertionsAddUp(s: Snapshot, amts: seq<int>)
    requires Idle(s)
    ensures Run(s, Insertions(amts)).0.amount == s.amount + Sum(amts)
    ensures Run(s, Insertions(amts)).0.stock == s.stock
    ensures amts != [] ==> Run(s, Insertions(amts)).0.state == MoneyInserted
    ensures amts == [] ==> Run(s, Insertions(amts)).0 == s
    decreases |amts|
  {
    if amts != [] {
      var next := InsertMoneyStep(s, amts[0]).after;
      StepsKeepIdle(s, amts[0], 0);
      InsertionsAddUp(next, amts[1..]);
      assert Insertions(amts) == [InsertMoney(amts[0])] + Insertions(amts[1..]);
      assert Insertions(amts)[1..] == Insertions(amts[1..]);
    }
  }

  // ---------------------------------------------------------------------------
  // The objects

  class Rack {
    const rackNumber: int
    var product: Option<Product>
    var quantity: int

    /** A rack that was never loaded holds nothing. */
    ghost predicate Valid()
      reads this
    {
      product.None? ==> quantity == 0
    }

    constructor (rackNumber: int)
      ensures this.rackNumber == rackNumber && product == None && quantity == 0
      ensures Valid() && IsEmpty()
    {
      this.rackNumber := rackNumber;
      product := None;
      quantity := 0;
    }

    predicate IsEmpty()
      reads this
    {
      quantity <= 0
    }

    function PeekProduct(): Option<Product>
      reads this
    {
      product
    }

    /** Binds `p` as the rack's product and adds `qty` (of any sign) to the count. */
    method LoadProduct(p: Product, qty: int)
      modifies this
      ensures product == Some(p) && quantity == old(quantity) + qty
      ensures Valid()
    {
      product := Some(p);
      quantity := quantity + qty;
    }

    /** Takes one unit out when there is one; otherwise does nothing. */
    method DispenseOne()
      requires Valid()
      modifies this
      ensures Valid() && product == old(product)
      ensures old(quantity) > 0 ==> quantity == old(quantity) - 1
      ensures old(quantity) <= 0 ==> quantity == old(quantity)
    {
      if quantity > 0 {
        quantity := quantity - 1;
      }
    }
  }

  /** Racks keyed by rack number. */
  class Inventory {
    var racks: map<int, Rack>

    /** Every rack is stored under its own number and keeps its own invariant. */
    ghost predicate Valid()
      reads this, racks.Values
    {
      KeyedByNumber() && forall n :: n in racks ==> racks[n].Valid()
    }

    predicate KeyedByNumber()
      reads this
    {
      forall n :: n in racks ==> racks[n].rackNumber == n
    }

    function Stock(): (stock: map<int, Slot>)
      reads this, racks.Values
      ensures stock.Keys == racks.Keys
    {
      map n | n in racks :: Slot(racks[n].product, racks[n].quantity)
    }

    constructor ()
      ensures racks == map[] && Valid()
    {
      racks := map[];
    }

    /** Stores `r` under its number, replacing whatever rack was stored there. */
    method AddRack(r: Rack)
      requires Valid() && r.Valid()
      modifies this
      ensures Valid()
      ensures racks == old(racks)[r.rackNumber := r]
      ensures GetRack(r.rackNumber) == r
      ensures forall n :: n != r.rackNumber ==> GetRack(n) == old(GetRack(n))
    {
      racks := racks[r.rackNumber := r];
    }

    function GetRack(n: int): (r: Rack?)
      reads this
      ensures r == null <==> n !in racks
      ensures r != null ==> r == racks[n]
      ensures r != null && KeyedByNumber() ==> r.rackNumber == n
    {
      if n in racks then racks[n] else null
    }

    /** Every stored rack, one for each rack number that has been added. */
    function AllRacks(): (rs: set<Rack>)
      reads this
      ensures forall n | n in racks :: racks[n] in rs
      ensures forall r | r in rs :: exists n :: n in racks && racks[n] == r
      ensures KeyedByNumber() ==> forall r | r in rs :: r.rackNumber in racks && racks[r.rackNumber] == r
    {
      set n | n in racks :: racks[n]
    }
  }

  class Machine {
    var state: StateTag
    var currentAmount: int
    var selectedRack: int
    const inventory: Inventory

    ghost predicate Valid()
      reads this, inventory, inventory.racks.Values
    {
      inventory.Valid()
    }

    function Snap(): Snapshot
      reads this, inventory, inventory.racks.Values
    {
      Snapshot(state, currentAmount, selectedRack, inventory.Stock())
    }

    lemma ValidStock()
      requires Valid()
      ensures WellStocked(Snap().stock)
    {
    }

    constructor ()
      ensures Valid() && fresh(inventory)
      ensures Snap() == Snapshot(NoMoney, 0, -1, map[])
      ensures Idle(Snap())
    {
      state := NoMoney;
      currentAmount := 0;
      selectedRack := -1;
      inventory := new Inventory();
    }

    method AddToCurrentAmount(amt: int)
      modifies this
      ensures currentAmount == old(currentAmount) + amt
      ensures state == old(state) && selectedRack == old(selectedRack)
    {
      currentAmount := currentAmount + amt;
    }

    method InsertMoney(amt: int) returns (notice: Notice)
      requires Valid()
      modifies this
      ensures Valid()
      ensures Reply(Snap(), notice) == InsertMoneyStep(old(Snap()), amt)
    {
      match state
      case NoMoney => notice := NoMoneyInsertMoney(this, amt);
      case MoneyInserted => notice := MoneyInsertedInsertMoney(this, amt);
      case Dispense => notice := DispenseInsertMoney(this, amt);
    }

    method SelectProduct(rackNo: int) returns (notice: Notice)
      requires Valid()
      modifies this, inventory.racks.Values
      ensures Valid() && inventory.racks == old(inventory.racks)
      ensures WellStocked(old(Snap()).stock)
      ensures Reply(Snap(), notice) == SelectProductStep(old(Snap()), rackNo)
    {
      ValidStock();
      match state
      case NoMoney => notice := NoMoneySelectProduct(this, rackNo);
      case MoneyInserted => notice := MoneyInsertedSelectProduct(this, rackNo);
      case Dispense => notice := DispenseSelectProduct(this, rackNo);
    }

    /**
     * Hands out one unit from the selected rack, reports the change and ends
     * the session.  The selected rack must exist and have been loaded: the
     * Java code dereferences both without a check.
     */
    method DispenseProduct() returns (notice: Notice)
      requires Valid()
      requires selectedRack in inventory.racks && inventory.racks[selectedRack].product.Some?
      modifies this, inventory.racks.Values
      ensures Valid() && inventory.racks == old(inventory.racks)
      ensures Reply(Snap(), notice) == DispenseStep(old(Snap()))
    {
      var rack := inventory.GetRack(selectedRack);
      var p := rack.PeekProduct().value;
      ghost var before := inventory.Stock();
      rack.DispenseOne();
      assert inventory.Stock() == before[selectedRack := Decremented(before[selectedRack])] by {
        forall n | n in inventory.racks && n != selectedRack
          ensures inventory.Stock()[n] == before[n]
        {
          assert inventory.racks[n] != rack;
        }
      }
      var change := currentAmount - p.price;
      notice := Dispensed(p, if change > 0 then Some(change) else None);
      Reset();
    }

    /** Gives back the whole amount held and ends the session; no rack changes. */
    method Refund(why: RefundReason) returns (notice: Notice)
      modifies this
      ensures notice == Refunded(old(currentAmount), why)
      ensures Snap() == ResetSession(old(Snap()))
    {
      notice := Refunded(currentAmount, why);
      Reset();
    }

    method Reset()
      modifies this
      ensures Snap() == ResetSession(old(Snap()))
    {
      currentAmount := 0;
      selectedRack := -1;
      state := NoMoney;
    }

    method AddRack(r: Rack)
      requires Valid() && r.Valid()
      modifies inventory
      ensures Valid()
      ensures Snap() == old(Snap()).(stock := old(Snap().stock)[r.rackNumber := Slot(r.product, r.quantity)])
    {
      inventory.AddRack(r);
    }

    /** Loads `qty` units of `p` into rack `rackNo`; an unknown rack number changes nothing. */
    method LoadProduct(rackNo: int, p: Product, qty: int) returns (loaded: bool)
      requires Valid()
      modifies inventory.racks.Values
      ensures Valid() && inventory.racks == old(inventory.racks)
      ensures loaded <==> rackNo in inventory.racks
      ensures loaded ==> Snap() == old(Snap()).(stock := old(Snap().stock)[rackNo := Slot(Some(p), old(Snap().stock)[rackNo].quantity + qty)])
      ensures !loaded ==> Snap() == old(Snap())
    {
      var r := inventory.GetRack(rackNo);
      if r == null {
        return false;
      }
      ghost var before := inventory.Stock();
      r.LoadProduct(p, qty);
      assert inventory.Stock() == before[rackNo := Slot(Some(p), before[rackNo].quantity + qty)] by {
        forall n | n in inventory.racks && n != rackNo
          ensures inventory.Stock()[n] == before[n]
        {
          assert inventory.racks[n] != r;
        }
      }
      loaded := true;
    }
  }

  // ---------------------------------------------------------------------------
  // The three states' handlers

  method NoMoneyInsertMoney(m: Machine, amt: int) returns (notice: Notice)
    modifies m
    ensures m.Snap() == old(m.Snap()).(amount := old(m.currentAmount) + amt, state := MoneyInserted)
    ensures notice == MoneyAccepted(m.currentAmount)
  {
    m.AddToCurrentAmount(amt);
    notice := MoneyAccepted(m.currentAmount);
    m.state := MoneyInserted;
  }

  method NoMoneySelectProduct(m: Machine, rackNo: int) returns (notice: Notice)
    ensures notice == InsertMoneyFirst
  {
    notice := InsertMoneyFirst;
  }

  method MoneyInsertedInsertMoney(m: Machine, amt: int) returns (notice: Notice)
    modifies m
    ensures m.Snap() == old(m.Snap()).(amount := old(m.currentAmount) + amt)
    ensures notice == MoneyAccepted(m.currentAmount)
  {
    m.AddToCurrentAmount(amt);
    notice := MoneyAccepted(m.currentAmount);
  }

  method MoneyInsertedSelectProduct(m: Machine, rackNo: int) returns (notice: Notice)
    requires m.Valid() && m.state == MoneyInserted
    modifies m, m.inventory.racks.Values
    ensures m.Valid() && m.inventory.racks == old(m.inventory.racks)
    ensures WellStocked(old(m.Snap()).stock)
    ensures Reply(m.Snap(), notice) == SelectProductStep(old(m.Snap()), rackNo)
  {
    m.ValidStock();
    var rack := m.inventory.GetRack(rackNo);
    if rack == null || rack.IsEmpty() {
      notice := m.Refund(RackUnavailable);
      return;
    }
    var p := rack.PeekProduct().value;
    var price := p.price;
    var paid := m.currentAmount;
    if paid < price {
      notice := m.Refund(InsufficientFunds);
      return;
    }
    m.selectedRack := rackNo;
    m.state := Dispense;
    notice := m.DispenseProduct();
  }

  method DispenseInsertMoney(m: Machine, amt: int) returns (notice: Notice)
    ensures notice == Busy
  {
    notice := Busy;
  }

  method DispenseSelectProduct(m: Machine, rackNo: int) returns (notice: Notice)
    ensures notice == Busy
  {
    notice := Busy;
  }
}
