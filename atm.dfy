/**
 * The ATM: a cash dispenser that splits an amount greedily into $100, $50
 * and $10 bills, bank accounts with strictly guarded withdrawals and
 * transfers, and the session state machine
 * Idle -> HasCard -> SelectionOption -> operation -> SelectionOption.
 *
 * Account balances, withdrawal limits and requested amounts are integer
 * cents; the ATM's own cash balance and bill counts are whole dollars and
 * whole bills, as in the Java code.
 */
module ATMDesign {
  import opened Optional

  // ---------------------------------------------------------------------------
  // Bills and the greedy split

  datatype Bills = Bills(hundreds: int, fifties: int, tens: int)

  function Total(b: Bills): int {
    100 * b.hundreds + 50 * b.fifties + 10 * b.tens
  }

  predicate NonNegative(b: Bills) {
    b.hundreds >= 0 && b.fifties >= 0 && b.tens >= 0
  }

  function Minus(a: Bills, b: Bills): Bills {
    Bills(a.hundreds - b.hundreds, a.fifties - b.fifties, a.tens - b.tens)
  }

  function Min(a: int, b: int): int {
    if a <= b then a else b
  }

  /**
   * Largest bills first: as many hundreds as fit and are available, then
   * fifties on what is left, then tens.  Never hands out more than `amount`.
   */
  function GreedySplit(amount: nat, avail: Bills): (b: Bills)
    ensures Total(b) <= amount
    ensures NonNegative(avail) ==> NonNegative(b)
    ensures b.hundreds <= avail.hundreds && b.fifties <= avail.fifties && b.tens <= avail.tens
    ensures (amount - Total(b)) % 10 == amount % 10
  {
    var h := Min(amount / 100, avail.hundreds);
    var left1 := amount - 100 * h;
    TensOff(amount, 10 * h);
    var f := Min(left1 / 50, avail.fifties);
    var left2 := left1 - 50 * f;
    TensOff(left1, 5 * f);
    var t := Min(left2 / 10, avail.tens);
    TensOff(left2, t);
    assert amount - Total(Bills(h, f, t)) == left2 - 10 * t;
    Bills(h, f, t)
  }

  /** Taking whole tens off a number keeps its last digit. */
  lemma TensOff(x: int, k: int)
    ensures (x - 10 * k) % 10 == x % 10
  {
  }

  /**
   * The bills `dispenseCash` hands out for `amount` dollars, or None when it
   * refuses: the amount is not positive, exceeds the ATM's balance, or the
   * greedy split leaves a remainder.
   */
  function DispenseOutcome(amount: int, atmBalance: int, avail: Bills): (r: Option<Bills>)
    ensures r.Some? ==> 0 < amount <= atmBalance && Total(r.value) == amount
    ensures r.Some? && NonNegative(avail) ==> NonNegative(r.value) && NonNegative(Minus(avail, r.value))
  {
    if amount > 0 && amount <= atmBalance then
      var b := GreedySplit(amount, avail);
      if amount - Total(b) == 0 then Some(b) else None
    else None
  }

  /** An amount that is not a multiple of ten dollars is never paid out. */
  lemma NonMultipleOfTenRefused(amount: int, atmBalance: int, avail: Bills)
    requires amount % 10 != 0
    ensures DispenseOutcome(amount, atmBalance, avail) == None
  {
    if amount > 0 && amount <= atmBalance {
      var b := GreedySplit(amount, avail);
      assert (amount - Total(b)) % 10 != 0;
    }
  }

  /**
   * With enough ten-dollar bills, every positive multiple of ten that the
   * ATM's balance covers is paid out.
   */
  lemma EnoughTensAlwaysPays(amount: int, atmBalance: int, avail: Bills)
    requires 0 < amount <= atmBalance && amount % 10 == 0
    requires NonNegative(avail) && avail.tens >= amount / 10
    ensures DispenseOutcome(amount, atmBalance, avail).Some?
  {
    var h := Min(amount / 100, avail.hundreds);
    var left1 := amount - 100 * h;
    TensOff(amount, 10 * h);
    var f := Min(left1 / 50, avail.fifties);
    var left2 := left1 - 50 * f;
    TensOff(left1, 5 * f);
    assert 0 <= left2 <= amount && left2 % 10 == 0;
    assert left2 == 10 * (left2 / 10);
    assert Min(left2 / 10, avail.tens) == left2 / 10;
    assert GreedySplit(amount, avail) == Bills(h, f, left2 / 10);
  }

  // ---------------------------------------------------------------------------
  // Accounts

  datatype AccountKind = Saving | Current

  /** Withdrawal limits in cents: $1000 for savings, $5000 for current accounts. */
  function LimitOf(kind: AccountKind): int {
    match kind
    case Saving => 100000
    case Current => 500000
  }

  /** The guard shared by `withdraw` and `transfer`; every comparison is strict. */
  predicate CanWithdraw(balance: int, amount: int, limit: int) {
    amount > 0 && balance > amount && amount < limit
  }

  /** Whatever passes the guard leaves a strictly positive balance behind. */
  lemma WithdrawLeavesPositive(balance: int, amount: int, limit: int)
    requires CanWithdraw(balance, amount, limit)
    ensures balance - amount > 0 && balance - amount < balance
  {
  }

  class BankAccount {
    const accountNumber: int
    const kind: AccountKind
    var availableBalance: int

    constructor (accountNumber: int, kind: AccountKind, availableBalance: int)
      ensures this.accountNumber == accountNumber && this.kind == kind
      ensures this.availableBalance == availableBalance
    {
      this.accountNumber := accountNumber;
      this.kind := kind;
      this.availableBalance := availableBalance;
    }

    function WithdrawalLimit(): int {
      LimitOf(kind)
    }

    method Withdraw(amount: int) returns (ok: bool)
      modifies this
      ensures ok <==> CanWithdraw(old(availableBalance), amount, WithdrawalLimit())
      ensures ok ==> availableBalance == old(availableBalance) - amount && availableBalance > 0
      ensures !ok ==> availableBalance == old(availableBalance)
    {
      if amount > 0 && availableBalance > amount && amount < WithdrawalLimit() {
        availableBalance := availableBalance - amount;
        return true;
      }
      return false;
    }

    /**
     * Moves `amount` from this account to `to` under the withdrawal guard.
     * The sum of the two balances never changes, and a transfer to the
     * same account leaves it as it was.
     */
    method Transfer(to: BankAccount, amount: int) returns (ok: bool)
      modifies this, to
      ensures ok <==> CanWithdraw(old(availableBalance), amount, WithdrawalLimit())
      ensures to != this ==>
        && availableBalance == old(availableBalance) - (if ok then amount else 0)
        && to.availableBalance == old(to.availableBalance) + (if ok then amount else 0)
      ensures to != this ==> availableBalance + to.availableBalance == old(availableBalance) + old(to.availableBalance)
      ensures to == this ==> availableBalance == old(availableBalance)
      ensures !ok ==> unchanged(this) && unchanged(to)
    {
      if amount > 0 && availableBalance > amount && amount < WithdrawalLimit() {
        availableBalance := availableBalance - amount;
        to.availableBalance := to.availableBalance + amount;
        return true;
      }
      return false;
    }
  }

  class ATMCard {
    const cardNumber: string
    const customerName: string
    const cardExpiryDate: string
    var pin: int

    constructor (cardNumber: string, customerName: string, expiry: string, pin: int)
      ensures this.cardNumber == cardNumber && this.customerName == customerName
      ensures cardExpiryDate == expiry && this.pin == pin
      ensures ValidatePin(pin)
    {
      this.cardNumber := cardNumber;
      this.customerName := customerName;
      this.cardExpiryDate := expiry;
      this.pin := pin;
    }

    predicate ValidatePin(p: int)
      reads this
    {
      pin == p
    }

    /** After the change exactly the new PIN is accepted. */
    method SetPin(p: int)
      modifies this
      ensures forall q :: ValidatePin(q) <==> q == p
    {
      pin := p;
    }
  }

  class User {
    const atmCard: ATMCard
    const bankAccount: BankAccount

    constructor (atmCard: ATMCard, bankAccount: BankAccount)
      ensures this.atmCard == atmCard && this.bankAccount == bankAccount
    {
      this.atmCard := atmCard;
      this.bankAccount := bankAccount;
    }
  }

  // ---------------------------------------------------------------------------
  // The session

  datatype ATMStatus = Idle | HasCard | SelectionOption | Withdraw | TransferMoney | BalanceInquiry | ChangePin

  /** Which state object the ATM currently holds. */
  datatype ATMState =
    | IdleState | HasCardState | SelectionOptionState
    | CashWithdrawalState | TransferMoneyState | BalanceInquiryState | ChangePinState

  datatype TransactionType = BalanceInquiryOp | CashWithdrawalOp | FundsTransferOp | ChangePINOp | CancelOp

  /** The status tag that belongs with each state object. */
  function StatusOf(s: ATMState): ATMStatus {
    match s
    case IdleState => Idle
    case HasCardState => HasCard
    case SelectionOptionState => SelectionOption
    case CashWithdrawalState => Withdraw
    case TransferMoneyState => TransferMoney
    case BalanceInquiryState => BalanceInquiry
    case ChangePinState => ChangePin
  }

  /** Status tags and state objects correspond one to one. */
  lemma StatusOfInjective(a: ATMState, b: ATMState)
    ensures StatusOf(a) == StatusOf(b) <==> a == b
  {
  }

  class ATM {
    var currentATMState: ATMState
    var atmStatus: ATMStatus
    var atmBalance: int
    var noOfHundredDollarBills: int
    var noOfFiftyDollarBills: int
    var noOfTenDollarBills: int
    var activeUser: User?
    var insertedCard: ATMCard?
    var authenticated: bool
    const cashDispenser: CashDispenser

    /** The status tag agrees with the state object. */
    predicate Consistent()
      reads this
    {
      atmStatus == StatusOf(currentATMState)
    }

    function BillCounts(): Bills
      reads this
    {
      Bills(noOfHundredDollarBills, noOfFiftyDollarBills, noOfTenDollarBills)
    }

    constructor ()
      ensures currentATMState == IdleState && atmStatus == Idle && Consistent()
      ensures atmBalance == 0 && BillCounts() == Bills(0, 0, 0)
      ensures activeUser == null && insertedCard == null && !authenticated
    {
      currentATMState := IdleState;
      atmStatus := Idle;
      atmBalance := 0;
      noOfHundredDollarBills := 0;
      noOfFiftyDollarBills := 0;
      noOfTenDollarBills := 0;
      activeUser := null;
      insertedCard := null;
      authenticated := false;
      cashDispenser := new CashDispenser();
    }

    /** Loads the cash and starts over in Idle with no session. */
    method InitializeATM(balance: int, hundreds: int, fifties: int, tens: int)
      modifies this
      ensures atmBalance == balance && BillCounts() == Bills(hundreds, fifties, tens)
      ensures currentATMState == IdleState && atmStatus == Idle && Consistent()
      ensures activeUser == null && insertedCard == null && !authenticated
    {
      atmBalance := balance;
      noOfHundredDollarBills := hundreds;
      noOfFiftyDollarBills := fifties;
      noOfTenDollarBills := tens;
      atmStatus := Idle;
      currentATMState := IdleState;
      activeUser := null;
      insertedCard := null;
      authenticated := false;
    }

    method SetActiveUser(u: User?)
      modifies this
      ensures activeUser == u
      ensures currentATMState == old(currentATMState) && atmStatus == old(atmStatus)
      ensures insertedCard == old(insertedCard) && authenticated == old(authenticated)
      ensures atmBalance == old(atmBalance) && BillCounts() == old(BillCounts())
    {
      activeUser := u;
    }

    // The operations below are what a caller reaches through the current
    // state object: the state that overrides an operation runs its handler,
    // every other state inherits an operation that does nothing.

    method InsertCard(card: ATMCard, readOk: bool)
      modifies this
      ensures old(currentATMState) == IdleState && readOk ==>
        insertedCard == card && atmStatus == HasCard && currentATMState == HasCardState
      ensures !(old(currentATMState) == IdleState && readOk) ==> unchanged(this)
      ensures authenticated == old(authenticated) && activeUser == old(activeUser)
      ensures atmBalance == old(atmBalance) && BillCounts() == old(BillCounts())
    {
      if currentATMState == IdleState {
        IdleInsertCard(this, card, readOk);
      }
    }

    method AuthenticatePin(card: ATMCard, pin: int)
      modifies this
      ensures old(currentATMState) == HasCardState && card.ValidatePin(pin) ==>
        authenticated && atmStatus == SelectionOption && currentATMState == SelectionOptionState
      ensures !(old(currentATMState) == HasCardState && card.ValidatePin(pin)) ==> unchanged(this)
      ensures insertedCard == old(insertedCard) && activeUser == old(activeUser)
      ensures atmBalance == old(atmBalance) && BillCounts() == old(BillCounts())
    {
      if currentATMState == HasCardState {
        HasCardAuthenticatePin(this, card, pin);
      }
    }

    method ReturnCard()
      modifies this
      ensures old(currentATMState) == HasCardState ==>
        insertedCard == null && !authenticated && atmStatus == Idle && currentATMState == IdleState
      ensures old(currentATMState) != HasCardState ==> unchanged(this)
      ensures activeUser == old(activeUser)
      ensures atmBalance == old(atmBalance) && BillCounts() == old(BillCounts())
    {
      if currentATMState == HasCardState {
        HasCardReturnCard(this);
      }
    }

    method SelectOperation(t: TransactionType)
      modifies this
      ensures old(currentATMState) == SelectionOptionState && t != CancelOp ==>
        currentATMState == OperationState(t) && Consistent()
      ensures old(currentATMState) != SelectionOptionState || t == CancelOp ==> unchanged(this)
      ensures insertedCard == old(insertedCard) && authenticated == old(authenticated)
      ensures activeUser == old(activeUser)
      ensures atmBalance == old(atmBalance) && BillCounts() == old(BillCounts())
    {
      if currentATMState == SelectionOptionState {
        SelectionOptionSelectOperation(this, t);
      }
    }

    method CashWithdrawal(card: ATMCard, amount: int)
      requires currentATMState == CashWithdrawalState ==> activeUser != null
      modifies this, if activeUser == null then {} else {activeUser.bankAccount}
      ensures activeUser == old(activeUser) && insertedCard == old(insertedCard) && authenticated == old(authenticated)
      ensures old(currentATMState) == CashWithdrawalState ==>
        var r := WithdrawalAsWritten(old(activeUser.bankAccount.availableBalance),
                                     activeUser.bankAccount.WithdrawalLimit(),
                                     old(atmBalance), old(BillCounts()), amount);
        && activeUser.bankAccount.availableBalance == r.balance
        && atmBalance == r.atmBalance && BillCounts() == r.bills
        && atmStatus == SelectionOption && currentATMState == SelectionOptionState
      ensures old(currentATMState) != CashWithdrawalState ==> unchanged(this) && (activeUser != null ==> unchanged(activeUser.bankAccount))
    {
      if currentATMState == CashWithdrawalState {
        CashWithdrawalWithdraw(this, card, amount);
      }
    }

    method TransferMoney(card: ATMCard, to: BankAccount, amount: int) returns (ok: bool)
      requires currentATMState == TransferMoneyState ==> activeUser != null
      modifies this, to, if activeUser == null then {} else {activeUser.bankAccount}
      ensures activeUser == old(activeUser) && insertedCard == old(insertedCard) && authenticated == old(authenticated)
      ensures old(currentATMState) == TransferMoneyState ==>
        && atmStatus == SelectionOption && currentATMState == SelectionOptionState
        && (ok <==> old(activeUser.bankAccount.availableBalance) >= amount
                    && CanWithdraw(old(activeUser.bankAccount.availableBalance), amount, activeUser.bankAccount.WithdrawalLimit()))
      ensures old(currentATMState) == TransferMoneyState && to != activeUser.bankAccount ==>
        && activeUser.bankAccount.availableBalance == old(activeUser.bankAccount.availableBalance) - (if ok then amount else 0)
        && to.availableBalance == old(to.availableBalance) + (if ok then amount else 0)
      ensures old(currentATMState) == TransferMoneyState && to != activeUser.bankAccount ==>
        activeUser.bankAccount.availableBalance + to.availableBalance
          == old(activeUser.bankAccount.availableBalance) + old(to.availableBalance)
      ensures old(currentATMState) == TransferMoneyState && to == activeUser.bankAccount ==>
        activeUser.bankAccount.availableBalance == old(activeUser.bankAccount.availableBalance)
      ensures !ok ==> unchanged(to) && (activeUser != null ==> unchanged(activeUser.bankAccount))
      ensures old(currentATMState) != TransferMoneyState ==> !ok && unchanged(this)
      ensures atmBalance == old(atmBalance) && BillCounts() == old(BillCounts())
    {
      ok := false;
      if currentATMState == TransferMoneyState {
        ok := TransferMoneyTransfer(this, card, to, amount);
      }
    }

    method ChangePin(card: ATMCard, newPin: int)
      modifies this, card
      ensures activeUser == old(activeUser) && insertedCard == old(insertedCard) && authenticated == old(authenticated)
      ensures old(currentATMState) == ChangePinState ==>
        (forall q :: card.ValidatePin(q) <==> q == newPin)
        && atmStatus == SelectionOption && currentATMState == SelectionOptionState
      ensures old(currentATMState) != ChangePinState ==> unchanged(this) && unchanged(card)
      ensures atmBalance == old(atmBalance) && BillCounts() == old(BillCounts())
    {
      if currentATMState == ChangePinState {
        ChangePinChangePin(this, card, newPin);
      }
    }

    method DisplayBalance(card: ATMCard) returns (shown: Option<int>)
      requires currentATMState == BalanceInquiryState ==> activeUser != null
      modifies this
      ensures activeUser == old(activeUser) && insertedCard == old(insertedCard) && authenticated == old(authenticated)
      ensures old(currentATMState) == BalanceInquiryState ==>
        shown == Some(activeUser.bankAccount.availableBalance)
        && atmStatus == SelectionOption && currentATMState == SelectionOptionState
      ensures old(currentATMState) != BalanceInquiryState ==> shown == None && unchanged(this)
      ensures atmBalance == old(atmBalance) && BillCounts() == old(BillCounts())
    {
      shown := None;
      if currentATMState == BalanceInquiryState {
        var b := BalanceInquiryDisplayBalance(this, card);
        shown := Some(b);
      }
    }
  }

  /** The state object an operation choice leads to. */
  function OperationState(t: TransactionType): ATMState
    requires t != CancelOp
  {
    match t
    case BalanceInquiryOp => BalanceInquiryState
    case CashWithdrawalOp => CashWithdrawalState
    case FundsTransferOp => TransferMoneyState
    case ChangePINOp => ChangePinState
  }

  class CashDispenser {
    constructor ()
    {
    }

    /**
     * Pays out `amount` dollars when the greedy split covers it exactly;
     * otherwise neither the bill counts nor the ATM's balance change.
     */
    method DispenseCash(amount: int, atm: ATM) returns (ok: bool)
      modifies atm
      ensures atm.activeUser == old(atm.activeUser) && atm.insertedCard == old(atm.insertedCard)
      ensures var r := DispenseOutcome(amount, old(atm.atmBalance), old(atm.BillCounts()));
        && (ok <==> r.Some?)
        && (ok ==> atm.BillCounts() == Minus(old(atm.BillCounts()), r.value) && atm.atmBalance == old(atm.atmBalance) - amount)
        && (!ok ==> atm.BillCounts() == old(atm.BillCounts()) && atm.atmBalance == old(atm.atmBalance))
      ensures atm.currentATMState == old(atm.currentATMState) && atm.atmStatus == old(atm.atmStatus)
      ensures atm.authenticated == old(atm.authenticated)
    {
      if amount > 0 && amount <= atm.atmBalance {
        var left := amount;
        var hundreds := Min(left / 100, atm.noOfHundredDollarBills);
        left := left - hundreds * 100;
        var fifties := Min(left / 50, atm.noOfFiftyDollarBills);
        left := left - fifties * 50;
        var tens := Min(left / 10, atm.noOfTenDollarBills);
        left := left - tens * 10;
        if left == 0 {
          atm.noOfHundredDollarBills := atm.noOfHundredDollarBills - hundreds;
          atm.noOfFiftyDollarBills := atm.noOfFiftyDollarBills - fifties;
          atm.noOfTenDollarBills := atm.noOfTenDollarBills - tens;
          atm.atmBalance := atm.atmBalance - amount;
          return true;
        }
      }
      return false;
    }
  }

  // ---------------------------------------------------------------------------
  // The state handlers

  method IdleInsertCard(atm: ATM, card: ATMCard, readOk: bool)
    modifies atm
    ensures readOk ==> atm.insertedCard == card && atm.atmStatus == HasCard && atm.currentATMState == HasCardState
    ensures !readOk ==> unchanged(atm)
    ensures atm.authenticated == old(atm.authenticated) && atm.activeUser == old(atm.activeUser)
    ensures atm.atmBalance == old(atm.atmBalance) && atm.BillCounts() == old(atm.BillCounts())
  {
    if readOk {
      atm.insertedCard := card;
      atm.atmStatus := HasCard;
      atm.currentATMState := HasCardState;
    }
  }

  method HasCardAuthenticatePin(atm: ATM, card: ATMCard, pin: int)
    modifies atm
    ensures card.ValidatePin(pin) ==>
      atm.authenticated && atm.atmStatus == SelectionOption && atm.currentATMState == SelectionOptionState
    ensures !card.ValidatePin(pin) ==> unchanged(atm)
    ensures atm.insertedCard == old(atm.insertedCard) && atm.activeUser == old(atm.activeUser)
    ensures atm.atmBalance == old(atm.atmBalance) && atm.BillCounts() == old(atm.BillCounts())
  {
    if card.ValidatePin(pin) {
      atm.authenticated := true;
      atm.atmStatus := SelectionOption;
      atm.currentATMState := SelectionOptionState;
    }
  }

  method HasCardReturnCard(atm: ATM)
    modifies atm
    ensures atm.insertedCard == null && !atm.authenticated
    ensures atm.atmStatus == Idle && atm.currentATMState == IdleState
    ensures atm.activeUser == old(atm.activeUser)
    ensures atm.atmBalance == old(atm.atmBalance) && atm.BillCounts() == old(atm.BillCounts())
  {
    atm.insertedCard := null;
    atm.authenticated := false;
    atm.atmStatus := Idle;
    atm.currentATMState := IdleState;
  }

  /**
   * Moves to the chosen operation.  Cancel asks the current state, which is
   * the selection state, to return the card; that state inherits a
   * `returnCard` that does nothing, so Cancel changes nothing.
   */
  method SelectionOptionSelectOperation(atm: ATM, t: TransactionType)
    modifies atm
    ensures t != CancelOp ==> atm.currentATMState == OperationState(t) && atm.Consistent()
    ensures t == CancelOp ==> unchanged(atm)
    ensures atm.insertedCard == old(atm.insertedCard) && atm.authenticated == old(atm.authenticated)
    ensures atm.activeUser == old(atm.activeUser)
    ensures atm.atmBalance == old(atm.atmBalance) && atm.BillCounts() == old(atm.BillCounts())
  {
    match t
    case BalanceInquiryOp =>
      atm.atmStatus := BalanceInquiry;
      atm.currentATMState := BalanceInquiryState;
    case CashWithdrawalOp =>
      atm.atmStatus := Withdraw;
      atm.currentATMState := CashWithdrawalState;
    case FundsTransferOp =>
      atm.atmStatus := TransferMoney;
      atm.currentATMState := TransferMoneyState;
    case ChangePINOp =>
      atm.atmStatus := ChangePin;
      atm.currentATMState := ChangePinState;
    case CancelOp =>
  }

  /** What a withdrawal does to the account balance (cents) and to the ATM's cash (dollars and bills). */
  datatype WithdrawalResult = WithdrawalResult(balance: int, atmBalance: int, bills: Bills)

  /** Java's `(int)` cast of a cent amount to whole dollars: truncation toward zero. */
  function TruncToDollars(cents: int): int {
    if cents >= 0 then cents / 100 else -((-cents) / 100)
  }

  /**
   * The withdrawal handler as the Java code writes it: the request passes
   * when it is at most the balance, the limit and the ATM's cash; the cash
   * paid out is the amount truncated to whole dollars; the account is then
   * debited the full amount only if `withdraw`'s strict test also passes.
   */
  function WithdrawalAsWritten(balance: int, limit: int, atmBalance: int, bills: Bills, amount: int): (r: WithdrawalResult)
    ensures r.balance == balance || r.balance == balance - amount
    ensures r.atmBalance <= atmBalance || amount <= 0
    ensures !(amount <= balance && amount <= limit && amount <= atmBalance * 100) ==>
              r == WithdrawalResult(balance, atmBalance, bills)
    ensures DispenseOutcome(TruncToDollars(amount), atmBalance, bills).None? ==>
              r == WithdrawalResult(balance, atmBalance, bills)
    ensures r.atmBalance != atmBalance ==> r.atmBalance == atmBalance - TruncToDollars(amount)
    ensures r.balance != balance ==>
              CanWithdraw(balance, amount, limit) && r.atmBalance == atmBalance - TruncToDollars(amount)
  {
    if amount <= balance && amount <= limit && amount <= atmBalance * 100 then
      var dollars := TruncToDollars(amount);
      match DispenseOutcome(dollars, atmBalance, bills)
      case Some(paid) =>
        var newBalance := if CanWithdraw(balance, amount, limit) then balance - amount else balance;
        WithdrawalResult(newBalance, atmBalance - dollars, Minus(bills, paid))
      case None => WithdrawalResult(balance, atmBalance, bills)
    else WithdrawalResult(balance, atmBalance, bills)
  }

  /**
   * Withdrawing the whole balance, or exactly the limit, passes the
   * handler's test but not `withdraw`'s: the cash leaves the ATM and the
   * account keeps its balance.
   */
  lemma PayoutWithoutDebit(balance: int, limit: int, atmBalance: int, bills: Bills, amount: int)
    requires amount == balance || amount == limit
    requires 0 < amount <= balance && amount <= limit && amount % 100 == 0
    requires DispenseOutcome(amount / 100, atmBalance, bills).Some?
    ensures WithdrawalAsWritten(balance, limit, atmBalance, bills, amount).balance == balance
    ensures WithdrawalAsWritten(balance, limit, atmBalance, bills, amount).atmBalance == atmBalance - amount / 100
  {
  }

  /** A saving account holding $500 asks for $500: $500 is paid out and the balance stays $500. */
  lemma PayoutWithoutDebitExample()
    ensures WithdrawalAsWritten(50000, 100000, 20000, Bills(100, 40, 50), 50000)
      == WithdrawalResult(50000, 19500, Bills(95, 40, 50))
  {
    assert TruncToDollars(50000) == 500;
    assert GreedySplit(500, Bills(100, 40, 50)) == Bills(5, 0, 0);
    assert DispenseOutcome(500, 20000, Bills(100, 40, 50)) == Some(Bills(5, 0, 0));
  }

  /**
   * The withdrawal as evidently intended: the request must pass the same
   * strict test `withdraw` applies and be a whole number of dollars, so that
   * the account is debited exactly what the ATM pays out.
   */
  function WithdrawalCorrected(balance: int, limit: int, atmBalance: int, bills: Bills, amount: int): (r: WithdrawalResult)
    ensures balance - r.balance == (atmBalance - r.atmBalance) * 100
    ensures r.balance != balance ==> CanWithdraw(balance, amount, limit) && r.balance > 0
  {
    if CanWithdraw(balance, amount, limit) && amount % 100 == 0 then
      match DispenseOutcome(amount / 100, atmBalance, bills)
      case Some(paid) => WithdrawalResult(balance - amount, atmBalance - amount / 100, Minus(bills, paid))
      case None => WithdrawalResult(balance, atmBalance, bills)
    else WithdrawalResult(balance, atmBalance, bills)
  }

  /** The corrected withdrawal either pays and debits the same amount, or does neither. */
  lemma CorrectedWithdrawalConserves(balance: int, limit: int, atmBalance: int, bills: Bills, amount: int)
    requires NonNegative(bills)
    ensures var r := WithdrawalCorrected(balance, limit, atmBalance, bills, amount);
      || r == WithdrawalResult(balance, atmBalance, bills)
      || (r.balance == balance - amount && Total(Minus(bills, r.bills)) == amount / 100 && NonNegative(r.bills))
  {
  }

  method CashWithdrawalWithdraw(atm: ATM, card: ATMCard, amount: int)
    requires atm.activeUser != null
    modifies atm, atm.activeUser.bankAccount
    ensures atm.activeUser == old(atm.activeUser) && atm.insertedCard == old(atm.insertedCard)
    ensures var r := WithdrawalAsWritten(old(atm.activeUser.bankAccount.availableBalance),
                                         atm.activeUser.bankAccount.WithdrawalLimit(),
                                         old(atm.atmBalance), old(atm.BillCounts()), amount);
      && atm.activeUser.bankAccount.availableBalance == r.balance
      && atm.atmBalance == r.atmBalance && atm.BillCounts() == r.bills
    ensures atm.atmStatus == SelectionOption && atm.currentATMState == SelectionOptionState
    ensures atm.authenticated == old(atm.authenticated)
  {
    var acc := atm.activeUser.bankAccount;
    var accLimit := acc.WithdrawalLimit();
    if amount <= acc.availableBalance && amount <= accLimit && amount <= atm.atmBalance * 100 {
      var dispensed := atm.cashDispenser.DispenseCash(TruncToDollars(amount), atm);
      if dispensed {
        var _ := acc.Withdraw(amount);
      }
    }
    atm.atmStatus := SelectionOption;
    atm.currentATMState := SelectionOptionState;
  }

  method TransferMoneyTransfer(atm: ATM, card: ATMCard, to: BankAccount, amount: int) returns (ok: bool)
    requires atm.activeUser != null
    modifies atm, atm.activeUser.bankAccount, to
    ensures atm.activeUser == old(atm.activeUser) && atm.insertedCard == old(atm.insertedCard)
    ensures var from := atm.activeUser.bankAccount;
      ok <==> old(from.availableBalance) >= amount && CanWithdraw(old(from.availableBalance), amount, from.WithdrawalLimit())
    ensures var from := atm.activeUser.bankAccount;
      to != from ==>
        && from.availableBalance == old(from.availableBalance) - (if ok then amount else 0)
        && to.availableBalance == old(to.availableBalance) + (if ok then amount else 0)
    ensures var from := atm.activeUser.bankAccount;
      to == from ==> from.availableBalance == old(from.availableBalance)
    ensures !ok ==> unchanged(to) && unchanged(atm.activeUser.bankAccount)
    ensures atm.atmStatus == SelectionOption && atm.currentATMState == SelectionOptionState
    ensures atm.authenticated == old(atm.authenticated)
    ensures atm.atmBalance == old(atm.atmBalance) && atm.BillCounts() == old(atm.BillCounts())
  {
    var fromAcc := atm.activeUser.bankAccount;
    var accLimit := fromAcc.WithdrawalLimit();
    ok := false;
    if amount <= fromAcc.availableBalance && amount <= accLimit {
      ok := fromAcc.Transfer(to, amount);
    }
    atm.atmStatus := SelectionOption;
    atm.currentATMState := SelectionOptionState;
  }

  method ChangePinChangePin(atm: ATM, card: ATMCard, newPin: int)
    modifies atm, card
    ensures atm.activeUser == old(atm.activeUser) && atm.insertedCard == old(atm.insertedCard)
    ensures forall q :: card.ValidatePin(q) <==> q == newPin
    ensures atm.atmStatus == SelectionOption && atm.currentATMState == SelectionOptionState
    ensures atm.authenticated == old(atm.authenticated)
    ensures atm.atmBalance == old(atm.atmBalance) && atm.BillCounts() == old(atm.BillCounts())
  {
    card.SetPin(newPin);
    atm.atmStatus := SelectionOption;
    atm.currentATMState := SelectionOptionState;
  }

  method BalanceInquiryDisplayBalance(atm: ATM, card: ATMCard) returns (balance: int)
    requires atm.activeUser != null
    modifies atm
    ensures atm.activeUser == old(atm.activeUser) && atm.insertedCard == old(atm.insertedCard)
    ensures balance == atm.activeUser.bankAccount.availableBalance
    ensures atm.atmStatus == SelectionOption && atm.currentATMState == SelectionOptionState
    ensures atm.authenticated == old(atm.authenticated)
    ensures atm.atmBalance == old(atm.atmBalance) && atm.BillCounts() == old(atm.BillCounts())
  {
    balance := atm.activeUser.bankAccount.availableBalance;
    atm.currentATMState := SelectionOptionState;
    atm.atmStatus := SelectionOption;
  }
}
