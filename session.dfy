/** The dashboard of one logged-in account. It keeps two copies of the
    account: the session record `user` handed over by the login, and the row
    at `userIndex` of the table `data` re-read from the CSV file. Deposit,
    transfer and PIN change edit these copies in place; `UpdateBalance` then
    copies the session balance into the table row and writes the whole table
    back (`stored`). */
module Session {
  import opened Wrappers
  import opened Ledger

  /** Qt's default maximum for integer and floating-point input dialogs. */
  const DialogMax := 2147483647

  /** A confirmed amount dialog (`getDouble(..., min=1.0)`, default maximum). */
  type Amount = x: real | 1.0 <= x <= DialogMax as real witness 1.0

  /** A confirmed account-number dialog (`getInt(..., min=1)`, default maximum). */
  type AccountEntry = x: int | 1 <= x <= DialogMax witness 1

  /** A confirmed PIN dialog (`getInt(..., min=1000, max=9999)`). */
  type PinEntry = x: int | 1000 <= x <= 9999 witness 1000

  datatype TransferResult =
    | Cancelled
    | RecipientNotFound
    | InsufficientFunds
    | Transferred(recipientIndex: nat)

  /** The table a deposit of `amount` leaves behind, given the session balance `balance`. */
  function AfterDeposit(t: Table, ui: nat, balance: real, amount: real): (r: Table)
    requires ui < |t|
  {
    WithBalance(t, ui, balance + amount)
  }

  /** The table a transfer leaves behind: the recipient row is credited, then
      the sender row is overwritten with the debited session balance. */
  function AfterTransfer(t: Table, ui: nat, ri: nat, balance: real, amount: real): (r: Table)
    requires ui < |t| && ri < |t|
  {
    WithBalance(Credited(t, ri, amount), ui, balance - amount)
  }

  /** The table a PIN change leaves behind. */
  function AfterPinChange(t: Table, ui: nat, balance: real, p: int): (r: Table)
    requires ui < |t|
  {
    WithBalance(WithPin(t, ui, p), ui, balance)
  }

  /** A deposit raises the user's row to the old session balance plus the
      amount, touches no other row, and (when the row agreed with the session)
      adds exactly the amount to the bank's total. */
  lemma DepositEffect(t: Table, ui: nat, balance: real, amount: Amount)
    requires ui < |t|
    ensures |AfterDeposit(t, ui, balance, amount)| == |t|
    ensures AfterDeposit(t, ui, balance, amount)[ui] == t[ui].(balance := balance + amount)
    ensures forall k :: 0 <= k < |t| && k != ui ==> AfterDeposit(t, ui, balance, amount)[k] == t[k]
    ensures t[ui].balance == balance ==> Total(AfterDeposit(t, ui, balance, amount)) == Total(t) + amount
    ensures t[ui].balance == balance && Solvent(t) ==> Solvent(AfterDeposit(t, ui, balance, amount))
  {
    TotalAfterWrite(t, ui, balance + amount);
  }

  /** A transfer to another account moves exactly `amount` from the sender's
      row to the recipient's: their sum and the bank's total are kept, no
      other row changes, and no balance becomes negative. */
  lemma TransferToOtherAccount(t: Table, ui: nat, ri: nat, balance: real, amount: Amount)
    requires ui < |t| && ri < |t| && ui != ri
    requires t[ui].balance == balance && amount <= balance
    ensures |AfterTransfer(t, ui, ri, balance, amount)| == |t|
    ensures AfterTransfer(t, ui, ri, balance, amount)[ui] == t[ui].(balance := t[ui].balance - amount)
    ensures AfterTransfer(t, ui, ri, balance, amount)[ri] == t[ri].(balance := t[ri].balance + amount)
    ensures forall k :: 0 <= k < |t| && k != ui && k != ri ==> AfterTransfer(t, ui, ri, balance, amount)[k] == t[k]
    ensures Total(AfterTransfer(t, ui, ri, balance, amount)) == Total(t)
    ensures Solvent(t) ==> Solvent(AfterTransfer(t, ui, ri, balance, amount))
  {
    var credited := Credited(t, ri, amount);
    TotalAfterWrite(t, ri, t[ri].balance + amount);
    TotalAfterWrite(credited, ui, balance - amount);
  }

  /** A transfer to one's own account: the credit to the recipient row is
      overwritten by the final write of the session balance, so the account
      loses `amount` and the bank's total shrinks by `amount`. */
  lemma SelfTransferLosesAmount(t: Table, ui: nat, balance: real, amount: Amount)
    requires ui < |t| && t[ui].balance == balance && amount <= balance
    ensures |AfterTransfer(t, ui, ui, balance, amount)| == |t|
    ensures AfterTransfer(t, ui, ui, balance, amount)[ui] == t[ui].(balance := t[ui].balance - amount)
    ensures forall k :: 0 <= k < |t| && k != ui ==> AfterTransfer(t, ui, ui, balance, amount)[k] == t[k]
    ensures Total(AfterTransfer(t, ui, ui, balance, amount)) == Total(t) - amount
    ensures Solvent(t) ==> Solvent(AfterTransfer(t, ui, ui, balance, amount))
  {
    var credited := Credited(t, ui, amount);
    TotalAfterWrite(credited, ui, balance - amount);
    TotalAfterWrite(t, ui, t[ui].balance + amount);
  }

  /** No confirmed transfer makes a balance negative, whether or not the
      user's row agreed with the session and whether or not the recipient is
      the user: the only debited value is a balance the amount does not exceed. */
  lemma TransferKeepsSolvency(t: Table, ui: nat, ri: nat, balance: real, amount: Amount)
    requires ui < |t| && ri < |t| && amount <= balance && Solvent(t)
    ensures Solvent(AfterTransfer(t, ui, ri, balance, amount))
  {
  }

  /** A PIN change sets the PIN of the user's row only; when that row agreed
      with the session no balance changes. */
  lemma PinChangeEffect(t: Table, ui: nat, balance: real, p: PinEntry)
    requires ui < |t|
    ensures |AfterPinChange(t, ui, balance, p)| == |t|
    ensures AfterPinChange(t, ui, balance, p)[ui] == t[ui].(pin := p, balance := balance)
    ensures 1000 <= AfterPinChange(t, ui, balance, p)[ui].pin <= 9999
    ensures t[ui].balance == balance ==> AfterPinChange(t, ui, balance, p)[ui] == t[ui].(pin := p)
    ensures forall k :: 0 <= k < |t| && k != ui ==> AfterPinChange(t, ui, balance, p)[k] == t[k]
    ensures t[ui].balance == balance ==>
      (forall k :: 0 <= k < |t| ==> AfterPinChange(t, ui, balance, p)[k].balance == t[k].balance)
    ensures t[ui].balance == balance ==> Total(AfterPinChange(t, ui, balance, p)) == Total(t)
  {
    var pinned := WithPin(t, ui, p);
    TotalAfterReplace(t, ui, pinned[ui]);
    TotalAfterWrite(pinned, ui, balance);
  }

  class Dashboard {
    /** The session copy of the account (`self.user`). */
    var user: Account
    /** The in-memory table (`self.data`). */
    var data: Table
    /** The table as last written to the CSV file. */
    var stored: Table
    /** First row holding the user's account number (`self.user_index`). */
    var userIndex: nat

    ghost predicate Valid()
      reads this
    {
      IsFirstRow(data, user.number, userIndex)
    }

    /** The table row agrees with the session balance. */
    ghost predicate Synced()
      reads this
    {
      Valid() && data[userIndex].balance == user.balance
    }

    /** Opening the dashboard re-reads the file and locates the user's row. */
    constructor (u: Account, file: Table)
      requires Find(file, u.number).Some?
      ensures Valid()
      ensures user == u && data == file && stored == file
      ensures userIndex == Find(file, u.number).value
    {
      user := u;
      data := file;
      stored := file;
      userIndex := Find(file, u.number).value;
    }

    /** `update_balance`: copy the session balance into the user's row and
        persist the whole table. */
    method UpdateBalance()
      requires Valid()
      modifies this`data, this`stored
      ensures Valid() && Synced()
      ensures data == WithBalance(old(data), userIndex, user.balance)
      ensures stored == data
    {
      data := WithBalance(data, userIndex, user.balance);
      stored := data;
    }

    /** `deposit_funds`; `None` is a cancelled dialog. */
    method DepositFunds(amount: Option<Amount>)
      requires Valid()
      modifies this
      ensures Valid() && userIndex == old(userIndex)
      ensures amount.None? ==> user == old(user) && data == old(data) && stored == old(stored)
      ensures amount.Some? ==>
        user == old(user).(balance := old(user.balance) + amount.value) &&
        data == AfterDeposit(old(data), userIndex, old(user.balance), amount.value) &&
        stored == data && Synced()
    {
      if amount.Some? {
        user := user.(balance := user.balance + amount.value);
        UpdateBalance();
      }
    }

    /** `transfer_funds`; `None` is a cancelled dialog. The amount dialog is
        only shown when the recipient exists. */
    method TransferFunds(recipient: Option<AccountEntry>, amount: Option<Amount>) returns (r: TransferResult)
      requires Valid()
      modifies this
      ensures Valid() && userIndex == old(userIndex)
      ensures r == RecipientNotFound <==> recipient.Some? && Find(old(data), recipient.value).None?
      ensures r == InsufficientFunds <==>
        recipient.Some? && Find(old(data), recipient.value).Some? &&
        amount.Some? && amount.value > old(user.balance)
      ensures r.Transferred? <==>
        recipient.Some? && Find(old(data), recipient.value).Some? &&
        amount.Some? && amount.value <= old(user.balance)
      ensures !r.Transferred? ==> user == old(user) && data == old(data) && stored == old(stored)
      ensures r.Transferred? ==>
        r.recipientIndex == Find(old(data), recipient.value).value &&
        (recipient.value == user.number ==> r.recipientIndex == userIndex) &&
        user == old(user).(balance := old(user.balance) - amount.value) &&
        data == AfterTransfer(old(data), userIndex, r.recipientIndex, old(user.balance), amount.value) &&
        stored == data && Synced()
    {
      if recipient.None? {
        return Cancelled;
      }
      var found := Find(data, recipient.value);
      if found.None? {
        return RecipientNotFound;
      }
      if amount.Some? && amount.value <= user.balance {
        var ri := found.value;
        user := user.(balance := user.balance - amount.value);
        data := Credited(data, ri, amount.value);
        UpdateBalance();
        r := Transferred(ri);
      } else if amount.Some? {
        r := InsufficientFunds;
      } else {
        r := Cancelled;
      }
    }

    /** `change_pin`; `None` is a cancelled dialog. The session record's PIN
        is left as it was; only the table row gets the new PIN. */
    method ChangePin(newPin: Option<PinEntry>)
      requires Valid()
      modifies this
      ensures Valid() && userIndex == old(userIndex) && user == old(user)
      ensures newPin.None? ==> data == old(data) && stored == old(stored)
      ensures newPin.Some? ==>
        data == AfterPinChange(old(data), userIndex, user.balance, newPin.value) &&
        stored == data && Synced()
    {
      if newPin.Some? {
        data := WithPin(data, userIndex, newPin.value);
        UpdateBalance();
      }
    }
  }

  /** Two concrete sessions on a two-account table: a transfer of 20000 from
      1001 to 1002, and a transfer of 100 from 1001 to itself. */
  method TransferScenarios()
  {
    var alice := Account(1001, "User1", "user1@example.com", 50000.0, 1234);
    var bob := Account(1002, "User2", "user2@example.com", 0.0, 4321);
    var d := new Dashboard(alice, [alice, bob]);
    assert d.data[1].number == 1002;
    var r := d.TransferFunds(Some(1002), Some(20000.0));
    assert r == Transferred(1);
    assert d.data[0].balance == 30000.0 && d.data[1].balance == 20000.0;
    r := d.TransferFunds(Some(9999), Some(100.0));
    assert r == RecipientNotFound;
    assert d.data[0].balance == 30000.0 && d.data[1].balance == 20000.0;

    var e := new Dashboard(alice, [alice, bob]);
    r := e.TransferFunds(Some(1001), Some(100.0));
    assert r == Transferred(0);
    assert e.data[0].balance == 49900.0 && e.user.balance == 49900.0;
  }
}
