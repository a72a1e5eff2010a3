/** The account table that the bank demo keeps in its CSV file: one row per
    account, with account number, holder name, e-mail, balance and PIN. */
module Ledger {
  import opened Wrappers

  /** One row of the account table. Balances come from floating-point dialogs
      in the program; here they are exact reals. */
  datatype Account = Account(number: int, name: string, email: string, balance: real, pin: int)

  /** The table in row order; a row's position is its pandas index label. */
  type Table = seq<Account>

  /** `i` is the first row of `t` that satisfies `p`. */
  ghost predicate IsFirstWhere(t: Table, p: Account -> bool, i: int)
  {
    0 <= i < |t| && p(t[i]) && forall j :: 0 <= j < i ==> !p(t[j])
  }

  /** Position of the first row satisfying `p`, or None when no row does: a
      pandas row filter followed by taking its first match. */
  function FirstWhere(t: Table, p: Account -> bool): (r: Option<nat>)
    ensures r.Some? ==> IsFirstWhere(t, p, r.value)
    ensures r.None? <==> forall j :: 0 <= j < |t| ==> !p(t[j])
  {
    if t == [] then None
    else if p(t[0]) then Some(0)
    else match FirstWhere(t[1..], p)
      case None => None
      case Some(k) => Some(k + 1)
  }

  /** `i` is the first row of `t` that holds account number `n`. */
  ghost predicate IsFirstRow(t: Table, n: int, i: int)
  {
    IsFirstWhere(t, (a: Account) => a.number == n, i)
  }

  /** Position of the first row holding account number `n`, or None when no row
      does: the `index[0]` of a filter on the "Account Number" column. */
  function Find(t: Table, n: int): (r: Option<nat>)
    ensures r.Some? ==> r.value < |t| && t[r.value].number == n
    ensures r.Some? ==> forall j :: 0 <= j < r.value ==> t[j].number != n
    ensures r.None? <==> forall j :: 0 <= j < |t| ==> t[j].number != n
  {
    FirstWhere(t, (a: Account) => a.number == n)
  }

  /** Sum of all balances in the table. */
  function Total(t: Table): (sum: real)
  {
    if t == [] then 0.0 else t[0].balance + Total(t[1..])
  }

  /** Every balance in the table is non-negative. */
  predicate Solvent(t: Table)
  {
    forall i :: 0 <= i < |t| ==> t[i].balance >= 0.0
  }

  /** `data.at[i, 'Balance (₹)'] = b`. */
  function WithBalance(t: Table, i: nat, b: real): (r: Table)
    requires i < |t|
  {
    t[i := t[i].(balance := b)]
  }

  /** `data.at[i, 'Balance (₹)'] += amount`. */
  function Credited(t: Table, i: nat, amount: real): (r: Table)
    requires i < |t|
  {
    WithBalance(t, i, t[i].balance + amount)
  }

  /** `data.at[i, 'PIN'] = p`. */
  function WithPin(t: Table, i: nat, p: int): (r: Table)
    requires i < |t|
  {
    t[i := t[i].(pin := p)]
  }

  /** Replacing one row changes the total by exactly the change in that row's balance. */
  lemma {:induction false} TotalAfterReplace(t: Table, i: nat, a: Account)
    requires i < |t|
    ensures Total(t[i := a]) == Total(t) - t[i].balance + a.balance
  {
    if i == 0 {
      assert t[i := a][1..] == t[1..];
    } else {
      assert t[i := a][1..] == t[1..][i - 1 := a];
      TotalAfterReplace(t[1..], i - 1, a);
    }
  }

  /** Writing a balance into row `i` moves the total by the difference. */
  lemma TotalAfterWrite(t: Table, i: nat, b: real)
    requires i < |t|
    ensures Total(WithBalance(t, i, b)) == Total(t) - t[i].balance + b
  {
    TotalAfterReplace(t, i, t[i].(balance := b));
  }
}
