/**
 * What the ledger promises across calls: balances stay within the money
 * cap (and above zero where the amounts allow it), how sequential deposits
 * compose, and how job progression evolves.
 */
module LedgerProperties {
  import opened Optional
  import opened StringUtils
  import opened Ledger

  // ------------------------------------------------------ balance invariant

  /** Every stored balance lies between zero and the cap. */
  ghost predicate InRange(s: Store, cap: real) {
    forall u, c :: HasBalance(s, u, c) ==> 0.0 <= GetBalance(s, u, c) <= cap
  }

  /** One balance operation as a caller issues it. */
  datatype Op =
    | SetOp(u: Uuid, c: CurrencyId, amount: real)
    | DepositOp(u: Uuid, c: CurrencyId, amount: real)
    | WithdrawOp(u: Uuid, c: CurrencyId, amount: real)
    | TransferOp(u: Uuid, to: Uuid, c: CurrencyId, amount: real)
    | ResetOp(u: Uuid, currency: Currency)

  function Step(st: LedgerState, cap: real, op: Op): LedgerState {
    match op
    case SetOp(u, c, a) => SetBalance(st, cap, u, c, a).state
    case DepositOp(u, c, a) => Deposit(st, cap, u, c, a).state
    case WithdrawOp(u, c, a) => Withdraw(st, cap, u, c, a).state
    case TransferOp(u, to, c, a) => Transfer(st, cap, u, to, c, a).state
    case ResetOp(u, cur) => ResetBalance(st, cap, u, cur).state
  }

  function Run(st: LedgerState, cap: real, ops: seq<Op>): LedgerState
    decreases ops
  {
    if ops == [] then st else Run(Step(st, cap, ops[0]), cap, ops[1..])
  }

  /**
   * The amounts that cannot push a balance below zero: set, deposit and
   * transfer amounts and starting balances that are not negative (withdraw
   * checks its own funds).
   */
  predicate NonNegativeAmount(op: Op) {
    match op
    case SetOp(_, _, a) => 0.0 <= a
    case DepositOp(_, _, a) => 0.0 <= a
    case WithdrawOp(_, _, _) => true
    case TransferOp(_, _, _, a) => 0.0 <= a
    case ResetOp(_, cur) => 0.0 <= cur.startingBalance
  }

  /** A single write of `v` keeps the range when `v` is in it. */
  lemma WriteInRange(s: Store, cap: real, u: Uuid, c: CurrencyId, v: real)
    requires InRange(s, cap) && 0.0 <= v <= cap
    ensures InRange(WithBalance(s, u, c, v), cap)
  {
    var s' := WithBalance(s, u, c, v);
    forall u', c' | HasBalance(s', u', c')
      ensures 0.0 <= GetBalance(s', u', c') <= cap
    {
      if (u', c') != (u, c) {
        assert HasBalance(s, u', c');
      }
    }
  }

  lemma SetBalanceInRange(st: LedgerState, cap: real, u: Uuid, c: CurrencyId, a: real)
    requires InRange(st.accounts, cap) && 0.0 <= a && 0.0 <= cap
    ensures InRange(SetBalance(st, cap, u, c, a).state.accounts, cap)
  {
    if HasBalance(st.accounts, u, c) {
      WriteInRange(st.accounts, cap, u, c, Trunc2(Min(a, cap)));
    }
  }

  lemma StepInRange(st: LedgerState, cap: real, op: Op)
    requires InRange(st.accounts, cap) && 0.0 <= cap && NonNegativeAmount(op)
    ensures InRange(Step(st, cap, op).accounts, cap)
  {
    match op
    case SetOp(u, c, a) =>
      SetBalanceInRange(st, cap, u, c, a);
    case DepositOp(u, c, a) =>
      SetBalanceInRange(st, cap, u, c, GetBalance(st.accounts, u, c) + a);
    case WithdrawOp(u, c, a) =>
      var nb := GetBalance(st.accounts, u, c) - a;
      if nb >= 0.0 {
        SetBalanceInRange(st, cap, u, c, nb);
      }
    case TransferOp(u, to, c, a) =>
      if HasBalance(st.accounts, u, c) && GetBalance(st.accounts, u, c) - a >= 0.0 {
        var w := Withdraw(st, cap, u, c, a);
        SetBalanceInRange(st, cap, u, c, GetBalance(st.accounts, u, c) - a);
        if HasBalance(w.state.accounts, to, c) {
          SetBalanceInRange(w.state, cap, to, c, GetBalance(w.state.accounts, to, c) + a);
        }
      }
    case ResetOp(u, cur) =>
      SetBalanceInRange(st, cap, u, cur.id, cur.startingBalance);
  }

  /**
   * Any sequence of setBalance, deposit, withdraw, transfer and reset calls
   * with non-negative amounts keeps every balance in [0, cap].
   */
  lemma {:induction false} RunInRange(st: LedgerState, cap: real, ops: seq<Op>)
    requires InRange(st.accounts, cap) && 0.0 <= cap
    requires forall i :: 0 <= i < |ops| ==> NonNegativeAmount(ops[i])
    ensures InRange(Run(st, cap, ops).accounts, cap)
    decreases ops
  {
    if ops != [] {
      StepInRange(st, cap, ops[0]);
      RunInRange(Step(st, cap, ops[0]), cap, ops[1..]);
    }
  }

  /** Whatever the amounts, no write ever stores more than a non-negative cap. */
  ghost predicate Capped(s: Store, cap: real) {
    forall u, c :: HasBalance(s, u, c) ==> GetBalance(s, u, c) <= cap
  }

  lemma {:induction false} RunCapped(st: LedgerState, cap: real, ops: seq<Op>)
    requires Capped(st.accounts, cap) && 0.0 <= cap
    ensures Capped(Run(st, cap, ops).accounts, cap)
    decreases ops
  {
    if ops != [] {
      var s := st.accounts;
      var s' := Step(st, cap, ops[0]).accounts;
      forall u, c | HasBalance(s', u, c)
        ensures GetBalance(s', u, c) <= cap
      {
        StepCapped(st, cap, ops[0], u, c);
      }
      RunCapped(Step(st, cap, ops[0]), cap, ops[1..]);
    }
  }

  /** After one step a balance is either one that was there before or a fresh write, and both are capped. */
  lemma StepCapped(st: LedgerState, cap: real, op: Op, u: Uuid, c: CurrencyId)
    requires Capped(st.accounts, cap) && 0.0 <= cap
    requires HasBalance(Step(st, cap, op).accounts, u, c)
    ensures GetBalance(Step(st, cap, op).accounts, u, c) <= cap
  {
    match op
    case SetOp(_, _, _) =>
    case DepositOp(_, _, _) =>
    case WithdrawOp(_, _, _) =>
    case ResetOp(_, _) =>
    case TransferOp(from, to, cur, a) =>
      if HasBalance(st.accounts, from, cur) && GetBalance(st.accounts, from, cur) - a >= 0.0 {
        var w := Withdraw(st, cap, from, cur, a);
        assert HasBalance(w.state.accounts, u, c);
        assert GetBalance(w.state.accounts, u, c) <= cap;
      }
  }

  // ------------------------------------------------- composing deposits

  lemma CentGridAdd(x: real, y: real)
    requires OnCentGrid(x) && OnCentGrid(y)
    ensures OnCentGrid(x + y)
  {
    var k := (x * 100.0).Floor;
    var j := (y * 100.0).Floor;
    assert (x + y) * 100.0 == (k + j) as real;
    assert ((k + j) as real).Floor == k + j;
  }

  /**
   * Two deposits equal one deposit of their sum when the balance and both
   * amounts are whole cents and the cap is never reached.
   */
  lemma SequentialDepositsCompose(st: LedgerState, cap: real, u: Uuid, c: CurrencyId, d1: real, d2: real)
    requires HasBalance(st.accounts, u, c)
    requires OnCentGrid(GetBalance(st.accounts, u, c)) && OnCentGrid(d1) && OnCentGrid(d2)
    requires GetBalance(st.accounts, u, c) + d1 <= cap && GetBalance(st.accounts, u, c) + d1 + d2 <= cap
    ensures var once := Deposit(st, cap, u, c, d1);
      GetBalance(Deposit(once.state, cap, u, c, d2).state.accounts, u, c) ==
      GetBalance(Deposit(st, cap, u, c, d1 + d2).state.accounts, u, c)
  {
    var b := GetBalance(st.accounts, u, c);
    CentGridAdd(b, d1);
    CentGridAdd(b + d1, d2);
  }

  /**
   * Without those conditions they do not compose: truncation drops each
   * half-cent deposit on its own but keeps the cent they add up to.
   */
  lemma SequentialDepositsDoNotComposeInGeneral()
    ensures var st := LedgerState(map["a" := EmptyRecord.(balances := map["dollar" := 0.0])], []);
      var once := Deposit(st, 100.0, "a", "dollar", 0.005);
      && GetBalance(Deposit(once.state, 100.0, "a", "dollar", 0.005).state.accounts, "a", "dollar") == 0.0
      && GetBalance(Deposit(st, 100.0, "a", "dollar", 0.01).state.accounts, "a", "dollar") == 0.01
  {
    var st := LedgerState(map["a" := EmptyRecord.(balances := map["dollar" := 0.0])], []);
    assert CentsDown(0.005) == 0.0 by {
      assert (0.005 * 100.0).Floor == 0;
    }
    assert CentsDown(0.01) == 0.01 by {
      assert (0.01 * 100.0).Floor == 1;
    }
  }

  /** 100.00 in dollars, withdraw 150.00: no funds, still 100.00, nothing posted. */
  lemma WithdrawBeyondFundsScenario(cap: real)
    requires 100.0 <= cap
    ensures var st := LedgerState(map["a" := EmptyRecord.(balances := map["dollars" := 100.0])], []);
      var o := Withdraw(st, cap, "a", "dollars", 150.0);
      o.result.result == ACCOUNT_NO_FUNDS && GetBalance(o.state.accounts, "a", "dollars") == 100.0 &&
      o.state.events == []
  {
  }

  /** 50.00, deposit 25.005: truncated to 75.00. */
  lemma DepositTruncatesScenario(cap: real)
    requires 100.0 <= cap
    ensures var st := LedgerState(map["a" := EmptyRecord.(balances := map["dollars" := 50.0])], []);
      GetBalance(Deposit(st, cap, "a", "dollars", 25.005).state.accounts, "a", "dollars") == 75.0
  {
    assert (75.005 * 100.0).Floor == 7500;
  }

  /**
   * A currency with no balance node reads as zero, not as its starting
   * balance; only a reset brings the starting balance in.
   */
  lemma MissingBalanceReadsZero(st: LedgerState, cap: real, u: Uuid, c: Currency)
    requires !HasBalance(st.accounts, u, c.id)
    ensures GetBalance(st.accounts, u, c.id) == 0.0
    ensures c.startingBalance != 0.0 ==> GetBalance(st.accounts, u, c.id) != GetDefaultBalance(c)
    ensures GetBalance(ResetBalance(st, cap, u, c).state.accounts, u, c.id) == 0.0
  {
  }

  /** A reset ends at the same balance whatever the balance was before. */
  lemma ResetForgetsPriorBalance(st1: LedgerState, st2: LedgerState, cap: real, u: Uuid, c: Currency)
    requires HasBalance(st1.accounts, u, c.id) && HasBalance(st2.accounts, u, c.id)
    ensures GetBalance(ResetBalance(st1, cap, u, c).state.accounts, u, c.id) ==
            GetBalance(ResetBalance(st2, cap, u, c).state.accounts, u, c.id)
  {
  }

  // ---------------------------------------------------------------- jobs

  lemma Wrap32Add(x: int, y: int)
    ensures Wrap32(Wrap32(x) + y) == Wrap32(x + y)
  {
    var m := 0x1_0000_0000;
    var q := (x + 0x8000_0000) / m;
    assert Wrap32(x) == x - m * q;
  }

  /** Two experience grants one after the other add up, in Java `int` arithmetic. */
  lemma AddExpTwice(s: Store, u: Uuid, d1: Int32, d2: Int32)
    requires GetCurrentJobName(s, u) != Unemployed
    ensures GetCurrentJobExp(AddExpToCurrentJob(AddExpToCurrentJob(s, u, d1), u, d2), u) ==
            Wrap32(GetCurrentJobExp(s, u) + d1 + d2)
  {
    var job := GetCurrentJobName(s, u);
    var s1 := AddExpToCurrentJob(s, u, d1);
    ToLowerIdempotent(Record(s, u).job.GetOr(Unemployed));
    assert GetCurrentJobExp(s1, u) == Wrap32(GetCurrentJobExp(s, u) + d1);
    Wrap32Add(GetCurrentJobExp(s, u) + d1, d2);
  }

  /** exp 0, addExpToCurrentJob(30) twice: exp 60. */
  lemma AddThirtyTwiceScenario(s: Store, u: Uuid)
    requires GetCurrentJobName(s, u) != Unemployed && GetCurrentJobExp(s, u) == 0
    ensures GetCurrentJobExp(AddExpToCurrentJob(AddExpToCurrentJob(s, u, 30), u, 30), u) == 60
  {
    AddExpTwice(s, u, 30, 30);
  }

  /** The "unemployed" job always reads as level 1 with no experience. */
  lemma UnemployedReadsDefaults(s: Store, u: Uuid)
    requires GetCurrentJobName(s, u) == Unemployed
    ensures GetCurrentJobLevel(s, u) == 1 && GetCurrentJobExp(s, u) == 0
  {
  }

  /** Switching to a job never held before starts it at level 1 with 0 exp. */
  lemma SwitchToNewJob(s: Store, u: Uuid, jobName: string, saveFails: bool)
    requires ToLower(jobName) != Unemployed && ToLower(jobName) !in Record(s, u).jobStats
    ensures var s' := SetCurrentJob(s, u, jobName, saveFails).accounts;
      GetCurrentJobLevel(s', u) == 1 && GetCurrentJobExp(s', u) == 0
  {
    ToLowerIdempotent(jobName);
  }

  /** Switching back to a job restores the level and exp it had. */
  lemma SwitchKeepsProgress(s: Store, u: Uuid, jobName: string, saveFails: bool)
    requires ToLower(jobName) != Unemployed
    ensures var s' := SetCurrentJob(s, u, jobName, saveFails).accounts;
      GetCurrentJobLevel(s', u) == GetJobLevel(s, u, jobName) &&
      GetCurrentJobExp(s', u) == GetJobExp(s, u, jobName)
  {
    ToLowerIdempotent(jobName);
  }
}
