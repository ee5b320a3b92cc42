/**
 * config/TEAccount.java as the object it is: every account operation
 * updates one shared account tree in place and posts its result on the
 * event bus. Each method is proved to leave the tree and the event log
 * exactly as the corresponding function of the Ledger module says.
 */
module TEAccount {
  import opened Optional
  import opened StringUtils
  import opened Ledger

  class AccountStore {
    /** The document tree of all accounts. */
    var accounts: Store
    /** Everything posted on the event bus, oldest first. */
    var events: seq<Event>
    /** The global money cap. */
    const moneyCap: real

    constructor (moneyCap: real, accounts: Store)
      ensures this.moneyCap == moneyCap && this.accounts == accounts && events == []
    {
      this.moneyCap := moneyCap;
      this.accounts := accounts;
      events := [];
    }

    function View(): LedgerState
      reads this
    {
      LedgerState(accounts, events)
    }

    method SetBalance(uuid: Uuid, currency: CurrencyId, amount: real) returns (r: TransactionResult)
      modifies this
      ensures View() == Ledger.SetBalance(old(View()), moneyCap, uuid, currency, amount).state
      ensures r == Ledger.SetBalance(old(View()), moneyCap, uuid, currency, amount).result
    {
      var capped := Ledger.Min(amount, moneyCap);
      if Ledger.HasBalance(accounts, uuid, currency) {
        var delta := capped - Ledger.GetBalance(accounts, uuid, currency);
        var kind := if delta >= 0.0 then DEPOSIT else WITHDRAW;
        var rec := Ledger.Record(accounts, uuid);
        accounts := accounts[uuid := rec.(balances := rec.balances[currency := Trunc2(capped)])];
        r := TransactionResult(uuid, currency, Abs(delta), SUCCESS, kind);
      } else {
        r := TransactionResult(uuid, currency, 0.0, FAILED, DEPOSIT);
      }
      events := events + [TransactionEvent(r)];
    }

    method ResetBalance(uuid: Uuid, currency: Currency) returns (r: TransactionResult)
      modifies this
      ensures View() == Ledger.ResetBalance(old(View()), moneyCap, uuid, currency).state
      ensures r == Ledger.ResetBalance(old(View()), moneyCap, uuid, currency).result
    {
      r := SetBalance(uuid, currency.id, currency.startingBalance);
    }

    method ResetBalances(uuid: Uuid, currencies: seq<Currency>) returns (results: map<CurrencyId, TransactionResult>)
      modifies this
      ensures ResetAllOutcome(View(), results) == Ledger.ResetBalances(old(View()), moneyCap, uuid, currencies)
    {
      results := map[];
      var i := 0;
      while i < |currencies|
        invariant 0 <= i <= |currencies|
        invariant ResetAllOutcome(View(), results) == Ledger.ResetBalances(old(View()), moneyCap, uuid, currencies[..i])
      {
        Ledger.ResetBalancesSnoc(old(View()), moneyCap, uuid, currencies, i);
        var r := ResetBalance(uuid, currencies[i]);
        results := results[currencies[i].id := r];
        i := i + 1;
      }
      assert currencies[..|currencies|] == currencies;
    }

    method Deposit(uuid: Uuid, currency: CurrencyId, amount: real) returns (r: TransactionResult)
      modifies this
      ensures View() == Ledger.Deposit(old(View()), moneyCap, uuid, currency, amount).state
      ensures r == Ledger.Deposit(old(View()), moneyCap, uuid, currency, amount).result
    {
      var curBalance := Ledger.GetBalance(accounts, uuid, currency);
      r := SetBalance(uuid, currency, curBalance + amount);
    }

    method Withdraw(uuid: Uuid, currency: CurrencyId, amount: real) returns (r: TransactionResult)
      modifies this
      ensures View() == Ledger.Withdraw(old(View()), moneyCap, uuid, currency, amount).state
      ensures r == Ledger.Withdraw(old(View()), moneyCap, uuid, currency, amount).result
    {
      var curBalance := Ledger.GetBalance(accounts, uuid, currency);
      var newBalance := curBalance - amount;
      if newBalance >= 0.0 {
        r := SetBalance(uuid, currency, newBalance);
        return;
      }
      r := TransactionResult(uuid, currency, amount, ACCOUNT_NO_FUNDS, WITHDRAW);
    }

    method Transfer(from: Uuid, to: Uuid, currency: CurrencyId, amount: real) returns (r: TransferResult)
      modifies this
      ensures View() == Ledger.Transfer(old(View()), moneyCap, from, to, currency, amount).state
      ensures r == Ledger.Transfer(old(View()), moneyCap, from, to, currency, amount).result
    {
      if Ledger.HasBalance(accounts, from, currency) {
        var curBalance := Ledger.GetBalance(accounts, from, currency);
        var newBalance := curBalance - amount;
        if newBalance >= 0.0 {
          var _ := Withdraw(from, currency, amount);
          if Ledger.HasBalance(accounts, to, currency) {
            var _ := Deposit(to, currency, amount);
            r := TransferResult(from, to, currency, amount, SUCCESS);
          } else {
            r := TransferResult(from, to, currency, amount, FAILED);
          }
        } else {
          r := TransferResult(from, to, currency, amount, ACCOUNT_NO_FUNDS);
        }
      } else {
        r := TransferResult(from, to, currency, amount, FAILED);
      }
      events := events + [TransferEvent(r)];
    }

    /** `getBalances`: a loop that maps each registered currency to its balance. */
    method GetBalances(uuid: Uuid, currencies: seq<Currency>) returns (balances: map<CurrencyId, real>)
      ensures balances.Keys == set i | 0 <= i < |currencies| :: currencies[i].id
      ensures forall id :: id in balances ==> balances[id] == Ledger.GetBalance(accounts, uuid, id)
    {
      balances := map[];
      var i := 0;
      while i < |currencies|
        invariant 0 <= i <= |currencies|
        invariant balances.Keys == set k | 0 <= k < i :: currencies[k].id
        invariant forall id :: id in balances ==> balances[id] == Ledger.GetBalance(accounts, uuid, id)
      {
        balances := balances[currencies[i].id := Ledger.GetBalance(accounts, uuid, currencies[i].id)];
        i := i + 1;
      }
    }

    method SetCurrentJob(uuid: Uuid, jobName: string, saveFails: bool) returns (ok: bool)
      modifies this
      ensures accounts == Ledger.SetCurrentJob(old(accounts), uuid, jobName, saveFails).accounts
      ensures ok == Ledger.SetCurrentJob(old(accounts), uuid, jobName, saveFails).ok
      ensures events == old(events)
    {
      var job := ToLower(jobName);
      var rec := Ledger.Record(accounts, uuid);
      accounts := accounts[uuid := rec.(job := Some(job))];
      var stats := Ledger.Stats(accounts, uuid, job);
      rec := Ledger.Record(accounts, uuid);
      accounts := accounts[uuid := rec.(jobStats := rec.jobStats[job := stats.(level := Some(stats.level.GetOr(1)))])];
      stats := Ledger.Stats(accounts, uuid, job);
      rec := Ledger.Record(accounts, uuid);
      accounts := accounts[uuid := rec.(jobStats := rec.jobStats[job := stats.(exp := Some(stats.exp.GetOr(0)))])];
      if saveFails {
        return false;
      }
      return true;
    }

    method SetCurrentJobLevel(uuid: Uuid, level: Int32)
      modifies this
      ensures accounts == Ledger.SetCurrentJobLevel(old(accounts), uuid, level)
      ensures events == old(events)
    {
      var job := Ledger.GetCurrentJobName(accounts, uuid);
      var stats := Ledger.Stats(accounts, uuid, job);
      var rec := Ledger.Record(accounts, uuid);
      accounts := accounts[uuid := rec.(jobStats := rec.jobStats[job := stats.(level := Some(level))])];
    }

    method AddExpToCurrentJob(uuid: Uuid, exp: Int32) returns (ok: bool)
      modifies this
      ensures accounts == Ledger.AddExpToCurrentJob(old(accounts), uuid, exp)
      ensures events == old(events) && ok
    {
      var job := Ledger.GetCurrentJobName(accounts, uuid);
      var curExp := Ledger.GetCurrentJobExp(accounts, uuid);
      var stats := Ledger.Stats(accounts, uuid, job);
      var rec := Ledger.Record(accounts, uuid);
      accounts := accounts[uuid := rec.(jobStats := rec.jobStats[job := stats.(exp := Some(Wrap32(curExp + exp)))])];
      return true;
    }
  }
}
