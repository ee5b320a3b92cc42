/**
 * The account ledger and job-progression store of config/TEAccount.java,
 * document-tree backend, as pure functions on a value of the whole store.
 *
 * The tree holds one subtree per account key. Under it, per currency, a
 * balance (a decimal kept at scale 2), the current job, per-job level and
 * experience and the notification flag. Every
 * balance write goes through SetBalance, which clamps the amount to the
 * money cap, truncates it to cents and reports a transaction result. The
 * event bus is a log of posted results.
 */
module Ledger {
  import opened Optional
  import opened StringUtils

  type Uuid = string

  /** A currency's key in the tree (its lower-cased display name). */
  type CurrencyId = string

  /** Java's `int`. */
  type Int32 = x: int | -0x8000_0000 <= x < 0x8000_0000

  /** Java `int` addition wraps around modulo 2^32. */
  function Wrap32(x: int): (r: Int32)
    ensures (x - r) % 0x1_0000_0000 == 0
    ensures -0x8000_0000 <= x < 0x8000_0000 ==> r == x
  {
    (x + 0x8000_0000) % 0x1_0000_0000 - 0x8000_0000
  }

  datatype Currency = Currency(id: CurrencyId, startingBalance: real)

  /** `jobstats/<job>/level` and `jobstats/<job>/exp`; None is an absent node. */
  datatype JobStats = JobStats(level: Option<Int32>, exp: Option<Int32>)

  /** One account's subtree; a missing map key or None is an absent node. */
  datatype AccountRecord = AccountRecord(
    balances: map<CurrencyId, real>,
    job: Option<string>,
    jobNotifications: Option<bool>,
    jobStats: map<string, JobStats>)

  const EmptyRecord: AccountRecord := AccountRecord(map[], None, None, map[])

  /** The account tree: account key to subtree. */
  type Store = map<Uuid, AccountRecord>

  datatype ResultType = SUCCESS | FAILED | ACCOUNT_NO_FUNDS

  datatype TransactionType = DEPOSIT | WITHDRAW

  datatype TransactionResult = TransactionResult(
    account: Uuid, currency: CurrencyId, amount: real, result: ResultType, kind: TransactionType)

  /** A transfer's result; its transaction type is always TRANSFER. */
  datatype TransferResult = TransferResult(
    from: Uuid, to: Uuid, currency: CurrencyId, amount: real, result: ResultType)

  /** What is posted on the event bus. */
  datatype Event = TransactionEvent(tx: TransactionResult) | TransferEvent(transfer: TransferResult)

  /** The tree together with everything posted so far. */
  datatype LedgerState = LedgerState(accounts: Store, events: seq<Event>)

  datatype TxOutcome = TxOutcome(state: LedgerState, result: TransactionResult)

  datatype TransferOutcome = TransferOutcome(state: LedgerState, result: TransferResult)

  // ---------------------------------------------------------------- money

  /** A value with at most two decimals. */
  predicate OnCentGrid(x: real) {
    (x * 100.0).Floor as real == x * 100.0
  }

  /** `setScale(2, ROUND_DOWN)`: truncation toward zero to hundredths. */
  function Trunc2(x: real): (r: real)
    ensures OnCentGrid(r)
    ensures 0.0 <= x ==> 0.0 <= r <= x && x - r < 0.01
    ensures x < 0.0 ==> x <= r <= 0.0 && r - x < 0.01
    ensures OnCentGrid(x) ==> r == x
  {
    OnCentGridNeg(x);
    OnCentGridNeg(CentsDown(if x >= 0.0 then x else -x));
    if x >= 0.0 then CentsDown(x) else -CentsDown(-x)
  }

  /** The non-negative `y` truncated to cents. */
  function CentsDown(y: real): (r: real)
    requires 0.0 <= y
    ensures OnCentGrid(r)
    ensures 0.0 <= r <= y && y - r < 0.01
    ensures OnCentGrid(y) ==> r == y
  {
    var k := (y * 100.0).Floor;
    assert k as real <= y * 100.0 < k as real + 1.0;
    assert 0 <= k;
    var r := k as real / 100.0;
    assert r * 100.0 == k as real;
    assert (k as real).Floor == k;
    r
  }

  lemma OnCentGridNeg(x: real)
    ensures OnCentGrid(x) <==> OnCentGrid(-x)
  {
    var k := (x * 100.0).Floor;
    var j := (-x * 100.0).Floor;
    if OnCentGrid(x) {
      assert -x * 100.0 == (-k) as real;
      assert ((-k) as real).Floor == -k;
    }
    if OnCentGrid(-x) {
      assert x * 100.0 == (-j) as real;
      assert ((-j) as real).Floor == -j;
    }
  }

  /** `BigDecimal.min`. */
  function Min(a: real, b: real): (r: real)
    ensures r <= a && r <= b && (r == a || r == b)
  {
    if a <= b then a else b
  }

  /** `BigDecimal.abs`. */
  function Abs(x: real): (r: real)
    ensures 0.0 <= r && (r == x || r == -x)
  {
    if x >= 0.0 then x else -x
  }

  // ---------------------------------------------------------------- reads

  /** A key absent from the tree reads as an empty subtree. */
  function Record(s: Store, u: Uuid): AccountRecord {
    if u in s then s[u] else EmptyRecord
  }

  /** `hasBalance`: the balance node holds a value. */
  predicate HasBalance(s: Store, u: Uuid, c: CurrencyId): (r: bool)
    ensures r <==> u in s && c in s[u].balances
  {
    c in Record(s, u).balances
  }

  /** `getBalance`: the stored value, or zero (not the starting balance) when there is none. */
  function GetBalance(s: Store, u: Uuid, c: CurrencyId): (r: real)
    ensures HasBalance(s, u, c) ==> r == s[u].balances[c]
    ensures !HasBalance(s, u, c) ==> r == 0.0
  {
    if HasBalance(s, u, c) then Record(s, u).balances[c] else 0.0
  }

  /** `getDefaultBalance`: the currency's starting balance. */
  function GetDefaultBalance(c: Currency): (r: real)
    ensures r == c.startingBalance
  {
    c.startingBalance
  }

  /** The tree with one balance node set. */
  function WithBalance(s: Store, u: Uuid, c: CurrencyId, v: real): (s': Store)
    ensures HasBalance(s', u, c) && GetBalance(s', u, c) == v
    ensures forall u', c' :: (u', c') != (u, c) ==>
      HasBalance(s', u', c') == HasBalance(s, u', c') && GetBalance(s', u', c') == GetBalance(s, u', c')
    ensures forall u' :: u' != u ==> Record(s', u') == Record(s, u')
    ensures Record(s', u).(balances := map[]) == Record(s, u).(balances := map[])
  {
    var rec := Record(s, u);
    s[u := rec.(balances := rec.balances[c := v])]
  }

  // ----------------------------------------------------------- balance writes

  /**
   * `setBalance`: the amount is clamped to `cap`; with a balance record the
   * clamped amount truncated to cents is stored and SUCCESS reported, as a
   * DEPOSIT when the clamped amount is at least the old balance and a
   * WITHDRAW otherwise, for the distance between the two. Without a record
   * nothing is stored and FAILED is reported for 0 as a DEPOSIT. The result
   * is posted on every path.
   */
  function SetBalance(st: LedgerState, cap: real, u: Uuid, c: CurrencyId, amount: real): (o: TxOutcome)
    ensures o.state.events == st.events + [TransactionEvent(o.result)]
    ensures o.result.account == u && o.result.currency == c
    ensures !HasBalance(st.accounts, u, c) ==>
      o.state.accounts == st.accounts && o.result.result == FAILED &&
      o.result.amount == 0.0 && o.result.kind == DEPOSIT
    ensures HasBalance(st.accounts, u, c) ==>
      var capped, prior := Min(amount, cap), GetBalance(st.accounts, u, c);
      && o.result.result == SUCCESS
      && o.state.accounts == WithBalance(st.accounts, u, c, Trunc2(capped))
      && (o.result.kind == DEPOSIT <==> capped >= prior)
      && o.result.amount == Abs(capped - prior)
    ensures HasBalance(st.accounts, u, c) && 0.0 <= cap ==> GetBalance(o.state.accounts, u, c) <= cap
  {
    var capped := Min(amount, cap);
    var r :=
      if HasBalance(st.accounts, u, c) then
        var delta := capped - GetBalance(st.accounts, u, c);
        TransactionResult(u, c, Abs(delta), SUCCESS, if delta >= 0.0 then DEPOSIT else WITHDRAW)
      else
        TransactionResult(u, c, 0.0, FAILED, DEPOSIT);
    var accounts :=
      if HasBalance(st.accounts, u, c) then WithBalance(st.accounts, u, c, Trunc2(capped)) else st.accounts;
    TxOutcome(LedgerState(accounts, st.events + [TransactionEvent(r)]), r)
  }

  /** `resetBalance`: set the balance back to the currency's starting balance. */
  function ResetBalance(st: LedgerState, cap: real, u: Uuid, c: Currency): (o: TxOutcome)
    ensures HasBalance(st.accounts, u, c.id) ==>
      o.result.result == SUCCESS && GetBalance(o.state.accounts, u, c.id) == Trunc2(Min(c.startingBalance, cap))
    ensures !HasBalance(st.accounts, u, c.id) ==> o.state.accounts == st.accounts && o.result.result == FAILED
  {
    SetBalance(st, cap, u, c.id, c.startingBalance)
  }

  /** `deposit`: set the balance to the current balance plus `amount`. */
  function Deposit(st: LedgerState, cap: real, u: Uuid, c: CurrencyId, amount: real): (o: TxOutcome)
    ensures HasBalance(st.accounts, u, c) ==>
      o.result.result == SUCCESS &&
      GetBalance(o.state.accounts, u, c) == Trunc2(Min(GetBalance(st.accounts, u, c) + amount, cap))
    ensures HasBalance(st.accounts, u, c) && 0.0 <= amount && GetBalance(st.accounts, u, c) <= cap ==>
      o.result.kind == DEPOSIT
    ensures !HasBalance(st.accounts, u, c) ==> o.state.accounts == st.accounts && o.result.result == FAILED
  {
    SetBalance(st, cap, u, c, GetBalance(st.accounts, u, c) + amount)
  }

  /**
   * `withdraw`: when the current balance minus `amount` is negative the
   * result is ACCOUNT_NO_FUNDS, nothing is stored and nothing is posted;
   * otherwise the balance is set to the difference.
   */
  function Withdraw(st: LedgerState, cap: real, u: Uuid, c: CurrencyId, amount: real): (o: TxOutcome)
    ensures var cur := GetBalance(st.accounts, u, c);
      cur - amount < 0.0 ==>
        o.state == st && o.result == TransactionResult(u, c, amount, ACCOUNT_NO_FUNDS, WITHDRAW)
    ensures var cur := GetBalance(st.accounts, u, c);
      cur - amount >= 0.0 && HasBalance(st.accounts, u, c) ==>
        o.result.result == SUCCESS && GetBalance(o.state.accounts, u, c) == Trunc2(Min(cur - amount, cap))
    ensures var cur := GetBalance(st.accounts, u, c);
      cur - amount >= 0.0 && HasBalance(st.accounts, u, c) && 0.0 <= cap ==>
        0.0 <= GetBalance(o.state.accounts, u, c) <= cap
    ensures !HasBalance(st.accounts, u, c) ==> o.state.accounts == st.accounts && o.result.result != SUCCESS
  {
    var newBalance := GetBalance(st.accounts, u, c) - amount;
    if newBalance >= 0.0 then SetBalance(st, cap, u, c, newBalance)
    else TxOutcome(st, TransactionResult(u, c, amount, ACCOUNT_NO_FUNDS, WITHDRAW))
  }

  /**
   * `transfer`: fails without a source record, reports ACCOUNT_NO_FUNDS when
   * the source cannot cover `amount`, and otherwise withdraws from the
   * source first. Only then is the destination checked: without a
   * destination record the source stays debited and FAILED is reported;
   * with one the amount is deposited and SUCCESS is reported whatever the
   * deposit returned.
   */
  function Transfer(st: LedgerState, cap: real, from: Uuid, to: Uuid, c: CurrencyId, amount: real): (o: TransferOutcome)
    ensures o.result == TransferResult(from, to, c, amount, o.result.result)
    ensures |o.state.events| > |st.events| && o.state.events[..|st.events|] == st.events
    ensures o.state.events[|o.state.events| - 1] == TransferEvent(o.result)
    ensures forall k :: |st.events| <= k < |o.state.events| - 1 ==> o.state.events[k].TransactionEvent?
    ensures !HasBalance(st.accounts, from, c) ==> |o.state.events| == |st.events| + 1
    ensures HasBalance(st.accounts, from, c) && GetBalance(st.accounts, from, c) - amount < 0.0 ==>
      |o.state.events| == |st.events| + 1
    ensures var cur := GetBalance(st.accounts, from, c);
      var debited := WithBalance(st.accounts, from, c, Trunc2(Min(cur - amount, cap)));
      HasBalance(st.accounts, from, c) && cur - amount >= 0.0 && HasBalance(st.accounts, to, c) ==>
        && o.result.result == SUCCESS
        && |o.state.events| == |st.events| + 3
        && o.state.accounts == WithBalance(debited, to, c, Trunc2(Min(GetBalance(debited, to, c) + amount, cap)))
    ensures var cur := GetBalance(st.accounts, from, c);
      HasBalance(st.accounts, from, c) && cur - amount >= 0.0 && !HasBalance(st.accounts, to, c) ==>
        |o.state.events| == |st.events| + 2
    ensures !HasBalance(st.accounts, from, c) ==> o.result.result == FAILED && o.state.accounts == st.accounts
    ensures HasBalance(st.accounts, from, c) && GetBalance(st.accounts, from, c) - amount < 0.0 ==>
      o.result.result == ACCOUNT_NO_FUNDS && o.state.accounts == st.accounts
    ensures var cur := GetBalance(st.accounts, from, c);
      HasBalance(st.accounts, from, c) && cur - amount >= 0.0 && !HasBalance(st.accounts, to, c) ==>
        && o.result.result == FAILED
        && o.state.accounts == WithBalance(st.accounts, from, c, Trunc2(Min(cur - amount, cap)))
    ensures var cur := GetBalance(st.accounts, from, c);
      HasBalance(st.accounts, from, c) && cur - amount >= 0.0 && HasBalance(st.accounts, to, c) && from != to ==>
        && o.result.result == SUCCESS
        && GetBalance(o.state.accounts, from, c) == Trunc2(Min(cur - amount, cap))
        && GetBalance(o.state.accounts, to, c) == Trunc2(Min(GetBalance(st.accounts, to, c) + amount, cap))
  {
    var post := (s: LedgerState, r: ResultType) =>
      TransferOutcome(LedgerState(s.accounts, s.events + [TransferEvent(TransferResult(from, to, c, amount, r))]),
                      TransferResult(from, to, c, amount, r));
    if HasBalance(st.accounts, from, c) then
      var newBalance := GetBalance(st.accounts, from, c) - amount;
      if newBalance >= 0.0 then
        var w := Withdraw(st, cap, from, c, amount);
        if HasBalance(w.state.accounts, to, c) then
          var d := Deposit(w.state, cap, to, c, amount);
          post(d.state, SUCCESS)
        else
          post(w.state, FAILED)
      else
        post(st, ACCOUNT_NO_FUNDS)
    else
      post(st, FAILED)
  }

  /** `getBalances`: every listed currency mapped to its balance. */
  function GetBalances(s: Store, u: Uuid, currencies: seq<Currency>): (m: map<CurrencyId, real>)
    ensures m.Keys == set i | 0 <= i < |currencies| :: currencies[i].id
    ensures forall id :: id in m ==> m[id] == GetBalance(s, u, id)
  {
    map i | 0 <= i < |currencies| :: currencies[i].id := GetBalance(s, u, currencies[i].id)
  }

  datatype ResetAllOutcome = ResetAllOutcome(state: LedgerState, results: map<CurrencyId, TransactionResult>)

  /** No later currency in the list has the same id as the one at `k`. */
  predicate LastOfId(currencies: seq<Currency>, k: nat)
    requires k < |currencies|
  {
    forall j :: k < j < |currencies| ==> currencies[j].id != currencies[k].id
  }

  /**
   * What resetting `currencies` in order does to the tree: no balance node
   * appears or disappears; each listed currency the account has a node for
   * is reset to its (last listed) starting balance, clamped and truncated,
   * and reports SUCCESS, one without a node reports FAILED; every other
   * balance is unchanged.
   */
  ghost predicate ResetEffect(st: LedgerState, cap: real, u: Uuid, currencies: seq<Currency>, o: ResetAllOutcome) {
    && o.results.Keys == (set i | 0 <= i < |currencies| :: currencies[i].id)
    && |o.state.events| == |st.events| + |currencies| && o.state.events[..|st.events|] == st.events
    && ResetFrame(st, u, o)
    && ResetResults(st, cap, u, currencies, o)
  }

  /** No balance node appears or disappears, and only the account's reset currencies change. */
  ghost predicate ResetFrame(st: LedgerState, u: Uuid, o: ResetAllOutcome) {
    && (forall u', c' :: HasBalance(o.state.accounts, u', c') == HasBalance(st.accounts, u', c'))
    && (forall u', c' :: (u' != u || c' !in o.results) ==>
          GetBalance(o.state.accounts, u', c') == GetBalance(st.accounts, u', c'))
  }

  /** Every listed currency, at its last listing, shows the effect of its reset. */
  ghost predicate ResetResults(st: LedgerState, cap: real, u: Uuid, currencies: seq<Currency>, o: ResetAllOutcome) {
    forall k :: 0 <= k < |currencies| && LastOfId(currencies, k) ==> ResetAt(st, cap, u, currencies[k], o)
  }

  /**
   * What a reset does for one currency `c`: with a balance node, SUCCESS and
   * the clamped, truncated starting balance; without one, FAILED.
   */
  ghost predicate ResetAt(st: LedgerState, cap: real, u: Uuid, c: Currency, o: ResetAllOutcome) {
    && c.id in o.results
    && (HasBalance(st.accounts, u, c.id) ==>
          o.results[c.id].result == SUCCESS &&
          GetBalance(o.state.accounts, u, c.id) == Trunc2(Min(c.startingBalance, cap)))
    && (!HasBalance(st.accounts, u, c.id) ==> o.results[c.id].result == FAILED)
  }

  /** `resetBalances`: resetBalance for each currency in registry order. */
  function ResetBalances(st: LedgerState, cap: real, u: Uuid, currencies: seq<Currency>): (o: ResetAllOutcome)
    ensures ResetEffect(st, cap, u, currencies, o)
  {
    if currencies == [] then ResetAllOutcome(st, map[])
    else
      var last := currencies[|currencies| - 1];
      var prev := ResetBalances(st, cap, u, currencies[..|currencies| - 1]);
      var r := ResetBalance(prev.state, cap, u, last);
      var o := ResetAllOutcome(r.state, prev.results[last.id := r.result]);
      ResetBalancesStep(st, cap, u, currencies, prev, r);
      o
  }

  /** Resetting one more currency is one more `resetBalance` after the shorter list. */
  lemma ResetBalancesSnoc(st: LedgerState, cap: real, u: Uuid, currencies: seq<Currency>, i: nat)
    requires i < |currencies|
    ensures var prev := ResetBalances(st, cap, u, currencies[..i]);
      var r := ResetBalance(prev.state, cap, u, currencies[i]);
      ResetBalances(st, cap, u, currencies[..i + 1]) == ResetAllOutcome(r.state, prev.results[currencies[i].id := r.result])
  {
    assert currencies[..i + 1][..i] == currencies[..i];
  }

  /** One more reset at the end of the list extends the effect of the shorter list. */
  lemma ResetBalancesStep(st: LedgerState, cap: real, u: Uuid, currencies: seq<Currency>, prev: ResetAllOutcome, r: TxOutcome)
    requires |currencies| > 0
    requires ResetEffect(st, cap, u, currencies[..|currencies| - 1], prev)
    requires r == ResetBalance(prev.state, cap, u, currencies[|currencies| - 1])
    ensures ResetEffect(st, cap, u, currencies, ResetAllOutcome(r.state, prev.results[currencies[|currencies| - 1].id := r.result]))
  {
    var n := |currencies| - 1;
    var last := currencies[n];
    var o := ResetAllOutcome(r.state, prev.results[last.id := r.result]);
    ResetKeysStep(currencies, currencies[..n], prev.results, r.result);
    assert o.state.events[..|st.events|] == st.events by {
      assert r.state.events == prev.state.events + [TransactionEvent(r.result)];
    }
    ResetFrameStep(st, cap, u, last, prev, r);
    ResetResultsStep(st, cap, u, currencies, prev, r);
  }

  lemma ResetKeysStep(currencies: seq<Currency>, prefix: seq<Currency>, results: map<CurrencyId, TransactionResult>, x: TransactionResult)
    requires |currencies| > 0 && prefix == currencies[..|currencies| - 1]
    requires results.Keys == (set i | 0 <= i < |prefix| :: prefix[i].id)
    ensures results[currencies[|currencies| - 1].id := x].Keys == (set i | 0 <= i < |currencies| :: currencies[i].id)
  {
    assert forall i :: 0 <= i < |prefix| ==> prefix[i] == currencies[i];
  }

  lemma ResetFrameStep(st: LedgerState, cap: real, u: Uuid, last: Currency, prev: ResetAllOutcome, r: TxOutcome)
    requires ResetFrame(st, u, prev)
    requires r == ResetBalance(prev.state, cap, u, last)
    ensures ResetFrame(st, u, ResetAllOutcome(r.state, prev.results[last.id := r.result]))
  {
  }

  lemma ResetResultsStep(st: LedgerState, cap: real, u: Uuid, currencies: seq<Currency>, prev: ResetAllOutcome, r: TxOutcome)
    requires |currencies| > 0
    requires ResetResults(st, cap, u, currencies[..|currencies| - 1], prev)
    requires HasBalance(prev.state.accounts, u, currencies[|currencies| - 1].id) == HasBalance(st.accounts, u, currencies[|currencies| - 1].id)
    requires r == ResetBalance(prev.state, cap, u, currencies[|currencies| - 1])
    ensures ResetResults(st, cap, u, currencies, ResetAllOutcome(r.state, prev.results[currencies[|currencies| - 1].id := r.result]))
  {
    var n := |currencies| - 1;
    var last := currencies[n];
    var o := ResetAllOutcome(r.state, prev.results[last.id := r.result]);
    forall k | 0 <= k < |currencies| && LastOfId(currencies, k)
      ensures ResetAt(st, cap, u, currencies[k], o)
    {
      if k < n {
        ResetBalancesStepEarlier(st, cap, u, currencies, prev, k);
        ResetKeepsOther(st, cap, u, last, currencies[k], prev, r);
      } else {
        ResetLast(st, cap, u, last, prev, r);
      }
    }
  }

  /** A listing before the last, with no later listing of its id, keeps what the shorter list gave it. */
  lemma ResetBalancesStepEarlier(st: LedgerState, cap: real, u: Uuid, currencies: seq<Currency>, prev: ResetAllOutcome, k: nat)
    requires k < |currencies| - 1 && LastOfId(currencies, k)
    requires ResetResults(st, cap, u, currencies[..|currencies| - 1], prev)
    ensures currencies[k].id != currencies[|currencies| - 1].id
    ensures ResetAt(st, cap, u, currencies[k], prev)
  {
    var n := |currencies| - 1;
    var prefix := currencies[..n];
    assert prefix[k] == currencies[k];
    assert LastOfId(prefix, k) by {
      forall j | k < j < n ensures prefix[j].id != prefix[k].id {
        assert prefix[j] == currencies[j];
      }
    }
  }

  /** Resetting another currency keeps what was established for `c`. */
  lemma ResetKeepsOther(st: LedgerState, cap: real, u: Uuid, last: Currency, c: Currency, prev: ResetAllOutcome, r: TxOutcome)
    requires c.id != last.id && ResetAt(st, cap, u, c, prev)
    requires r == ResetBalance(prev.state, cap, u, last)
    ensures ResetAt(st, cap, u, c, ResetAllOutcome(r.state, prev.results[last.id := r.result]))
  {
    assert GetBalance(r.state.accounts, u, c.id) == GetBalance(prev.state.accounts, u, c.id);
  }

  /** The last reset establishes its own currency's result and balance. */
  lemma ResetLast(st: LedgerState, cap: real, u: Uuid, last: Currency, prev: ResetAllOutcome, r: TxOutcome)
    requires HasBalance(prev.state.accounts, u, last.id) == HasBalance(st.accounts, u, last.id)
    requires r == ResetBalance(prev.state, cap, u, last)
    ensures ResetAt(st, cap, u, last, ResetAllOutcome(r.state, prev.results[last.id := r.result]))
  {
  }

  // ------------------------------------------------------------------- jobs

  const Unemployed: string := "unemployed"

  function Stats(s: Store, u: Uuid, job: string): JobStats {
    var rec := Record(s, u);
    if job in rec.jobStats then rec.jobStats[job] else JobStats(None, None)
  }

  /** The tree with one job's stats node replaced. */
  function WithStats(s: Store, u: Uuid, job: string, js: JobStats): (s': Store)
    ensures Stats(s', u, job) == js
    ensures forall j :: j != job ==> Stats(s', u, j) == Stats(s, u, j)
    ensures forall u' :: u' != u ==> Record(s', u') == Record(s, u')
    ensures Record(s', u).(jobStats := map[]) == Record(s, u).(jobStats := map[])
  {
    var rec := Record(s, u);
    s[u := rec.(jobStats := rec.jobStats[job := js])]
  }

  /** `getCurrentJobName`: the stored job, lower-cased, "unemployed" when absent. */
  function GetCurrentJobName(s: Store, u: Uuid): (r: string)
    ensures IsLowerCase(r)
  {
    ToLower(Record(s, u).job.GetOr(Unemployed))
  }

  /** `hasJobNotifications`: on unless switched off. */
  function HasJobNotifications(s: Store, u: Uuid): (r: bool)
    ensures r <==> Record(s, u).jobNotifications != Some(false)
  {
    Record(s, u).jobNotifications.GetOr(true)
  }

  /** `getJobLevel`: for the lower-cased job; 1 for "unemployed" or an absent level. */
  function GetJobLevel(s: Store, u: Uuid, jobName: string): (r: Int32)
    ensures ToLower(jobName) == Unemployed ==> r == 1
    ensures ToLower(jobName) != Unemployed ==> r == Stats(s, u, ToLower(jobName)).level.GetOr(1)
  {
    var job := ToLower(jobName);
    if job == Unemployed then 1 else Stats(s, u, job).level.GetOr(1)
  }

  /** `getJobExp`: for the lower-cased job; 0 for "unemployed" or an absent exp. */
  function GetJobExp(s: Store, u: Uuid, jobName: string): (r: Int32)
    ensures ToLower(jobName) == Unemployed ==> r == 0
    ensures ToLower(jobName) != Unemployed ==> r == Stats(s, u, ToLower(jobName)).exp.GetOr(0)
  {
    var job := ToLower(jobName);
    if job == Unemployed then 0 else Stats(s, u, job).exp.GetOr(0)
  }

  /** `getCurrentJobLevel`. */
  function GetCurrentJobLevel(s: Store, u: Uuid): (r: Int32)
    ensures r == GetJobLevel(s, u, GetCurrentJobName(s, u))
  {
    var job := GetCurrentJobName(s, u);
    ToLowerFixedPoints(job);
    if job == Unemployed then 1 else Stats(s, u, job).level.GetOr(1)
  }

  /** `getCurrentJobExp`. */
  function GetCurrentJobExp(s: Store, u: Uuid): (r: Int32)
    ensures r == GetJobExp(s, u, GetCurrentJobName(s, u))
  {
    var job := GetCurrentJobName(s, u);
    ToLowerFixedPoints(job);
    if job == Unemployed then 0 else Stats(s, u, job).exp.GetOr(0)
  }

  datatype JobWrite = JobWrite(accounts: Store, ok: bool)

  /**
   * `setCurrentJob`: stores the lower-cased name as the job and writes that
   * job's level and exp back, 1 and 0 when absent. The tree is changed in
   * memory before it is saved, so a failed save (`saveFails`) still leaves
   * the change in place and only the returned flag is false.
   */
  function SetCurrentJob(s: Store, u: Uuid, jobName: string, saveFails: bool): (o: JobWrite)
    ensures o.ok == !saveFails
    ensures GetCurrentJobName(o.accounts, u) == ToLower(jobName)
    ensures var job := ToLower(jobName);
      Stats(o.accounts, u, job) == JobStats(Some(Stats(s, u, job).level.GetOr(1)), Some(Stats(s, u, job).exp.GetOr(0)))
    ensures forall j :: j != ToLower(jobName) ==> Stats(o.accounts, u, j) == Stats(s, u, j)
    ensures forall u' :: u' != u ==> Record(o.accounts, u') == Record(s, u')
    ensures Record(o.accounts, u).balances == Record(s, u).balances
    ensures Record(o.accounts, u).jobNotifications == Record(s, u).jobNotifications
  {
    var job := ToLower(jobName);
    ToLowerIdempotent(jobName);
    var rec := Record(s, u);
    var prior := Stats(s, u, job);
    var s1 := s[u := rec.(job := Some(job))];
    var s2 := WithStats(s1, u, job, JobStats(Some(prior.level.GetOr(1)), prior.exp));
    var s3 := WithStats(s2, u, job, JobStats(Some(prior.level.GetOr(1)), Some(prior.exp.GetOr(0))));
    JobWrite(s3, !saveFails)
  }

  /** `setCurrentJobLevel`: writes the level node of the current job. */
  function SetCurrentJobLevel(s: Store, u: Uuid, level: Int32): (s': Store)
    ensures GetCurrentJobName(s', u) == GetCurrentJobName(s, u)
    ensures GetCurrentJobName(s, u) != Unemployed ==> GetCurrentJobLevel(s', u) == level
    ensures GetCurrentJobExp(s', u) == GetCurrentJobExp(s, u)
    ensures forall j :: j != GetCurrentJobName(s, u) ==> Stats(s', u, j) == Stats(s, u, j)
    ensures forall u' :: u' != u ==> Record(s', u') == Record(s, u')
    ensures Stats(s', u, GetCurrentJobName(s, u)) == Stats(s, u, GetCurrentJobName(s, u)).(level := Some(level))
    ensures Record(s', u).balances == Record(s, u).balances
    ensures Record(s', u).jobNotifications == Record(s, u).jobNotifications
  {
    var job := GetCurrentJobName(s, u);
    WithStats(s, u, job, Stats(s, u, job).(level := Some(level)))
  }

  /**
   * `addExpToCurrentJob`: writes current exp plus `exp`, in Java `int`
   * arithmetic, to the current job's exp node. For "unemployed" the current
   * exp reads as 0, so the node receives `exp` itself.
   */
  function AddExpToCurrentJob(s: Store, u: Uuid, exp: Int32): (s': Store)
    ensures GetCurrentJobName(s', u) == GetCurrentJobName(s, u)
    ensures Stats(s', u, GetCurrentJobName(s, u)).exp == Some(Wrap32(GetCurrentJobExp(s, u) + exp))
    ensures Stats(s', u, GetCurrentJobName(s, u)).level == Stats(s, u, GetCurrentJobName(s, u)).level
    ensures forall j :: j != GetCurrentJobName(s, u) ==> Stats(s', u, j) == Stats(s, u, j)
    ensures forall u' :: u' != u ==> Record(s', u') == Record(s, u')
    ensures Record(s', u).balances == Record(s, u).balances
  {
    var job := GetCurrentJobName(s, u);
    var curExp := GetCurrentJobExp(s, u);
    WithStats(s, u, job, Stats(s, u, job).(exp := Some(Wrap32(curExp + exp))))
  }
}
