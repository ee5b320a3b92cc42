/**
 * commands/BalanceTopCommand.java, document-tree branch: a top-10
 * leaderboard that is recomputed at most once a minute. A request inside
 * the interval is answered from the cached rows; a later one schedules a
 * recompute, which is skipped while another is still running.
 */
module BalanceTop {
  import opened Optional
  import opened StringUtils
  import opened Ledger

  /** `BALTOP_CHECK_TIME`: one minute, in milliseconds. */
  const BaltopCheckTime: int := 1000 * 60 * 1

  /** How many rows a snapshot keeps. */
  const TopCount: nat := 10

  /** `getDisplayName` for an account whose user cannot be found. */
  const UnknownPlayerName: string := "PLAYER NAME"

  /** A leaderboard row: display name and balance. */
  type Row = (string, real)

  /** One child of the account tree as the recompute sees it. */
  datatype AccountEntry = AccountEntry(key: string, displayName: string, balance: real)

  // ------------------------------------------------------------ account keys

  predicate IsHexDigit(c: char) {
    '0' <= c <= '9' || 'a' <= c <= 'f' || 'A' <= c <= 'F'
  }

  /** The 8-4-4-4-12 hexadecimal form that `UUID.fromString` parses. */
  predicate IsUuid(s: string) {
    |s| == 36 &&
    forall i :: 0 <= i < 36 ==> if i == 8 || i == 13 || i == 18 || i == 23 then s[i] == '-' else IsHexDigit(s[i])
  }

  /** A player's account key is kept; a virtual account's name is skipped. */
  lemma UuidExamples()
    ensures IsUuid("123e4567-e89b-12d3-a456-426614174000")
    ensures !IsUuid("town-bank") && !IsUuid("")
  {
    var u := "123e4567-e89b-12d3-a456-426614174000";
    forall i | 0 <= i < 36
      ensures if i == 8 || i == 13 || i == 18 || i == 23 then u[i] == '-' else IsHexDigit(u[i])
    {
    }
  }

  lemma CharToLowerKeepsClass(c: char)
    ensures IsHexDigit(CharToLower(c)) <==> IsHexDigit(c)
    ensures CharToLower(c) == '-' <==> c == '-'
  {
  }

  /** Lower-casing a key, as printing its parsed UUID does, keeps it a UUID and keeps anything else out. */
  lemma UuidIgnoresCase(s: string)
    ensures IsUuid(ToLower(s)) <==> IsUuid(s)
  {
    forall i | 0 <= i < |s| {
      CharToLowerKeepsClass(s[i]);
    }
  }

  /** `getDisplayName`: the user's name, or a placeholder when there is no such user. */
  function DisplayName(user: Option<string>): (r: string)
    ensures user.Some? ==> r == user.value
    ensures user.None? ==> r == UnknownPlayerName
  {
    user.GetOr(UnknownPlayerName)
  }

  /**
   * The entries of a scan of the account tree: each key with the display
   * name and the `currency` balance of the account its UUID names (a parsed
   * UUID prints in lower case).
   */
  function EntriesFrom(keys: seq<string>, s: Store, currency: CurrencyId, userName: string -> Option<string>): (r: seq<AccountEntry>)
    ensures |r| == |keys|
    ensures forall i :: 0 <= i < |keys| ==>
      r[i] == AccountEntry(keys[i], DisplayName(userName(ToLower(keys[i]))), GetBalance(s, ToLower(keys[i]), currency))
  {
    seq(|keys|, i requires 0 <= i < |keys| =>
      AccountEntry(keys[i], DisplayName(userName(ToLower(keys[i]))), GetBalance(s, ToLower(keys[i]), currency)))
  }

  // ------------------------------------------------------- collapsing by name

  /**
   * The name-to-balance map the scan fills: entries whose key is not a UUID
   * are skipped, and a later entry overwrites an earlier one of the same name.
   */
  function Collapse(entries: seq<AccountEntry>): (m: map<string, real>)
    ensures m.Keys == set k | 0 <= k < |entries| && IsUuid(entries[k].key) :: entries[k].displayName
  {
    if entries == [] then map[]
    else
      var last := entries[|entries| - 1];
      var prefix := entries[..|entries| - 1];
      var m := Collapse(prefix);
      assert forall k :: 0 <= k < |prefix| ==> prefix[k] == entries[k];
      if IsUuid(last.key) then m[last.displayName := last.balance] else m
  }

  /** A name holds the balance of the last UUID entry with that name. */
  lemma {:induction false} CollapseLastWins(entries: seq<AccountEntry>, k: nat)
    requires k < |entries| && IsUuid(entries[k].key)
    requires forall j :: k < j < |entries| && IsUuid(entries[j].key) ==> entries[j].displayName != entries[k].displayName
    ensures Collapse(entries)[entries[k].displayName] == entries[k].balance
  {
    if k < |entries| - 1 {
      var prefix := entries[..|entries| - 1];
      assert prefix[k] == entries[k];
      CollapseLastWins(prefix, k);
    }
  }

  /** Appending a key that is not a UUID changes nothing. */
  lemma CollapseSkipsNonUuid(entries: seq<AccountEntry>, e: AccountEntry)
    requires !IsUuid(e.key)
    ensures Collapse(entries + [e]) == Collapse(entries)
  {
    assert (entries + [e])[..|entries|] == entries;
  }

  /**
   * The name-to-balance map a recompute builds from the account tree's keys
   * `keys`, the stored accounts `s` and the user lookup `userName`, for the
   * balances of `currency`.
   */
  function Standings(keys: seq<string>, s: Store, currency: CurrencyId, userName: string -> Option<string>): map<string, real> {
    Collapse(EntriesFrom(keys, s, currency, userName))
  }

  /** The names on the board are exactly the display names of the keys that parse as UUIDs. */
  lemma StandingsNames(keys: seq<string>, s: Store, currency: CurrencyId, userName: string -> Option<string>)
    ensures Standings(keys, s, currency, userName).Keys ==
      set k | 0 <= k < |keys| && IsUuid(keys[k]) :: DisplayName(userName(ToLower(keys[k])))
  {
    var e := EntriesFrom(keys, s, currency, userName);
    assert forall k :: 0 <= k < |keys| ==> e[k].key == keys[k] && e[k].displayName == DisplayName(userName(ToLower(keys[k])));
  }

  /** A name holds the ledger balance of the last UUID key that shows that name. */
  lemma StandingsBalance(keys: seq<string>, s: Store, currency: CurrencyId, userName: string -> Option<string>, k: nat)
    requires k < |keys| && IsUuid(keys[k])
    requires forall j :: k < j < |keys| && IsUuid(keys[j]) ==>
      DisplayName(userName(ToLower(keys[j]))) != DisplayName(userName(ToLower(keys[k])))
    ensures Standings(keys, s, currency, userName)[DisplayName(userName(ToLower(keys[k])))] == GetBalance(s, ToLower(keys[k]), currency)
  {
    CollapseLastWins(EntriesFrom(keys, s, currency, userName), k);
  }

  /** One more key: a UUID key puts (or overwrites) its name, any other key is skipped. */
  lemma StandingsSnoc(keys: seq<string>, s: Store, currency: CurrencyId, userName: string -> Option<string>, i: nat)
    requires i < |keys|
    ensures Standings(keys[..i + 1], s, currency, userName) ==
      if IsUuid(keys[i]) then
        Standings(keys[..i], s, currency, userName)[DisplayName(userName(ToLower(keys[i]))) := GetBalance(s, ToLower(keys[i]), currency)]
      else Standings(keys[..i], s, currency, userName)
  {
    var e := EntriesFrom(keys[..i + 1], s, currency, userName);
    assert e[..i] == EntriesFrom(keys[..i], s, currency, userName);
  }

  // -------------------------------------------------------------- ordering

  predicate SortedDesc(rows: seq<Row>) {
    forall i, j :: 0 <= i < j < |rows| ==> rows[i].1 >= rows[j].1
  }

  function Names(rows: seq<Row>): set<string> {
    set i | 0 <= i < |rows| :: rows[i].0
  }

  /** Where a row of balance `b` goes: after every row at least as rich (so ties keep their order). */
  function InsertPos(rows: seq<Row>, b: real): (p: nat)
    ensures p <= |rows|
    ensures forall i :: 0 <= i < p ==> rows[i].1 >= b
    ensures p < |rows| ==> rows[p].1 < b
  {
    if rows == [] || rows[0].1 < b then 0 else 1 + InsertPos(rows[1..], b)
  }

  function InsertDesc(rows: seq<Row>, e: Row): (r: seq<Row>)
    requires SortedDesc(rows)
    ensures |r| == |rows| + 1 && SortedDesc(r)
    ensures exists p :: 0 <= p <= |rows| && r == rows[..p] + [e] + rows[p..]
  {
    var p := InsertPos(rows, e.1);
    var r := rows[..p] + [e] + rows[p..];
    assert forall i :: 0 <= i < |r| ==> r[i] == if i < p then rows[i] else if i == p then e else rows[i - 1];
    r
  }

  /**
   * The rows are the `n` richest entries of `m`: as many as `m` has up to
   * `n`, richest first, each a real entry of `m` under a distinct name, and
   * no name left out is richer than the last row.
   */
  ghost predicate IsTopSnapshot(rows: seq<Row>, m: map<string, real>, n: nat) {
    && |rows| == (if |m.Keys| < n then |m.Keys| else n)
    && SortedDesc(rows)
    && (forall i :: 0 <= i < |rows| ==> rows[i].0 in m && m[rows[i].0] == rows[i].1)
    && (forall i, j :: 0 <= i < j < |rows| ==> rows[i].0 != rows[j].0)
    && (forall name :: name in m && name !in Names(rows) ==> 0 < |rows| && m[name] <= rows[|rows| - 1].1)
  }

  /** `needToCalculateAgain`: more than a minute, counted in milliseconds, since the last recompute. */
  predicate NeedToCalculateAgain(lastCheck: int, now: int): (r: bool)
    ensures r <==> now > lastCheck + 60 * 1000
  {
    now - lastCheck > BaltopCheckTime
  }

  /** What `execute` does: answer from the cache, or schedule the recompute task. */
  datatype Reply = SentCached(rows: seq<Row>) | ScheduledRecompute(currency: Currency)

  /** What the scheduled task does: tell the sender to wait, or send fresh rows. */
  datatype TaskReply = StillCalculatingNotice | SentRecomputed(rows: seq<Row>)

  class BalanceTopCommand {
    var lastCheck: int
    var stillCalculating: bool
    var accountBalancesMap: map<string, real>
    var accountBalances: seq<Row>
    /** `richestGuy`: the name at the top of the last non-empty recompute. */
    var richestGuy: string

    constructor ()
      ensures lastCheck == 0 && !stillCalculating && accountBalancesMap == map[] && accountBalances == [] && richestGuy == ""
    {
      lastCheck := 0;
      stillCalculating := false;
      accountBalancesMap := map[];
      accountBalances := [];
      richestGuy := "";
    }

    /**
     * `execute` (document branch) at time `now` with the optional currency
     * argument: while the cache is fresh the cached rows are sent as they
     * are, whichever currency they were computed for; otherwise the task is
     * scheduled with the chosen currency.
     */
    method Execute(now: int, currencyArg: Option<string>, registry: map<string, Currency>, default: Currency) returns (reply: Reply)
      ensures reply.ScheduledRecompute? <==> NeedToCalculateAgain(lastCheck, now)
      ensures reply.ScheduledRecompute? ==> reply.currency == ChooseCurrency(currencyArg, registry, default)
      ensures reply.SentCached? ==> reply.rows == accountBalances
    {
      var currency := ChooseCurrency(currencyArg, registry, default);
      if NeedToCalculateAgain(lastCheck, now) {
        return ScheduledRecompute(currency);
      }
      return SentCached(accountBalances);
    }

    /** The scheduled task: skipped while a recompute is running; otherwise recompute and send. */
    method RunTask(now: int, keys: seq<string>, s: Store, currency: Currency, userName: string -> Option<string>) returns (reply: TaskReply)
      modifies this
      ensures old(stillCalculating) ==> reply == StillCalculatingNotice && unchanged(this)
      ensures !old(stillCalculating) ==>
        reply == SentRecomputed(accountBalances) && Recomputed(now, keys, s, currency, userName, old(richestGuy))
    {
      if stillCalculating {
        return StillCalculatingNotice;
      }
      CalculateBalTop(now, keys, s, currency, userName);
      return SentRecomputed(accountBalances);
    }

    /** The state a recompute at `now` over the account tree leaves. */
    ghost predicate Recomputed(now: int, keys: seq<string>, s: Store, currency: Currency, userName: string -> Option<string>, previousRichest: string)
      reads this
    {
      && lastCheck == now
      && !stillCalculating
      && accountBalancesMap == Standings(keys, s, currency.id, userName)
      && IsTopSnapshot(accountBalances, accountBalancesMap, TopCount)
      && richestGuy == (if accountBalances != [] then accountBalances[0].0 else previousRichest)
    }

    /**
     * `calculateBalTop`: marks itself running and stamps the time, fills the
     * name-to-balance map from the account tree, then appends the ten
     * richest rows, remembering the first as the richest player.
     */
    method CalculateBalTop(now: int, keys: seq<string>, s: Store, currency: Currency, userName: string -> Option<string>)
      modifies this
      ensures Recomputed(now, keys, s, currency, userName, old(richestGuy))
      ensures |accountBalancesMap| > 0 ==> accountBalances != []
      ensures forall t :: NeedToCalculateAgain(lastCheck, t) <==> t > now + BaltopCheckTime
    {
      stillCalculating := true;
      lastCheck := now;
      accountBalances := [];
      accountBalancesMap := map[];
      accountBalancesMap := ScanAccounts(keys, s, currency.id, userName);
      var m := accountBalancesMap;
      var sorted := SortByBalance(m);

      // The first ten rows, the first of them naming the richest player.
      var firstAchieved := false;
      var n := 0;
      while n < |sorted| && n < TopCount
        invariant 0 <= n <= |sorted| && n <= TopCount
        invariant accountBalances == sorted[..n]
        invariant firstAchieved <==> n > 0
        invariant richestGuy == if n > 0 then sorted[0].0 else old(richestGuy)
        invariant stillCalculating && lastCheck == now && accountBalancesMap == m
      {
        if !firstAchieved {
          firstAchieved := true;
          richestGuy := sorted[n].0;
        }
        assert sorted[..n + 1] == sorted[..n] + [sorted[n]];
        accountBalances := accountBalances + [sorted[n]];
        n := n + 1;
      }
      TopOfSorted(sorted, m, n);
      stillCalculating := false;
    }
  }

  /** The walk over the account tree's keys that `calculateBalTop` runs. */
  method ScanAccounts(keys: seq<string>, s: Store, currency: CurrencyId, userName: string -> Option<string>) returns (m: map<string, real>)
    ensures m == Standings(keys, s, currency, userName)
  {
    m := map[];
    var i := 0;
    while i < |keys|
      invariant 0 <= i <= |keys|
      invariant m == Standings(keys[..i], s, currency, userName)
    {
      StandingsSnoc(keys, s, currency, userName, i);
      if IsUuid(keys[i]) {
        var uuid := ToLower(keys[i]);
        m := m[DisplayName(userName(uuid)) := GetBalance(s, uuid, currency)];
      }
      i := i + 1;
    }
    assert keys[..|keys|] == keys;
  }

  /**
   * The insertion sort's invariant: `sorted` lists, richest first and once
   * each, exactly the entries of `m` whose names are no longer `remaining`.
   */
  ghost predicate SortInv(m: map<string, real>, sorted: seq<Row>, remaining: set<string>) {
    && remaining <= m.Keys
    && SortedDesc(sorted)
    && (forall k :: 0 <= k < |sorted| ==> sorted[k].0 in m && m[sorted[k].0] == sorted[k].1 && sorted[k].0 !in remaining)
    && (forall k, j :: 0 <= k < j < |sorted| ==> sorted[k].0 != sorted[j].0)
    && (forall name :: name in m && name !in remaining ==> name in Names(sorted))
    && |sorted| + |remaining| == |m.Keys|
  }

  /** `r` is `rows` with `e` inserted at position `p`. */
  ghost predicate InsertedAt(rows: seq<Row>, r: seq<Row>, p: nat, e: Row) {
    && p <= |rows| && |r| == |rows| + 1 && r[p] == e
    && (forall k :: 0 <= k < p ==> r[k] == rows[k])
    && (forall k :: p < k < |r| ==> r[k] == rows[k - 1])
  }

  lemma InsertDescShape(rows: seq<Row>, e: Row) returns (p: nat)
    requires SortedDesc(rows)
    ensures InsertedAt(rows, InsertDesc(rows, e), p, e)
  {
    var r := InsertDesc(rows, e);
    p :| 0 <= p <= |rows| && r == rows[..p] + [e] + rows[p..];
  }

  lemma InsertedDistinct(m: map<string, real>, rows: seq<Row>, remaining: set<string>, r: seq<Row>, p: nat, name: string)
    requires SortInv(m, rows, remaining) && name in remaining && InsertedAt(rows, r, p, (name, m[name]))
    ensures forall k, j :: 0 <= k < j < |r| ==> r[k].0 != r[j].0
  {
    forall k, j | 0 <= k < j < |r| ensures r[k].0 != r[j].0 {
      var a := if k < p then k else k - 1;
      var b := if j <= p then j else j - 1;
      if k == p {
        assert r[j] == rows[b] && rows[b].0 !in remaining;
      } else if j == p {
        assert r[k] == rows[a] && rows[a].0 !in remaining;
      } else {
        assert r[k] == rows[a] && r[j] == rows[b] && a < b;
      }
    }
  }

  lemma InsertedNames(m: map<string, real>, rows: seq<Row>, remaining: set<string>, r: seq<Row>, p: nat, name: string)
    requires SortInv(m, rows, remaining) && name in remaining && InsertedAt(rows, r, p, (name, m[name]))
    ensures forall n :: n in m && n !in remaining - {name} ==> n in Names(r)
  {
    forall n | n in m && n !in remaining - {name} ensures n in Names(r) {
      if n == name {
        assert r[p].0 == name;
      } else {
        var k :| 0 <= k < |rows| && rows[k].0 == n;
        var j := if k < p then k else k + 1;
        assert r[j].0 == n;
      }
    }
  }

  /** Inserting one remaining entry keeps the invariant. */
  lemma InsertKeepsSortInv(m: map<string, real>, sorted: seq<Row>, remaining: set<string>, name: string)
    requires SortInv(m, sorted, remaining) && name in remaining
    ensures SortInv(m, InsertDesc(sorted, (name, m[name])), remaining - {name})
  {
    var e := (name, m[name]);
    var r := InsertDesc(sorted, e);
    var rest := remaining - {name};
    var p := InsertDescShape(sorted, e);
    InsertedDistinct(m, sorted, remaining, r, p, name);
    InsertedNames(m, sorted, remaining, r, p, name);
    forall k | 0 <= k < |r|
      ensures r[k].0 in m && m[r[k].0] == r[k].1 && r[k].0 !in rest
    {
    }
    assert |rest| == |remaining| - 1 by {
      assert remaining == rest + {name};
    }
  }

  /** The entries of `m`, taken in whatever order the map yields them, sorted richest first. */
  method SortByBalance(m: map<string, real>) returns (sorted: seq<Row>)
    ensures SortedDesc(sorted) && |sorted| == |m.Keys|
    ensures forall k :: 0 <= k < |sorted| ==> sorted[k].0 in m && m[sorted[k].0] == sorted[k].1
    ensures forall k, j :: 0 <= k < j < |sorted| ==> sorted[k].0 != sorted[j].0
    ensures forall name :: name in m ==> name in Names(sorted)
  {
    sorted := [];
    var remaining := m.Keys;
    while remaining != {}
      invariant SortInv(m, sorted, remaining)
      decreases remaining
    {
      var name :| name in remaining;
      InsertKeepsSortInv(m, sorted, remaining, name);
      sorted := InsertDesc(sorted, (name, m[name]));
      remaining := remaining - {name};
    }
  }

  /** The first `n` rows of a sorted listing of all of `m` are its top snapshot. */
  lemma TopOfSorted(sorted: seq<Row>, m: map<string, real>, n: nat)
    requires SortedDesc(sorted) && |sorted| == |m.Keys|
    requires forall k :: 0 <= k < |sorted| ==> sorted[k].0 in m && m[sorted[k].0] == sorted[k].1
    requires forall k, j :: 0 <= k < j < |sorted| ==> sorted[k].0 != sorted[j].0
    requires forall name :: name in m ==> name in Names(sorted)
    requires n == (if |sorted| < TopCount then |sorted| else TopCount)
    ensures IsTopSnapshot(sorted[..n], m, TopCount)
  {
    var rows := sorted[..n];
    forall name | name in m && name !in Names(rows)
      ensures 0 < |rows| && m[name] <= rows[|rows| - 1].1
    {
      var k :| 0 <= k < |sorted| && sorted[k].0 == name;
      if k < n {
        assert false;
      }
    }
  }

  /** The registry key a currency argument names. */
  function CurrencyKey(name: string): string {
    "totaleconomy:" + ToLower(name)
  }

  /**
   * `execute` picks the currency named by the optional argument (looked up,
   * lower-cased, under the "totaleconomy:" prefix) and falls back to the
   * default currency when it is absent or unknown.
   */
  function ChooseCurrency(arg: Option<string>, registry: map<string, Currency>, default: Currency): (c: Currency)
    ensures c == default || c in registry.Values
    ensures arg.None? ==> c == default
    ensures arg.Some? && CurrencyKey(arg.value) in registry ==> c == registry[CurrencyKey(arg.value)]
    ensures c != default ==> arg.Some? && CurrencyKey(arg.value) in registry
  {
    match arg
    case None => default
    case Some(name) =>
      if CurrencyKey(name) in registry then registry[CurrencyKey(name)] else default
  }

  /** The argument's case does not matter: "Coins" and "coins" choose the same currency. */
  lemma ChooseCurrencyIgnoresCase(name: string, registry: map<string, Currency>, default: Currency)
    ensures ChooseCurrency(Some(name), registry, default) == ChooseCurrency(Some(ToLower(name)), registry, default)
  {
    ToLowerIdempotent(name);
  }
}
