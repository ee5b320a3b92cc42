# TotalEconomy core, modelled in Dafny

TotalEconomy is an economy and jobs plugin for Sponge Minecraft servers.
This project models the core of its document-tree (configuration-file)
backend and proves properties of that model:

- **Accounts** (`config/TEAccount.java`). Each account has one balance per
  currency, a current job, and a level and experience per job. The money
  operations are setBalance, resetBalance(s), deposit, withdraw and transfer.
  Every one of them goes through `setBalance`, which clamps the amount to the
  money cap and truncates it to cents. The job counters are Java `int`s.
  Module `Ledger` defines every operation as a pure function on the whole
  account tree and the event log. Class `TEAccount.AccountStore` holds that
  tree as fields; its methods update them in place, and each method is proved
  to end in exactly the state the `Ledger` function gives.
  `LedgerProperties` proves that balances stay in range over any run of
  operations, how deposits compose, and how job progress evolves.
- **Leaderboard** (`commands/BalanceTopCommand.java`). A top-10 snapshot of
  balances, recomputed at most once a minute. The recompute skips non-UUID
  keys, collapses accounts by display name (the later one wins), sorts richest
  first and keeps ten rows. It is proved to leave a true top-10 of the
  map that the account tree and the ledger's balances give.
- **Job command** (`commands/JobCommand.java`). `set` checks the job's
  requirements before it switches the job; `toggle` validates the option
  name and flips the option's "0"/"1" flag.
- **Job sets** (`jobs/JobSet.java`). The constructor's filtering of
  configured actions, and `getActionFor`'s first-match lookup.
- **Argument helpers** (`FCSpongeUtil.java`). `String.split(" ")`
  exactly as Java does it, the fixed-length argument list, and the
  permission check.
- **`titleize`** (`util/StringUtils.java`).

Decimal balances (`BigDecimal`) are `real`s. `setScale(2, ROUND_DOWN)`
is `Ledger.Trunc2`, which truncates toward zero. Java `int` is
`Ledger.Int32`, and its addition wraps through `Ledger.Wrap32`. Inputs
from outside the core are parameters:

- the clock (`now`);
- a failing save (`saveFails`);
- the user-name lookup;
- the record a new account gets;
- `JobAction.isValid`.

Points where the code behaves differently from what its interfaces suggest
(the model follows the code):

- Sponge's `Account` interface documents `getDefaultBalance` as the balance
  an account reports for a currency it holds nothing in. Here `getBalance` of
  a currency with no balance node is 0, not the currency's starting balance. Only `resetBalance` uses the starting balance
  (`LedgerProperties.MissingBalanceReadsZero`).
- Sequential deposits are not associative in general, because each one is
  truncated to cents. They compose only for whole-cent amounts below the cap
  (`LedgerProperties.SequentialDepositsCompose`).
  `LedgerProperties.SequentialDepositsDoNotComposeInGeneral` gives the
  counterexample.
- A balance stays non-negative only when the amounts set, deposited or
  transferred are non-negative. `setBalance` accepts a negative amount and
  stores it (`LedgerProperties.RunInRange` takes non-negative amounts as a
  precondition).
- `transfer` is not atomic. When the destination has no balance node, the
  source has already been debited and the result is FAILED.
- The leaderboard's cache is not keyed by currency. Inside the one-minute
  interval, a request naming another currency still gets the rows computed
  for the previous one (`BalanceTop.BalanceTopCommand.Execute`).

## Model

| member | source | states |
|---|---|---|
| StringUtils.ToLower | src/main/java/com/erigitic/util/StringUtils.java:12 | the result has the input's length; each letter A-Z becomes lower case and every other character is kept |
| StringUtils.ToLowerIsLowerCase | src/main/java/com/erigitic/util/StringUtils.java:12 | the result of lower-casing has no upper-case letter |
| StringUtils.ToLowerFixedPoints | src/main/java/com/erigitic/util/StringUtils.java:12 | a string is unchanged by lower-casing if and only if it has no upper-case letter |
| StringUtils.ToLowerIdempotent | src/main/java/com/erigitic/util/StringUtils.java:12 | lower-casing twice equals lower-casing once |
| StringUtils.Titleize | src/main/java/com/erigitic/util/StringUtils.java:11-13 | needs a non-empty input (`substring(0, 1)` throws on ""); the length is kept, the first character is upper-cased and every later one lower-cased |
| StringUtils.TitleizeIsTitleCase | src/main/java/com/erigitic/util/StringUtils.java:12 | the result is in title case |
| StringUtils.TitleizeFixedPoints | src/main/java/com/erigitic/util/StringUtils.java:12 | a string is unchanged by titleize if and only if it is already in title case |
| StringUtils.TitleizeIdempotent | src/main/java/com/erigitic/util/StringUtils.java:12 | titleize applied twice equals titleize applied once |
| FCSpongeUtil.Split | src/main/java/com/erigitic/FCSpongeUtil.java:25 | `split(" ")`: no token contains a space; a string without spaces is its own only token; trailing empty tokens are dropped |
| FCSpongeUtil.SplitJoinRoundTrip | src/main/java/com/erigitic/FCSpongeUtil.java:25 | joining the tokens with single spaces gives back any string that does not end in a space |
| FCSpongeUtil.ParseSpongeArgsToList | src/main/java/com/erigitic/FCSpongeUtil.java:20-34 | the list has exactly `numOfArgs` elements (none if it is negative); element i is token i while there is one, else ""; a missing `allArgs` counts as "" |
| FCSpongeUtil.MissingArgsAllEmpty | src/main/java/com/erigitic/FCSpongeUtil.java:21-25 | without `allArgs` every element is "" |
| FCSpongeUtil.TokensKeepOrder | src/main/java/com/erigitic/FCSpongeUtil.java:27-32 | the part of the list that is not padding equals the same-length prefix of the tokens |
| FCSpongeUtil.HasThePermission | src/main/java/com/erigitic/FCSpongeUtil.java:37-44 | true if and only if the source holds the permission; on false exactly one denial message naming the permission is sent, and on true nothing is sent |
| Jobs.TargetActions | src/main/java/com/erigitic/jobs/JobSet.java:39-47 | every collected action is valid and carries the action key it was found under; each comes from a string target key with a node, whose key and node it carries |
| Jobs.SetActions | src/main/java/com/erigitic/jobs/JobSet.java:36-51 | every action the constructor collects is valid; each comes from a string action key with a node and, inside it, a string target key with a node, whose keys and node it carries |
| Jobs.TargetActionsComplete | src/main/java/com/erigitic/jobs/JobSet.java:39-47 | every valid action under a string target key that has a node is collected |
| Jobs.SetActionsComplete | src/main/java/com/erigitic/jobs/JobSet.java:36-51 | every valid action under a string action key and a string target key, both with nodes, is collected |
| Jobs.JobSet.constructor | src/main/java/com/erigitic/jobs/JobSet.java:36-51 | the nested loops leave `actions` equal to `SetActions` of the node |
| Jobs.FirstMatch | src/main/java/com/erigitic/jobs/JobSet.java:53-58 | returns the index of the first action that matches both action and target id; None if and only if no action matches |
| Jobs.JobSet.GetActionFor | src/main/java/com/erigitic/jobs/JobSet.java:53-58 | the result is in the list and matches both fields; it is the first match in list order; empty if and only if nothing matches |
| Ledger.Wrap32 | src/main/java/com/erigitic/config/TEAccount.java:569-572 | Java `int` addition: the result is congruent to the exact sum modulo 2^32 and equals it when the sum is in range |
| Ledger.Trunc2 | src/main/java/com/erigitic/config/TEAccount.java:211 | `setScale(2, ROUND_DOWN)`: the result has at most two decimals; it lies within a cent of the input, toward zero; an input that is already whole cents is kept |
| Ledger.WithBalance | src/main/java/com/erigitic/config/TEAccount.java:211 | sets exactly one balance node and leaves every other node unchanged |
| Ledger.HasBalance | src/main/java/com/erigitic/config/TEAccount.java:109-125 | true if and only if the account exists and has a balance node for the currency |
| Ledger.GetBalance | src/main/java/com/erigitic/config/TEAccount.java:134-156 | the stored value when the balance node exists, and 0 (not the starting balance) when it does not |
| Ledger.GetDefaultBalance | src/main/java/com/erigitic/config/TEAccount.java:97-100 | the currency's starting balance |
| Ledger.GetJobExp | src/main/java/com/erigitic/config/TEAccount.java:509-530 | 0 for "unemployed"; otherwise the stored exp of the lower-cased job, 0 when absent |
| Ledger.HasJobNotifications | src/main/java/com/erigitic/config/TEAccount.java:424-438 | notifications are on unless the flag is stored as false |
| Ledger.SetBalance | src/main/java/com/erigitic/config/TEAccount.java:184-223 | posts the result on every path. Without a balance node: FAILED, amount 0, DEPOSIT, and the tree is unchanged. With one: SUCCESS, and the tree gets `Trunc2(min(amount, cap))` for that node only. The result is a DEPOSIT if and only if the capped amount is at least the old balance, and its amount is their distance. The stored value never exceeds a non-negative cap |
| Ledger.ResetBalance | src/main/java/com/erigitic/config/TEAccount.java:251-254 | `setBalance` of the starting balance: SUCCESS with balance `Trunc2(min(start, cap))`, or FAILED with the tree unchanged |
| Ledger.Deposit | src/main/java/com/erigitic/config/TEAccount.java:265-271 | `setBalance` of current plus amount: the balance becomes `Trunc2(min(current + amount, cap))`; a non-negative deposit below the cap is a DEPOSIT; without a node FAILED and no change |
| Ledger.Withdraw | src/main/java/com/erigitic/config/TEAccount.java:282-292 | when current minus amount is negative: ACCOUNT_NO_FUNDS for the requested amount, and no change to the tree or the event log. Otherwise `Trunc2(min(current - amount, cap))`, which lies in [0, cap] |
| Ledger.Transfer | src/main/java/com/erigitic/config/TEAccount.java:304-340 | the old log is kept, and exactly one transfer event is posted, last; every event between is a transaction event. No source node: FAILED, nothing changes, one event. Short of funds: ACCOUNT_NO_FUNDS, nothing changes, one event. No destination node: FAILED, with the source already debited and nothing else changed, two events. Otherwise SUCCESS and three events; the tree is the source debited and then the destination credited, with nothing else changed, which also covers an account paying itself |
| Ledger.GetBalances | src/main/java/com/erigitic/config/TEAccount.java:164-173 | maps exactly the listed currencies, each to its balance |
| Ledger.ResetBalances | src/main/java/com/erigitic/config/TEAccount.java:232-241 | gives a result for exactly the listed currencies, keeps the old log and posts one event per currency. No balance node appears or disappears, and no other account or unlisted currency changes. Each listed currency, as listed last: with a node, SUCCESS and the balance `Trunc2(min(start, cap))`; without one, FAILED and no node created |
| Ledger.GetCurrentJobName | src/main/java/com/erigitic/config/TEAccount.java:407-422 | the stored job lower-cased, "unemployed" when absent; always lower case |
| Ledger.GetJobLevel | src/main/java/com/erigitic/config/TEAccount.java:463-484 | 1 for "unemployed"; otherwise the stored level of the lower-cased job, 1 when absent |
| Ledger.GetCurrentJobLevel | src/main/java/com/erigitic/config/TEAccount.java:440-461 | equals `getJobLevel` of the current job |
| Ledger.GetCurrentJobExp | src/main/java/com/erigitic/config/TEAccount.java:486-507 | equals `getJobExp` of the current job |
| Ledger.SetCurrentJob | src/main/java/com/erigitic/config/TEAccount.java:367-405 | stores the lower-cased name as the job. That job's level and exp are kept, or set to 1 and 0 when absent. Nothing else changes: other jobs, other accounts, balances and notifications. The change stays when the save fails; the flag only reports the failure |
| Ledger.SetCurrentJobLevel | src/main/java/com/erigitic/config/TEAccount.java:532-548 | writes the level into the current job's stats node, including "unemployed"; that node's exp, every other job, other accounts, the job name, balances and notifications are unchanged. A job other than "unemployed" then reads the new level |
| Ledger.AddExpToCurrentJob | src/main/java/com/erigitic/config/TEAccount.java:550-578 | the current job's exp becomes old exp plus `exp` with `int` wrap-around; its level, other jobs, other accounts and balances are unchanged |
| LedgerProperties.SetBalanceInRange | src/main/java/com/erigitic/config/TEAccount.java:190-211 | a non-negative `setBalance` keeps every balance in [0, cap] |
| LedgerProperties.StepInRange | src/main/java/com/erigitic/config/TEAccount.java:184-340 | each money operation with a non-negative amount keeps every balance in [0, cap] |
| LedgerProperties.RunInRange | src/main/java/com/erigitic/config/TEAccount.java:184-340 | any sequence of money operations with non-negative amounts keeps every balance in [0, cap] |
| LedgerProperties.RunCapped | src/main/java/com/erigitic/config/TEAccount.java:190 | any sequence of money operations, whatever the amounts, never stores more than a non-negative cap |
| LedgerProperties.MissingBalanceReadsZero | src/main/java/com/erigitic/config/TEAccount.java:98-156 | a missing balance reads as 0, which differs from a non-zero starting balance; a reset does not create the node |
| LedgerProperties.SequentialDepositsCompose | src/main/java/com/erigitic/config/TEAccount.java:265-271 | two deposits equal one deposit of their sum for whole-cent values below the cap |
| LedgerProperties.SequentialDepositsDoNotComposeInGeneral | src/main/java/com/erigitic/config/TEAccount.java:211 | two deposits of 0.005 leave 0.00 while one of 0.01 leaves 0.01 |
| LedgerProperties.WithdrawBeyondFundsScenario | src/main/java/com/erigitic/config/TEAccount.java:282-292 | a balance of 100.00 minus 150.00 gives ACCOUNT_NO_FUNDS; the balance stays 100.00 and nothing is posted |
| LedgerProperties.DepositTruncatesScenario | src/main/java/com/erigitic/config/TEAccount.java:211 | 50.00 plus 25.005 is stored as 75.00 |
| LedgerProperties.ResetForgetsPriorBalance | src/main/java/com/erigitic/config/TEAccount.java:251-254 | the balance after a reset does not depend on the balance before it |
| LedgerProperties.AddExpTwice | src/main/java/com/erigitic/config/TEAccount.java:550-578 | two exp grants add up in `int` arithmetic |
| LedgerProperties.AddThirtyTwiceScenario | src/main/java/com/erigitic/config/TEAccount.java:550-578 | exp 0 plus 30 twice is 60 |
| LedgerProperties.UnemployedReadsDefaults | src/main/java/com/erigitic/config/TEAccount.java:440-507 | the "unemployed" job reads as level 1 and exp 0 |
| LedgerProperties.SwitchToNewJob | src/main/java/com/erigitic/config/TEAccount.java:388-394 | a job never held before starts at level 1 and exp 0 |
| LedgerProperties.SwitchKeepsProgress | src/main/java/com/erigitic/config/TEAccount.java:388-394 | switching back to a job restores its level and exp |
| TEAccount.AccountStore.SetBalance | src/main/java/com/erigitic/config/TEAccount.java:184-223 | the in-place update leaves exactly `Ledger.SetBalance`'s state and result |
| TEAccount.AccountStore.ResetBalance | src/main/java/com/erigitic/config/TEAccount.java:251-254 | leaves exactly `Ledger.ResetBalance`'s state and result |
| TEAccount.AccountStore.ResetBalances | src/main/java/com/erigitic/config/TEAccount.java:232-241 | the loop over currencies leaves exactly `Ledger.ResetBalances`'s state and results, so every balance it states |
| TEAccount.AccountStore.Deposit | src/main/java/com/erigitic/config/TEAccount.java:265-271 | leaves exactly `Ledger.Deposit`'s state and result |
| TEAccount.AccountStore.Withdraw | src/main/java/com/erigitic/config/TEAccount.java:282-292 | leaves exactly `Ledger.Withdraw`'s state and result |
| TEAccount.AccountStore.Transfer | src/main/java/com/erigitic/config/TEAccount.java:304-340 | leaves exactly `Ledger.Transfer`'s state and result |
| TEAccount.AccountStore.GetBalances | src/main/java/com/erigitic/config/TEAccount.java:164-173 | the loop's map has exactly the listed currencies, each with its balance |
| TEAccount.AccountStore.SetCurrentJob | src/main/java/com/erigitic/config/TEAccount.java:367-405 | leaves exactly `Ledger.SetCurrentJob`'s tree and flag; posts nothing |
| TEAccount.AccountStore.SetCurrentJobLevel | src/main/java/com/erigitic/config/TEAccount.java:532-548 | leaves exactly `Ledger.SetCurrentJobLevel`'s tree |
| TEAccount.AccountStore.AddExpToCurrentJob | src/main/java/com/erigitic/config/TEAccount.java:550-578 | leaves exactly `Ledger.AddExpToCurrentJob`'s tree and always returns true |
| BalanceTop.UuidExamples | src/main/java/com/erigitic/commands/BalanceTopCommand.java:161-165 | a canonical UUID key is parsed; a virtual account's name such as "town-bank", and the empty key, are skipped |
| BalanceTop.UuidIgnoresCase | src/main/java/com/erigitic/commands/BalanceTopCommand.java:161-167 | a key is a UUID if and only if its lower-cased form, under which its account is read, is one |
| BalanceTop.DisplayName | src/main/java/com/erigitic/config/TEAccount.java:89-95 | the user's name when the user is found, else "PLAYER NAME" |
| BalanceTop.Collapse | src/main/java/com/erigitic/commands/BalanceTopCommand.java:158-170 | the map's names are exactly the display names of the entries whose key is a UUID |
| BalanceTop.CollapseLastWins | src/main/java/com/erigitic/commands/BalanceTopCommand.java:169 | a name holds the balance of the last UUID entry with that name |
| BalanceTop.CollapseSkipsNonUuid | src/main/java/com/erigitic/commands/BalanceTopCommand.java:160-165 | an entry whose key is not a UUID changes nothing |
| BalanceTop.StandingsNames | src/main/java/com/erigitic/commands/BalanceTopCommand.java:158-170 | the board's names are exactly the display names of the account keys that parse as UUIDs |
| BalanceTop.StandingsBalance | src/main/java/com/erigitic/commands/BalanceTopCommand.java:167-169 | a name holds the chosen currency's ledger balance of the last UUID key showing that name |
| BalanceTop.StandingsSnoc | src/main/java/com/erigitic/commands/BalanceTopCommand.java:158-170 | each further key puts, or overwrites, its name with its balance when it is a UUID, and is skipped otherwise |
| BalanceTop.NeedToCalculateAgain | src/main/java/com/erigitic/commands/BalanceTopCommand.java:190-194 | stale if and only if more than 60 * 1000 ms have passed since the last check |
| BalanceTop.BalanceTopCommand.Execute | src/main/java/com/erigitic/commands/BalanceTopCommand.java:85-142 | schedules a recompute for the currency `ChooseCurrency` picks if and only if the cache is stale; otherwise it sends the cached rows unchanged, whatever the currency, and changes nothing |
| BalanceTop.BalanceTopCommand.RunTask | src/main/java/com/erigitic/commands/BalanceTopCommand.java:123-135 | while a recompute is running it only tells the sender and changes nothing; otherwise it runs `calculateBalTop` for the account tree, the ledger and the currency, and sends the new rows |
| BalanceTop.BalanceTopCommand.CalculateBalTop | src/main/java/com/erigitic/commands/BalanceTopCommand.java:152-188 | sets `lastCheck` to now and ends with `stillCalculating` false. The map is `Standings` of the account keys, the ledger and the currency. The rows are its top 10: min(10, size) rows, richest first, each a distinct entry of the map, none richer left out. `richestGuy` becomes the first row's name, or is unchanged when there are no rows. Afterwards the gate reports stale at time t if and only if t is more than 60000 ms after now |
| BalanceTop.ScanAccounts | src/main/java/com/erigitic/commands/BalanceTopCommand.java:158-170 | the loop over the account keys fills exactly `Standings` |
| BalanceTop.SortByBalance | src/main/java/com/erigitic/commands/BalanceTopCommand.java:175-176 | lists every entry of the map exactly once, richest first |
| BalanceTop.TopOfSorted | src/main/java/com/erigitic/commands/BalanceTopCommand.java:175-185 | the first rows of a full richest-first listing are the top-10 snapshot |
| BalanceTop.ChooseCurrency | src/main/java/com/erigitic/commands/BalanceTopCommand.java:86-97 | the result is the default or a registered currency. It is the default when there is no argument. It is not the default only when the argument, lower-cased and prefixed with "totaleconomy:", is registered, and then it is that currency |
| BalanceTop.ChooseCurrencyIgnoresCase | src/main/java/com/erigitic/commands/BalanceTopCommand.java:90 | an argument and its lower-cased form choose the same currency |
| JobCommand.CheckRequirement | src/main/java/com/erigitic/commands/JobCommand.java:161-173 | rejects with NotPermitted if and only if a required permission is missing. It rejects for level only when the required job's level, under the lower-cased name, is below the required level. It passes if and only if every requirement is met; an equal level passes |
| JobCommand.Target | src/main/java/com/erigitic/commands/JobCommand.java:142-151 | the named user, else the player who ran the command, else nobody |
| JobCommand.WithAccount | src/main/java/com/erigitic/commands/JobCommand.java:158 | an existing account is kept; a missing one is created |
| JobCommand.SetExecute | src/main/java/com/erigitic/commands/JobCommand.java:139-190 | the name is lower-cased before lookup and before storing. With no target nothing happens. An unknown job is refused with the accounts untouched. A failed requirement is refused with the job unchanged. Only an eligible target reaches `setCurrentJob`, whose failed save is a rejection. On success the online target is told the titleized name, and the source is told unless it is the target |
| JobCommand.NoRequirementAlwaysEligible | src/main/java/com/erigitic/commands/JobCommand.java:160-173 | a job without a requirement, or with an empty one, is never refused |
| JobCommand.EqualLevelPasses | src/main/java/com/erigitic/commands/JobCommand.java:168 | holding exactly the required level is enough |
| JobCommand.IndexOf | src/main/java/com/erigitic/commands/JobCommand.java:351 | `indexOf`: -1 if and only if the option is absent, else the first position holding it |
| JobCommand.Flip | src/main/java/com/erigitic/commands/JobCommand.java:357-358 | an absent value counts as "0"; "0" becomes "1" and anything else "0"; the result always differs from the value read |
| JobCommand.FlipTwice | src/main/java/com/erigitic/commands/JobCommand.java:357-360 | toggling twice restores "0" or "1", and an absent flag ends at "0" |
| JobCommand.FlipNonZero | src/main/java/com/erigitic/commands/JobCommand.java:358 | any stored value other than "0" becomes "0" |
| JobCommand.ToggleExecute | src/main/java/com/erigitic/commands/JobCommand.java:340-370 | only a player may toggle. Without an option the notifications are toggled. An option outside the four names is refused and nothing is stored. Otherwise the flipped value is stored under "totaleconomy:" plus the option, and nothing else changes |

## Left out

- The SQL backend (every `databaseEnabled` branch, and the JDBC query in the leaderboard) is foreign I/O. Only the document-tree branches are modelled.
- The Sponge event bus is a log of posted results (`events`); listeners are not modelled.
- Saving the configuration is I/O. `requestConfigurationSave` is left out, and the failing `ConfigManager.save` of `setCurrentJob` is the input `saveFails`.
- Asynchronous tasks and the unsynchronised races between them are concurrency. Only sequential behaviour is modelled: `RunTask` runs the scheduled task to completion, and `stillCalculating` is observed only between calls.
- The clock (`System.currentTimeMillis`) is the parameter `now`.
- The user-name service behind `getDisplayName` is a given function, `userName`, in `BalanceTop.Standings`. Users and their permissions are inputs. The account tree's keys are the parameter `keys`.
- Text, colours, pagination, `currency.format` and the wording of messages are presentation. The model returns outcome values instead, with the rows as name and balance. The one exception is the permission denial in `FCSpongeUtil.DenialMessage`, whose text names the permission and is kept character for character.
- A currency's tree key (its lower-cased display name) is an abstract `CurrencyId`.
- `JobAction.loadConfigNode` and `JobAction.isValid` are not part of this model. Validity is the parameter `isValid`; the action keeps its node whole, and its target id is the key it was found under.
- AccountManager is not part of this model. `getOrCreateAccount` is `JobCommand.WithAccount` with the new record as an input, and `getUserOption`/`setUserOption` is the map in `JobCommand.UserOptions`. `toggleNotifications` is only reported as the outcome `NotificationsToggled`.
- The JobManager lookup is a map from job names to jobs.
- EconomyCommand.java, BalanceCommand.java, ImmutableShopItemData.java and UnemployedJob.java are not part of this model. They are command dispatch, floating point (`Double.parseDouble`, `new BigDecimal(double)`), message I/O and a data-API wrapper.
- StringUtils.ToLower: Java case mapping covers all of Unicode and depends on the locale; the model maps only A-Z and a-z.
- BalanceTop.IsUuid: accepts exactly the canonical 8-4-4-4-12 hexadecimal form. Some JDK versions of `UUID.fromString` also accept shorter groups or a sign, and such keys are skipped in the model but not by those JDKs.
- BalanceTop.Standings: reads the account under the lower-cased key, as a parsed UUID prints. For a key in upper case, `getOrCreateAccount` may also create that lower-case account, and this creation is not modelled.
- BalanceTop.SortByBalance: `HashMap` iteration order is a free choice (`:|`), so among equal balances the order of the rows is not fixed.
- BalanceTop.BalanceTopCommand: `richestGuy` is a static field in the source, shared by every command instance; here it is a field of the one instance.
- JobCommand.SetExecute: when a job named "" is registered, `titleize` would throw on the success message; the model sends no title then.
- JobCommand.SetExecute: the success message is titleized by `com.erigitic.util.StringUtil`, which is not part of this model. It is assumed to agree with `util/StringUtils.java`'s `titleize`, which `StringUtils.Titleize` models.
