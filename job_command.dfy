/**
 * commands/JobCommand.java, the `set` and `toggle` subcommands: the checks
 * that decide whether a player may switch to a job, and the flip of a
 * per-player option flag.
 */
module JobCommand {
  import opened Optional
  import opened StringUtils
  import opened Ledger
  import opened Jobs
  import opened TEAccount

  /** A player known to the server, online or not. */
  datatype User = User(id: Uuid, permissions: set<string>, online: bool)

  /** Who runs a command: a player, or anything else (the console, a command block). */
  datatype Source = PlayerSource(player: User) | OtherSource

  // ---------------------------------------------------------------- job set

  /** The stated requirement, read directly: each part that is present is met. */
  predicate MeetsRequirement(job: Job, user: User, s: Store) {
    match job.requirement
    case None => true
    case Some(req) =>
      && (req.requiredPermission.Some? ==> req.requiredPermission.value in user.permissions)
      && (req.requiredJob.Some? ==> req.requiredJobLevel <= GetJobLevel(s, user.id, req.requiredJob.value))
  }

  datatype Eligibility = Eligible | NotPermitted | InsufficientLevel(requiredLevel: int, requiredJob: string)

  /**
   * The two requirement checks of `Set.execute`, in their order: a missing
   * permission first, then a required job whose level (read under the
   * lower-cased name) is below the required level. An equal level passes.
   */
  function CheckRequirement(job: Job, user: User, s: Store): (e: Eligibility)
    ensures e.Eligible? <==> MeetsRequirement(job, user, s)
    ensures e.NotPermitted? <==>
      job.requirement.Some? && job.requirement.value.requiredPermission.Some? &&
      job.requirement.value.requiredPermission.value !in user.permissions
    ensures e.InsufficientLevel? ==>
      job.requirement.Some? && job.requirement.value.requiredJob.Some? &&
      e == InsufficientLevel(job.requirement.value.requiredJobLevel, job.requirement.value.requiredJob.value) &&
      e.requiredLevel > GetJobLevel(s, user.id, e.requiredJob)
  {
    match job.requirement
    case None => Eligible
    case Some(req) =>
      if req.requiredPermission.Some? && req.requiredPermission.value !in user.permissions then
        NotPermitted
      else if req.requiredJob.Some? && req.requiredJobLevel > GetJobLevel(s, user.id, ToLower(req.requiredJob.value)) then
        LowerTwiceSameLevel(s, user.id, req.requiredJob.value);
        InsufficientLevel(req.requiredJobLevel, req.requiredJob.value)
      else
        if req.requiredJob.Some? then
          LowerTwiceSameLevel(s, user.id, req.requiredJob.value);
          Eligible
        else
          Eligible
  }

  /** Reading a level under an already lower-cased name reads the same level. */
  lemma LowerTwiceSameLevel(s: Store, u: Uuid, name: string)
    ensures GetJobLevel(s, u, ToLower(name)) == GetJobLevel(s, u, name)
  {
    ToLowerIdempotent(name);
  }

  /** Whose job is set: the named user, else the player who ran the command. */
  function Target(userArg: Option<User>, src: Source): (t: Option<User>)
    ensures userArg.Some? ==> t == userArg
    ensures userArg.None? ==> (t.Some? <==> src.PlayerSource?)
    ensures userArg.None? && src.PlayerSource? ==> t == Some(src.player)
  {
    if userArg.Some? then userArg
    else if src.PlayerSource? then Some(src.player)
    else None
  }

  /** `getOrCreateAccount`: the tree once the account exists, `created` being the new record. */
  function WithAccount(s: Store, u: Uuid, created: AccountRecord): (s': Store)
    ensures u in s'
    ensures u in s ==> s' == s
    ensures u !in s ==> s' == s[u := created]
  {
    if u in s then s else s[u := created]
  }

  datatype SetOutcome =
    | NoTarget
    | UnknownJob(jobName: string)
    | Rejected(reason: Eligibility)
    | SaveFailed
    | JobChanged(notice: Option<string>, confirmToSource: bool)

  /**
   * `Set.execute`: the job name is lower-cased; without a target the
   * command does nothing, an unknown job is refused before any account is
   * touched; then the target's account is opened (created from `created`
   * if absent) and a job whose requirement is not met is refused with the
   * job unchanged. Otherwise the job is set through `setCurrentJob`; if its
   * save fails (`saveFails`) the change is still in the tree. On success an
   * online target is told the job's title, and the source is told too
   * unless it is the target.
   */
  method SetExecute(store: AccountStore, src: Source, userArg: Option<User>, jobNameArg: string,
                    jobs: map<string, Job>, created: AccountRecord, saveFails: bool) returns (out: SetOutcome)
    modifies store
    ensures store.events == old(store.events)
    ensures Target(userArg, src).None? ==> out == NoTarget && store.accounts == old(store.accounts)
    ensures Target(userArg, src).Some? && ToLower(jobNameArg) !in jobs ==>
      out == UnknownJob(ToLower(jobNameArg)) && store.accounts == old(store.accounts)
    ensures Target(userArg, src).Some? && ToLower(jobNameArg) in jobs ==>
      var user := Target(userArg, src).value;
      var jobName := ToLower(jobNameArg);
      var withAccount := WithAccount(old(store.accounts), user.id, created);
      var e := CheckRequirement(jobs[jobName], user, withAccount);
      && (!e.Eligible? ==> out == Rejected(e) && store.accounts == withAccount)
      && (e.Eligible? ==> store.accounts == Ledger.SetCurrentJob(withAccount, user.id, jobName, saveFails).accounts
                          && GetCurrentJobName(store.accounts, user.id) == jobName)
      && (e.Eligible? && saveFails ==> out == SaveFailed)
      && (e.Eligible? && !saveFails ==>
            out == JobChanged(if user.online && |jobName| > 0 then Some(Titleize(jobName)) else None,
                              !(src.PlayerSource? && src.player.id == user.id)))
  {
    var jobName := ToLower(jobNameArg);
    var user: User;
    if userArg.Some? {
      user := userArg.value;
    } else if src.PlayerSource? {
      user := src.player;
    } else {
      return NoTarget;
    }
    if jobName !in jobs {
      return UnknownJob(jobName);
    }
    if user.id !in store.accounts {
      store.accounts := store.accounts[user.id := created];
    }
    var job := jobs[jobName];
    var e := CheckRequirement(job, user, store.accounts);
    if !e.Eligible? {
      return Rejected(e);
    }
    var ok := store.SetCurrentJob(user.id, jobName, saveFails);
    if !ok {
      return SaveFailed;
    }
    var notice := None;
    if user.online && |jobName| > 0 {
      notice := Some(Titleize(jobName));
    }
    out := JobChanged(notice, !(src.PlayerSource? && src.player.id == user.id));
  }

  /** A requirement with no parts, or no requirement at all, never rejects. */
  lemma NoRequirementAlwaysEligible(job: Job, user: User, s: Store)
    requires job.requirement.None? ||
      (job.requirement.value.requiredPermission.None? && job.requirement.value.requiredJob.None?)
    ensures CheckRequirement(job, user, s) == Eligible
  {
  }

  /** Holding exactly the required level of the required job is enough. */
  lemma EqualLevelPasses(job: Job, user: User, s: Store)
    requires job.requirement.Some? && job.requirement.value.requiredJob.Some?
    requires job.requirement.value.requiredJobLevel == GetJobLevel(s, user.id, job.requirement.value.requiredJob.value)
    ensures !CheckRequirement(job, user, s).InsufficientLevel?
  {
  }

  // ------------------------------------------------------------- job toggle

  /** `TOGGLE_PLAYER_OPTIONS`. */
  const ToggleOptions: seq<string> := ["block-break-info", "block-place-info", "entity-kill-info", "entity-fish-info"]

  /** `List.indexOf`: the first position of `x`, or -1. */
  function IndexOf(xs: seq<string>, x: string): (i: int)
    ensures -1 <= i < |xs|
    ensures i < 0 <==> x !in xs
    ensures 0 <= i ==> xs[i] == x && forall j :: 0 <= j < i ==> xs[j] != x
  {
    if xs == [] then -1
    else if xs[0] == x then 0
    else
      var i := IndexOf(xs[1..], x);
      if i < 0 then -1 else i + 1
  }

  /** The key an option is stored under. */
  function OptionKey(option: string): string {
    "totaleconomy:" + option
  }

  /** The new value of a flag: "1" when it reads "0" (absent reads "0"), "0" otherwise. */
  function Flip(value: Option<string>): (r: string)
    ensures r == "0" || r == "1"
    ensures r == "1" <==> value.GetOr("0") == "0"
    ensures r != value.GetOr("0")
  {
    if value.GetOr("0") == "0" then "1" else "0"
  }

  /** Toggling twice restores a "0" or "1" flag, and leaves an absent one at "0". */
  lemma FlipTwice(value: Option<string>)
    requires value.GetOr("0") == "0" || value.GetOr("0") == "1"
    ensures Flip(Some(Flip(value))) == value.GetOr("0")
  {
  }

  /** Any value other than "0", even one that is not a flag, flips to "0". */
  lemma FlipNonZero(v: string)
    requires v != "0"
    ensures Flip(Some(v)) == "0"
  {
  }

  /** The per-player option strings that are kept alongside the accounts. */
  class UserOptions {
    var values: map<(Uuid, string), string>

    constructor ()
      ensures values == map[]
    {
      values := map[];
    }

    /** `getUserOption`. */
    function Get(u: Uuid, key: string): (r: Option<string>)
      reads this
      ensures r.Some? <==> (u, key) in values
      ensures r.Some? ==> r.value == values[(u, key)]
    {
      if (u, key) in values then Some(values[(u, key)]) else None
    }

    /** `setUserOption`. */
    method Set(u: Uuid, key: string, value: string)
      modifies this
      ensures values == old(values)[(u, key) := value]
      ensures Get(u, key) == Some(value)
    {
      values := values[(u, key) := value];
    }
  }

  datatype ToggleOutcome = NotAPlayer | NotificationsToggled | UnknownOption(option: string) | OptionToggled(key: string, value: string)

  /**
   * `Toggle.execute`: only a player may run it; without an option it
   * toggles the job notifications (not part of this model); an option that
   * is not one of the four names is refused and nothing is stored;
   * otherwise the flag is flipped and stored.
   */
  method ToggleExecute(options: UserOptions, src: Source, optionArg: Option<string>) returns (out: ToggleOutcome)
    modifies options
    ensures src.OtherSource? ==> out == NotAPlayer && options.values == old(options.values)
    ensures src.PlayerSource? && optionArg.None? ==> out == NotificationsToggled && options.values == old(options.values)
    ensures src.PlayerSource? && optionArg.Some? && optionArg.value !in ToggleOptions ==>
      out == UnknownOption(optionArg.value) && options.values == old(options.values)
    ensures src.PlayerSource? && optionArg.Some? && optionArg.value in ToggleOptions ==>
      var key := OptionKey(optionArg.value);
      var value := Flip(old(options.Get(src.player.id, key)));
      out == OptionToggled(key, value) && options.values == old(options.values)[(src.player.id, key) := value]
  {
    if !src.PlayerSource? {
      return NotAPlayer;
    }
    var sender := src.player;
    if optionArg.None? {
      return NotificationsToggled;
    }
    var option := optionArg.value;
    var i := IndexOf(ToggleOptions, option);
    if i < 0 {
      return UnknownOption(option);
    }
    var key := OptionKey(option);
    var value := options.Get(sender.id, key).GetOr("0");
    value := if value == "0" then "1" else "0";
    options.Set(sender.id, key, value);
    out := OptionToggled(key, value);
  }
}
