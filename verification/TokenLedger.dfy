/**
 * The desktop token ledger (apps/vfs-desktop/src-tauri/src/commands.rs): one account's
 * balance, cached in memory and saved to disk. Commands are atomic and saves succeed; the
 * clock is a parameter of each command and need not be monotone.
 */
module TokenLedger {
  import opened Common

  const FREE_TIER_TOKENS: int := 1000
  const UNLIMITED: int := -1
  const MONTH: int := 30 * 24 * 60 * 60

  datatype Balance = Balance(total: int, used: int, remaining: int, resetDate: int, isPaid: bool, planId: string)

  datatype Plan = Plan(id: string, price: real, tokensPerMonth: int)

  const PLANS: seq<Plan> := [Plan("free", 0.0, 1000), Plan("pro", 9.99, 10000), Plan("unlimited", 29.99, -1)]

  datatype LedgerError =
    | InvalidAmount
    | Insufficient(required: int, available: int)
    | PlanNotFound(id: string)

  /** Tokens a monthly reset gives, by plan id; unknown plans count as free. */
  function ResetTotal(planId: string): int
  {
    if planId == "free" then FREE_TIER_TOKENS
    else if planId == "pro" then 10000
    else if planId == "unlimited" then UNLIMITED
    else FREE_TIER_TOKENS
  }

  function FindPlan(plans: seq<Plan>, planId: string): Option<Plan>
  {
    if plans == [] then None
    else if plans[0].id == planId then Some(plans[0])
    else FindPlan(plans[1..], planId)
  }

  function FreeBalance(now: int): Balance
  {
    Balance(FREE_TIER_TOKENS, 0, FREE_TIER_TOKENS, now + MONTH, false, "free")
  }

  function CheckAndReset(b: Balance, now: int): Balance
  {
    if now >= b.resetDate then
      b.(total := ResetTotal(b.planId), used := 0, remaining := ResetTotal(b.planId), resetDate := now + MONTH)
    else b
  }

  datatype Ledger = Ledger(cache: Option<Balance>, disk: Option<Balance>)

  /** `get_or_init_token_balance`: a reset of a cached balance is returned but not stored. */
  function GetOrInit(l: Ledger, now: int): (Ledger, Balance)
  {
    match l.cache
    case Some(b) => (l, CheckAndReset(b, now))
    case None =>
      match l.disk
      case Some(b) => (Store(CheckAndReset(b, now)), CheckAndReset(b, now))
      case None => (Store(FreeBalance(now)), FreeBalance(now))
  }

  function Store(b: Balance): Ledger { Ledger(Some(b), Some(b)) }

  function ConsumeStep(l: Ledger, tokens: int, now: int): (Ledger, Result<Unit, LedgerError>)
  {
    if tokens <= 0 then (l, Err(InvalidAmount))
    else
      var (loaded, b) := GetOrInit(l, now);
      if b.total == UNLIMITED then (loaded, Ok(Unit))
      else if b.remaining < tokens then (loaded, Err(Insufficient(tokens, b.remaining)))
      else (Store(b.(used := b.used + tokens, remaining := b.remaining - tokens)), Ok(Unit))
  }

  function PurchaseStep(l: Ledger, planId: string, now: int): (Ledger, Result<Unit, LedgerError>)
  {
    match FindPlan(PLANS, planId)
    case None => (l, Err(PlanNotFound(planId)))
    case Some(plan) =>
      var (_, b) := GetOrInit(l, now);
      var total := plan.tokensPerMonth;
      (Store(b.(planId := planId, isPaid := plan.price > 0.0, total := total,
                remaining := if total == UNLIMITED then UNLIMITED else total - b.used,
                resetDate := now + MONTH)),
       Ok(Unit))
  }

  class TokenStorage {
    var cache: Option<Balance>
    var disk: Option<Balance>

    ghost function View(): Ledger
      reads this
    {
      Ledger(cache, disk)
    }

    constructor ()
      ensures View() == Ledger(None, None)
    {
      cache, disk := None, None;
    }

    method GetTokenBalance(now: int) returns (balance: Balance)
      modifies this
      ensures (View(), balance) == GetOrInit(old(View()), now)
    {
      if cache.Some? {
        return CheckAndReset(cache.value, now);
      }
      if disk.Some? {
        balance := CheckAndReset(disk.value, now);
        cache := Some(balance);
        disk := Some(balance);
        return;
      }
      balance := FreeBalance(now);
      disk := Some(balance);
      cache := Some(balance);
    }

    method ConsumeTokens(tokens: int, now: int) returns (r: Result<Unit, LedgerError>)
      modifies this
      ensures (View(), r) == ConsumeStep(old(View()), tokens, now)
    {
      if tokens <= 0 {
        return Err(InvalidAmount);
      }
      var balance := GetTokenBalance(now);
      if balance.total == UNLIMITED {
        return Ok(Unit);
      }
      if balance.remaining < tokens {
        return Err(Insufficient(tokens, balance.remaining));
      }
      balance := balance.(used := balance.used + tokens);
      balance := balance.(remaining := balance.remaining - tokens);
      cache := Some(balance);
      disk := Some(balance);
      r := Ok(Unit);
    }

    method PurchaseTokenPlan(planId: string, now: int) returns (r: Result<Unit, LedgerError>)
      modifies this
      ensures (View(), r) == PurchaseStep(old(View()), planId, now)
    {
      var plan := FindPlan(PLANS, planId);
      if plan.None? {
        return Err(PlanNotFound(planId));
      }
      var balance := GetTokenBalance(now);
      balance := balance.(planId := planId, isPaid := plan.value.price > 0.0);
      balance := balance.(total := plan.value.tokensPerMonth);
      balance := balance.(remaining := if balance.total == UNLIMITED then UNLIMITED else balance.total - balance.used);
      balance := balance.(resetDate := now + MONTH);
      cache := Some(balance);
      disk := Some(balance);
      r := Ok(Unit);
    }
  }

  // ---------------------------------------------------------------- runs

  /** `Restart` loses the in-memory cache. */
  datatype Command = Get(now: int) | Consume(tokens: int, now: int) | Purchase(planId: string, now: int) | Restart

  function Step(l: Ledger, c: Command): Ledger
  {
    match c
    case Get(now) => GetOrInit(l, now).0
    case Consume(tokens, now) => ConsumeStep(l, tokens, now).0
    case Purchase(planId, now) => PurchaseStep(l, planId, now).0
    case Restart => l.(cache := None)
  }

  function Run(commands: seq<Command>): Ledger
  {
    if commands == [] then Ledger(None, None) else Step(Run(Front(commands)), Last(commands))
  }

  /** The command stores a balance, so a reset it computes takes effect. */
  predicate Writes(l: Ledger, c: Command)
  {
    match c
    case Get(_) => l.cache.None?
    case Consume(tokens, now) => tokens > 0 && (l.cache.None? || Charge(l, c) > 0)
    case Purchase(planId, _) => FindPlan(PLANS, planId).Some?
    case Restart => false
  }

  /** The command finds a stored balance past its reset date and writes. */
  predicate EffectiveReset(l: Ledger, c: Command)
  {
    && Writes(l, c)
    && l.disk.Some?
    && c.now >= (if l.cache.Some? then l.cache else l.disk).value.resetDate
  }

  /** Tokens this command grants on a finite plan. */
  function Charge(l: Ledger, c: Command): nat
  {
    if c.Consume? && ConsumeStep(l, c.tokens, c.now).1.Ok? && GetOrInit(l, c.now).1.total != UNLIMITED
    then (if c.tokens > 0 then c.tokens else 0)
    else 0
  }

  /** The reference meter: finite-plan tokens granted since the last effective reset. */
  function Metered(commands: seq<Command>): nat
  {
    if commands == [] then 0
    else
      var l, c := Run(Front(commands)), Last(commands);
      (if EffectiveReset(l, c) then 0 else Metered(Front(commands))) + Charge(l, c)
  }

  /** When the current period began: the last initialisation, effective reset or purchase. */
  function PeriodStart(commands: seq<Command>): int
  {
    if commands == [] then 0
    else
      var l, c := Run(Front(commands)), Last(commands);
      if EffectiveReset(l, c) || (Writes(l, c) && (l.disk.None? || c.Purchase?)) then c.now
      else PeriodStart(Front(commands))
  }

  /** The plan's total, and the arithmetic that must hold between the three counters. */
  predicate Consistent(b: Balance)
  {
    && FindPlan(PLANS, b.planId).Some?
    && b.total == FindPlan(PLANS, b.planId).value.tokensPerMonth
    && b.isPaid == (FindPlan(PLANS, b.planId).value.price > 0.0)
    && 0 <= b.used <= 10000
    && (if b.total == UNLIMITED then b.remaining == UNLIMITED else b.used + b.remaining == b.total)
  }

  lemma {:induction false} PlanTable(planId: string)
    ensures FindPlan(PLANS, planId).Some? <==> planId == "free" || planId == "pro" || planId == "unlimited"
    ensures ResetTotal(planId) == if planId == "pro" then 10000 else if planId == "unlimited" then -1 else 1000
    ensures FindPlan(PLANS, planId).Some? ==> FindPlan(PLANS, planId).value.tokensPerMonth == ResetTotal(planId)
    ensures FindPlan(PLANS, planId).Some? ==>
              (FindPlan(PLANS, planId).value.price > 0.0 <==> planId != "free")
  {
    var p1, p2 := PLANS[1..], PLANS[2..];
    assert p1[1..] == p2 && p2[1..] == [];
    assert FindPlan([], planId) == None;
    assert FindPlan(p2, planId) == if planId == "unlimited" then Some(PLANS[2]) else FindPlan(p2[1..], planId);
    assert FindPlan(p1, planId) == if planId == "pro" then Some(PLANS[1]) else FindPlan(p1[1..], planId);
    assert FindPlan(PLANS, planId) == if planId == "free" then Some(PLANS[0]) else FindPlan(p1, planId);
  }

  /** A reset gives the same total a purchase of that plan gives, and keeps the balance consistent. */
  lemma {:induction false} ResetMatchesPurchase(b: Balance, now: int)
    requires Consistent(b)
    ensures Consistent(CheckAndReset(b, now))
    ensures CheckAndReset(b, now).total == b.total
    ensures now >= b.resetDate ==> CheckAndReset(b, now).used == 0 && CheckAndReset(b, now).resetDate == now + MONTH
    ensures now < b.resetDate ==> CheckAndReset(b, now) == b
  {
    PlanTable(b.planId);
  }

  /** Cache and disk agree, and hold a consistent balance with this meter and period start. */
  predicate Sound(l: Ledger, metered: nat, start: int)
  {
    && (l.cache.Some? ==> l.cache == l.disk)
    && (l.disk.Some? ==>
          Consistent(l.disk.value) && l.disk.value.used == metered && l.disk.value.resetDate == start + MONTH)
    && (l.disk.None? ==> metered == 0)
  }

  lemma {:induction false} GetIsSound(l: Ledger, metered: nat, start: int, now: int)
    requires Sound(l, metered, start)
    ensures Consistent(GetOrInit(l, now).1)
    ensures GetOrInit(l, now).1.resetDate ==
            (if l.disk.None? || now >= l.disk.value.resetDate then now else start) + MONTH
    ensures GetOrInit(l, now).1.used ==
            if l.disk.Some? && now >= l.disk.value.resetDate then 0 else metered
    ensures GetOrInit(l, now).0 == if l.cache.Some? then l else Store(GetOrInit(l, now).1)
  {
    PlanTable("free");
    if l.disk.Some? {
      ResetMatchesPurchase(l.disk.value, now);
    }
  }

  lemma {:induction false} StepIsSound(l: Ledger, metered: nat, start: int, c: Command)
    requires Sound(l, metered, start)
    ensures Sound(Step(l, c), (if EffectiveReset(l, c) then 0 else metered) + Charge(l, c),
                  if EffectiveReset(l, c) || (Writes(l, c) && (l.disk.None? || c.Purchase?)) then c.now else start)
  {
    if !c.Restart? {
      GetIsSound(l, metered, start, c.now);
      PlanTable(GetOrInit(l, c.now).1.planId);
      if c.Purchase? {
        PlanTable(c.planId);
      }
    }
  }

  /**
   * In every run: cache and disk agree, used plus remaining is the plan's total (or unlimited
   * stays at -1), `used` is the meter of finite-plan grants since the last effective reset, and
   * the next reset is due thirty days after the period began.
   */
  lemma {:induction false} EveryRunIsSound(commands: seq<Command>)
    ensures Sound(Run(commands), Metered(commands), PeriodStart(commands))
    decreases |commands|
  {
    if commands != [] {
      EveryRunIsSound(Front(commands));
      StepIsSound(Run(Front(commands)), Metered(Front(commands)), PeriodStart(Front(commands)), Last(commands));
    }
  }

  /** A consume is granted exactly when the plan is unlimited or enough is left; if finite, it stays within the total. */
  lemma {:induction false} GrantedIffAvailable(commands: seq<Command>, tokens: int, now: int)
    requires tokens > 0
    ensures var l := Run(commands);
            var b := GetOrInit(l, now).1;
            var (after, r) := ConsumeStep(l, tokens, now);
            && (r.Ok? <==> b.total == UNLIMITED || b.used + tokens <= b.total)
            && (r.Ok? && b.total != UNLIMITED ==>
                  after.disk.Some? && 0 <= after.disk.value.used <= after.disk.value.total &&
                  after.disk.value.used == b.used + tokens)
            && (r.Err? ==> r == Err(Insufficient(tokens, b.total - b.used)))
            && (r.Err? && l.cache.Some? ==> after == l)
            && (r.Err? ==> after.disk.Some? && after.disk.value.used <= Metered(commands))
  {
    EveryRunIsSound(commands);
    GetIsSound(Run(commands), Metered(commands), PeriodStart(commands), now);
  }

  /** A new account, whatever it does first, is on the free plan: 1000 tokens, unused, for thirty days. */
  lemma {:induction false} NewAccountIsFree(now: int)
    ensures var (l, b) := GetOrInit(Run([]), now);
            && b.planId == "free" && !b.isPaid && b.total == 1000 && b.used == 0 && b.remaining == 1000
            && b.resetDate == now + 30 * 86_400
            && l.cache == Some(b) && l.disk == Some(b)
  {
  }

  /** Amounts that are not positive and plans that are not offered are refused and change nothing. */
  lemma {:induction false} RefusalsChangeNothing(l: Ledger, tokens: int, planId: string, now: int)
    ensures tokens <= 0 ==> ConsumeStep(l, tokens, now) == (l, Err(InvalidAmount))
    ensures planId != "free" && planId != "pro" && planId != "unlimited" ==>
              PurchaseStep(l, planId, now) == (l, Err(PlanNotFound(planId)))
  {
    PlanTable(planId);
  }

  /**
   * A plan change keeps what was used, so a downgrade can leave a negative remainder: exactly
   * when more was used than the new plan's total. Then nothing is granted until a reset.
   */
  lemma {:induction false} PurchaseKeepsUsed(commands: seq<Command>, planId: string, now: int)
    requires FindPlan(PLANS, planId).Some?
    ensures var l := Run(commands);
            var b := GetOrInit(l, now).1;
            var after := PurchaseStep(l, planId, now).0;
            && after.disk.Some? && after.disk.value.used == b.used && after.disk.value.planId == planId
            && after.disk.value.total == ResetTotal(planId)
            && (after.disk.value.total != UNLIMITED ==>
                  (after.disk.value.remaining < 0 <==> b.used > ResetTotal(planId)))
  {
    EveryRunIsSound(commands);
    GetIsSound(Run(commands), Metered(commands), PeriodStart(commands), now);
    PlanTable(planId);
  }

  /** Losing the cache loses nothing: the next command answers as it would have, for every command. */
  lemma {:induction false} RestartIsInvisible(commands: seq<Command>, tokens: int, planId: string, now: int)
    requires Run(commands).cache.Some?
    ensures var l := Run(commands);
            && GetOrInit(l.(cache := None), now).1 == GetOrInit(l, now).1
            && ConsumeStep(l.(cache := None), tokens, now).1 == ConsumeStep(l, tokens, now).1
            && PurchaseStep(l.(cache := None), planId, now).1 == PurchaseStep(l, planId, now).1
            && PurchaseStep(l.(cache := None), planId, now).0.disk == PurchaseStep(l, planId, now).0.disk
  {
    EveryRunIsSound(commands);
    assert Run(commands).cache == Run(commands).disk;
  }
}
