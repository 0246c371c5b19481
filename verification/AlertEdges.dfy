/**
 Edge-triggered alerting (`autonomy/alerts.py`): the flags kept between cycles, the alerts one
 cycle raises, and what any sequence of cycles raises in total.
 */
module AlertEdges {
  import opened Options
  import opened StableSorting

  datatype Status = SelfStopped | CycleError | Running

  /** What one cycle reports; None where the caller passes nothing, or a probe is skipped or fails. */
  datatype Cycle = Cycle(
    status: Status, risk: Option<Equity>, gateReady: bool, rejected: int,
    ledgerUnhealthy: Option<bool>, watchdogStale: Option<bool>, backtestStale: Option<bool>,
    gated: Option<set<string>>)

  datatype Equity = Equity(peak: int, bankroll: int)

  datatype Alert =
    | SelfStop | DrawdownLadder(rung: int) | GateGreen | GateRegression | ErrorStreak(length: int)
    | SignalRejection | LedgerHealth | WatchdogStale | BacktestStale | TournamentGate(cohorts: set<string>)

  datatype Flags = Flags(
    selfStopped: bool, rung: int, gateGreen: bool, errorStreak: nat, lastErrorAlert: nat,
    rejecting: bool, ledger: bool, watchdog: bool, backtest: bool, cohorts: set<string>)

  const NO_FLAGS := Flags(false, 0, false, 0, 0, false, false, false, false, {})

  function Drawdown(e: Equity): real {
    if e.peak == 0 then 0.0 else 1.0 - e.bankroll as real / e.peak as real
  }

  /** How many of the 10%, 20% and 30% thresholds the drawdown has reached. */
  function Rung(e: Equity): int {
    var d := Drawdown(e);
    (if d >= 0.1 - 0.000000001 then 1 else 0) + (if d >= 0.2 - 0.000000001 then 1 else 0)
    + (if d >= 0.3 - 0.000000001 then 1 else 0)
  }

  function Streak(before: nat, c: Cycle): nat {
    if c.status == CycleError then before + 1 else 0
  }

  /** An error streak alerts from its third error on, unless the marker already stands there. */
  predicate StreakAlerts(before: nat, marker: nat, c: Cycle) {
    c.status == CycleError && before + 1 >= 3 && before + 1 != marker
  }

  predicate Rises(seen: Option<bool>, active: bool) {
    seen == Some(true) && !active
  }

  function If(condition: bool, a: Alert): seq<Alert> {
    if condition then [a] else []
  }

  function Newly(known: set<string>, c: Cycle): set<string> {
    c.gated.GetOr({}) - known
  }

  function RiskAlerts(stopped: bool, rung: int, c: Cycle): seq<Alert> {
    If(c.status == SelfStopped && !stopped, SelfStop)
    + (if c.risk.Some? then If(Rung(c.risk.value) > rung, DrawdownLadder(Rung(c.risk.value))) else [])
  }

  function GateAlerts(green: bool, c: Cycle): seq<Alert> {
    if c.gateReady == green then [] else [if c.gateReady then GateGreen else GateRegression]
  }

  function StreakAlert(before: nat, marker: nat, c: Cycle): seq<Alert> {
    If(StreakAlerts(before, marker, c), ErrorStreak(Streak(before, c)))
  }

  function IntakeAlerts(rejecting: bool, ledger: bool, c: Cycle): seq<Alert> {
    If(c.rejected > 0 && !rejecting, SignalRejection) + If(Rises(c.ledgerUnhealthy, ledger), LedgerHealth)
  }

  function StaleAlerts(watchdog: bool, backtest: bool, c: Cycle): seq<Alert> {
    If(Rises(c.watchdogStale, watchdog), WatchdogStale) + If(Rises(c.backtestStale, backtest), BacktestStale)
  }

  function TournamentAlert(known: set<string>, c: Cycle): seq<Alert> {
    If(Newly(known, c) != {}, TournamentGate(Newly(known, c)))
  }

  function RiskGroup(f: Flags, c: Cycle): seq<Alert> {
    RiskAlerts(f.selfStopped, f.rung, c) + GateAlerts(f.gateGreen, c) + StreakAlert(f.errorStreak, f.lastErrorAlert, c)
  }

  function HealthGroup(f: Flags, c: Cycle): seq<Alert> {
    IntakeAlerts(f.rejecting, f.ledger, c) + StaleAlerts(f.watchdog, f.backtest, c) + TournamentAlert(f.cohorts, c)
  }

  /** The alerts of one cycle, in the order they are emitted. */
  function Fired(f: Flags, c: Cycle): seq<Alert> {
    RiskGroup(f, c) + HealthGroup(f, c)
  }

  function Next(f: Flags, c: Cycle): Flags {
    Flags(c.status == SelfStopped,
          if c.risk.Some? then Rung(c.risk.value) else f.rung,
          c.gateReady,
          Streak(f.errorStreak, c),
          if StreakAlerts(f.errorStreak, f.lastErrorAlert, c) then f.errorStreak + 1 else f.lastErrorAlert,
          c.rejected > 0,
          c.ledgerUnhealthy.GetOr(f.ledger),
          c.watchdogStale.GetOr(f.watchdog),
          c.backtestStale.GetOr(f.backtest),
          c.gated.GetOr({}) + f.cohorts)
  }

  /** The persisted alert state, read and rewritten every cycle. */
  class AlertState {
    var selfStopped: bool
    var rung: int
    var gateGreen: bool
    var errorStreak: nat
    var lastErrorAlert: nat
    var rejecting: bool
    var ledger: bool
    var watchdog: bool
    var backtest: bool
    var cohorts: set<string>

    constructor ()
      ensures Value() == NO_FLAGS
    {
      selfStopped, rung, gateGreen, errorStreak, lastErrorAlert := false, 0, false, 0, 0;
      rejecting, ledger, watchdog, backtest, cohorts := false, false, false, false, {};
    }

    function Value(): Flags
      reads this
    {
      Flags(selfStopped, rung, gateGreen, errorStreak, lastErrorAlert, rejecting, ledger, watchdog, backtest, cohorts)
    }

    /** `evaluate_alerts`: each condition in turn fires on its edge and then updates its flag. */
    method Evaluate(c: Cycle) returns (fired: seq<Alert>)
      modifies this
      ensures fired == Fired(old(Value()), c)
      ensures Value() == Next(old(Value()), c)
    {
      hide RiskGroup, IntakeAlerts, StaleAlerts, TournamentAlert, Rung, Streak, StreakAlerts;
      var risk := RiskGroupEdges(c);
      var health := HealthGroupEdges(c);
      fired := risk + health;
    }

    method RiskGroupEdges(c: Cycle) returns (fired: seq<Alert>)
      modifies this`selfStopped, this`rung, this`gateGreen, this`errorStreak, this`lastErrorAlert
      ensures fired == RiskGroup(old(Value()), c)
      ensures selfStopped == (c.status == SelfStopped) && rung == (if c.risk.Some? then Rung(c.risk.value) else old(rung))
      ensures gateGreen == c.gateReady && errorStreak == Streak(old(errorStreak), c)
      ensures lastErrorAlert == if StreakAlerts(old(errorStreak), old(lastErrorAlert), c) then old(errorStreak) + 1 else old(lastErrorAlert)
    {
      hide Rung, RiskAlerts, GateAlerts, StreakAlert;
      var risk := RiskEdges(c);
      var gate := GateEdge(c);
      var streak := StreakEdge(c);
      fired := risk + gate + streak;
    }

    method HealthGroupEdges(c: Cycle) returns (fired: seq<Alert>)
      modifies this`rejecting, this`ledger, this`watchdog, this`backtest, this`cohorts
      ensures fired == HealthGroup(old(Value()), c)
      ensures rejecting == (c.rejected > 0) && ledger == c.ledgerUnhealthy.GetOr(old(ledger))
      ensures watchdog == c.watchdogStale.GetOr(old(watchdog)) && backtest == c.backtestStale.GetOr(old(backtest))
      ensures cohorts == c.gated.GetOr({}) + old(cohorts)
    {
      hide IntakeAlerts, StaleAlerts, TournamentAlert;
      var intake := IntakeEdges(c);
      var stale := StaleEdges(c);
      var tournament := TournamentEdge(c);
      fired := intake + stale + tournament;
    }

    method RiskEdges(c: Cycle) returns (fired: seq<Alert>)
      modifies this`selfStopped, this`rung
      ensures fired == RiskAlerts(old(selfStopped), old(rung), c)
      ensures selfStopped == (c.status == SelfStopped)
      ensures rung == if c.risk.Some? then Rung(c.risk.value) else old(rung)
    {
      hide Rung;
      fired := [];
      if c.status == SelfStopped {
        if !selfStopped {
          fired := fired + [SelfStop];
          selfStopped := true;
        }
      } else {
        selfStopped := false;
      }
      if c.risk.Some? {
        var reached := Rung(c.risk.value);
        if reached > rung {
          fired := fired + [DrawdownLadder(reached)];
        }
        rung := reached;
      }
    }

    method GateEdge(c: Cycle) returns (fired: seq<Alert>)
      modifies this`gateGreen
      ensures fired == GateAlerts(old(gateGreen), c)
      ensures gateGreen == c.gateReady
    {
      fired := [];
      if c.gateReady && !gateGreen {
        fired := [GateGreen];
      } else if !c.gateReady && gateGreen {
        fired := [GateRegression];
      }
      gateGreen := c.gateReady;
    }

    method StreakEdge(c: Cycle) returns (fired: seq<Alert>)
      modifies this`errorStreak, this`lastErrorAlert
      ensures fired == StreakAlert(old(errorStreak), old(lastErrorAlert), c)
      ensures errorStreak == Streak(old(errorStreak), c)
      ensures lastErrorAlert == if StreakAlerts(old(errorStreak), old(lastErrorAlert), c) then errorStreak else old(lastErrorAlert)
    {
      fired := [];
      if c.status == CycleError {
        errorStreak := errorStreak + 1;
        if errorStreak >= 3 && errorStreak != lastErrorAlert {
          fired := [ErrorStreak(errorStreak)];
          lastErrorAlert := errorStreak;
        }
      } else {
        errorStreak := 0;
      }
    }

    method IntakeEdges(c: Cycle) returns (fired: seq<Alert>)
      modifies this`rejecting, this`ledger
      ensures fired == IntakeAlerts(old(rejecting), old(ledger), c)
      ensures rejecting == (c.rejected > 0) && ledger == c.ledgerUnhealthy.GetOr(old(ledger))
    {
      fired := [];
      if c.rejected > 0 && !rejecting {
        fired := fired + [SignalRejection];
      }
      rejecting := c.rejected > 0;
      if c.ledgerUnhealthy.Some? {
        if c.ledgerUnhealthy.value && !ledger {
          fired := fired + [LedgerHealth];
        }
        ledger := c.ledgerUnhealthy.value;
      }
    }

    method StaleEdges(c: Cycle) returns (fired: seq<Alert>)
      modifies this`watchdog, this`backtest
      ensures fired == StaleAlerts(old(watchdog), old(backtest), c)
      ensures watchdog == c.watchdogStale.GetOr(old(watchdog)) && backtest == c.backtestStale.GetOr(old(backtest))
    {
      fired := [];
      if c.watchdogStale.Some? {
        if c.watchdogStale.value && !watchdog {
          fired := fired + [WatchdogStale];
        }
        watchdog := c.watchdogStale.value;
      }
      if c.backtestStale.Some? {
        if c.backtestStale.value && !backtest {
          fired := fired + [BacktestStale];
        }
        backtest := c.backtestStale.value;
      }
    }

    method TournamentEdge(c: Cycle) returns (fired: seq<Alert>)
      modifies this`cohorts
      ensures fired == TournamentAlert(old(cohorts), c)
      ensures cohorts == c.gated.GetOr({}) + old(cohorts)
    {
      fired := [];
      if c.gated.Some? {
        var newly := c.gated.value - cohorts;
        if newly != {} {
          fired := [TournamentGate(newly)];
        }
        cohorts := c.gated.value + cohorts;
      }
    }
  }

  // ----- whole histories -----

  function After(f: Flags, cycles: seq<Cycle>, n: nat): Flags
    requires n <= |cycles|
  {
    if n == 0 then f else Next(After(f, cycles, n - 1), cycles[n - 1])
  }

  /** All alerts of the first `n` cycles that `about` selects. */
  function Log(f: Flags, cycles: seq<Cycle>, n: nat, about: Alert -> bool): seq<Alert>
    requires n <= |cycles|
  {
    if n == 0 then []
    else Log(f, cycles, n - 1, about) + Filter(about, Fired(After(f, cycles, n - 1), cycles[n - 1]))
  }

  function AboutGate(): Alert -> bool { (a: Alert) => a.GateGreen? || a.GateRegression? }

  function AboutStop(): Alert -> bool { (a: Alert) => a.SelfStop? }

  function AboutStreak(): Alert -> bool { (a: Alert) => a.ErrorStreak? }

  function AboutCohort(c: string): Alert -> bool { (a: Alert) => a.TournamentGate? && c in a.cohorts }

  lemma FilterIf(condition: bool, x: Alert, about: Alert -> bool)
    ensures Filter(about, If(condition, x)) == If(condition && about(x), x)
  {
    assert [x][..0] == [];
  }

  lemma FilterThree(about: Alert -> bool, a: seq<Alert>, b: seq<Alert>, c: seq<Alert>)
    ensures Filter(about, a + b + c) == Filter(about, a) + Filter(about, b) + Filter(about, c)
  {
    hide Filter;
    FilterAppend(about, a + b, c);
    FilterAppend(about, a, b);
  }

  lemma FilterRisk(f: Flags, c: Cycle, about: Alert -> bool)
    requires forall r {:trigger DrawdownLadder(r)} :: !about(DrawdownLadder(r))
    ensures Filter(about, RiskAlerts(f.selfStopped, f.rung, c)) == If(about(SelfStop) && c.status == SelfStopped && !f.selfStopped, SelfStop)
  {
    hide Rung;
    FilterAppend(about, If(c.status == SelfStopped && !f.selfStopped, SelfStop),
                 if c.risk.Some? then If(Rung(c.risk.value) > f.rung, DrawdownLadder(Rung(c.risk.value))) else []);
    FilterIf(c.status == SelfStopped && !f.selfStopped, SelfStop, about);
    if c.risk.Some? {
      FilterIf(Rung(c.risk.value) > f.rung, DrawdownLadder(Rung(c.risk.value)), about);
    }
  }

  lemma FilterHealth(f: Flags, c: Cycle, about: Alert -> bool)
    requires !about(SignalRejection) && !about(LedgerHealth) && !about(WatchdogStale) && !about(BacktestStale)
    ensures Filter(about, IntakeAlerts(f.rejecting, f.ledger, c)) == [] && Filter(about, StaleAlerts(f.watchdog, f.backtest, c)) == []
  {
    hide Rises;
    FilterAppend(about, If(c.rejected > 0 && !f.rejecting, SignalRejection), If(Rises(c.ledgerUnhealthy, f.ledger), LedgerHealth));
    FilterIf(c.rejected > 0 && !f.rejecting, SignalRejection, about);
    FilterIf(Rises(c.ledgerUnhealthy, f.ledger), LedgerHealth, about);
    FilterAppend(about, If(Rises(c.watchdogStale, f.watchdog), WatchdogStale), If(Rises(c.backtestStale, f.backtest), BacktestStale));
    FilterIf(Rises(c.watchdogStale, f.watchdog), WatchdogStale, about);
    FilterIf(Rises(c.backtestStale, f.backtest), BacktestStale, about);
  }

  lemma FilterRest(f: Flags, c: Cycle, about: Alert -> bool)
    requires !about(SignalRejection) && !about(LedgerHealth) && !about(WatchdogStale) && !about(BacktestStale)
    requires forall r {:trigger DrawdownLadder(r)} :: !about(DrawdownLadder(r))
    ensures Filter(about, Fired(f, c))
      == If(about(SelfStop) && c.status == SelfStopped && !f.selfStopped, SelfStop) + Filter(about, GateAlerts(f.gateGreen, c))
         + If(about(ErrorStreak(Streak(f.errorStreak, c))) && StreakAlerts(f.errorStreak, f.lastErrorAlert, c), ErrorStreak(Streak(f.errorStreak, c)))
         + If(about(TournamentGate(Newly(f.cohorts, c))) && Newly(f.cohorts, c) != {}, TournamentGate(Newly(f.cohorts, c)))
  {
    FilterRisk(f, c, about);
    FilterHealth(f, c, about);
    FilterIf(StreakAlerts(f.errorStreak, f.lastErrorAlert, c), ErrorStreak(Streak(f.errorStreak, c)), about);
    FilterIf(Newly(f.cohorts, c) != {}, TournamentGate(Newly(f.cohorts, c)), about);
    hide Filter, If, RiskAlerts, GateAlerts, IntakeAlerts, StaleAlerts, Rises, StreakAlerts, Streak, Newly;
    FilterAppend(about, RiskGroup(f, c), HealthGroup(f, c));
    FilterThree(about, RiskAlerts(f.selfStopped, f.rung, c), GateAlerts(f.gateGreen, c),
                StreakAlert(f.errorStreak, f.lastErrorAlert, c));
    FilterThree(about, IntakeAlerts(f.rejecting, f.ledger, c), StaleAlerts(f.watchdog, f.backtest, c),
                TournamentAlert(f.cohorts, c));
  }

  lemma LogStep(cycles: seq<Cycle>, n: nat, about: Alert -> bool, news: seq<Alert>)
    requires n < |cycles| && Filter(about, Fired(After(NO_FLAGS, cycles, n), cycles[n])) == news
    ensures Log(NO_FLAGS, cycles, n + 1, about) == Log(NO_FLAGS, cycles, n, about) + news
  {
    hide Filter, Fired, After;
  }

  lemma GateOf(f: Flags, c: Cycle)
    ensures Filter(AboutGate(), Fired(f, c)) == GateAlerts(f.gateGreen, c)
  {
    GateKept(f.gateGreen, c);
    hide Filter, Fired, GateAlerts;
    FilterRest(f, c, AboutGate());
  }

  lemma GateKept(green: bool, c: Cycle)
    ensures Filter(AboutGate(), GateAlerts(green, c)) == GateAlerts(green, c)
  {
    var one := if c.gateReady then GateGreen else GateRegression;
    hide Filter;
    FilterIf(c.gateReady != green, one, AboutGate());
    assert GateAlerts(green, c) == If(c.gateReady != green, one);
  }

  lemma GateIsElsewhere(f: Flags, c: Cycle, about: Alert -> bool)
    requires !about(GateGreen) && !about(GateRegression)
    ensures Filter(about, GateAlerts(f.gateGreen, c)) == []
  {
    FilterIf(c.gateReady != f.gateGreen, if c.gateReady then GateGreen else GateRegression, about);
  }

  lemma StopOf(f: Flags, c: Cycle)
    ensures Filter(AboutStop(), Fired(f, c)) == If(c.status == SelfStopped && !f.selfStopped, SelfStop)
  {
    FilterRest(f, c, AboutStop());
    GateIsElsewhere(f, c, AboutStop());
  }

  lemma StreakOf(f: Flags, c: Cycle)
    ensures Filter(AboutStreak(), Fired(f, c)) == StreakAlert(f.errorStreak, f.lastErrorAlert, c)
  {
    FilterRest(f, c, AboutStreak());
    GateIsElsewhere(f, c, AboutStreak());
  }

  lemma CohortOf(f: Flags, c: Cycle, cohort: string)
    ensures Filter(AboutCohort(cohort), Fired(f, c)) == If(cohort in Newly(f.cohorts, c), TournamentGate(Newly(f.cohorts, c)))
  {
    FilterRest(f, c, AboutCohort(cohort));
    GateIsElsewhere(f, c, AboutCohort(cohort));
  }

  // ----- the gate -----

  lemma LogStart(cycles: seq<Cycle>, about: Alert -> bool)
    ensures Log(NO_FLAGS, cycles, 0, about) == []
    ensures After(NO_FLAGS, cycles, 0) == NO_FLAGS && Starts(cycles, 0) == {}
  {
  }

  predicate Alternating(log: seq<Alert>, green: bool) {
    (forall k :: 0 <= k < |log| ==> log[k] == if k % 2 == 0 then GateGreen else GateRegression)
    && (green <==> |log| % 2 == 1)
  }

  lemma AlternatingNothing()
    ensures Alternating([], NO_FLAGS.gateGreen)
  {
  }

  lemma AlternatingStep(log: seq<Alert>, green: bool, c: Cycle)
    requires Alternating(log, green)
    ensures Alternating(log + GateAlerts(green, c), c.gateReady)
  {
  }

  lemma GateFlag(cycles: seq<Cycle>, n: nat)
    requires n < |cycles|
    ensures After(NO_FLAGS, cycles, n + 1).gateGreen == cycles[n].gateReady
  {
  }

  /** From the empty state the gate alerts alternate, GREEN first, and the last one tells the flag. */
  lemma {:induction false} GateAlternates(cycles: seq<Cycle>, n: nat)
    requires n <= |cycles|
    ensures Alternating(Log(NO_FLAGS, cycles, n, AboutGate()), After(NO_FLAGS, cycles, n).gateGreen)
  {
    hide Filter, Fired, Log, After, Alternating, GateAlerts, Starts;
    if n == 0 {
      LogStart(cycles, AboutGate());
      AlternatingNothing();
    } else {
      var f := After(NO_FLAGS, cycles, n - 1);
      GateAlternates(cycles, n - 1);
      GateFlag(cycles, n - 1);
      AlternatingStep(Log(NO_FLAGS, cycles, n - 1, AboutGate()), f.gateGreen, cycles[n - 1]);
      GateOf(f, cycles[n - 1]);
      LogStep(cycles, n - 1, AboutGate(), GateAlerts(f.gateGreen, cycles[n - 1]));
    }
  }

  // ----- self-stop -----

  predicate StopStarts(cycles: seq<Cycle>, k: nat)
    requires k < |cycles|
  {
    cycles[k].status == SelfStopped && (k == 0 || cycles[k - 1].status != SelfStopped)
  }

  lemma {:induction false} StopFlag(cycles: seq<Cycle>, n: nat)
    requires n <= |cycles|
    ensures After(NO_FLAGS, cycles, n).selfStopped <==> n > 0 && cycles[n - 1].status == SelfStopped
  {
  }

  /** A stop alert is raised exactly at the first cycle of a stop episode. */
  lemma StopAlertsAtStarts(cycles: seq<Cycle>, k: nat)
    requires k < |cycles|
    ensures Log(NO_FLAGS, cycles, k + 1, AboutStop())
         == Log(NO_FLAGS, cycles, k, AboutStop()) + If(StopStarts(cycles, k), SelfStop)
  {
    StopFlag(cycles, k);
    StopOf(After(NO_FLAGS, cycles, k), cycles[k]);
    hide Filter, Fired, Log, After;
    LogStep(cycles, k, AboutStop(), If(StopStarts(cycles, k), SelfStop));
  }

  /** However long it lasts, a stop episode raises one alert. */
  lemma {:induction false} OneStopPerEpisode(cycles: seq<Cycle>, start: nat, end: nat)
    requires start < end <= |cycles| && StopStarts(cycles, start)
    requires forall k :: start <= k < end ==> cycles[k].status == SelfStopped
    ensures Log(NO_FLAGS, cycles, end, AboutStop()) == Log(NO_FLAGS, cycles, start, AboutStop()) + [SelfStop]
  {
    hide Log;
    StopAlertsAtStarts(cycles, end - 1);
    if start < end - 1 {
      OneStopPerEpisode(cycles, start, end - 1);
    }
  }

  function Starts(cycles: seq<Cycle>, n: nat): set<nat>
    requires n <= |cycles|
  {
    set k: nat | k < n && StopStarts(cycles, k)
  }

  lemma StartsStep(cycles: seq<Cycle>, n: nat)
    requires n < |cycles|
    ensures |Starts(cycles, n + 1)| == |Starts(cycles, n)| + if StopStarts(cycles, n) then 1 else 0
  {
    hide StopStarts;
    assert Starts(cycles, n + 1) == Starts(cycles, n) + if StopStarts(cycles, n) then {n} else {};
  }

  /** So over a whole history there are as many stop alerts as stop episodes. */
  lemma {:induction false} StopsAreEpisodes(cycles: seq<Cycle>, n: nat)
    requires n <= |cycles|
    ensures |Log(NO_FLAGS, cycles, n, AboutStop())| == |Starts(cycles, n)|
  {
    hide Log, Starts, StopStarts, After;
    if n == 0 {
      LogStart(cycles, AboutStop());
    } else {
      StopsAreEpisodes(cycles, n - 1);
      StopAlertsAtStarts(cycles, n - 1);
      StartsStep(cycles, n - 1);
    }
  }

  // ----- tournament cohorts -----

  lemma CohortStep(cycles: seq<Cycle>, n: nat, cohort: string)
    requires n < |cycles|
    ensures |Log(NO_FLAGS, cycles, n + 1, AboutCohort(cohort))| - |Log(NO_FLAGS, cycles, n, AboutCohort(cohort))|
         == if cohort in Newly(After(NO_FLAGS, cycles, n).cohorts, cycles[n]) then 1 else 0
  {
    var f := After(NO_FLAGS, cycles, n);
    hide Filter, Fired, Log, After, Newly;
    CohortOf(f, cycles[n], cohort);
    LogStep(cycles, n, AboutCohort(cohort), If(cohort in Newly(f.cohorts, cycles[n]), TournamentGate(Newly(f.cohorts, cycles[n]))));
  }

  predicate EverGated(cycles: seq<Cycle>, n: nat, cohort: string)
    requires n <= |cycles|
  {
    exists k :: 0 <= k < n && cohort in cycles[k].gated.GetOr({})
  }

  lemma EverGatedNever(cycles: seq<Cycle>, cohort: string)
    ensures !EverGated(cycles, 0, cohort)
  {
  }

  lemma NewlyIs(known: set<string>, c: Cycle, cohort: string)
    ensures cohort in Newly(known, c) <==> cohort in c.gated.GetOr({}) && cohort !in known
  {
  }

  lemma EverGatedStep(cycles: seq<Cycle>, n: nat, cohort: string)
    requires n < |cycles|
    ensures EverGated(cycles, n + 1, cohort) <==> EverGated(cycles, n, cohort) || cohort in cycles[n].gated.GetOr({})
  {
    if EverGated(cycles, n + 1, cohort) {
      var k :| 0 <= k < n + 1 && cohort in cycles[k].gated.GetOr({});
      assert k < n || k == n;
    }
  }

  lemma {:induction false} CohortFlag(cycles: seq<Cycle>, n: nat, cohort: string)
    requires n <= |cycles|
    ensures cohort in After(NO_FLAGS, cycles, n).cohorts <==> EverGated(cycles, n, cohort)
  {
    if n > 0 {
      hide EverGated;
      CohortFlag(cycles, n - 1, cohort);
      EverGatedStep(cycles, n - 1, cohort);
    }
  }

  /** A cohort is announced once if it is ever gated, and otherwise never. */
  lemma {:induction false} CohortAlertsOnce(cycles: seq<Cycle>, n: nat, cohort: string)
    requires n <= |cycles|
    ensures |Log(NO_FLAGS, cycles, n, AboutCohort(cohort))| == if EverGated(cycles, n, cohort) then 1 else 0
  {
    hide Log, After, EverGated, Starts, Newly;
    if n == 0 {
      LogStart(cycles, AboutCohort(cohort));
      EverGatedNever(cycles, cohort);
    } else {
      CohortAlertsOnce(cycles, n - 1, cohort);
      CohortFlag(cycles, n - 1, cohort);
      EverGatedStep(cycles, n - 1, cohort);
      CohortStep(cycles, n - 1, cohort);
      NewlyIs(After(NO_FLAGS, cycles, n - 1).cohorts, cycles[n - 1], cohort);
    }
  }

  // ----- error streaks -----

  /** The number of error cycles in a row ending just before `n`. */
  function Run(cycles: seq<Cycle>, n: nat): (r: nat)
    requires n <= |cycles|
    ensures r <= n
  {
    if n == 0 || cycles[n - 1].status != CycleError then 0 else Run(cycles, n - 1) + 1
  }

  /** The length, so far, of the latest run of at least three errors before `n`; 0 if there is none. */
  function LastLongRun(cycles: seq<Cycle>, n: nat): (r: nat)
    requires n <= |cycles|
    ensures r == 0 || r >= 3
  {
    if n == 0 then 0 else if Run(cycles, n) >= 3 then Run(cycles, n) else LastLongRun(cycles, n - 1)
  }

  lemma {:induction false} MarkerIsLastLongRun(cycles: seq<Cycle>, n: nat)
    requires n <= |cycles|
    ensures After(NO_FLAGS, cycles, n).errorStreak == Run(cycles, n)
    ensures After(NO_FLAGS, cycles, n).lastErrorAlert == LastLongRun(cycles, n)
  {
    if n > 0 {
      MarkerIsLastLongRun(cycles, n - 1);
    }
  }

  lemma {:induction false} RunInEpisode(cycles: seq<Cycle>, start: nat, length: nat)
    requires start + length <= |cycles| && Run(cycles, start) == 0
    requires forall k :: start <= k < start + length ==> cycles[k].status == CycleError
    ensures Run(cycles, start + length) == length
    ensures LastLongRun(cycles, start + length) == if length >= 3 then length else LastLongRun(cycles, start)
  {
    if length > 0 {
      RunInEpisode(cycles, start, length - 1);
    }
  }

  lemma StreakStep(cycles: seq<Cycle>, n: nat)
    requires n < |cycles|
    ensures |Log(NO_FLAGS, cycles, n + 1, AboutStreak())| - |Log(NO_FLAGS, cycles, n, AboutStreak())|
         == if StreakAlerts(Run(cycles, n), LastLongRun(cycles, n), cycles[n]) then 1 else 0
  {
    var f := After(NO_FLAGS, cycles, n);
    hide Filter, Fired, Log, After, Run, LastLongRun, Streak;
    MarkerIsLastLongRun(cycles, n);
    StreakOf(f, cycles[n]);
    LogStep(cycles, n, AboutStreak(), StreakAlert(f.errorStreak, f.lastErrorAlert, cycles[n]));
  }

  /**
   An error episode alerts from its third error on, except that it skips its third when the latest
   long episode before it was exactly three errors long: the marker of that alert is never reset.
   */
  lemma {:induction false} ErrorEpisodeAlerts(cycles: seq<Cycle>, start: nat, length: nat)
    requires start + length <= |cycles| && Run(cycles, start) == 0
    requires forall k :: start <= k < start + length ==> cycles[k].status == CycleError
    ensures |Log(NO_FLAGS, cycles, start + length, AboutStreak())| - |Log(NO_FLAGS, cycles, start, AboutStreak())|
         == if length < 3 then 0 else if LastLongRun(cycles, start) == 3 then length - 3 else length - 2
  {
    hide Log, Run, LastLongRun;
    if length > 0 {
      ErrorEpisodeAlerts(cycles, start, length - 1);
      RunInEpisode(cycles, start, length - 1);
      StreakStep(cycles, start + length - 1);
    }
  }

  /** Two three-error episodes, one quiet cycle apart: the second raises nothing. */
  lemma SecondEpisodeIsSilent(error: Cycle, quiet: Cycle)
    requires error.status == CycleError && quiet.status == Running
    ensures var cycles := [error, error, error, quiet, error, error, error];
            |Log(NO_FLAGS, cycles, 4, AboutStreak())| == 1 && |Log(NO_FLAGS, cycles, 7, AboutStreak())| == 1
  {
    var cycles := [error, error, error, quiet, error, error, error];
    hide Log, After, Starts;
    LogStart(cycles, AboutStreak());
    assert Run(cycles, 0) == 0 && LastLongRun(cycles, 0) == 0;
    assert Run(cycles, 4) == 0 && LastLongRun(cycles, 4) == LastLongRun(cycles, 3);
    hide Run, LastLongRun;
    ErrorEpisodeAlerts(cycles, 0, 3);
    RunInEpisode(cycles, 0, 3);
    StreakStep(cycles, 3);
    ErrorEpisodeAlerts(cycles, 4, 3);
  }

  // ----- the other edges -----

  /** A rung is reached when the loss from the peak is that many tenths of it, within a billionth; without a peak none is. */
  lemma RungMeans(e: Equity, i: int)
    requires e.peak >= 0 && 1 <= i <= 3
    ensures e.peak == 0 ==> Rung(e) == 0
    ensures e.peak > 0 ==> (Rung(e) >= i <==> (e.peak - e.bankroll) as real >= (i as real / 10.0 - 0.000000001) * e.peak as real)
    ensures 0 <= Rung(e) <= 3
  {
    if e.peak > 0 {
      LossReaches(e, 0.1 - 0.000000001);
      LossReaches(e, 0.2 - 0.000000001);
      LossReaches(e, 0.3 - 0.000000001);
      hide Drawdown;
    }
  }

  lemma LossReaches(e: Equity, share: real)
    requires e.peak > 0
    ensures Drawdown(e) >= share <==> (e.peak - e.bankroll) as real >= share * e.peak as real
  {
    var q, p := e.bankroll as real / e.peak as real, e.peak as real;
    assert q * p == e.bankroll as real;
    var gap := 1.0 - q - share;
    assert gap * p == (e.peak - e.bankroll) as real - share * p;
    SignOf(gap, p);
  }

  lemma SignOf(gap: real, p: real)
    requires p > 0.0
    ensures gap >= 0.0 <==> gap * p >= 0.0
  {
    if gap < 0.0 {
      assert (-gap) * p > 0.0;
    }
  }

  /** What a cycle may report, or leave out. */
  type Report<!T> = Cycle -> Option<T>

  /** `v` is what the latest report before cycle `k` says, or `first` where there was none. */
  ghost predicate LatestBefore<T>(cycles: seq<Cycle>, k: nat, report: Report<T>, first: T, v: T)
    requires k <= |cycles|
  {
    || (v == first && forall i :: 0 <= i < k ==> report(cycles[i]) == None)
    || exists j {:trigger cycles[j]} :: 0 <= j < k && report(cycles[j]) == Some(v) && forall i :: j < i < k ==> report(cycles[i]) == None
  }

  lemma LatestNext<T>(cycles: seq<Cycle>, k: nat, report: Report<T>, first: T, v: T)
    requires k < |cycles| && LatestBefore(cycles, k, report, first, v)
    ensures LatestBefore(cycles, k + 1, report, first, report(cycles[k]).GetOr(v))
  {
    if report(cycles[k]).None? {
      if !(v == first && forall i :: 0 <= i < k ==> report(cycles[i]) == None) {
        var j :| 0 <= j < k && report(cycles[j]) == Some(v) && forall i :: j < i < k ==> report(cycles[i]) == None;
        assert forall i :: j < i < k + 1 ==> report(cycles[i]) == None;
      }
    } else {
      assert report(cycles[k]) == Some(report(cycles[k]).value);
    }
  }

  lemma LatestUnique<T>(cycles: seq<Cycle>, k: nat, report: Report<T>, first: T, v: T, u: T)
    requires k <= |cycles| && LatestBefore(cycles, k, report, first, v) && LatestBefore(cycles, k, report, first, u)
    ensures v == u
  {
  }

  function LedgerReport(): Report<bool> { (c: Cycle) => c.ledgerUnhealthy }

  function WatchdogReport(): Report<bool> { (c: Cycle) => c.watchdogStale }

  function BacktestReport(): Report<bool> { (c: Cycle) => c.backtestStale }

  function RungReport(): Report<int> { (c: Cycle) => if c.risk.Some? then Some(Rung(c.risk.value)) else None }

  lemma NextIs(f: Flags, c: Cycle)
    ensures var g := Next(f, c);
            && g.ledger == LedgerReport()(c).GetOr(f.ledger) && g.watchdog == WatchdogReport()(c).GetOr(f.watchdog)
            && g.backtest == BacktestReport()(c).GetOr(f.backtest) && g.rung == RungReport()(c).GetOr(f.rung)
            && g.rejecting == (c.rejected > 0)
  {
    hide Rung, Streak, StreakAlerts;
  }

  /** The flags are what the latest reports said. */
  lemma {:induction false} FlagsAreLatest(cycles: seq<Cycle>, k: nat)
    requires k <= |cycles|
    ensures var f := After(NO_FLAGS, cycles, k);
            && LatestBefore(cycles, k, LedgerReport(), false, f.ledger)
            && LatestBefore(cycles, k, WatchdogReport(), false, f.watchdog)
            && LatestBefore(cycles, k, BacktestReport(), false, f.backtest)
            && LatestBefore(cycles, k, RungReport(), 0, f.rung)
            && f.rejecting == (k > 0 && cycles[k - 1].rejected > 0)
  {
    if k > 0 {
      FlagsAreLatest(cycles, k - 1);
      var f := After(NO_FLAGS, cycles, k - 1);
      NextIs(f, cycles[k - 1]);
      hide Next, LatestBefore, RungReport, LedgerReport, WatchdogReport, BacktestReport;
      LatestNext(cycles, k - 1, LedgerReport(), false, f.ledger);
      LatestNext(cycles, k - 1, WatchdogReport(), false, f.watchdog);
      LatestNext(cycles, k - 1, BacktestReport(), false, f.backtest);
      LatestNext(cycles, k - 1, RungReport(), 0, f.rung);
    }
  }

  lemma RiskMembers(stopped: bool, rung: int, c: Cycle, a: Alert)
    requires a != SelfStop
    ensures a in RiskAlerts(stopped, rung, c) <==> c.risk.Some? && Rung(c.risk.value) > rung && a == DrawdownLadder(Rung(c.risk.value))
  {
    hide Rung;
  }

  lemma IntakeMembers(rejecting: bool, ledger: bool, c: Cycle, a: Alert)
    ensures a in IntakeAlerts(rejecting, ledger, c) <==>
              (a == SignalRejection && c.rejected > 0 && !rejecting) || (a == LedgerHealth && c.ledgerUnhealthy == Some(true) && !ledger)
  {
  }

  lemma StaleMembers(watchdog: bool, backtest: bool, c: Cycle, a: Alert)
    ensures a in StaleAlerts(watchdog, backtest, c) <==>
              || (a == WatchdogStale && c.watchdogStale == Some(true) && !watchdog)
              || (a == BacktestStale && c.backtestStale == Some(true) && !backtest)
  {
  }

  lemma TournamentMembers(known: set<string>, c: Cycle, a: Alert)
    requires a in TournamentAlert(known, c)
    ensures a.TournamentGate?
  {
  }

  lemma HealthMember(f: Flags, c: Cycle, a: Alert)
    requires !a.TournamentGate?
    ensures a in HealthGroup(f, c) <==> a in IntakeAlerts(f.rejecting, f.ledger, c) || a in StaleAlerts(f.watchdog, f.backtest, c)
  {
    if a in TournamentAlert(f.cohorts, c) {
      TournamentMembers(f.cohorts, c, a);
    }
    hide IntakeAlerts, StaleAlerts, TournamentAlert;
  }

  lemma HealthMembers(f: Flags, c: Cycle)
    ensures var fired := HealthGroup(f, c);
            && (SignalRejection in fired <==> c.rejected > 0 && !f.rejecting)
            && (LedgerHealth in fired <==> c.ledgerUnhealthy == Some(true) && !f.ledger)
            && (WatchdogStale in fired <==> c.watchdogStale == Some(true) && !f.watchdog)
            && (BacktestStale in fired <==> c.backtestStale == Some(true) && !f.backtest)
            && forall r {:trigger DrawdownLadder(r)} :: DrawdownLadder(r) !in fired
  {
    hide *;
    forall a: Alert {:trigger a in HealthGroup(f, c)} | !a.TournamentGate?
      ensures a in HealthGroup(f, c) <==>
                || (a == SignalRejection && c.rejected > 0 && !f.rejecting)
                || (a == LedgerHealth && c.ledgerUnhealthy == Some(true) && !f.ledger)
                || (a == WatchdogStale && c.watchdogStale == Some(true) && !f.watchdog)
                || (a == BacktestStale && c.backtestStale == Some(true) && !f.backtest)
    {
      HealthMember(f, c, a);
      IntakeMembers(f.rejecting, f.ledger, c, a);
      StaleMembers(f.watchdog, f.backtest, c, a);
    }
  }

  lemma RiskGroupMembers(f: Flags, c: Cycle, a: Alert)
    requires !a.SelfStop? && !a.GateGreen? && !a.GateRegression? && !a.ErrorStreak?
    ensures a in RiskGroup(f, c) <==> c.risk.Some? && Rung(c.risk.value) > f.rung && a == DrawdownLadder(Rung(c.risk.value))
  {
    RiskMembers(f.selfStopped, f.rung, c, a);
    hide RiskAlerts, Rung, Streak, StreakAlerts;
  }

  lemma FiredMembers(f: Flags, c: Cycle, r: int)
    ensures var fired := Fired(f, c);
            && (SignalRejection in fired <==> c.rejected > 0 && !f.rejecting)
            && (LedgerHealth in fired <==> c.ledgerUnhealthy == Some(true) && !f.ledger)
            && (WatchdogStale in fired <==> c.watchdogStale == Some(true) && !f.watchdog)
            && (BacktestStale in fired <==> c.backtestStale == Some(true) && !f.backtest)
            && (DrawdownLadder(r) in fired <==> c.risk.Some? && Rung(c.risk.value) == r && r > f.rung)
  {
    HealthMembers(f, c);
    RiskGroupMembers(f, c, SignalRejection);
    RiskGroupMembers(f, c, LedgerHealth);
    RiskGroupMembers(f, c, WatchdogStale);
    RiskGroupMembers(f, c, BacktestStale);
    RiskGroupMembers(f, c, DrawdownLadder(r));
    hide RiskGroup, HealthGroup, Rung;
  }

  /**
   An intake, ledger, watchdog or backtest alert is raised exactly where its condition is reported and the latest report
   before, if any, was clear; a drawdown alert exactly where the reported rung is deeper than the latest one before.
   */
  lemma AlertsAreEdges(cycles: seq<Cycle>, k: nat, ledger: bool, watchdog: bool, backtest: bool, rung: int, r: int)
    requires k < |cycles|
    requires LatestBefore(cycles, k, LedgerReport(), false, ledger) && LatestBefore(cycles, k, WatchdogReport(), false, watchdog)
    requires LatestBefore(cycles, k, BacktestReport(), false, backtest) && LatestBefore(cycles, k, RungReport(), 0, rung)
    ensures var c, fired := cycles[k], Fired(After(NO_FLAGS, cycles, k), cycles[k]);
            && (SignalRejection in fired <==> c.rejected > 0 && (k == 0 || cycles[k - 1].rejected <= 0))
            && (LedgerHealth in fired <==> c.ledgerUnhealthy == Some(true) && !ledger)
            && (WatchdogStale in fired <==> c.watchdogStale == Some(true) && !watchdog)
            && (BacktestStale in fired <==> c.backtestStale == Some(true) && !backtest)
            && (DrawdownLadder(r) in fired <==> c.risk.Some? && Rung(c.risk.value) == r && r > rung)
  {
    var f := After(NO_FLAGS, cycles, k);
    FlagsAreLatest(cycles, k);
    FiredMembers(f, cycles[k], r);
    hide Rung, LatestBefore, Fired, After;
    LatestUnique(cycles, k, LedgerReport(), false, ledger, f.ledger);
    LatestUnique(cycles, k, WatchdogReport(), false, watchdog, f.watchdog);
    LatestUnique(cycles, k, BacktestReport(), false, backtest, f.backtest);
    LatestUnique(cycles, k, RungReport(), 0, rung, f.rung);
  }
}
