/**
 The promotion ladder (`autonomy/auto_promotion.py`, `autonomy/auto_promotion_runner.py`): what one
 run decides, what it writes to the append-only ledger and the registry, and what no sequence
 of runs can do.  The evidence behind each gate is arbitrary.
 */
module PromotionLadder {
  import opened Extrema
  import opened Options
  import opened TextOrder
  import opened StableSorting

  // ----- the rails -----

  /** What a run looks at before it weighs any evidence; ages are in hours, None where unknown. */
  datatype Rails = Rails(
    killFile: bool, heartbeat: Option<string>, alive: bool, healthError: bool, saturated: bool,
    exchangeAnomaly: bool, artifactAge: Option<real>, lastSuccess: Option<real>)

  datatype Rail = KillFile | CycleError | NotAlive | HealthError | WeightSaturation | ExchangeAnomaly | StaleArtifacts

  const STALE_HOURS := 24.0
  const TOLERANCE_HOURS := 2.0

  predicate StartsWith(s: string, prefix: string) {
    prefix <= s
  }

  predicate Contains(s: string, part: string) {
    |part| <= |s| && (s[..|part|] == part || (s != "" && Contains(s[1..], part)))
  }

  /** `part in s`: the text is something, then the part, then something. */
  lemma {:induction false} ContainsMeans(s: string, part: string)
    ensures Contains(s, part) <==> exists low, high :: s == low + part + high
  {
    if |part| <= |s| && s[..|part|] == part {
      assert s == "" + part + s[|part|..];
    } else if s != "" {
      ContainsMeans(s[1..], part);
      if low, high :| s[1..] == low + part + high {
        assert s == ([s[0]] + low) + part + high;
      }
      if low, high :| s == low + part + high {
        assert s[|low|..|low| + |part|] == part;
        assert s[1..] == low[1..] + part + high;
      }
    }
  }

  /** Contention for the database or a missed deadline: the settled evidence still stands. */
  predicate Transient(status: string) {
    Contains(status, "OperationalError") || Contains(status, "CycleDeadline") || Contains(status, "TimeoutError")
  }

  predicate RecentlyHealthy(r: Rails) {
    r.lastSuccess.Some? && r.lastSuccess.value <= TOLERANCE_HOURS
  }

  predicate CycleErrorTrips(r: Rails) {
    var status := r.heartbeat.GetOr("");
    StartsWith(status, "CYCLE_ERROR") && !(Transient(status) && RecentlyHealthy(r))
  }

  function If(condition: bool, rail: Rail): seq<Rail> {
    if condition then [rail] else []
  }

  function LivenessRails(r: Rails): seq<Rail> {
    If(r.killFile, KillFile) + If(CycleErrorTrips(r), CycleError) + If(!r.alive, NotAlive)
  }

  function SystemRails(r: Rails): seq<Rail> {
    If(r.healthError, HealthError) + If(r.saturated, WeightSaturation) + If(r.exchangeAnomaly, ExchangeAnomaly)
  }

  predicate Stale(r: Rails) {
    r.artifactAge.Some? && r.artifactAge.value > STALE_HOURS
  }

  function TrippedRails(r: Rails): seq<Rail> {
    LivenessRails(r) + SystemRails(r) + If(Stale(r), StaleArtifacts)
  }

  /** `evaluate_rails`: the rails that trip, in the order they are examined. */
  method EvaluateRails(r: Rails) returns (reasons: seq<Rail>)
    ensures reasons == TrippedRails(r)
  {
    hide LivenessRails, SystemRails;
    var liveness := ExamineLiveness(r);
    var system := ExamineSystem(r);
    reasons := liveness + system;
    if r.artifactAge.Some? && r.artifactAge.value > STALE_HOURS {
      reasons := reasons + [StaleArtifacts];
    }
  }

  method ExamineSystem(r: Rails) returns (reasons: seq<Rail>)
    ensures reasons == SystemRails(r)
  {
    reasons := [];
    if r.healthError {
      reasons := reasons + [HealthError];
    }
    if r.saturated {
      reasons := reasons + [WeightSaturation];
    }
    if r.exchangeAnomaly {
      reasons := reasons + [ExchangeAnomaly];
    }
  }

  method ExamineLiveness(r: Rails) returns (reasons: seq<Rail>)
    ensures reasons == LivenessRails(r)
  {
    hide Transient, StartsWith;
    reasons := [];
    if r.killFile {
      reasons := reasons + [KillFile];
    }
    var status := r.heartbeat.GetOr("");
    if StartsWith(status, "CYCLE_ERROR") {
      var recentlyHealthy := r.lastSuccess.Some? && r.lastSuccess.value <= TOLERANCE_HOURS;
      if !(Transient(status) && recentlyHealthy) {
        reasons := reasons + [CycleError];
      }
    }
    if !r.alive {
      reasons := reasons + [NotAlive];
    }
  }

  /**
   No rail trips exactly on a live, healthy system with fresh evidence whose last cycle, if it failed at all, failed on
   contention shortly after a good one.
   */
  lemma RailsHoldExactlyWhen(r: Rails)
    ensures TrippedRails(r) == [] <==>
              && !r.killFile && r.alive && !r.healthError && !r.saturated && !r.exchangeAnomaly
              && (r.artifactAge.Some? ==> r.artifactAge.value <= 24.0)
              && ("CYCLE_ERROR" <= r.heartbeat.GetOr("") ==>
                    Transient(r.heartbeat.value) && r.lastSuccess.Some? && r.lastSuccess.value <= 2.0)
  {
    hide Transient;
    NoneOf(LivenessRails(r), SystemRails(r), If(Stale(r), StaleArtifacts));
    NoneOf(If(r.killFile, KillFile), If(CycleErrorTrips(r), CycleError), If(!r.alive, NotAlive));
    NoneOf(If(r.healthError, HealthError), If(r.saturated, WeightSaturation), If(r.exchangeAnomaly, ExchangeAnomaly));
  }

  lemma NoneOf(a: seq<Rail>, b: seq<Rail>, c: seq<Rail>)
    ensures a + b + c == [] <==> a == [] && b == [] && c == []
  {
    assert |a + b + c| == |a| + |b| + |c|;
  }

  // ----- one run's evidence and decisions -----

  datatype Verdict = HumanReview | Declined | Replacement | Promotable(rank: real)

  datatype Evidence = Evidence(
    day: string,                        // the run's UTC date
    chainIntact: bool,                  // the ledger's hash chain verifies
    rails: Rails,
    databaseThere: bool,
    scopes: seq<string>,                // scopes with settled rows, in dictionary order
    eligible: string -> bool,
    breach: string -> bool,             // the trailing contested-edge demotion test
    escalation: string -> Option<real>, // the realized P&L lower bound, when escalation passes
    verdict: string -> Verdict)         // the stage-1 gates, for a scope not yet promoted
  {
    predicate RailsTripped() { TrippedRails(rails) != [] }
  }

  datatype Action = Promote | Escalate | Demote | Abort

  datatype AddRisk = AddRisk(rank: real, scope: string, action: Action)

  datatype Result = Result(
    promotions: seq<AddRisk>, escalations: seq<AddRisk>, deferred: seq<AddRisk>, demotions: seq<string>,
    humanReview: seq<string>, declined: seq<string>, replacements: seq<string>)

  /** Strongest evidence first, then by scope name. */
  predicate RankLeq(a: AddRisk, b: AddRisk) {
    a.rank > b.rank || (a.rank == b.rank && TextLeq(a.scope, b.scope))
  }

  function Breached(promoted: seq<string>, e: Evidence): seq<string> {
    if promoted == [] then []
    else
      var s := promoted[|promoted| - 1];
      Breached(promoted[..|promoted| - 1], e) + if e.breach(s) then [s] else []
  }

  predicate Escalates(s: string, stages: map<string, int>, e: Evidence) {
    !e.breach(s) && StageOf(stages, s) < 2 && e.escalation(s).Some?
  }

  function StageOf(stages: map<string, int>, s: string): int {
    if s in stages then stages[s] else 1
  }

  function EscalationCandidates(promoted: seq<string>, stages: map<string, int>, e: Evidence): seq<AddRisk> {
    if promoted == [] then []
    else
      var s := promoted[|promoted| - 1];
      EscalationCandidates(promoted[..|promoted| - 1], stages, e)
      + if Escalates(s, stages, e) then [AddRisk(e.escalation(s).value, s, Escalate)] else []
  }

  predicate Fresh(s: string, promoted: seq<string>, e: Evidence) {
    s !in promoted && e.eligible(s)
  }

  function PromotionCandidates(scopes: seq<string>, promoted: seq<string>, e: Evidence): seq<AddRisk> {
    if scopes == [] then []
    else
      var s := scopes[|scopes| - 1];
      PromotionCandidates(scopes[..|scopes| - 1], promoted, e)
      + if Fresh(s, promoted, e) && e.verdict(s).Promotable? then [AddRisk(e.verdict(s).rank, s, Promote)] else []
  }

  function Withheld(scopes: seq<string>, promoted: seq<string>, e: Evidence, v: Verdict): seq<string> {
    if scopes == [] then []
    else
      var s := scopes[|scopes| - 1];
      Withheld(scopes[..|scopes| - 1], promoted, e, v)
      + if Fresh(s, promoted, e) && e.verdict(s) == v then [s] else []
  }

  function IsAction(action: Action): AddRisk -> bool {
    (a: AddRisk) => a.action == action
  }

  function Ranked(promoted: seq<string>, stages: map<string, int>, e: Evidence): seq<AddRisk> {
    Sort(EscalationCandidates(promoted, stages, e) + PromotionCandidates(e.scopes, promoted, e), RankLeq)
  }

  function Budget(cap: int, used: nat, candidates: nat): (b: nat)
    ensures b <= candidates && b <= Max(0, cap - used)
  {
    if cap - used <= 0 then 0 else if cap - used <= candidates then cap - used else candidates
  }

  const NO_DECISIONS := Result([], [], [], [], [], [], [])

  function Decisions(promoted: seq<string>, stages: map<string, int>, e: Evidence, cap: int, used: nat): Result {
    if e.RailsTripped() then NO_DECISIONS
    else
      var ranked := Ranked(promoted, stages, e);
      var b := Budget(cap, used, |ranked|);
      Result(Filter(IsAction(Promote), ranked[..b]), Filter(IsAction(Escalate), ranked[..b]), ranked[b..],
             Breached(promoted, e),
             Withheld(e.scopes, promoted, e, HumanReview), Withheld(e.scopes, promoted, e, Declined),
             Withheld(e.scopes, promoted, e, Replacement))
  }

  /** Demotions first, then escalations, over the promoted scopes. */
  method ReviewPromoted(promoted: seq<string>, stages: map<string, int>, e: Evidence)
    returns (demotions: seq<string>, candidates: seq<AddRisk>)
    ensures demotions == Breached(promoted, e) && candidates == EscalationCandidates(promoted, stages, e)
  {
    demotions, candidates := [], [];
    for i := 0 to |promoted|
      invariant demotions == Breached(promoted[..i], e)
    {
      assert promoted[..i + 1][..i] == promoted[..i];
      if e.breach(promoted[i]) {
        demotions := demotions + [promoted[i]];
      }
    }
    for i := 0 to |promoted|
      invariant candidates == EscalationCandidates(promoted[..i], stages, e)
    {
      assert promoted[..i + 1][..i] == promoted[..i];
      if Escalates(promoted[i], stages, e) {
        candidates := candidates + [AddRisk(e.escalation(promoted[i]).value, promoted[i], Escalate)];
      }
    }
    assert promoted[..|promoted|] == promoted;
  }

  /** The stage-1 gates over every eligible scope not yet promoted. */
  method ReviewNewScopes(promoted: seq<string>, e: Evidence)
    returns (newcomers: seq<AddRisk>, human: seq<string>, declined: seq<string>, replaced: seq<string>)
    ensures newcomers == PromotionCandidates(e.scopes, promoted, e)
    ensures human == Withheld(e.scopes, promoted, e, HumanReview)
    ensures declined == Withheld(e.scopes, promoted, e, Declined)
    ensures replaced == Withheld(e.scopes, promoted, e, Replacement)
  {
    newcomers, human, declined, replaced := [], [], [], [];
    for i := 0 to |e.scopes|
      invariant newcomers == PromotionCandidates(e.scopes[..i], promoted, e)
      invariant human == Withheld(e.scopes[..i], promoted, e, HumanReview)
      invariant declined == Withheld(e.scopes[..i], promoted, e, Declined)
      invariant replaced == Withheld(e.scopes[..i], promoted, e, Replacement)
    {
      assert e.scopes[..i + 1][..i] == e.scopes[..i];
      var s := e.scopes[i];
      if Fresh(s, promoted, e) {
        match e.verdict(s)
        case HumanReview => human := human + [s];
        case Declined => declined := declined + [s];
        case Replacement => replaced := replaced + [s];
        case Promotable(rank) => newcomers := newcomers + [AddRisk(rank, s, Promote)];
      }
    }
    assert e.scopes[..|e.scopes|] == e.scopes;
  }

  /** The first `b` of the ranking, split by the kind of action. */
  method Accept(ranked: seq<AddRisk>, b: nat) returns (promotions: seq<AddRisk>, escalations: seq<AddRisk>)
    requires b <= |ranked| && forall i :: 0 <= i < |ranked| ==> ranked[i].action in {Promote, Escalate}
    ensures promotions == Filter(IsAction(Promote), ranked[..b])
    ensures escalations == Filter(IsAction(Escalate), ranked[..b])
  {
    promotions, escalations := [], [];
    for i := 0 to b
      invariant promotions == Filter(IsAction(Promote), ranked[..i])
      invariant escalations == Filter(IsAction(Escalate), ranked[..i])
    {
      assert ranked[..i + 1][..i] == ranked[..i];
      if ranked[i].action == Escalate {
        escalations := escalations + [ranked[i]];
      } else {
        promotions := promotions + [ranked[i]];
      }
    }
  }

  /** The daily cap: the first `b` of the ranking are accepted, the rest deferred. */
  method ApplyCap(ranked: seq<AddRisk>, b: nat)
    returns (promotions: seq<AddRisk>, escalations: seq<AddRisk>, deferred: seq<AddRisk>)
    requires b <= |ranked| && forall i :: 0 <= i < |ranked| ==> ranked[i].action in {Promote, Escalate}
    ensures promotions == Filter(IsAction(Promote), ranked[..b])
    ensures escalations == Filter(IsAction(Escalate), ranked[..b])
    ensures deferred == ranked[b..]
  {
    promotions, escalations := Accept(ranked, b);
    deferred := [];
    for i := b to |ranked|
      invariant deferred == ranked[b..i]
    {
      deferred := deferred + [ranked[i]];
    }
  }

  method Decide(promoted: seq<string>, stages: map<string, int>, e: Evidence, cap: int, used: nat) returns (r: Result)
    ensures r == Decisions(promoted, stages, e, cap, used)
  {
    if e.RailsTripped() {
      return NO_DECISIONS;
    }
    var demotions, candidates := ReviewPromoted(promoted, stages, e);
    var newcomers, human, declined, replaced := ReviewNewScopes(promoted, e);
    var ranked := Sort(candidates + newcomers, RankLeq);
    forall i | 0 <= i < |ranked| ensures ranked[i].action in {Promote, Escalate} {
      assert ranked[i] in ranked;
      RankedActions(promoted, stages, e, ranked[i]);
    }
    var promotions, escalations, deferred := ApplyCap(ranked, Budget(cap, used, |ranked|));
    r := Result(promotions, escalations, deferred, demotions, human, declined, replaced);
  }

  lemma CandidateActions(promoted: seq<string>, scopes: seq<string>, stages: map<string, int>, e: Evidence, a: AddRisk)
    ensures a in EscalationCandidates(promoted, stages, e) ==>
              a.action == Escalate && a.scope in promoted && Escalates(a.scope, stages, e)
    ensures a in PromotionCandidates(scopes, promoted, e) ==>
              a.action == Promote && a.scope in scopes && Fresh(a.scope, promoted, e) && e.verdict(a.scope).Promotable?
  {
    EscalationActions(promoted, stages, e, a);
    PromotionActions(scopes, promoted, e, a);
  }

  lemma {:induction false} EscalationActions(promoted: seq<string>, stages: map<string, int>, e: Evidence, a: AddRisk)
    ensures a in EscalationCandidates(promoted, stages, e) ==>
              a.action == Escalate && a.scope in promoted && Escalates(a.scope, stages, e)
  {
    if promoted != [] {
      EscalationActions(promoted[..|promoted| - 1], stages, e, a);
    }
  }

  lemma {:induction false} PromotionActions(scopes: seq<string>, promoted: seq<string>, e: Evidence, a: AddRisk)
    ensures a in PromotionCandidates(scopes, promoted, e) ==>
              a.action == Promote && a.scope in scopes && Fresh(a.scope, promoted, e) && e.verdict(a.scope).Promotable?
  {
    if scopes != [] {
      PromotionActions(scopes[..|scopes| - 1], promoted, e, a);
    }
  }

  lemma RankedActions(promoted: seq<string>, stages: map<string, int>, e: Evidence, a: AddRisk)
    requires a in Ranked(promoted, stages, e)
    ensures (a.action == Escalate && a.scope in promoted && Escalates(a.scope, stages, e))
            || (a.action == Promote && a.scope in e.scopes && Fresh(a.scope, promoted, e) && e.verdict(a.scope).Promotable?)
  {
    SortMembers(EscalationCandidates(promoted, stages, e) + PromotionCandidates(e.scopes, promoted, e), RankLeq);
    CandidateActions(promoted, e.scopes, stages, e, a);
  }

  // ----- one run -----

  /** The cap is spent on the strongest evidence: whatever is deferred has a lower rank than anything accepted, or the
      same rank and a later name. */
  lemma AcceptedRankAhead(promoted: seq<string>, stages: map<string, int>, e: Evidence, cap: int, used: nat,
                          a: AddRisk, d: AddRisk)
    requires var r := Decisions(promoted, stages, e, cap, used);
             (a in r.promotions || a in r.escalations) && d in r.deferred
    ensures a.rank > d.rank || (a.rank == d.rank && TextLeq(a.scope, d.scope))
  {
    var ranked := Ranked(promoted, stages, e);
    var b := Budget(cap, used, |ranked|);
    LinearOrder();
    SortSorted(EscalationCandidates(promoted, stages, e) + PromotionCandidates(e.scopes, promoted, e), RankLeq);
    assert RankLeq(a, d) by {
      hide RankLeq, Ranked;
      assert a in ranked[..b];
      var i :| 0 <= i < b && ranked[i] == a;
      var j :| 0 <= j < |ranked| - b && ranked[b..][j] == d;
      assert RankLeq(ranked[i], ranked[b + j]);
    }
  }

  lemma {:induction false} KindsAdd(s: seq<AddRisk>)
    requires forall i :: 0 <= i < |s| ==> s[i].action in {Promote, Escalate}
    ensures |Filter(IsAction(Promote), s)| + |Filter(IsAction(Escalate), s)| == |s|
  {
    if s != [] {
      KindsAdd(s[..|s| - 1]);
    }
  }

  /** Exactly what is left of the day's cap is accepted, or everything there is: nothing is deferred while cap is left. */
  lemma CapIsSpent(promoted: seq<string>, stages: map<string, int>, e: Evidence, cap: int, used: nat)
    requires !e.RailsTripped()
    ensures var r := Decisions(promoted, stages, e, cap, used);
            var accepted := |r.promotions| + |r.escalations|;
            && (accepted == 0 || used + accepted <= cap)
            && (r.deferred != [] ==> if used < cap then used + accepted == cap else accepted == 0)
  {
    var ranked := Ranked(promoted, stages, e);
    var b := Budget(cap, used, |ranked|);
    forall i | 0 <= i < b ensures ranked[..b][i].action in {Promote, Escalate} {
      assert ranked[i] in ranked;
      RankedActions(promoted, stages, e, ranked[i]);
    }
    hide Ranked;
    KindsAdd(ranked[..b]);
  }

  lemma {:induction false} EscalationsAre(promoted: seq<string>, stages: map<string, int>, e: Evidence, a: AddRisk)
    ensures a in EscalationCandidates(promoted, stages, e) <==>
              && a.action == Escalate && a.scope in promoted && !e.breach(a.scope) && StageOf(stages, a.scope) < 2
              && e.escalation(a.scope) == Some(a.rank)
  {
    if promoted != [] {
      var front, s := promoted[..|promoted| - 1], promoted[|promoted| - 1];
      EscalationsAre(front, stages, e, a);
      assert promoted == front + [s];
    }
  }

  lemma {:induction false} PromotionsAre(scopes: seq<string>, promoted: seq<string>, e: Evidence, a: AddRisk)
    ensures a in PromotionCandidates(scopes, promoted, e) <==>
              && a.action == Promote && a.scope in scopes && a.scope !in promoted && e.eligible(a.scope)
              && e.verdict(a.scope) == Promotable(a.rank)
  {
    if scopes != [] {
      var front, s := scopes[..|scopes| - 1], scopes[|scopes| - 1];
      PromotionsAre(front, promoted, e, a);
      assert scopes == front + [s];
    }
  }

  lemma {:induction false} WithheldAre(scopes: seq<string>, promoted: seq<string>, e: Evidence, v: Verdict, s: string)
    ensures s in Withheld(scopes, promoted, e, v) <==> s in scopes && s !in promoted && e.eligible(s) && e.verdict(s) == v
  {
    if scopes != [] {
      var front, t := scopes[..|scopes| - 1], scopes[|scopes| - 1];
      WithheldAre(front, promoted, e, v, s);
      assert scopes == front + [t];
    }
  }

  lemma {:induction false} BreachedAre(promoted: seq<string>, e: Evidence, s: string)
    ensures s in Breached(promoted, e) <==> s in promoted && e.breach(s)
  {
    if promoted != [] {
      var front, t := promoted[..|promoted| - 1], promoted[|promoted| - 1];
      BreachedAre(front, e, s);
      assert promoted == front + [t];
    }
  }

  lemma WhereCut(ranked: seq<AddRisk>, b: nat, a: AddRisk)
    requires b <= |ranked| && (a in ranked ==> a.action in {Promote, Escalate})
    ensures a in Filter(IsAction(Promote), ranked[..b]) <==> a in ranked[..b] && a.action == Promote
    ensures a in Filter(IsAction(Escalate), ranked[..b]) <==> a in ranked[..b] && a.action == Escalate
    ensures a in ranked <==> a in ranked[..b] || a in ranked[b..]
  {
    assert ranked == ranked[..b] + ranked[b..];
  }

  lemma RankedAre(promoted: seq<string>, stages: map<string, int>, e: Evidence, a: AddRisk)
    ensures a in Ranked(promoted, stages, e) <==>
              a in EscalationCandidates(promoted, stages, e) || a in PromotionCandidates(e.scopes, promoted, e)
  {
    var escalations, promotions := EscalationCandidates(promoted, stages, e), PromotionCandidates(e.scopes, promoted, e);
    SortMembers(escalations + promotions, RankLeq);
    hide Sort, RankLeq;
  }

  /** Where the cap puts the ranked actions: accepted by kind, or deferred. */
  lemma WhereRanked(promoted: seq<string>, stages: map<string, int>, e: Evidence, cap: int, used: nat, a: AddRisk)
    requires !e.RailsTripped()
    ensures var r := Decisions(promoted, stages, e, cap, used);
            && (a in r.promotions ==> a.action == Promote) && (a in r.escalations ==> a.action == Escalate)
            && (a in r.promotions || a in r.escalations || a in r.deferred <==>
                  a in EscalationCandidates(promoted, stages, e) || a in PromotionCandidates(e.scopes, promoted, e))
  {
    var ranked := Ranked(promoted, stages, e);
    RankedAre(promoted, stages, e, a);
    if a in ranked {
      RankedActions(promoted, stages, e, a);
    }
    hide EscalationCandidates, PromotionCandidates, Ranked, Withheld, Breached, Filter, IsAction, Escalates, Fresh;
    WhereCut(ranked, Budget(cap, used, |ranked|), a);
  }

  /**
   Each list of a run holds exactly what its evidence calls for: every breached promoted scope, every unbreached one below
   stage 2 that passes the escalation test, and every eligible new scope in the list its verdict names.
   */
  lemma EveryScopeIsDecided(promoted: seq<string>, stages: map<string, int>, e: Evidence, cap: int, used: nat, s: string, rank: real)
    requires !e.RailsTripped()
    ensures var r := Decisions(promoted, stages, e, cap, used);
            var up, on := AddRisk(rank, s, Promote), AddRisk(rank, s, Escalate);
            var newcomer := s in e.scopes && s !in promoted && e.eligible(s);
            && (s in r.demotions <==> s in promoted && e.breach(s))
            && (on in r.escalations || on in r.deferred <==>
                  s in promoted && !e.breach(s) && (s in stages ==> stages[s] < 2) && e.escalation(s) == Some(rank))
            && (up in r.promotions || up in r.deferred <==> newcomer && e.verdict(s) == Promotable(rank))
            && (s in r.humanReview <==> newcomer && e.verdict(s) == HumanReview)
            && (s in r.declined <==> newcomer && e.verdict(s) == Declined)
            && (s in r.replacements <==> newcomer && e.verdict(s) == Replacement)
  {
    var up, on := AddRisk(rank, s, Promote), AddRisk(rank, s, Escalate);
    BreachedAre(promoted, e, s);
    WithheldAre(e.scopes, promoted, e, HumanReview, s);
    WithheldAre(e.scopes, promoted, e, Declined, s);
    WithheldAre(e.scopes, promoted, e, Replacement, s);
    EscalationsAre(promoted, stages, e, on);
    EscalationsAre(promoted, stages, e, up);
    PromotionsAre(e.scopes, promoted, e, up);
    PromotionsAre(e.scopes, promoted, e, on);
    WhereRanked(promoted, stages, e, cap, used, up);
    WhereRanked(promoted, stages, e, cap, used, on);
    hide EscalationCandidates, PromotionCandidates, Withheld, Breached, Ranked, Budget;
  }

  function Occurs(s: string): string -> int {
    (t: string) => if t == s then 1 else 0
  }

  function About(s: string): AddRisk -> int {
    (a: AddRisk) => if a.scope == s then 1 else 0
  }

  /** How many decisions of the run are about scope `s`. */
  function DecisionsAbout(r: Result, s: string): int {
    Sum(About(s), r.promotions) + Sum(About(s), r.escalations) + Sum(About(s), r.deferred)
    + Sum(Occurs(s), r.demotions) + Sum(Occurs(s), r.humanReview) + Sum(Occurs(s), r.declined)
    + Sum(Occurs(s), r.replacements)
  }

  lemma {:induction false} BreachedCount(promoted: seq<string>, e: Evidence, s: string)
    ensures Sum(Occurs(s), Breached(promoted, e)) == if e.breach(s) then Sum(Occurs(s), promoted) else 0
  {
    if promoted != [] {
      var front, t := promoted[..|promoted| - 1], promoted[|promoted| - 1];
      BreachedCount(front, e, s);
      if e.breach(t) {
        SumSnoc(Occurs(s), Breached(front, e), t);
      } else {
        assert Breached(front, e) + [] == Breached(front, e);
      }
    }
  }

  lemma {:induction false} EscalationCount(promoted: seq<string>, stages: map<string, int>, e: Evidence, s: string)
    ensures Sum(About(s), EscalationCandidates(promoted, stages, e))
            == if Escalates(s, stages, e) then Sum(Occurs(s), promoted) else 0
  {
    if promoted != [] {
      var front, t := promoted[..|promoted| - 1], promoted[|promoted| - 1];
      EscalationCount(front, stages, e, s);
      var c := EscalationCandidates(front, stages, e);
      if Escalates(t, stages, e) {
        SumSnoc(About(s), c, AddRisk(e.escalation(t).value, t, Escalate));
      } else {
        assert c + [] == c;
      }
    }
  }

  lemma PromotedOnce(promoted: seq<string>, stages: map<string, int>, e: Evidence, s: string)
    requires Keys(promoted)
    ensures Sum(Occurs(s), Breached(promoted, e)) + Sum(About(s), EscalationCandidates(promoted, stages, e))
            <= if s in promoted then 1 else 0
  {
    BreachedCount(promoted, e, s);
    EscalationCount(promoted, stages, e, s);
    OccursIn(promoted, s);
    hide Sum;
  }

  lemma {:induction false} PromotableCount(scopes: seq<string>, promoted: seq<string>, e: Evidence, s: string)
    ensures Sum(About(s), PromotionCandidates(scopes, promoted, e))
            == if Fresh(s, promoted, e) && e.verdict(s).Promotable? then Sum(Occurs(s), scopes) else 0
  {
    if scopes != [] {
      var front, t := scopes[..|scopes| - 1], scopes[|scopes| - 1];
      PromotableCount(front, promoted, e, s);
      var p := PromotionCandidates(front, promoted, e);
      if Fresh(t, promoted, e) && e.verdict(t).Promotable? {
        SumSnoc(About(s), p, AddRisk(e.verdict(t).rank, t, Promote));
      } else {
        assert p + [] == p;
      }
    }
  }

  lemma {:induction false} WithheldCount(scopes: seq<string>, promoted: seq<string>, e: Evidence, v: Verdict, s: string)
    ensures Sum(Occurs(s), Withheld(scopes, promoted, e, v))
            == if Fresh(s, promoted, e) && e.verdict(s) == v then Sum(Occurs(s), scopes) else 0
  {
    if scopes != [] {
      var front, t := scopes[..|scopes| - 1], scopes[|scopes| - 1];
      WithheldCount(front, promoted, e, v, s);
      var h := Withheld(front, promoted, e, v);
      if Fresh(t, promoted, e) && e.verdict(t) == v {
        SumSnoc(Occurs(s), h, t);
      } else {
        assert h + [] == h;
      }
    }
  }

  /** The four verdicts on a new scope exclude one another, and none concerns a promoted scope. */
  lemma NewOnce(scopes: seq<string>, promoted: seq<string>, e: Evidence, s: string)
    requires Keys(scopes)
    ensures Sum(About(s), PromotionCandidates(scopes, promoted, e))
            + Sum(Occurs(s), Withheld(scopes, promoted, e, HumanReview))
            + Sum(Occurs(s), Withheld(scopes, promoted, e, Declined))
            + Sum(Occurs(s), Withheld(scopes, promoted, e, Replacement))
            <= if s in promoted then 0 else 1
  {
    PromotableCount(scopes, promoted, e, s);
    WithheldCount(scopes, promoted, e, HumanReview, s);
    WithheldCount(scopes, promoted, e, Declined, s);
    WithheldCount(scopes, promoted, e, Replacement, s);
    OccursIn(scopes, s);
    hide Sum;
  }

  lemma {:induction false} OccursIn(list: seq<string>, s: string)
    requires Keys(list)
    ensures Sum(Occurs(s), list) == if s in list then 1 else 0
  {
    if list != [] {
      OccursIn(list[..|list| - 1], s);
    }
  }

  /** Promoted and evaluated scopes are dictionary keys: neither list repeats a scope. */
  ghost predicate Keys(list: seq<string>) {
    forall i, j :: 0 <= i < j < |list| ==> list[i] != list[j]
  }

  /** A run makes at most one decision about any scope. */
  lemma OneDecisionPerScope(promoted: seq<string>, stages: map<string, int>, e: Evidence, cap: int, used: nat, s: string)
    requires Keys(promoted) && Keys(e.scopes)
    ensures DecisionsAbout(Decisions(promoted, stages, e, cap, used), s) <= 1
  {
    if !e.RailsTripped() {
      var ranked := Ranked(promoted, stages, e);
      var b := Budget(cap, used, |ranked|);
      PromotedOnce(promoted, stages, e, s);
      NewOnce(e.scopes, promoted, e, s);
      RankedTotal(promoted, stages, e, s);
      CapSplits(promoted, stages, e, b, s);
      hide Sum, Ranked, Budget;
    }
  }

  lemma RankedTotal(promoted: seq<string>, stages: map<string, int>, e: Evidence, s: string)
    ensures Sum(About(s), Ranked(promoted, stages, e))
            == Sum(About(s), EscalationCandidates(promoted, stages, e)) + Sum(About(s), PromotionCandidates(e.scopes, promoted, e))
  {
    var a, b := EscalationCandidates(promoted, stages, e), PromotionCandidates(e.scopes, promoted, e);
    SumSort(About(s), a + b, RankLeq);
    SumAppend(About(s), a, b);
  }

  lemma AcceptedActions(promoted: seq<string>, stages: map<string, int>, e: Evidence, b: nat)
    requires b <= |Ranked(promoted, stages, e)|
    ensures forall a {:trigger a in Ranked(promoted, stages, e)[..b]} :: a in Ranked(promoted, stages, e)[..b] ==>
              (IsAction(Promote)(a) <==> !IsAction(Escalate)(a))
  {
    var ranked := Ranked(promoted, stages, e);
    hide Ranked, Escalates, Fresh;
    forall a {:trigger a in ranked[..b]} | a in ranked[..b]
      ensures IsAction(Promote)(a) <==> !IsAction(Escalate)(a)
    {
      assert a in ranked;
      RankedActions(promoted, stages, e, a);
    }
  }

  lemma CapSplits(promoted: seq<string>, stages: map<string, int>, e: Evidence, b: nat, s: string)
    requires b <= |Ranked(promoted, stages, e)|
    ensures var ranked := Ranked(promoted, stages, e);
            Sum(About(s), Filter(IsAction(Promote), ranked[..b])) + Sum(About(s), Filter(IsAction(Escalate), ranked[..b]))
            + Sum(About(s), ranked[b..]) == Sum(About(s), ranked)
  {
    hide Ranked, Sum, IsAction, About;
    var ranked := Ranked(promoted, stages, e);
    AcceptedActions(promoted, stages, e, b);
    FilterParts(About(s), IsAction(Promote), IsAction(Escalate), ranked[..b]);
    SumAppend(About(s), ranked[..b], ranked[b..]);
    assert ranked == ranked[..b] + ranked[b..];
  }

  // ----- the ledger and the registry -----

  datatype Entry = Entry(action: Action, scope: string, day: string)

  /** The append-only ledger, the promoted scopes with their stages, and the machine's demotions. */
  datatype Books = Books(ledger: seq<Entry>, promotions: map<string, int>, demotions: set<string>)

  predicate Active(b: Books, s: string) {
    s in b.promotions && s !in b.demotions
  }

  function UsedOn(ledger: seq<Entry>, day: string): nat {
    if ledger == [] then 0
    else
      var last := ledger[|ledger| - 1];
      UsedOn(ledger[..|ledger| - 1], day)
      + if last.day == day && last.action in {Promote, Escalate} then 1 else 0
  }

  /** A ledger scope must name source, subject, market type and horizon. */
  type ScopeParts = string -> bool

  function Promoted(b: Books, accepted: seq<AddRisk>, day: string, parses: ScopeParts): Books {
    if accepted == [] then b
    else
      var before, s := Promoted(b, accepted[..|accepted| - 1], day, parses), accepted[|accepted| - 1].scope;
      if !parses(s) then before
      else before.(ledger := before.ledger + [Entry(Promote, s, day)], promotions := before.promotions[s := 1])
  }

  function Escalated(b: Books, accepted: seq<AddRisk>, day: string): Books {
    if accepted == [] then b
    else
      var before, s := Escalated(b, accepted[..|accepted| - 1], day), accepted[|accepted| - 1].scope;
      before.(ledger := before.ledger + [Entry(Escalate, s, day)],
              promotions := if s in before.promotions then before.promotions[s := 2] else before.promotions)
  }

  function Demoted(b: Books, scopes: seq<string>, day: string): Books {
    if scopes == [] then b
    else
      var before, s := Demoted(b, scopes[..|scopes| - 1], day), scopes[|scopes| - 1];
      before.(ledger := before.ledger + [Entry(Demote, s, day)], demotions := before.demotions + {s})
  }

  function Applied(b: Books, r: Result, day: string, parses: ScopeParts): Books {
    Demoted(Escalated(Promoted(b, r.promotions, day, parses), r.escalations, day), r.demotions, day)
  }

  /** The registry's snapshot: active scopes in order, as the engine sees them. */
  ghost predicate Snapshot(b: Books, active: seq<string>) {
    Keys(active) && forall s :: s in active <==> Active(b, s)
  }

  /** One pass of `run_auto_promotion`, given the snapshot it took. */
  function AfterRun(b: Books, active: seq<string>, e: Evidence, cap: int, parses: ScopeParts): Books {
    if !e.chainIntact then b
    else if e.RailsTripped() then b.(ledger := b.ledger + [Entry(Abort, "*", e.day)])
    else if !e.databaseThere then b
    else Applied(b, Decisions(active, b.promotions, e, cap, UsedOn(b.ledger, e.day)), e.day, parses)
  }

  // ----- what a run writes -----

  function Parses(parses: ScopeParts): AddRisk -> bool {
    (a: AddRisk) => parses(a.scope)
  }

  /** The records of a day that count against its cap. */
  function Records(ledger: seq<Entry>, day: string): set<nat> {
    set i: nat | i < |ledger| && ledger[i].day == day && (ledger[i].action == Promote || ledger[i].action == Escalate)
  }

  lemma {:induction false} UsedCounts(ledger: seq<Entry>, day: string)
    ensures UsedOn(ledger, day) == |Records(ledger, day)|
  {
    if ledger != [] {
      var front, n := ledger[..|ledger| - 1], |ledger| - 1;
      UsedCounts(front, day);
      assert Records(ledger, day) == if n in Records(ledger, day) then Records(front, day) + {n} else Records(front, day);
    }
  }

  lemma {:induction false} PromotedBooks(b: Books, accepted: seq<AddRisk>, day: string, parses: ScopeParts, d: string)
    ensures var after := Promoted(b, accepted, day, parses);
            && after.demotions == b.demotions
            && UsedOn(after.ledger, d) == UsedOn(b.ledger, d) + if d == day then |Filter(Parses(parses), accepted)| else 0
  {
    if accepted != [] {
      PromotedBooks(b, accepted[..|accepted| - 1], day, parses, d);
    }
  }

  lemma {:induction false} EscalatedBooks(b: Books, accepted: seq<AddRisk>, day: string, d: string)
    ensures var after := Escalated(b, accepted, day);
            && after.demotions == b.demotions && after.promotions.Keys == b.promotions.Keys
            && UsedOn(after.ledger, d) == UsedOn(b.ledger, d) + if d == day then |accepted| else 0
  {
    if accepted != [] {
      EscalatedBooks(b, accepted[..|accepted| - 1], day, d);
    }
  }

  lemma {:induction false} DemotedBooks(b: Books, scopes: seq<string>, day: string, d: string)
    ensures var after := Demoted(b, scopes, day);
            && after.promotions == b.promotions && UsedOn(after.ledger, d) == UsedOn(b.ledger, d)
            && b.demotions <= after.demotions && (forall s :: s in scopes ==> s in after.demotions)
            && (forall s :: s in after.demotions ==> s in b.demotions || s in scopes)
  {
    if scopes != [] {
      DemotedBooks(b, scopes[..|scopes| - 1], day, d);
    }
  }

  lemma {:induction false} FilterSizes(keep: AddRisk -> bool, drop: AddRisk -> bool, s: seq<AddRisk>)
    requires forall a {:trigger keep(a)} :: keep(a) ==> !drop(a)
    ensures |Filter(keep, s)| + |Filter(drop, s)| <= |s|
  {
    if s != [] {
      FilterSizes(keep, drop, s[..|s| - 1]);
    }
  }

  lemma AcceptedWithinBudget(active: seq<string>, stages: map<string, int>, e: Evidence, cap: int, used: nat)
    ensures var r := Decisions(active, stages, e, cap, used);
            |r.promotions| + |r.escalations| <= Max(0, cap - used)
  {
    if !e.RailsTripped() {
      var ranked := Ranked(active, stages, e);
      FilterSizes(IsAction(Promote), IsAction(Escalate), ranked[..Budget(cap, used, |ranked|)]);
    }
  }

  /** After any run, a day's recorded promotions and escalations exceed the cap only if they already did. */
  lemma RunKeepsCap(b: Books, active: seq<string>, e: Evidence, cap: int, parses: ScopeParts, day: string)
    ensures UsedOn(AfterRun(b, active, e, cap, parses).ledger, day) <= Max(UsedOn(b.ledger, day), cap)
  {
    if e.chainIntact && !e.RailsTripped() && e.databaseThere {
      var used := UsedOn(b.ledger, e.day);
      var r := Decisions(active, b.promotions, e, cap, used);
      AcceptedWithinBudget(active, b.promotions, e, cap, used);
      hide Decisions;
      var p := Promoted(b, r.promotions, e.day, parses);
      PromotedBooks(b, r.promotions, e.day, parses, day);
      EscalatedBooks(p, r.escalations, e.day, day);
      DemotedBooks(Escalated(p, r.escalations, e.day), r.demotions, e.day, day);
      hide Promoted, Escalated, Demoted;
    }
  }

  /** A run adds one counting record to its own day for every accepted escalation and every accepted promotion whose scope
      parses, and none to any other day. */
  lemma RunRecords(b: Books, active: seq<string>, e: Evidence, cap: int, parses: ScopeParts, day: string)
    requires e.chainIntact && !e.RailsTripped() && e.databaseThere
    ensures var r := Decisions(active, b.promotions, e, cap, |Records(b.ledger, e.day)|);
            |Records(AfterRun(b, active, e, cap, parses).ledger, day)|
            == |Records(b.ledger, day)| + if day == e.day then |r.escalations| + |Filter(Parses(parses), r.promotions)| else 0
  {
    UsedCounts(b.ledger, e.day);
    UsedCounts(b.ledger, day);
    UsedCounts(AfterRun(b, active, e, cap, parses).ledger, day);
    hide Decisions, UsedOn, Records, Filter;
    var r := Decisions(active, b.promotions, e, cap, UsedOn(b.ledger, e.day));
    var p := Promoted(b, r.promotions, e.day, parses);
    PromotedBooks(b, r.promotions, e.day, parses, day);
    EscalatedBooks(p, r.escalations, e.day, day);
    DemotedBooks(Escalated(p, r.escalations, e.day), r.demotions, e.day, day);
    hide Promoted, Escalated, Demoted;
  }

  // ----- whole histories -----

  /** A run's evidence together with the snapshot it was decided on. */
  datatype Pass = Pass(evidence: Evidence, active: seq<string>)

  function History(b: Books, passes: seq<Pass>, cap: int, parses: ScopeParts, n: nat): Books
    requires n <= |passes|
  {
    if n == 0 then b
    else AfterRun(History(b, passes, cap, parses, n - 1), passes[n - 1].active, passes[n - 1].evidence, cap, parses)
  }

  /** Over any sequence of runs sharing the ledger, no day records more add-risk actions than the cap. */
  lemma {:induction false} CapHoldsForever(b: Books, passes: seq<Pass>, cap: int, parses: ScopeParts, n: nat, day: string)
    requires n <= |passes|
    ensures |Records(History(b, passes, cap, parses, n).ledger, day)| <= Max(|Records(b.ledger, day)|, cap)
    ensures b.ledger == [] ==> |Records(History(b, passes, cap, parses, n).ledger, day)| <= Max(0, cap)
  {
    UsedCounts(b.ledger, day);
    UsedCounts(History(b, passes, cap, parses, n).ledger, day);
    hide AfterRun, Records;
    if n > 0 {
      CapHoldsForever(b, passes, cap, parses, n - 1, day);
      UsedCounts(History(b, passes, cap, parses, n - 1).ledger, day);
      RunKeepsCap(History(b, passes, cap, parses, n - 1), passes[n - 1].active, passes[n - 1].evidence, cap, parses, day);
    }
  }

  lemma DemotionsGrow(b: Books, active: seq<string>, e: Evidence, cap: int, parses: ScopeParts)
    ensures b.demotions <= AfterRun(b, active, e, cap, parses).demotions
  {
    var r := Decisions(active, b.promotions, e, cap, UsedOn(b.ledger, e.day));
    hide Decisions;
    var p := Promoted(b, r.promotions, e.day, parses);
    PromotedBooks(b, r.promotions, e.day, parses, "");
    EscalatedBooks(p, r.escalations, e.day, "");
    DemotedBooks(Escalated(p, r.escalations, e.day), r.demotions, e.day, "");
    hide Promoted, Escalated, Demoted;
  }

  /** A demoted scope is never active again, whatever later runs decide. */
  lemma {:induction false} DemotionIsSticky(b: Books, passes: seq<Pass>, cap: int, parses: ScopeParts, n: nat, s: string)
    requires n <= |passes| && s in b.demotions
    ensures s in History(b, passes, cap, parses, n).demotions && !Active(History(b, passes, cap, parses, n), s)
  {
    hide AfterRun;
    if n > 0 {
      DemotionIsSticky(b, passes, cap, parses, n - 1, s);
      DemotionsGrow(History(b, passes, cap, parses, n - 1), passes[n - 1].active, passes[n - 1].evidence, cap, parses);
    }
  }

  /** Demotion ignores the cap: every active scope in breach is inactive after the run. */
  lemma BreachDeactivates(b: Books, active: seq<string>, e: Evidence, cap: int, parses: ScopeParts, s: string)
    requires Snapshot(b, active) && Active(b, s) && e.breach(s)
    requires e.chainIntact && !e.RailsTripped() && e.databaseThere
    ensures !Active(AfterRun(b, active, e, cap, parses), s)
    ensures s in Decisions(active, b.promotions, e, cap, UsedOn(b.ledger, e.day)).demotions
  {
    BreachedAre(active, e, s);
    var r := Decisions(active, b.promotions, e, cap, UsedOn(b.ledger, e.day));
    var q := Escalated(Promoted(b, r.promotions, e.day, parses), r.escalations, e.day);
    hide Promoted, Escalated, Ranked, Breached, Withheld;
    DemotedBooks(q, r.demotions, e.day, "");
  }

  /** A tripped rail decides nothing, changes no scope, and leaves one ABORT record. */
  lemma RailsStopEverything(b: Books, active: seq<string>, e: Evidence, cap: int, used: nat, parses: ScopeParts, s: string)
    requires e.RailsTripped()
    ensures DecisionsAbout(Decisions(active, b.promotions, e, cap, used), s) == 0
    ensures e.chainIntact ==> AfterRun(b, active, e, cap, parses)
                              == Books(b.ledger + [Entry(Abort, "*", e.day)], b.promotions, b.demotions)
    ensures Active(AfterRun(b, active, e, cap, parses), s) == Active(b, s)
  {
  }

  /** A run that changes the registry found its ledger intact, its database there, and every rail holding. */
  lemma ChangesNeedHealthyRails(b: Books, active: seq<string>, e: Evidence, cap: int, parses: ScopeParts)
    requires AfterRun(b, active, e, cap, parses).promotions != b.promotions || AfterRun(b, active, e, cap, parses).demotions != b.demotions
    ensures e.chainIntact && e.databaseThere
    ensures !e.rails.killFile && e.rails.alive && !e.rails.healthError && !e.rails.saturated && !e.rails.exchangeAnomaly
    ensures e.rails.artifactAge.Some? ==> e.rails.artifactAge.value <= 24.0
    ensures "CYCLE_ERROR" <= e.rails.heartbeat.GetOr("") ==>
              Transient(e.rails.heartbeat.value) && e.rails.lastSuccess.Some? && e.rails.lastSuccess.value <= 2.0
  {
    hide Decisions, Applied, TrippedRails, Transient;
    RailsHoldExactlyWhen(e.rails);
  }

  // ----- the ladder -----

  lemma {:induction false} PromotedStage(b: Books, accepted: seq<AddRisk>, day: string, parses: ScopeParts, s: string)
    ensures var after := Promoted(b, accepted, day, parses).promotions;
            && (s in after <==> s in b.promotions || (parses(s) && exists a {:trigger a in accepted} :: a in accepted && a.scope == s))
            && (s in after ==> after[s] == 1 || (s in b.promotions && after[s] == b.promotions[s]))
            && (parses(s) && (exists a {:trigger a in accepted} :: a in accepted && a.scope == s) ==> s in after && after[s] == 1)
            && (!(exists a {:trigger a in accepted} :: a in accepted && a.scope == s) && s in b.promotions ==>
                  s in after && after[s] == b.promotions[s])
  {
    if accepted != [] {
      var front, a := accepted[..|accepted| - 1], accepted[|accepted| - 1];
      PromotedStage(b, front, day, parses, s);
      assert accepted == front + [a];
      assert a in accepted;
      assert forall x {:trigger x in front} :: x in front ==> x in accepted;
      assert forall x {:trigger x in accepted} :: x in accepted ==> x in front || x == a;
    }
  }

  lemma {:induction false} EscalatedStage(b: Books, accepted: seq<AddRisk>, day: string, s: string)
    ensures var after := Escalated(b, accepted, day).promotions;
            && (s in after <==> s in b.promotions)
            && (s in after ==>
                  after[s] == if exists a {:trigger a in accepted} :: a in accepted && a.scope == s then 2 else b.promotions[s])
  {
    if accepted != [] {
      var front, a := accepted[..|accepted| - 1], accepted[|accepted| - 1];
      EscalatedStage(b, front, day, s);
      assert accepted == front + [a];
      assert a in accepted;
      assert forall x {:trigger x in front} :: x in front ==> x in accepted;
      assert forall x {:trigger x in accepted} :: x in accepted ==> x in front || x == a;
    }
  }

  ghost predicate Names(accepted: seq<AddRisk>, s: string) {
    exists a {:trigger a in accepted} :: a in accepted && a.scope == s
  }

  lemma AcceptedNames(active: seq<string>, stages: map<string, int>, e: Evidence, cap: int, used: nat, s: string)
    ensures var r := Decisions(active, stages, e, cap, used);
            && (Names(r.promotions, s) ==> Fresh(s, active, e) && e.verdict(s).Promotable?)
            && (Names(r.escalations, s) ==> s in active && Escalates(s, stages, e))
            && (s in r.demotions ==> s in active && e.breach(s))
  {
    var r := Decisions(active, stages, e, cap, used);
    BreachedAre(active, e, s);
    if a :| a in r.promotions && a.scope == s {
      RankedActions(active, stages, e, a);
    }
    if a :| a in r.escalations && a.scope == s {
      RankedActions(active, stages, e, a);
    }
  }

  lemma AppliedStage(b: Books, r: Result, day: string, parses: ScopeParts, s: string)
    ensures var after := Applied(b, r, day, parses);
            && (s in after.demotions <==> s in b.demotions || s in r.demotions)
            && (s in after.promotions <==> s in b.promotions || (parses(s) && Names(r.promotions, s)))
            && (s in after.promotions ==>
                  after.promotions[s] == if Names(r.escalations, s) then 2
                                         else if parses(s) && Names(r.promotions, s) then 1 else b.promotions[s])
  {
    var p := Promoted(b, r.promotions, day, parses);
    var q := Escalated(p, r.escalations, day);
    PromotedStage(b, r.promotions, day, parses, s);
    if !parses(s) {
      UnparsedStage(b, r.promotions, day, parses, s);
    }
    PromotedBooks(b, r.promotions, day, parses, day);
    EscalatedStage(p, r.escalations, day, s);
    EscalatedBooks(p, r.escalations, day, day);
    DemotedBooks(q, r.demotions, day, day);
    hide Promoted, Escalated, Demoted;
  }

  lemma {:induction false} UnparsedStage(b: Books, accepted: seq<AddRisk>, day: string, parses: ScopeParts, s: string)
    requires !parses(s)
    ensures var after := Promoted(b, accepted, day, parses).promotions;
            (s in after <==> s in b.promotions) && (s in after ==> after[s] == b.promotions[s])
  {
    if accepted != [] {
      UnparsedStage(b, accepted[..|accepted| - 1], day, parses, s);
    }
  }

  /**
   The ladder is climbed one rung at a time: a scope active after a run was active before at the
   same stage, or moved from a stage below 2 to stage 2 unbreached, or is newly active at stage 1
   having cleared every stage-1 gate.
   */
  lemma OneRungAtATime(b: Books, active: seq<string>, e: Evidence, cap: int, parses: ScopeParts, s: string)
    requires Snapshot(b, active) && Active(AfterRun(b, active, e, cap, parses), s)
    ensures var stage := AfterRun(b, active, e, cap, parses).promotions[s];
            || (Active(b, s) && stage == b.promotions[s])
            || (Active(b, s) && b.promotions[s] < 2 && stage == 2 && !e.breach(s))
            || (s !in b.promotions && stage == 1 && e.eligible(s) && e.verdict(s).Promotable? && parses(s))
  {
    if e.chainIntact && !e.RailsTripped() && e.databaseThere {
      var used := UsedOn(b.ledger, e.day);
      AcceptedNames(active, b.promotions, e, cap, used, s);
      AppliedStage(b, Decisions(active, b.promotions, e, cap, used), e.day, parses, s);
      hide Decisions, Applied, Names;
    }
  }

  lemma {:induction false} PromotionRecorded(b: Books, accepted: seq<AddRisk>, day: string, parses: ScopeParts, a: AddRisk)
    requires a in accepted && parses(a.scope)
    ensures Entry(Promote, a.scope, day) in Promoted(b, accepted, day, parses).ledger
  {
    var front, last := accepted[..|accepted| - 1], accepted[|accepted| - 1];
    if a != last {
      assert accepted == front + [last];
      PromotionRecorded(b, front, day, parses, a);
    }
  }

  lemma {:induction false} LedgerOnlyGrows(b: Books, escalated: seq<AddRisk>, demoted: seq<string>, day: string, x: Entry)
    requires x in b.ledger
    ensures x in Demoted(Escalated(b, escalated, day), demoted, day).ledger
  {
    if demoted != [] {
      LedgerOnlyGrows(b, escalated, demoted[..|demoted| - 1], day, x);
    } else if escalated != [] {
      LedgerOnlyGrows(b, escalated[..|escalated| - 1], [], day, x);
    }
  }

  /**
   An accepted promotion is recorded, and so counts against the day's cap, but it takes effect
   exactly when the machine has not demoted the scope before: a sticky demotion outlives it.
   */
  lemma PromotionTakesEffectUnlessDemoted(b: Books, active: seq<string>, e: Evidence, cap: int, parses: ScopeParts, a: AddRisk)
    requires Snapshot(b, active) && e.chainIntact && !e.RailsTripped() && e.databaseThere && parses(a.scope)
    requires a in Decisions(active, b.promotions, e, cap, UsedOn(b.ledger, e.day)).promotions
    ensures Entry(Promote, a.scope, e.day) in AfterRun(b, active, e, cap, parses).ledger
    ensures Active(AfterRun(b, active, e, cap, parses), a.scope) <==> a.scope !in b.demotions
  {
    var used := UsedOn(b.ledger, e.day);
    var r := Decisions(active, b.promotions, e, cap, used);
    assert Names(r.promotions, a.scope);
    AcceptedNames(active, b.promotions, e, cap, used, a.scope);
    AppliedStage(b, r, e.day, parses, a.scope);
    PromotionRecorded(b, r.promotions, e.day, parses, a);
    LedgerOnlyGrows(Promoted(b, r.promotions, e.day, parses), r.escalations, r.demotions, e.day, Entry(Promote, a.scope, e.day));
    hide Decisions, Names, Promoted, Escalated, Demoted;
  }

  lemma {:induction false} EscalationRecorded(b: Books, accepted: seq<AddRisk>, day: string, a: AddRisk)
    requires a in accepted
    ensures Entry(Escalate, a.scope, day) in Escalated(b, accepted, day).ledger
  {
    var front, last := accepted[..|accepted| - 1], accepted[|accepted| - 1];
    if a != last {
      assert accepted == front + [last];
      EscalationRecorded(b, front, day, a);
    }
  }

  /** An accepted escalation is recorded and leaves its scope active at stage 2. */
  lemma EscalationTakesEffect(b: Books, active: seq<string>, e: Evidence, cap: int, parses: ScopeParts, a: AddRisk)
    requires Snapshot(b, active) && e.chainIntact && !e.RailsTripped() && e.databaseThere
    requires a in Decisions(active, b.promotions, e, cap, UsedOn(b.ledger, e.day)).escalations
    ensures var after := AfterRun(b, active, e, cap, parses);
            Entry(Escalate, a.scope, e.day) in after.ledger && Active(after, a.scope) && after.promotions[a.scope] == 2
  {
    var used := UsedOn(b.ledger, e.day);
    var r := Decisions(active, b.promotions, e, cap, used);
    assert Names(r.escalations, a.scope);
    AcceptedNames(active, b.promotions, e, cap, used, a.scope);
    AppliedStage(b, r, e.day, parses, a.scope);
    var p := Promoted(b, r.promotions, e.day, parses);
    EscalationRecorded(p, r.escalations, e.day, a);
    LedgerOnlyGrows(Escalated(p, r.escalations, e.day), [], r.demotions, e.day, Entry(Escalate, a.scope, e.day));
    hide Decisions, Names, Promoted, Escalated, Demoted;
  }

  // ----- scope names -----

  /** `str.split("|")` */
  function Parts(s: string): (p: seq<string>)
    ensures p != []
  {
    if s == "" then [""]
    else
      var rest := Parts(s[1..]);
      if s[0] == '|' then [""] + rest else [[s[0]] + rest[0]] + rest[1..]
  }

  /** The characters `str.strip` removes. */
  predicate IsSpace(c: char) {
    '\U{0009}' <= c <= '\U{000D}' || '\U{001C}' <= c <= '\U{0020}' || c == '\U{0085}' || c == '\U{00A0}' || c == '\U{1680}'
    || '\U{2000}' <= c <= '\U{200A}' || c in {'\U{2028}', '\U{2029}', '\U{202F}', '\U{205F}', '\U{3000}'}
  }

  predicate Blank(s: string) {
    forall i :: 0 <= i < |s| ==> IsSpace(s[i])
  }

  /** `_scope_parts`: a scope the ledger accepts has four parts, none of them blank. */
  function FourParts(): ScopeParts {
    (s: string) => |Parts(s)| == 4 && forall i :: 0 <= i < 4 ==> !Blank(Parts(s)[i])
  }

  const SCOPE := "s|t|m|h"

  lemma PartsCons(c: char, s: string, whole: string)
    requires whole == [c] + s
    ensures Parts(whole) == if c == '|' then [""] + Parts(s) else [[c] + Parts(s)[0]] + Parts(s)[1..]
  {
    assert whole[1..] == s && whole[0] == c;
  }

  lemma NoBlank(c: char)
    requires !IsSpace(c)
    ensures !Blank([c])
  {
    assert [c][0] == c;
  }

  lemma LastPart()
    ensures Parts("h") == ["h"]
  {
    assert Parts("") == [""];
    PartsCons('h', "", "h");
    assert ['h'] + "" == "h";
  }

  /** A one-character part and a bar in front of the rest. */
  lemma OnePart(c: char, tail: string, whole: string, rest: seq<string>)
    requires c != '|' && whole == [c, '|'] + tail && Parts(tail) == rest
    ensures Parts(whole) == [[c]] + rest
  {
    PartsCons('|', tail, ['|'] + tail);
    PartsCons(c, ['|'] + tail, whole);
    assert ([""] + rest)[1..] == rest && [c] + "" == [c];
    hide Parts;
  }

  lemma ScopeParses()
    ensures FourParts()(SCOPE)
  {
    hide Blank, Parts;
    LastPart();
    OnePart('m', "h", "m|h", ["h"]);
    OnePart('t', "m|h", "t|m|h", ["m", "h"]);
    OnePart('s', "t|m|h", SCOPE, ["t", "m", "h"]);
    NoBlank('s');
    NoBlank('t');
    NoBlank('m');
    NoBlank('h');
  }

  function SpentBooks(): Books {
    Books([], map[SCOPE := 1], {SCOPE})
  }

  const HEALTHY := Rails(false, None, true, false, false, false, None, None)

  function SpentEvidence(): Evidence {
    Evidence("2026-01-01", true, HEALTHY, true, [SCOPE], (s: string) => true, (s: string) => false,
             (s: string) => None, (s: string) => Promotable(1.0))
  }

  lemma SortOne(x: AddRisk)
    ensures Sort([x], RankLeq) == [x]
  {
    assert [x][..0] == [];
    assert Sort([x][..0], RankLeq) == [];
  }

  lemma KeepOne(x: AddRisk, keep: AddRisk -> bool)
    ensures Filter(keep, [x]) == if keep(x) then [x] else []
  {
    assert [x][..0] == [];
  }

  lemma OnlyScope(s: string, e: Evidence)
    requires e.eligible(s) && e.verdict(s).Promotable?
    ensures PromotionCandidates([s], [], e) == [AddRisk(e.verdict(s).rank, s, Promote)]
    ensures Withheld([s], [], e, HumanReview) == [] && Withheld([s], [], e, Declined) == []
    ensures Withheld([s], [], e, Replacement) == []
  {
    assert [s][..0] == [];
  }

  lemma SpentDecision()
    ensures Decisions([], map[SCOPE := 1], SpentEvidence(), 1, 0)
            == Result([AddRisk(1.0, SCOPE, Promote)], [], [], [], [], [], [])
  {
    var e, x := SpentEvidence(), AddRisk(1.0, SCOPE, Promote);
    OnlyScope(SCOPE, e);
    SortOne(x);
    KeepOne(x, IsAction(Promote));
    KeepOne(x, IsAction(Escalate));
    hide PromotionCandidates, Withheld, Sort, Filter;
    assert EscalationCandidates([], map[SCOPE := 1], e) + [x] == [x];
    assert [x][..1] == [x];
  }

  lemma SpentApplied()
    ensures Applied(SpentBooks(), Result([AddRisk(1.0, SCOPE, Promote)], [], [], [], [], [], []), "2026-01-01", FourParts())
            == Books([Entry(Promote, SCOPE, "2026-01-01")], map[SCOPE := 1], {SCOPE})
  {
    ScopeParses();
    hide FourParts;
    OnePromotion(SpentBooks(), AddRisk(1.0, SCOPE, Promote), "2026-01-01", FourParts());
    assert map[SCOPE := 1][SCOPE := 1] == map[SCOPE := 1];
    hide Promoted;
  }

  lemma OnePromotion(b: Books, x: AddRisk, day: string, parses: ScopeParts)
    requires parses(x.scope)
    ensures Promoted(b, [x], day, parses) == Books(b.ledger + [Entry(Promote, x.scope, day)], b.promotions[x.scope := 1], b.demotions)
  {
    assert [x][..0] == [];
    assert Promoted(b, [], day, parses) == b;
  }

  lemma OneUse(entry: Entry)
    requires entry.action == Promote
    ensures UsedOn([entry], entry.day) == 1
  {
    assert [entry][..0] == [];
  }

  /** The case arises: a demoted scope that clears the gates takes the day's only slot to no effect. */
  lemma DemotedScopeCanSpendTheCap()
    ensures Snapshot(SpentBooks(), []) && SCOPE in SpentBooks().demotions && FourParts()(SCOPE)
    ensures var after := AfterRun(SpentBooks(), [], SpentEvidence(), 1, FourParts());
            UsedOn(after.ledger, "2026-01-01") == 1 && !Active(after, SCOPE)
  {
    hide Decisions, Applied, FourParts, UsedOn;
    ScopeParses();
    SpentDecision();
    SpentApplied();
    NoneUsed("2026-01-01");
    OneUse(Entry(Promote, SCOPE, "2026-01-01"));
  }

  lemma NoneUsed(day: string)
    ensures UsedOn([], day) == 0
  {
  }

  // ----- the runner -----

  class PromotionRunner {
    var ledger: seq<Entry>
    var promotions: map<string, int>
    var demotions: set<string>

    constructor ()
      ensures State() == Books([], map[], {})
    {
      ledger, promotions, demotions := [], map[], {};
    }

    function State(): Books
      reads this
    {
      Books(ledger, promotions, demotions)
    }

    /** `apply_result`: one ledger record per decision, the registry updated alongside. */
    method Apply(r: Result, day: string, parses: ScopeParts)
      modifies this
      ensures State() == Applied(old(State()), r, day, parses)
    {
      ghost var b := State();
      for i := 0 to |r.promotions|
        invariant State() == Promoted(b, r.promotions[..i], day, parses)
      {
        assert r.promotions[..i + 1][..i] == r.promotions[..i];
        var s := r.promotions[i].scope;
        if parses(s) {
          ledger := ledger + [Entry(Promote, s, day)];
          promotions := promotions[s := 1];
        }
      }
      assert r.promotions[..|r.promotions|] == r.promotions;
      ghost var p := State();
      for i := 0 to |r.escalations|
        invariant State() == Escalated(p, r.escalations[..i], day)
      {
        assert r.escalations[..i + 1][..i] == r.escalations[..i];
        var s := r.escalations[i].scope;
        ledger := ledger + [Entry(Escalate, s, day)];
        if s in promotions {
          promotions := promotions[s := 2];
        }
      }
      assert r.escalations[..|r.escalations|] == r.escalations;
      ghost var q := State();
      for i := 0 to |r.demotions|
        invariant State() == Demoted(q, r.demotions[..i], day)
      {
        assert r.demotions[..i + 1][..i] == r.demotions[..i];
        ledger := ledger + [Entry(Demote, r.demotions[i], day)];
        demotions := demotions + {r.demotions[i]};
      }
      assert r.demotions[..|r.demotions|] == r.demotions;
    }

    method CountUsed(day: string) returns (used: nat)
      ensures used == UsedOn(ledger, day)
    {
      used := 0;
      for i := 0 to |ledger|
        invariant used == UsedOn(ledger[..i], day)
      {
        assert ledger[..i + 1][..i] == ledger[..i];
        if ledger[i].day == day && ledger[i].action in {Promote, Escalate} {
          used := used + 1;
        }
      }
      assert ledger[..|ledger|] == ledger;
    }

    /** One whole run: count what the day has used, abort on a rail, decide, apply. */
    method Run(active: seq<string>, e: Evidence, cap: int, parses: ScopeParts)
      requires Snapshot(State(), active)
      modifies this
      ensures State() == AfterRun(old(State()), active, e, cap, parses)
    {
      if !e.chainIntact {
        return;
      }
      var used := CountUsed(e.day);
      var reasons := EvaluateRails(e.rails);
      if reasons != [] {
        ledger := ledger + [Entry(Abort, "*", e.day)];
        return;
      }
      if !e.databaseThere {
        return;
      }
      hide Decisions, Applied;
      var r := Decide(active, promotions, e, cap, used);
      Apply(r, e.day, parses);
    }
  }
}
