/** Who is blocked, what lifts a block, and what the logged events say. */
module BillingEnforcement {
  import opened Common
  import opened Billing
  import opened BillingInvariants

  // ---------------------------------------------------------------- the ranked queries

  /** ORDER BY ... LIMIT 1 has one answer, and the scan finds it. */
  lemma TopPeriodIsRanked(periods: seq<Period>, tenant: string, i: nat)
    ensures TopPeriodOf(periods, tenant, |periods|) == Some(i) <==> IsTopPeriod(periods, tenant, i)
  {}

  lemma TopSubscriptionIsRanked(subscriptions: seq<Subscription>, tenant: string, i: nat)
    ensures TopSubscriptionOf(subscriptions, tenant, |subscriptions|) == Some(i)
            <==> IsTopSubscription(subscriptions, tenant, i)
  {}

  /** The ranking looks at tenants and end dates only. */
  lemma {:induction false} TopSubscriptionAgrees(a: seq<Subscription>, b: seq<Subscription>, tenant: string, n: nat)
    requires n <= |a| && n <= |b|
    requires forall i :: 0 <= i < n ==> a[i].tenant == b[i].tenant && a[i].end == b[i].end
    ensures TopSubscriptionOf(a, tenant, n) == TopSubscriptionOf(b, tenant, n)
  {
    if n > 0 {
      TopSubscriptionAgrees(a, b, tenant, n - 1);
    }
  }

  // ---------------------------------------------------------------- blocking

  predicate Blocked(db: Db, tenant: string) {
    EnforcementState(db, tenant).blocked
  }

  /** Period p ends strictly last and is the only one of the tenant that may be unfinished. */
  ghost predicate Settled(periods: seq<Period>, tenant: string, p: nat) {
    && p < |periods| && periods[p].tenant == tenant
    && forall j :: 0 <= j < |periods| && periods[j].tenant == tenant && j != p ==>
         periods[j].status == Closed && periods[j].end < periods[p].end
  }

  lemma SettledState(db: Db, tenant: string, p: nat)
    requires Settled(db.periods, tenant, p)
    ensures
      var e := EnforcementState(db, tenant);
      && e.period == Some(p)
      && (e.blocked <==> db.periods[p].totals.realizedSavings >= Threshold(db.configured)
                         && db.periods[p].status != Open && !Paid(db.subscriptions, tenant))
      && (e.blocked ==> (e.reason == Some(Suspended) <==> db.periods[p].status == Closed)
                        && (e.reason == Some(PatronageDue) <==> db.periods[p].status == Closing))
  {
    TopPeriodIsRanked(db.periods, tenant, p);
  }

  /** The period a create call would add, if it would add one. */
  function AddedEnd(db: Db, s: nat, start: Option<int>, end: Option<int>): Option<int> {
    if s >= |db.subscriptions| then None
    else
      var from := if start.Some? then start.value else db.subscriptions[s].start;
      var until := if end.Some? then end.value else db.subscriptions[s].end;
      if exists i :: 0 <= i < |db.periods| && SamePeriod(db.periods[i], s, from, until) then None else Some(until)
  }

  /** The call gives the tenant another period; one that finds an existing period does not. */
  predicate AddsPeriod(db: Db, op: Op, tenant: string) {
    op.CreatePeriod? && op.tenant == tenant && AddedEnd(db, op.subscription, op.start, op.end).Some?
  }

  /** What can be seen before the call: an activation of the ranked subscription, a new active subscription
      that will rank first, a new period that will rank first, or reopening the closing period. */
  ghost predicate Unblocks(db: Db, tenant: string, p: nat, op: Op)
    requires p < |db.periods|
  {
    match op
    case CreateSubscription(t, _, status, _, endsAt) =>
      var top := TopSubscriptionOf(db.subscriptions, tenant, |db.subscriptions|);
      t == tenant && status == Active && (top.None? || endsAt >= db.subscriptions[top.value].end)
    case SetSubscriptionStatus(s, status) =>
      status == Active && TopSubscriptionOf(db.subscriptions, tenant, |db.subscriptions|) == Some(s)
    case CreatePeriod(t, s, start, end) =>
      var added := AddedEnd(db, s, start, end);
      t == tenant && added.Some? && (db.periods[p].status == Closed || added.value >= db.periods[p].end)
    case SetPeriodStatus(q, status, _) => q == p && status == Known(Open) && db.periods[p].status == Closing
    case _ => false
  }

  lemma PaidAfterCreate(subscriptions: seq<Subscription>, s: Subscription, tenant: string)
    ensures
      var top := TopSubscriptionOf(subscriptions, tenant, |subscriptions|);
      Paid(subscriptions + [s], tenant)
      == if s.tenant == tenant && (top.None? || s.end >= subscriptions[top.value].end) then s.status == Active
         else Paid(subscriptions, tenant)
  {
    TopSubscriptionAgrees(subscriptions, subscriptions + [s], tenant, |subscriptions|);
  }

  lemma PaidAfterUpdate(subscriptions: seq<Subscription>, s: nat, status: SubscriptionStatus, tenant: string)
    requires s < |subscriptions|
    ensures
      Paid(subscriptions[s := subscriptions[s].(status := status)], tenant)
      == if TopSubscriptionOf(subscriptions, tenant, |subscriptions|) == Some(s) then status == Active
         else Paid(subscriptions, tenant)
  {
    var updated := subscriptions[s := subscriptions[s].(status := status)];
    TopSubscriptionAgrees(subscriptions, updated, tenant, |subscriptions|);
  }

  lemma PeriodStatusStep(db: Db, tenant: string, p: nat, q: nat, status: StatusArgument, now: int)
    requires Settled(db.periods, tenant, p) && Blocked(db, tenant)
    ensures
      var db1 := UpdatePeriodStatus(db, q, status, now).0;
      && Settled(db1.periods, tenant, p)
      && db1.subscriptions == db.subscriptions && db1.configured == db.configured
      && (!Blocked(db1, tenant) <==> q == p && status == Known(Open) && db.periods[p].status == Closing)
      && (db1.periods[p].status == Closed <==>
            db.periods[p].status == Closed || (q == p && status == Known(Closed) && Reconciles(db, p)))
  {
    var db1 := UpdatePeriodStatus(db, q, status, now).0;
    SettledState(db, tenant, p);
    SettledState(db1, tenant, p);
  }

  lemma SummarizeStep(db: Db, tenant: string, p: nat, q: nat)
    requires Inv(db) && Settled(db.periods, tenant, p) && Blocked(db, tenant)
    ensures
      var db1 := SummarizePeriod(db, q).0;
      && Settled(db1.periods, tenant, p) && Blocked(db1, tenant)
      && db1.subscriptions == db.subscriptions && db1.configured == db.configured
      && db1.periods[p].status == db.periods[p].status
  {
    var db1 := SummarizePeriod(db, q).0;
    SettledState(db, tenant, p);
    assert NotOverstated(db.ledger, db.periods[p]);
    SettledState(db1, tenant, p);
  }

  /** A new period of the tenant replaces p at the top unless p is unfinished and ends later. */
  lemma NewPeriodRanks(periods: seq<Period>, added: Period, tenant: string, p: nat)
    requires Settled(periods, tenant, p) && added.tenant == tenant && added.status == Open
    ensures TopPeriodOf(periods + [added], tenant, |periods| + 1)
            == Some(if periods[p].status == Closed || added.end >= periods[p].end then |periods| else p)
  {
    var all, n := periods + [added], |periods|;
    var top := if periods[p].status == Closed || added.end >= periods[p].end then n else p;
    forall j | 0 <= j < |all| && all[j].tenant == tenant && j != top ensures PeriodBefore(all, top, j) {
      if j < n {
        assert all[j] == periods[j];
      }
    }
    TopPeriodIsRanked(all, tenant, top);
  }

  /** An insert adds at most the period that AddedEnd announces. */
  lemma InsertAddsEnd(db: Db, t: string, s: nat, start: Option<int>, end: Option<int>)
    ensures
      var db1 := InsertPeriod(db, t, s, start, end).0;
      var added := AddedEnd(db, s, start, end);
      if added.None? then db1 == db
      else && |db1.periods| == |db.periods| + 1 && db1 == db.(periods := db.periods + [db1.periods[|db.periods|]])
           && db1.periods[|db.periods|].tenant == t && db1.periods[|db.periods|].status == Open
           && db1.periods[|db.periods|].end == added.value && db1.periods[|db.periods|].totals == NO_TOTALS
  {}

  lemma CreatePeriodStep(db: Db, tenant: string, p: nat, t: string, s: nat, start: Option<int>, end: Option<int>)
    requires Settled(db.periods, tenant, p) && Blocked(db, tenant)
    ensures
      var db1 := InsertPeriod(db, t, s, start, end).0;
      && (!Blocked(db1, tenant) <==> Unblocks(db, tenant, p, CreatePeriod(t, s, start, end)))
      && (t != tenant || AddedEnd(db, s, start, end).None? ==>
            Settled(db1.periods, tenant, p) && db1.periods[p] == db.periods[p])
  {
    var db1 := InsertPeriod(db, t, s, start, end).0;
    var added := AddedEnd(db, s, start, end);
    InsertAddsEnd(db, t, s, start, end);
    SettledState(db, tenant, p);
    if added.Some? && t == tenant {
      NewPeriodRanks(db.periods, db1.periods[|db.periods|], tenant, p);
    } else {
      SettledState(db1, tenant, p);
    }
  }

  /** Nothing a step does to charges, ledger, rollups or events matters to enforcement. */
  lemma OtherTablesDoNotMatter(db: Db, db1: Db, tenant: string)
    requires db1.periods == db.periods && db1.subscriptions == db.subscriptions && db1.configured == db.configured
    ensures EnforcementState(db1, tenant) == EnforcementState(db, tenant)
  {}

  lemma SubscriptionStep(db: Db, op: Op, tenant: string, p: nat)
    requires Settled(db.periods, tenant, p) && Blocked(db, tenant)
    requires op.CreateSubscription? || op.SetSubscriptionStatus?
    ensures !Blocked(Step(db, op).0, tenant) <==> Unblocks(db, tenant, p, op)
    ensures Step(db, op).0.periods == db.periods
  {
    SettledState(db, tenant, p);
    SettledState(Step(db, op).0, tenant, p);
    match op
    case CreateSubscription(t, plan, status, startsAt, endsAt) =>
      PaidAfterCreate(db.subscriptions, Subscription(t, plan, status, startsAt, endsAt), tenant);
    case SetSubscriptionStatus(s, status) =>
      if s < |db.subscriptions| {
        PaidAfterUpdate(db.subscriptions, s, status, tenant);
      }
  }

  /** The summarise and close routes only add events to what the repository does. */
  lemma RouteStep(db: Db, op: Op, tenant: string, p: nat)
    requires Inv(db) && Settled(db.periods, tenant, p) && Blocked(db, tenant)
    requires op.Summarize? || op.ClosePeriod?
    ensures Blocked(Step(db, op).0, tenant) && Settled(Step(db, op).0.periods, tenant, p)
  {
    match op
    case Summarize(q) =>
      assert Step(db, op) == SummarizeRoute(db, q);
      SummarizeStep(db, tenant, p, q);
      OtherTablesDoNotMatter(SummarizePeriod(db, q).0, Step(db, op).0, tenant);
    case ClosePeriod(q, now) =>
      assert Step(db, op) == CloseRoute(db, q, now);
      PeriodStatusStep(db, tenant, p, q, Known(Closed), now);
      OtherTablesDoNotMatter(UpdatePeriodStatus(db, q, Known(Closed), now).0, Step(db, op).0, tenant);
  }

  /** Creating a period, or setting a status by hand. */
  lemma PeriodStep(db: Db, op: Op, tenant: string, p: nat)
    requires Settled(db.periods, tenant, p) && Blocked(db, tenant)
    requires op.CreatePeriod? || op.SetPeriodStatus?
    ensures !Blocked(Step(db, op).0, tenant) <==> Unblocks(db, tenant, p, op)
    ensures !AddsPeriod(db, op, tenant) ==> Settled(Step(db, op).0.periods, tenant, p)
  {
    if op.CreatePeriod? {
      CreatePeriodStep(db, tenant, p, op.tenant, op.subscription, op.start, op.end);
    } else {
      PeriodStatusStep(db, tenant, p, op.period, op.status, op.now);
    }
  }

  predicate TouchesEnforcement(op: Op) {
    || op.CreateSubscription? || op.SetSubscriptionStatus? || op.CreatePeriod?
    || op.SetPeriodStatus? || op.Summarize? || op.ClosePeriod?
  }

  lemma OtherStep(db: Db, op: Op, tenant: string)
    requires Enabled(db, op) && !TouchesEnforcement(op)
    ensures EnforcementState(Step(db, op).0, tenant) == EnforcementState(db, tenant)
    ensures Step(db, op).0.periods == db.periods
  {
    OtherTablesDoNotMatter(db, Step(db, op).0, tenant);
  }

  /** The exact steps that lift a block. */
  lemma UnblockedExactlyBy(db: Db, op: Op, tenant: string, p: nat)
    requires Inv(db) && Enabled(db, op) && Settled(db.periods, tenant, p) && Blocked(db, tenant)
    ensures !Blocked(Step(db, op).0, tenant) <==> Unblocks(db, tenant, p, op)
    ensures !AddsPeriod(db, op, tenant) ==> Settled(Step(db, op).0.periods, tenant, p)
  {
    if op.CreateSubscription? || op.SetSubscriptionStatus? {
      SubscriptionStep(db, op, tenant, p);
    } else if op.CreatePeriod? || op.SetPeriodStatus? {
      PeriodStep(db, op, tenant, p);
    } else if op.Summarize? || op.ClosePeriod? {
      RouteStep(db, op, tenant, p);
    } else {
      OtherStep(db, op, tenant);
    }
  }

  /** No step of the run lifts the block or gives the tenant another period. */
  ghost predicate NeverLifted(db: Db, ops: seq<Op>, tenant: string, p: nat)
    requires ValidRun(db, ops)
    decreases |ops|
  {
    ops == [] ||
    (&& p < |db.periods| && !Unblocks(db, tenant, p, ops[0])
     && !AddsPeriod(db, ops[0], tenant)
     && NeverLifted(Step(db, ops[0]).0, ops[1..], tenant, p))
  }

  /** Once blocked, always blocked: appends, charges, summaries, reports, adjustments and closes of any number
      never lift it, and the reason is suspension exactly when the period has been closed. */
  lemma {:induction false} BlockPersists(db: Db, ops: seq<Op>, tenant: string, p: nat)
    requires Inv(db) && ValidRun(db, ops) && Settled(db.periods, tenant, p) && Blocked(db, tenant)
    requires NeverLifted(db, ops, tenant, p)
    ensures
      var db1 := Run(db, ops);
      && Settled(db1.periods, tenant, p) && Blocked(db1, tenant)
      && EnforcementState(db1, tenant).reason
         == Some(if db1.periods[p].status == Closed then Suspended else PatronageDue)
    decreases |ops|
  {
    if ops == [] {
      SettledState(db, tenant, p);
    } else {
      UnblockedExactlyBy(db, ops[0], tenant, p);
      StepSound(db, ops[0]);
      BlockPersists(Step(db, ops[0]).0, ops[1..], tenant, p);
    }
  }

  /** Is the step a close request for p, and does p reconcile? */
  ghost predicate Closes(db: Db, op: Op, p: nat)
    requires p < |db.periods|
  {
    && Reconciles(db, p)
    && ((op.ClosePeriod? && op.period == p) || (op.SetPeriodStatus? && op.period == p && op.status == Known(Closed)))
  }

  /** A period is closed after a step exactly when it was, or the step is a close request that reconciles. */
  lemma ClosedAfterStep(db: Db, op: Op, p: nat)
    requires Enabled(db, op) && p < |db.periods| && !op.CreatePeriod?
    ensures p < |Step(db, op).0.periods|
    ensures Step(db, op).0.periods[p].status == Closed <==> db.periods[p].status == Closed || Closes(db, op, p)
  {
    if op.Summarize? {
      assert Step(db, op) == SummarizeRoute(db, op.period);
    } else if op.ClosePeriod? {
      assert Step(db, op) == CloseRoute(db, op.period, op.now);
    } else if !op.SetPeriodStatus? {
      assert Step(db, op).0.periods == db.periods;
    }
  }

  lemma ReasonIsStatus(db: Db, tenant: string, p: nat)
    requires Settled(db.periods, tenant, p) && Blocked(db, tenant)
    ensures EnforcementState(db, tenant).reason == Some(Suspended) <==> db.periods[p].status == Closed
  {
    SettledState(db, tenant, p);
  }

  lemma ReasonNeedsBlock(db: Db, tenant: string)
    ensures EnforcementState(db, tenant).reason.Some? <==> Blocked(db, tenant)
  {}

  lemma ClosingNeverUnblocks(db: Db, op: Op, tenant: string, p: nat)
    requires p < |db.periods| && Closes(db, op, p)
    ensures !Unblocks(db, tenant, p, op)
  {}

  /** The reason turns from patronage due to suspended at the close of the period and at no other step. */
  lemma ReasonTurnsAtClose(db: Db, op: Op, tenant: string, p: nat)
    requires Inv(db) && Enabled(db, op) && Settled(db.periods, tenant, p)
    requires EnforcementState(db, tenant).reason == Some(PatronageDue)
    ensures EnforcementState(Step(db, op).0, tenant).reason == Some(Suspended) <==> Closes(db, op, p)
  {
    ReasonNeedsBlock(db, tenant);
    ReasonIsStatus(db, tenant, p);
    if op.CreatePeriod? {
      CreatePeriodReason(db, tenant, p, op.tenant, op.subscription, op.start, op.end);
    } else {
      ReasonAfterStep(db, op, tenant, p);
    }
  }

  lemma ReasonAfterStep(db: Db, op: Op, tenant: string, p: nat)
    requires Inv(db) && Enabled(db, op) && Settled(db.periods, tenant, p) && Blocked(db, tenant)
    requires db.periods[p].status != Closed && !op.CreatePeriod?
    ensures EnforcementState(Step(db, op).0, tenant).reason == Some(Suspended) <==> Closes(db, op, p)
  {
    var db1 := Step(db, op).0;
    UnblockedExactlyBy(db, op, tenant, p);
    ClosedAfterStep(db, op, p);
    ReasonNeedsBlock(db1, tenant);
    if Closes(db, op, p) {
      ClosingNeverUnblocks(db, op, tenant, p);
    }
    if Blocked(db1, tenant) {
      ReasonIsStatus(db1, tenant, p);
    }
  }

  lemma CreatePeriodReason(db: Db, tenant: string, p: nat, t: string, s: nat, start: Option<int>, end: Option<int>)
    requires Settled(db.periods, tenant, p) && db.periods[p].status != Closed
    ensures EnforcementState(InsertPeriod(db, t, s, start, end).0, tenant).reason != Some(Suspended)
  {
    var db1 := InsertPeriod(db, t, s, start, end).0;
    var top := TopPeriodOf(db1.periods, tenant, |db1.periods|);
    assert db1.periods[p] == db.periods[p];
    if top != Some(p) {
      assert PeriodBefore(db1.periods, top.value, p);
    }
  }

  // ---------------------------------------------------------------- when two periods are unfinished

  /** Row q would rank first if p were out of the way, and is itself unfinished. */
  ghost predicate RunnerUp(periods: seq<Period>, tenant: string, p: nat, q: nat)
    requires p < |periods|
  {
    && q < |periods| && q != p && periods[q].tenant == tenant && Unfinished(periods[q])
    && forall j :: 0 <= j < |periods| && periods[j].tenant == tenant && j != p && j != q ==> PeriodBefore(periods, q, j)
  }

  /** With a second unfinished period a close can lift the block: it stays exactly when the runner-up blocks too. */
  lemma CloseWithRunnerUp(db: Db, tenant: string, p: nat, q: nat, now: int)
    requires p < |db.periods| && Blocked(db, tenant) && EnforcementState(db, tenant).period == Some(p)
    requires db.periods[p].status == Closing && RunnerUp(db.periods, tenant, p, q) && Reconciles(db, p)
    ensures Blocked(Step(db, ClosePeriod(p, now)).0, tenant)
            <==> db.periods[q].status == Closing && db.periods[q].totals.realizedSavings >= Threshold(db.configured)
  {
    assert Step(db, ClosePeriod(p, now)) == CloseRoute(db, p, now);
    var db1 := UpdatePeriodStatus(db, p, Known(Closed), now).0;
    assert IsTopPeriod(db1.periods, tenant, q) by {
      forall j | 0 <= j < |db1.periods| && db1.periods[j].tenant == tenant && j != q
        ensures PeriodBefore(db1.periods, q, j)
      {
        if j != p {
          assert PeriodBefore(db.periods, q, j);
        }
      }
    }
    TopPeriodIsRanked(db1.periods, tenant, q);
    OtherTablesDoNotMatter(db1, Step(db, ClosePeriod(p, now)).0, tenant);
  }

  // ---------------------------------------------------------------- events

  /** What a logged event says about its period, at logging time and for good. */
  ghost predicate EventLasts(periods: seq<Period>, threshold: real, id: EventId) {
    match id
    case PatronageRequired(p) => p < |periods| && periods[p].totals.realizedSavings >= threshold
    case ServiceSuspended(p) => p < |periods| && periods[p].status == Closed
    case PeriodClosed(p) => p < |periods| && periods[p].status == Closed
    case _ => true
  }

  ghost predicate EventsLast(db: Db) {
    forall i :: 0 <= i < |db.events| ==> EventLasts(db.periods, Threshold(db.configured), db.events[i].id)
  }

  /** The routes and the repository agree on the threshold exactly when the setting is not negative. */
  lemma ThresholdsAgree(configured: real)
    ensures RouteThreshold(configured) == Threshold(configured) <==> configured >= 0.0
    ensures configured < 0.0 ==> RouteThreshold(configured) == configured && Threshold(configured) == 50.0
    ensures configured == 0.0 ==> Threshold(configured) == 50.0
  {}

  /** Periods only ever grow in number, keep their closed status, and an unfinished period's stored savings
      only grow. */
  ghost predicate PeriodsAdvance(a: seq<Period>, b: seq<Period>) {
    && |a| <= |b|
    && forall p :: 0 <= p < |a| ==>
         && (a[p].status == Closed ==> b[p].status == Closed)
         && a[p].totals.realizedSavings <= b[p].totals.realizedSavings
  }

  lemma SummarizeAdvances(db: Db, p: nat)
    requires Inv(db)
    ensures PeriodsAdvance(db.periods, Step(db, Summarize(p)).0.periods)
    ensures Step(db, Summarize(p)).0.configured == db.configured
  {
    assert Step(db, Summarize(p)) == SummarizeRoute(db, p);
    if p < |db.periods| {
      assert NotOverstated(db.ledger, db.periods[p]);
    }
  }

  lemma CloseAdvances(db: Db, p: nat, now: int)
    ensures PeriodsAdvance(db.periods, Step(db, ClosePeriod(p, now)).0.periods)
    ensures Step(db, ClosePeriod(p, now)).0.configured == db.configured
  {
    assert Step(db, ClosePeriod(p, now)) == CloseRoute(db, p, now);
  }

  lemma StatusAdvances(db: Db, op: Op)
    requires op.SetPeriodStatus? || op.CreatePeriod?
    ensures PeriodsAdvance(db.periods, Step(db, op).0.periods)
    ensures Step(db, op).0.configured == db.configured
  {}

  lemma StepAdvancesPeriods(db: Db, op: Op)
    requires Inv(db) && Enabled(db, op)
    ensures PeriodsAdvance(db.periods, Step(db, op).0.periods)
    ensures Step(db, op).0.configured == db.configured
  {
    if op.Summarize? {
      SummarizeAdvances(db, op.period);
    } else if op.ClosePeriod? {
      CloseAdvances(db, op.period, op.now);
    } else if op.SetPeriodStatus? || op.CreatePeriod? {
      StatusAdvances(db, op);
    } else {
      assert Step(db, op).0.periods == db.periods;
    }
  }

  lemma EventsStillLast(a: seq<Period>, b: seq<Period>, threshold: real, id: EventId)
    requires PeriodsAdvance(a, b) && EventLasts(a, threshold, id)
    ensures EventLasts(b, threshold, id)
  {}

  /** A period in closing outranks every closed one, so its summary finds nothing to suspend. */
  lemma ClosingNeverSuspends(db: Db, p: nat)
    requires p < |db.periods| && db.periods[p].status == Closing
    ensures EmitSuspendedIfRequired(db, p) == db
  {
    var tenant := db.periods[p].tenant;
    var top := TopPeriodOf(db.periods, tenant, |db.periods|);
    if top.Some? && top.value != p {
      assert PeriodBefore(db.periods, top.value, p);
    }
  }

  lemma LogEventAdds(events: seq<Event>, e: Event, id: EventId)
    ensures EventLogged(LogEvent(events, e), id) <==> EventLogged(events, id) || id == e.id
  {
    if EventLogged(events, id) {
      var i :| 0 <= i < |events| && events[i].id == id;
      assert LogEvent(events, e)[i].id == id;
    }
    if !EventLogged(events, e.id) {
      assert (events + [e])[|events|].id == e.id;
    }
  }

  /** A summary would find the period at the routes' threshold, and closing already or about to be. */
  ghost predicate DueOnSummary(db: Db, p: nat) {
    && p < |db.periods| && db.periods[p].status != Closed
    && var savings := Savings(db.ledger, db.periods[p].tenant, PeriodWindow(db.periods[p]));
       && savings >= RouteThreshold(db.configured)
       && (db.periods[p].status == Closing || savings >= Threshold(db.configured))
  }

  /** What a summary logs: patronage for its own period, exactly when the period is due; never a suspension. */
  lemma SummarizeLogsIff(db: Db, p: nat, id: EventId)
    ensures EventLogged(Step(db, Summarize(p)).0.events, id)
            <==> EventLogged(db.events, id) || (id == PatronageRequired(p) && DueOnSummary(db, p))
  {
    assert Step(db, Summarize(p)) == SummarizeRoute(db, p);
    var (db1, reply) := SummarizePeriod(db, p);
    if reply.Row? && reply.period.status == Closing {
      ClosingNeverSuspends(EmitPatronageRequired(db1, p), p);
      LogEventAdds(db1.events, Event(PatronageRequired(p), db1.periods[p].tenant), id);
    }
  }

  /** What closing a tenant's strictly latest period logs: the close, and a suspension exactly when the period
      reached the threshold and the tenant does not pay. */
  lemma CloseLogsIff(db: Db, p: nat, now: int, id: EventId)
    requires p < |db.periods| && Settled(db.periods, db.periods[p].tenant, p) && db.periods[p].tenant != ""
    ensures
      EventLogged(Step(db, ClosePeriod(p, now)).0.events, id) <==>
        || EventLogged(db.events, id)
        || (Reconciles(db, p) && id == PeriodClosed(p))
        || (&& Reconciles(db, p) && id == ServiceSuspended(p)
            && db.periods[p].totals.realizedSavings >= Threshold(db.configured)
            && !Paid(db.subscriptions, db.periods[p].tenant))
  {
    assert Step(db, ClosePeriod(p, now)) == CloseRoute(db, p, now);
    var tenant := db.periods[p].tenant;
    var (db1, reply) := UpdatePeriodStatus(db, p, Known(Closed), now);
    if reply.Row? {
      var e := Event(PeriodClosed(p), tenant);
      var db2 := db1.(events := LogEvent(db1.events, e));
      LogEventAdds(db1.events, e, id);
      SettledState(db2, tenant, p);
      LogEventAdds(db2.events, Event(ServiceSuspended(p), tenant), id);
    }
  }

  /** Events that hold keep holding while the periods advance. */
  lemma EventsKeepLasting(db: Db, db1: Db)
    requires EventsLast(db) && PeriodsAdvance(db.periods, db1.periods)
    requires db1.configured == db.configured && db1.events == db.events
    ensures EventsLast(db1)
  {
    forall i | 0 <= i < |db.events| ensures EventLasts(db1.periods, Threshold(db1.configured), db1.events[i].id) {
      EventsStillLast(db.periods, db1.periods, Threshold(db.configured), db.events[i].id);
    }
  }

  lemma LoggingLasts(db: Db, e: Event)
    requires EventsLast(db) && EventLasts(db.periods, Threshold(db.configured), e.id)
    ensures EventsLast(db.(events := LogEvent(db.events, e)))
  {
    var db1 := db.(events := LogEvent(db.events, e));
    forall i | 0 <= i < |db1.events| ensures EventLasts(db1.periods, Threshold(db1.configured), db1.events[i].id) {
      if i < |db.events| {
        assert db1.events[i] == db.events[i];
      }
    }
  }

  lemma PatronageLasts(db: Db, p: nat)
    requires EventsLast(db) && p < |db.periods| && db.configured >= 0.0
    ensures EventsLast(EmitPatronageRequired(db, p))
  {
    ThresholdsAgree(db.configured);
    if db.periods[p].totals.realizedSavings >= RouteThreshold(db.configured) {
      LoggingLasts(db, Event(PatronageRequired(p), db.periods[p].tenant));
    }
  }

  lemma SummarizeEventsLast(db: Db, p: nat)
    requires Inv(db) && EventsLast(db) && db.configured >= 0.0
    ensures EventsLast(Step(db, Summarize(p)).0)
  {
    var (db1, reply) := SummarizePeriod(db, p);
    SummarizeAdvances(db, p);
    assert Step(db, Summarize(p)) == SummarizeRoute(db, p);
    EventsKeepLasting(db, db1);
    if reply.Row? && reply.period.status == Closing {
      PatronageLasts(db1, p);
      ClosingNeverSuspends(EmitPatronageRequired(db1, p), p);
    }
  }

  lemma SuspendingLasts(db: Db, p: nat)
    requires EventsLast(db) && p < |db.periods| && db.periods[p].status == Closed
    ensures EventsLast(EmitSuspendedIfRequired(db, p))
  {
    LoggingLasts(db, Event(ServiceSuspended(p), db.periods[p].tenant));
  }

  lemma CloseEventsLast(db: Db, p: nat, now: int)
    requires EventsLast(db)
    ensures EventsLast(Step(db, ClosePeriod(p, now)).0)
  {
    var (db1, reply) := UpdatePeriodStatus(db, p, Known(Closed), now);
    CloseAdvances(db, p, now);
    assert Step(db, ClosePeriod(p, now)) == CloseRoute(db, p, now);
    EventsKeepLasting(db, db1);
    if reply.Row? {
      var e := Event(PeriodClosed(p), db1.periods[p].tenant);
      LoggingLasts(db1, e);
      SuspendingLasts(db1.(events := LogEvent(db1.events, e)), p);
    }
  }

  /** What else is logged says nothing about a period. */
  lemma OtherEventsLast(db: Db, op: Op)
    requires Inv(db) && EventsLast(db) && Enabled(db, op) && !op.Summarize? && !op.ClosePeriod?
    ensures EventsLast(Step(db, op).0)
  {
    var db1 := Step(db, op).0;
    StepAdvancesPeriods(db, op);
    EventsKeepLasting(db, db1.(events := db.events));
    if db1.events != db.events {
      var e := db1.events[|db.events|];
      assert db1.events == LogEvent(db.events, e);
      LoggingLasts(db1.(events := db.events), e);
    }
  }

  lemma StepEventsLast(db: Db, op: Op)
    requires Inv(db) && EventsLast(db) && Enabled(db, op) && db.configured >= 0.0
    ensures EventsLast(Step(db, op).0)
  {
    if op.Summarize? {
      SummarizeEventsLast(db, op.period);
    } else if op.ClosePeriod? {
      CloseEventsLast(db, op.period, op.now);
    } else {
      OtherEventsLast(db, op);
    }
  }

  /** In every reachable state, a logged patronage_required names a period whose stored savings are still at or
      above the threshold, and a logged service_suspended or billing_period_closed names a closed period. */
  lemma {:induction false} LoggedEventsLast(db: Db, ops: seq<Op>)
    requires Inv(db) && EventsLast(db) && ValidRun(db, ops) && db.configured >= 0.0
    ensures EventsLast(Run(db, ops)) && EventsUnique(Run(db, ops).events)
    decreases |ops|
  {
    if ops != [] {
      StepSound(db, ops[0]);
      StepEventsLast(db, ops[0]);
      StepAdvancesPeriods(db, ops[0]);
      LoggedEventsLast(Step(db, ops[0]).0, ops[1..]);
    }
  }

  /** From the empty tables. */
  lemma ReachableEventsLast(configured: real, ops: seq<Op>)
    requires configured >= 0.0 && ValidRun(EmptyDb(configured), ops)
    ensures EventsLast(Run(EmptyDb(configured), ops)) && EventsUnique(Run(EmptyDb(configured), ops).events)
  {
    EmptySound(configured);
    LoggedEventsLast(EmptyDb(configured), ops);
  }

  // ---------------------------------------------------------------- open periods stay below the threshold

  ghost predicate OpenBelowThreshold(db: Db) {
    forall p :: 0 <= p < |db.periods| && db.periods[p].status == Open ==>
      db.periods[p].totals.realizedSavings < Threshold(db.configured)
  }

  predicate Reopens(db: Db, op: Op) {
    && op.SetPeriodStatus? && op.status == Known(Open)
    && op.period < |db.periods| && db.periods[op.period].status == Closing
    && db.periods[op.period].totals.realizedSavings >= Threshold(db.configured)
  }

  lemma SummarizeStaysBelow(db: Db, p: nat)
    requires OpenBelowThreshold(db)
    ensures OpenBelowThreshold(Step(db, Summarize(p)).0)
  {
    assert Step(db, Summarize(p)) == SummarizeRoute(db, p);
  }

  lemma CloseStaysBelow(db: Db, p: nat, now: int)
    requires OpenBelowThreshold(db)
    ensures OpenBelowThreshold(Step(db, ClosePeriod(p, now)).0)
  {
    assert Step(db, ClosePeriod(p, now)) == CloseRoute(db, p, now);
  }

  lemma StatusStaysBelow(db: Db, op: Op)
    requires OpenBelowThreshold(db) && op.SetPeriodStatus?
    ensures OpenBelowThreshold(Step(db, op).0) <==> !Reopens(db, op)
  {
    if Reopens(db, op) {
      assert Step(db, op).0.periods[op.period].status == Open;
    }
  }

  lemma OtherStaysBelow(db: Db, op: Op)
    requires Enabled(db, op) && OpenBelowThreshold(db)
    requires !op.Summarize? && !op.ClosePeriod? && !op.SetPeriodStatus?
    ensures OpenBelowThreshold(Step(db, op).0)
  {}

  /** A step leaves every open period below the threshold exactly when it does not reopen one that reached it. */
  lemma OpenStaysBelow(db: Db, op: Op)
    requires Enabled(db, op) && OpenBelowThreshold(db)
    ensures OpenBelowThreshold(Step(db, op).0) <==> !Reopens(db, op)
  {
    if op.Summarize? {
      SummarizeStaysBelow(db, op.period);
    } else if op.ClosePeriod? {
      CloseStaysBelow(db, op.period, op.now);
    } else if op.SetPeriodStatus? {
      StatusStaysBelow(db, op);
    } else {
      OtherStaysBelow(db, op);
    }
  }

  ghost predicate NeverReopens(db: Db, ops: seq<Op>)
    requires ValidRun(db, ops)
    decreases |ops|
  {
    ops == [] || (!Reopens(db, ops[0]) && NeverReopens(Step(db, ops[0]).0, ops[1..]))
  }

  /** In runs that never move such a period back to open, an open period's stored savings are below the threshold. */
  lemma {:induction false} OpenBelowThresholdInRuns(db: Db, ops: seq<Op>)
    requires ValidRun(db, ops) && OpenBelowThreshold(db) && NeverReopens(db, ops)
    ensures OpenBelowThreshold(Run(db, ops))
    decreases |ops|
  {
    if ops != [] {
      OpenStaysBelow(db, ops[0]);
      OpenBelowThresholdInRuns(Step(db, ops[0]).0, ops[1..]);
    }
  }
}
