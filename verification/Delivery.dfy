/** Accounting of remote event delivery (cmd/claude/main.go). What the network and the trigger tool do
    with an event is given with it. */
module Delivery {
  import opened Text

  datatype PollEvent = PollEvent(id: string, ackURL: string, leaseID: string, leaseExpiresAt: string)

  datatype Run = Unmarshalable | RunFails | Duplicate | Sent(count: int)

  /** `pastLease`: the lease time parses and is not after now. */
  datatype Job = Job(event: PollEvent, pastLease: bool, renewAccepted: bool, run: Run, ackAccepted: bool)
  {
    /** daemonRemoteLeaseExpired. */
    predicate Expired() {
      Trim(event.leaseExpiresAt) != "" && pastLease
    }
  }

  datatype Kind = Lease | LeaseRenew | Ack | Failure

  datatype Report = Report(kind: Kind, id: string)

  datatype Tally = Tally(
    delivered: int, duplicates: nat, ackEvents: nat, ackSent: nat, ackErrors: nat,
    leaseEvents: nat, leaseExpired: nat, leaseRenewSent: nat, leaseRenewErrors: nat, errors: seq<Report>)

  const NOTHING := Tally(0, 0, 0, 0, 0, 0, 0, 0, 0, [])

  function Plus(a: Tally, b: Tally): Tally {
    Tally(a.delivered + b.delivered, a.duplicates + b.duplicates, a.ackEvents + b.ackEvents, a.ackSent + b.ackSent,
          a.ackErrors + b.ackErrors, a.leaseEvents + b.leaseEvents, a.leaseExpired + b.leaseExpired,
          a.leaseRenewSent + b.leaseRenewSent, a.leaseRenewErrors + b.leaseRenewErrors, a.errors + b.errors)
  }

  datatype End = EndsExpired | EndsFailed | EndsDuplicate | EndsDelivered

  function EndOf(j: Job): End {
    if j.Expired() then EndsExpired
    else match j.run
      case Unmarshalable => EndsFailed
      case RunFails => EndsFailed
      case Duplicate => EndsDuplicate
      case Sent(_) => EndsDelivered
  }

  /** A renewal is asked for. */
  predicate Renews(j: Job, renewURL: string) {
    !j.Expired() && Trim(j.event.leaseID) != "" && Trim(renewURL) != ""
  }

  function One(b: bool): nat {
    if b then 1 else 0
  }

  function When(b: bool, kind: Kind, j: Job): seq<Report> {
    if b then [Report(kind, j.event.id)] else []
  }

  /** What one event adds to the totals. */
  function Share(j: Job, renewURL: string): Tally {
    var acks, renews, end := j.event.ackURL != "", Renews(j, renewURL), EndOf(j);
    Tally(if end == EndsDelivered then j.run.count else 0, One(end == EndsDuplicate),
          One(acks), One(acks && j.ackAccepted), One(acks && !j.ackAccepted),
          One(j.event.leaseID != "" || j.event.leaseExpiresAt != ""), One(end == EndsExpired),
          One(renews && j.renewAccepted), One(renews && !j.renewAccepted),
          When(end == EndsExpired, Lease, j) + When(renews && !j.renewAccepted, LeaseRenew, j)
          + When(end == EndsFailed, Failure, j) + When(acks && !j.ackAccepted, Ack, j))
  }

  lemma ExpiredShare(a: Tally, j: Job, renewURL: string)
    requires j.Expired()
    ensures var acks, leased := j.event.ackURL != "", j.event.leaseID != "" || j.event.leaseExpiresAt != "";
      Plus(a, Share(j, renewURL)) ==
      Tally(a.delivered, a.duplicates, a.ackEvents + One(acks), a.ackSent + One(acks && j.ackAccepted),
            a.ackErrors + One(acks && !j.ackAccepted), a.leaseEvents + One(leased), a.leaseExpired + 1,
            a.leaseRenewSent, a.leaseRenewErrors,
            a.errors + When(true, Lease, j) + When(acks && !j.ackAccepted, Ack, j))
  {
    hide Trim;
  }

  lemma LiveShare(a: Tally, j: Job, renewURL: string)
    requires !j.Expired()
    ensures var acks, leased := j.event.ackURL != "", j.event.leaseID != "" || j.event.leaseExpiresAt != "";
      var renews, end := Renews(j, renewURL), EndOf(j);
      Plus(a, Share(j, renewURL)) ==
      Tally(a.delivered + (if end == EndsDelivered then j.run.count else 0), a.duplicates + One(end == EndsDuplicate),
            a.ackEvents + One(acks), a.ackSent + One(acks && j.ackAccepted), a.ackErrors + One(acks && !j.ackAccepted),
            a.leaseEvents + One(leased), a.leaseExpired,
            a.leaseRenewSent + One(renews && j.renewAccepted), a.leaseRenewErrors + One(renews && !j.renewAccepted),
            a.errors + When(renews && !j.renewAccepted, LeaseRenew, j)
            + (When(end == EndsFailed, Failure, j) + When(acks && !j.ackAccepted, Ack, j)))
  {
    hide Trim, Renews;
    assert When(EndOf(j) == EndsExpired, Lease, j) == [];
    hide When;
  }

  function Total(jobs: seq<Job>, renewURL: string): Tally
  {
    if jobs == [] then NOTHING else Plus(Total(jobs[..|jobs| - 1], renewURL), Share(jobs[|jobs| - 1], renewURL))
  }

  class DeliveryResult {
    var t: Tally

    constructor ()
      ensures t == NOTHING
    {
      t := NOTHING;
    }

    /** acknowledgeDaemonRemoteEvent and the counting after it. */
    method Acknowledge(j: Job)
      modifies this
      ensures var refused := j.event.ackURL != "" && !j.ackAccepted;
        t == old(t).(ackSent := old(t).ackSent + One(j.event.ackURL != "" && j.ackAccepted),
                     ackErrors := old(t).ackErrors + One(refused), errors := old(t).errors + When(refused, Ack, j))
    {
      if j.event.ackURL == "" {
        return;
      }
      if j.ackAccepted {
        t := t.(ackSent := t.ackSent + 1);
      } else {
        t := t.(ackErrors := t.ackErrors + 1, errors := t.errors + [Report(Ack, j.event.id)]);
      }
    }

    /** renewDaemonRemoteLease and the counting after it, for an event whose lease has not expired. */
    method Renew(j: Job, renewURL: string)
      requires !j.Expired()
      modifies this
      ensures var renews := Renews(j, renewURL);
        t == old(t).(leaseRenewSent := old(t).leaseRenewSent + One(renews && j.renewAccepted),
                     leaseRenewErrors := old(t).leaseRenewErrors + One(renews && !j.renewAccepted),
                     errors := old(t).errors + When(renews && !j.renewAccepted, LeaseRenew, j))
    {
      if Trim(j.event.leaseID) == "" || Trim(renewURL) == "" {
        return;
      }
      if j.renewAccepted {
        t := t.(leaseRenewSent := t.leaseRenewSent + 1);
      } else {
        t := t.(leaseRenewErrors := t.leaseRenewErrors + 1, errors := t.errors + [Report(LeaseRenew, j.event.id)]);
      }
    }

    /** One round of the loop. */
    method DeliverOne(j: Job, renewURL: string)
      modifies this
      ensures t == Plus(old(t), Share(j, renewURL))
    {
      Announce(j);
      hide One, When, Plus, Share, Renews, EndOf;
      hide Job.Expired;
      if j.Expired() {
        ExpiredShare(old(t), j, renewURL);
        ReportLease(j);
        Acknowledge(j);
        return;
      }
      LiveShare(old(t), j, renewURL);
      Renew(j, renewURL);
      Trigger(j);
    }

    method Announce(j: Job)
      modifies this
      ensures t == old(t).(ackEvents := old(t).ackEvents + One(j.event.ackURL != ""),
                           leaseEvents := old(t).leaseEvents
                                          + One(j.event.leaseID != "" || j.event.leaseExpiresAt != ""))
    {
      if j.event.ackURL != "" {
        t := t.(ackEvents := t.ackEvents + 1);
      }
      if j.event.leaseID != "" || j.event.leaseExpiresAt != "" {
        t := t.(leaseEvents := t.leaseEvents + 1);
      }
    }

    method ReportLease(j: Job)
      requires j.Expired()
      modifies this
      ensures t == old(t).(leaseExpired := old(t).leaseExpired + 1, errors := old(t).errors + When(true, Lease, j))
    {
      t := t.(leaseExpired := t.leaseExpired + 1, errors := t.errors + [Report(Lease, j.event.id)]);
    }

    /** The rest of a round, for an event whose lease has not expired. */
    method Trigger(j: Job)
      requires !j.Expired()
      modifies this
      ensures var refused, end := j.event.ackURL != "" && !j.ackAccepted, EndOf(j);
        t == old(t).(duplicates := old(t).duplicates + One(end == EndsDuplicate),
                     delivered := old(t).delivered + (if end == EndsDelivered then j.run.count else 0),
                     ackSent := old(t).ackSent + One(j.event.ackURL != "" && j.ackAccepted),
                     ackErrors := old(t).ackErrors + One(refused),
                     errors := old(t).errors + (When(end == EndsFailed, Failure, j) + When(refused, Ack, j)))
    {
      if j.run == Unmarshalable || j.run == RunFails {
        t := t.(errors := t.errors + [Report(Failure, j.event.id)]);
        Acknowledge(j);
        return;
      }
      assert t.errors + When(false, Failure, j) == t.errors;
      if j.run == Duplicate {
        t := t.(duplicates := t.duplicates + 1);
        Acknowledge(j);
        return;
      }
      t := t.(delivered := t.delivered + j.run.count);
      Acknowledge(j);
    }

    method Deliver(jobs: seq<Job>, renewURL: string)
      requires t == NOTHING
      modifies this
      ensures t == Total(jobs, renewURL)
    {
      hide Share, Plus;
      for i := 0 to |jobs|
        invariant t == Total(jobs[..i], renewURL)
      {
        assert jobs[..i + 1][..i] == jobs[..i];
        DeliverOne(jobs[i], renewURL);
      }
      assert jobs[..|jobs|] == jobs;
    }
  }

  // ---------- The balance ----------

  function CountReports(errors: seq<Report>, kind: Kind): nat {
    if errors == [] then 0
    else CountReports(errors[..|errors| - 1], kind) + One(errors[|errors| - 1].kind == kind)
  }

  lemma {:induction false} CountAppend(a: seq<Report>, b: seq<Report>, kind: Kind)
    ensures CountReports(a + b, kind) == CountReports(a, kind) + CountReports(b, kind)
    decreases |b|
  {
    if b == [] {
      assert a + b == a;
    } else {
      assert (a + b)[..|a + b| - 1] == a + b[..|b| - 1];
      CountAppend(a, b[..|b| - 1], kind);
    }
  }

  function CountEnds(jobs: seq<Job>, end: End): nat {
    if jobs == [] then 0 else CountEnds(jobs[..|jobs| - 1], end) + One(EndOf(jobs[|jobs| - 1]) == end)
  }

  function CountRenews(jobs: seq<Job>, renewURL: string): nat {
    if jobs == [] then 0 else CountRenews(jobs[..|jobs| - 1], renewURL) + One(Renews(jobs[|jobs| - 1], renewURL))
  }

  predicate Leased(j: Job) {
    j.event.leaseID != "" || j.event.leaseExpiresAt != ""
  }

  function CountLeased(jobs: seq<Job>): nat {
    if jobs == [] then 0 else CountLeased(jobs[..|jobs| - 1]) + One(Leased(jobs[|jobs| - 1]))
  }

  /** What the delivered events were sent to, in all. */
  function SentIn(jobs: seq<Job>): int {
    if jobs == [] then 0
    else
      var last := jobs[|jobs| - 1];
      SentIn(jobs[..|jobs| - 1]) + (if EndOf(last) == EndsDelivered then last.run.count else 0)
  }

  /** The counters agree with each other, with the error reports of every kind, and with how the events ended. */
  ghost predicate Balanced(jobs: seq<Job>, renewURL: string, t: Tally) {
    && t.ackSent + t.ackErrors == t.ackEvents
    && t.leaseRenewSent + t.leaseRenewErrors == CountRenews(jobs, renewURL)
    && t.leaseEvents == CountLeased(jobs) && t.leaseExpired + t.leaseRenewSent + t.leaseRenewErrors <= t.leaseEvents
    && t.delivered == SentIn(jobs)
    && CountReports(t.errors, Lease) == t.leaseExpired == CountEnds(jobs, EndsExpired)
    && CountReports(t.errors, LeaseRenew) == t.leaseRenewErrors
    && CountReports(t.errors, Ack) == t.ackErrors
    && CountReports(t.errors, Failure) == CountEnds(jobs, EndsFailed)
    && t.duplicates == CountEnds(jobs, EndsDuplicate)
    && |t.errors| == t.leaseExpired + t.leaseRenewErrors + t.ackErrors + CountEnds(jobs, EndsFailed)
    && |jobs| == CountEnds(jobs, EndsExpired) + CountEnds(jobs, EndsFailed)
                 + CountEnds(jobs, EndsDuplicate) + CountEnds(jobs, EndsDelivered)
  }

  lemma WhenCounts(b: bool, kind: Kind, j: Job, counted: Kind)
    ensures CountReports(When(b, kind, j), counted) == One(b && kind == counted)
  {
    assert [Report(kind, j.event.id)][..0] == [];
  }

  lemma ShareReports(j: Job, renewURL: string, kind: Kind)
    ensures var s := Share(j, renewURL);
      CountReports(s.errors, kind) ==
      (match kind case Lease => One(EndOf(j) == EndsExpired) case LeaseRenew => s.leaseRenewErrors
       case Failure => One(EndOf(j) == EndsFailed) case Ack => s.ackErrors)
  {
    var acks, renews, end := j.event.ackURL != "", Renews(j, renewURL), EndOf(j);
    var a, b, c, d := When(end == EndsExpired, Lease, j), When(renews && !j.renewAccepted, LeaseRenew, j),
                      When(end == EndsFailed, Failure, j), When(acks && !j.ackAccepted, Ack, j);
    CountAppend(a, b, kind);
    CountAppend(a + b, c, kind);
    CountAppend(a + b + c, d, kind);
    WhenCounts(end == EndsExpired, Lease, j, kind);
    WhenCounts(renews && !j.renewAccepted, LeaseRenew, j, kind);
    WhenCounts(end == EndsFailed, Failure, j, kind);
    WhenCounts(acks && !j.ackAccepted, Ack, j, kind);
    hide CountReports, When;
  }

  lemma {:induction false} ReportsBalance(jobs: seq<Job>, renewURL: string, kind: Kind)
    ensures var t := Total(jobs, renewURL);
      CountReports(t.errors, kind) ==
      (match kind case Lease => CountEnds(jobs, EndsExpired) case LeaseRenew => t.leaseRenewErrors
       case Failure => CountEnds(jobs, EndsFailed) case Ack => t.ackErrors)
  {
    if jobs != [] {
      var front, j := jobs[..|jobs| - 1], jobs[|jobs| - 1];
      ReportsBalance(front, renewURL, kind);
      ShareReports(j, renewURL, kind);
      CountAppend(Total(front, renewURL).errors, Share(j, renewURL).errors, kind);
      hide CountReports, Share;
    }
  }

  lemma {:induction false} CountersBalance(jobs: seq<Job>, renewURL: string)
    ensures var t := Total(jobs, renewURL);
      && t.ackSent + t.ackErrors == t.ackEvents && t.leaseRenewSent + t.leaseRenewErrors == CountRenews(jobs, renewURL)
      && t.leaseExpired == CountEnds(jobs, EndsExpired) && t.duplicates == CountEnds(jobs, EndsDuplicate)
      && t.leaseEvents == CountLeased(jobs) && t.delivered == SentIn(jobs)
  {
    if jobs != [] {
      CountersBalance(jobs[..|jobs| - 1], renewURL);
      hide When, EndOf, Renews;
    }
  }

  /** Only an event with a lease expires or is renewed, and no event does both. */
  lemma {:induction false} LeasesSuffice(jobs: seq<Job>, renewURL: string)
    ensures CountEnds(jobs, EndsExpired) + CountRenews(jobs, renewURL) <= CountLeased(jobs)
  {
    if jobs != [] {
      LeasesSuffice(jobs[..|jobs| - 1], renewURL);
      OneLease(jobs[|jobs| - 1], renewURL);
      hide EndOf, Renews, Leased;
    }
  }

  lemma OneLease(j: Job, renewURL: string)
    ensures One(EndOf(j) == EndsExpired) + One(Renews(j, renewURL)) <= One(Leased(j))
  {
    assert Trim("") == "";
    hide Trim;
  }

  lemma {:induction false} EveryEventEnds(jobs: seq<Job>)
    ensures |jobs| == CountEnds(jobs, EndsExpired) + CountEnds(jobs, EndsFailed)
                      + CountEnds(jobs, EndsDuplicate) + CountEnds(jobs, EndsDelivered)
  {
    hide EndOf;
    if jobs != [] {
      EveryEventEnds(jobs[..|jobs| - 1]);
    }
  }

  lemma {:induction false} ReportKinds(errors: seq<Report>)
    ensures |errors| == CountReports(errors, Lease) + CountReports(errors, LeaseRenew)
                        + CountReports(errors, Ack) + CountReports(errors, Failure)
  {
    if errors != [] {
      ReportKinds(errors[..|errors| - 1]);
    }
  }

  /** For every list of events and whatever becomes of them. */
  lemma DeliveryBalances(jobs: seq<Job>, renewURL: string)
    ensures Balanced(jobs, renewURL, Total(jobs, renewURL))
  {
    CountersBalance(jobs, renewURL);
    LeasesSuffice(jobs, renewURL);
    EveryEventEnds(jobs);
    ReportKinds(Total(jobs, renewURL).errors);
    ReportsBalance(jobs, renewURL, Lease);
    ReportsBalance(jobs, renewURL, LeaseRenew);
    ReportsBalance(jobs, renewURL, Failure);
    ReportsBalance(jobs, renewURL, Ack);
    hide Total, CountReports, CountEnds, CountRenews, CountLeased, SentIn;
  }

  // ---------- What is counted ----------

  /** The lease time has passed. */
  predicate Late(j: Job) {
    !Blank(j.event.leaseExpiresAt) && j.pastLease
  }

  /** A renewal is sent for every lease that is not late, if there is where to send it. */
  predicate Asks(j: Job, renewURL: string) {
    !Late(j) && !Blank(j.event.leaseID) && !Blank(renewURL)
  }

  /** What is reported: late leases, refused renewals, failed runs of the others, refused acknowledgements. */
  predicate Reports(j: Job, renewURL: string, kind: Kind) {
    match kind
    case Lease => Late(j)
    case LeaseRenew => Asks(j, renewURL) && !j.renewAccepted
    case Failure => !Late(j) && (j.run == Unmarshalable || j.run == RunFails)
    case Ack => j.event.ackURL != "" && !j.ackAccepted
  }

  /** The ids of the events of a kind, in order. */
  function Ids(jobs: seq<Job>, p: Job -> bool): seq<string> {
    if jobs == [] then []
    else Ids(jobs[..|jobs| - 1], p) + (if p(jobs[|jobs| - 1]) then [jobs[|jobs| - 1].event.id] else [])
  }

  /** The ids in the reports of a kind. */
  function Reported(errors: seq<Report>, kind: Kind): seq<string> {
    if errors == [] then []
    else
      var last := errors[|errors| - 1];
      Reported(errors[..|errors| - 1], kind) + (if last.kind == kind then [last.id] else [])
  }

  function Sum(jobs: seq<Job>): int {
    if jobs == [] then 0
    else
      var last := jobs[|jobs| - 1];
      Sum(jobs[..|jobs| - 1]) + (if !Late(last) && last.run.Sent? then last.run.count else 0)
  }

  /** Every counter counts the events it says. */
  ghost predicate CountersCount(jobs: seq<Job>, renewURL: string, t: Tally) {
    && t.ackEvents == |Ids(jobs, (j: Job) => j.event.ackURL != "")|
    && t.ackSent == |Ids(jobs, (j: Job) => j.event.ackURL != "" && j.ackAccepted)|
    && t.ackErrors == |Ids(jobs, (j: Job) => Reports(j, renewURL, Ack))|
    && t.leaseEvents == |Ids(jobs, (j: Job) => j.event.leaseID != "" || j.event.leaseExpiresAt != "")|
    && t.leaseExpired == |Ids(jobs, (j: Job) => Reports(j, renewURL, Lease))|
    && t.leaseRenewSent == |Ids(jobs, (j: Job) => Asks(j, renewURL) && j.renewAccepted)|
    && t.leaseRenewErrors == |Ids(jobs, (j: Job) => Reports(j, renewURL, LeaseRenew))|
    && t.duplicates == |Ids(jobs, (j: Job) => !Late(j) && j.run == Duplicate)|
    && t.delivered == Sum(jobs)
  }

  /** The reports of every kind name the events concerned, in order. */
  ghost predicate ReportsName(jobs: seq<Job>, renewURL: string, errors: seq<Report>) {
    forall kind :: Reported(errors, kind) == Ids(jobs, (j: Job) => Reports(j, renewURL, kind))
  }

  lemma {:induction false} ReportedAppend(a: seq<Report>, b: seq<Report>, kind: Kind)
    ensures Reported(a + b, kind) == Reported(a, kind) + Reported(b, kind)
    decreases |b|
  {
    if b == [] {
      assert a + b == a;
    } else {
      assert (a + b)[..|a + b| - 1] == a + b[..|b| - 1];
      ReportedAppend(a, b[..|b| - 1], kind);
    }
  }

  lemma LateIsExpired(j: Job)
    ensures Late(j) <==> EndOf(j) == EndsExpired
  {
    TrimEmptyIffBlank(j.event.leaseExpiresAt);
    hide Trim, Blank;
  }

  /** The reports of one event, in this order. */
  lemma ReportsOfOne(j: Job, renewURL: string)
    ensures var a, b := if Reports(j, renewURL, Lease) then [Report(Lease, j.event.id)] else [],
                        if Reports(j, renewURL, LeaseRenew) then [Report(LeaseRenew, j.event.id)] else [];
      var c, d := if Reports(j, renewURL, Failure) then [Report(Failure, j.event.id)] else [],
                  if Reports(j, renewURL, Ack) then [Report(Ack, j.event.id)] else [];
      Share(j, renewURL).errors == a + b + c + d
  {
    LateIsExpired(j);
    TrimEmptyIffBlank(j.event.leaseID);
    TrimEmptyIffBlank(renewURL);
    TrimEmptyIffBlank(j.event.leaseExpiresAt);
    hide Trim, Blank;
  }

  lemma ReportedOfOne(j: Job, renewURL: string, kind: Kind)
    ensures Reported(Share(j, renewURL).errors, kind) == if Reports(j, renewURL, kind) then [j.event.id] else []
  {
    var id, refused := j.event.id, Reports(j, renewURL, Ack);
    ReportsOfOne(j, renewURL);
    var late, kept := Reports(j, renewURL, Lease), Reports(j, renewURL, LeaseRenew);
    var failed := Reports(j, renewURL, Failure);
    hide Share, Reports;
    FourReported(late, kept, failed, refused, id, kind);
  }

  lemma FourReported(late: bool, kept: bool, failed: bool, refused: bool, id: string, kind: Kind)
    ensures var a, b := if late then [Report(Lease, id)] else [], if kept then [Report(LeaseRenew, id)] else [];
      var c, d := if failed then [Report(Failure, id)] else [], if refused then [Report(Ack, id)] else [];
      Reported(a + b + c + d, kind) ==
      if (match kind case Lease => late case LeaseRenew => kept case Failure => failed case Ack => refused) then [id]
      else []
  {
    var a, b := if late then [Report(Lease, id)] else [], if kept then [Report(LeaseRenew, id)] else [];
    var c, d := if failed then [Report(Failure, id)] else [], if refused then [Report(Ack, id)] else [];
    ReportedAppend(a + b + c, d, kind);
    ReportedAppend(a + b, c, kind);
    ReportedAppend(a, b, kind);
    ReportedOne(late, Report(Lease, id), kind);
    ReportedOne(kept, Report(LeaseRenew, id), kind);
    ReportedOne(failed, Report(Failure, id), kind);
    ReportedOne(refused, Report(Ack, id), kind);
    hide Reported;
  }

  lemma ReportedOne(b: bool, r: Report, kind: Kind)
    ensures Reported(if b then [r] else [], kind) == if b && r.kind == kind then [r.id] else []
  {
    assert [r][..0] == [];
  }

  lemma IdsSnoc(jobs: seq<Job>, j: Job, p: Job -> bool)
    ensures Ids(jobs + [j], p) == Ids(jobs, p) + (if p(j) then [j.event.id] else [])
  {
    assert (jobs + [j])[..|jobs|] == jobs;
  }

  lemma CountersSnoc(jobs: seq<Job>, j: Job, renewURL: string, t: Tally)
    requires CountersCount(jobs, renewURL, t)
    ensures CountersCount(jobs + [j], renewURL, Plus(t, Share(j, renewURL)))
  {
    IdsSnoc(jobs, j, (j: Job) => j.event.ackURL != "");
    IdsSnoc(jobs, j, (j: Job) => j.event.ackURL != "" && j.ackAccepted);
    IdsSnoc(jobs, j, (j: Job) => Reports(j, renewURL, Ack));
    IdsSnoc(jobs, j, (j: Job) => j.event.leaseID != "" || j.event.leaseExpiresAt != "");
    IdsSnoc(jobs, j, (j: Job) => Reports(j, renewURL, Lease));
    IdsSnoc(jobs, j, (j: Job) => Asks(j, renewURL) && j.renewAccepted);
    IdsSnoc(jobs, j, (j: Job) => Reports(j, renewURL, LeaseRenew));
    IdsSnoc(jobs, j, (j: Job) => !Late(j) && j.run == Duplicate);
    assert (jobs + [j])[..|jobs|] == jobs;
    ShareCounts(j, renewURL);
    hide Ids, Share, Late, Asks;
  }

  lemma ReportsSnoc(jobs: seq<Job>, j: Job, renewURL: string, errors: seq<Report>)
    requires ReportsName(jobs, renewURL, errors)
    ensures ReportsName(jobs + [j], renewURL, errors + Share(j, renewURL).errors)
  {
    forall kind
      ensures Reported(errors + Share(j, renewURL).errors, kind) ==
              Ids(jobs + [j], (j: Job) => Reports(j, renewURL, kind))
    {
      IdsSnoc(jobs, j, (j: Job) => Reports(j, renewURL, kind));
      ReportedAppend(errors, Share(j, renewURL).errors, kind);
      ReportedOfOne(j, renewURL, kind);
      hide Ids, Reported, Share, Reports;
    }
  }

  lemma ShareCounts(j: Job, renewURL: string)
    ensures var s := Share(j, renewURL);
      && s.ackEvents == One(j.event.ackURL != "") && s.ackSent == One(j.event.ackURL != "" && j.ackAccepted)
      && s.ackErrors == One(j.event.ackURL != "" && !j.ackAccepted)
      && s.leaseEvents == One(j.event.leaseID != "" || j.event.leaseExpiresAt != "") && s.leaseExpired == One(Late(j))
      && s.leaseRenewSent == One(Asks(j, renewURL) && j.renewAccepted)
      && s.leaseRenewErrors == One(Asks(j, renewURL) && !j.renewAccepted)
      && s.duplicates == One(!Late(j) && j.run == Duplicate)
      && s.delivered == if !Late(j) && j.run.Sent? then j.run.count else 0
  {
    LateIsExpired(j);
    TrimEmptyIffBlank(j.event.leaseID);
    TrimEmptyIffBlank(renewURL);
    TrimEmptyIffBlank(j.event.leaseExpiresAt);
    hide Trim, Blank, When;
  }

  /** For every list of events and whatever becomes of them. */
  lemma {:induction false} DeliveryCounts(jobs: seq<Job>, renewURL: string)
    ensures var t := Total(jobs, renewURL);
      CountersCount(jobs, renewURL, t) && ReportsName(jobs, renewURL, t.errors)
  {
    if jobs != [] {
      var front, j := jobs[..|jobs| - 1], jobs[|jobs| - 1];
      var t := Total(front, renewURL);
      DeliveryCounts(front, renewURL);
      CountersSnoc(front, j, renewURL, t);
      ReportsSnoc(front, j, renewURL, t.errors);
      assert jobs == front + [j];
      hide CountersCount, ReportsName, Share;
    }
  }

  // ---------- The stream ----------

  lemma {:induction false} TotalAppend(a: seq<Job>, b: seq<Job>, renewURL: string)
    ensures Total(a + b, renewURL) == Plus(Total(a, renewURL), Total(b, renewURL))
    decreases |b|
  {
    hide Share, Plus;
    if b == [] {
      assert a + b == a;
      PlusNothing(Total(a, renewURL));
    } else {
      assert (a + b)[..|a + b| - 1] == a + b[..|b| - 1];
      TotalAppend(a, b[..|b| - 1], renewURL);
      PlusAssociative(Total(a, renewURL), Total(b[..|b| - 1], renewURL), Share(b[|b| - 1], renewURL));
    }
  }

  lemma PlusNothing(a: Tally)
    ensures Plus(a, NOTHING) == a
  {
  }

  lemma PlusAssociative(a: Tally, b: Tally, c: Tally)
    ensures Plus(Plus(a, b), c) == Plus(a, Plus(b, c))
  {
  }

  /** Adding totals up without their error reports, and the reports by number. */
  lemma PlusForgets(a: Tally, b: Tally)
    ensures Plus(a.(errors := []), b.(errors := [])) == Plus(a, b).(errors := [])
    ensures |Plus(a, b).errors| == |a.errors| + |b.errors|
  {
  }

  function Flatten(batches: seq<seq<Job>>): seq<Job> {
    if batches == [] then [] else Flatten(batches[..|batches| - 1]) + batches[|batches| - 1]
  }

  /** The totals a stream keeps over its batches; error reports are only counted. */
  class PumpState {
    var eventCount: nat
    var errorCount: nat
    var t: Tally
    ghost var batches: seq<seq<Job>>
    const renewURL: string

    /** The totals are those of one delivery of everything so far. */
    ghost predicate Valid()
      reads this
    {
      var total := Total(Flatten(batches), renewURL);
      eventCount == |Flatten(batches)| && errorCount == |total.errors| && t == total.(errors := [])
    }

    constructor (renewURL: string)
      ensures Valid() && batches == [] && this.renewURL == renewURL
    {
      this.renewURL := renewURL;
      eventCount, errorCount, t, batches := 0, 0, NOTHING, [];
    }

    /** The stream's event handler. */
    method OnEvents(jobs: seq<Job>)
      requires Valid()
      modifies this
      ensures Valid() && batches == old(batches) + [jobs]
    {
      var delivery := new DeliveryResult();
      delivery.Deliver(jobs, renewURL);
      TotalAppend(Flatten(batches), jobs, renewURL);
      PlusForgets(Total(Flatten(batches), renewURL), delivery.t);
      FlattenSnoc(batches, jobs);
      hide Total, Plus, Flatten;
      batches := batches + [jobs];
      eventCount := eventCount + |jobs|;
      errorCount := errorCount + |delivery.t.errors|;
      t := Plus(t, delivery.t.(errors := []));
    }
  }

  lemma FlattenSnoc(batches: seq<seq<Job>>, jobs: seq<Job>)
    ensures Flatten(batches + [jobs]) == Flatten(batches) + jobs
  {
    assert (batches + [jobs])[..|batches|] == batches;
  }
}
