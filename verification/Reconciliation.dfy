/** Reconciliation: find stale records, optionally heal them, have failures analysed and announced. */
module Reconciliation {
  import opened Options
  import opened Results
  import opened Sorting

  datatype Config = Config(
    stalePendingTimeout: real,
    staleProcessingTimeout: real,
    dryRunEnabled: bool,
    healEnabled: bool,
    analysisEnabled: bool,
    notificationEnabled: bool)

  datatype Action = Resubmit | MarkFailed | Skip

  /** What the failure analyzer attaches to an event: its text, or why there is none. */
  datatype Analysis = Analyzed(text: string) | AnalysisUnavailable(error: string)

  datatype Event = Event(
    requestId: string,
    previousStatus: Status,
    action: Action,
    dryRun: bool,
    analysis: Option<Analysis>,
    notified: bool)

  /** What the services around a pass answer: the analyzer for each record, and the notification
      service, if there is one, by taking a notice or failing. */
  datatype Services = Services(analyze: Record -> Analysis, hasNotifier: bool, accepts: Record -> bool)

  /** The synthetic payload of a resubmission; its other fields are constants. */
  datatype Payload = Payload(eventId: string, timestamp: Option<real>, requestedModel: Option<string>)

  /** A record whose acceptance time does not parse is always stale. */
  predicate IsStale(c: Config, r: Record, now: real) {
    match r.acceptedAt
    case None => true
    case Some(accepted) =>
      match r.status
      case Pending => now - accepted > c.stalePendingTimeout
      case Processing => now - accepted > c.staleProcessingTimeout
      case _ => false
  }

  function DecideAction(c: Config, r: Record): Event {
    match r.status
    case Pending => Event(r.requestId, r.status, Resubmit, c.dryRunEnabled, None, false)
    case Processing => Event(r.requestId, r.status, MarkFailed, c.dryRunEnabled, None, false)
    case _ => Event(r.requestId, r.status, Skip, false, None, false)
  }

  function FailedRecord(r: Record, now: real): Record {
    Record(r.requestId, Failed, r.acceptedAt, Some(now), r.modelName, None, Some(Reconciled))
  }

  function StaleOnly(c: Config, rs: seq<Record>, now: real): seq<Record> {
    if rs == [] then []
    else StaleOnly(c, rs[..|rs| - 1], now) + if IsStale(c, rs[|rs| - 1], now) then [rs[|rs| - 1]] else []
  }

  /** The stale records in the order the pass visits them. */
  function StaleRecords(c: Config, s: Store, now: real): seq<Record>
    requires s.Valid()
  {
    StaleOnly(c, s.ScanByStatus(Pending), now) + StaleOnly(c, s.ScanByStatus(Processing), now)
  }

  /** The event of a record after the pass has dealt with it. */
  function EventOf(c: Config, w: Services, r: Record): Event {
    var e := DecideAction(c, r);
    if !Heals(c) || e.action != MarkFailed then e
    else e.(analysis := if c.analysisEnabled then Some(w.analyze(r)) else None,
            notified := c.notificationEnabled && w.hasNotifier && w.accepts(r))
  }

  function Events(c: Config, w: Services, rs: seq<Record>): (es: seq<Event>)
    ensures |es| == |rs| && forall i :: 0 <= i < |rs| ==> es[i] == EventOf(c, w, rs[i])
  {
    if rs == [] then [] else Events(c, w, rs[..|rs| - 1]) + [EventOf(c, w, rs[|rs| - 1])]
  }

  /** A notice names the event, as it stands before it counts as notified, and the record as it was. */
  function NoticeOf(c: Config, w: Services, r: Record): seq<(Event, Record)> {
    var e := EventOf(c, w, r);
    if e.notified then [(e.(notified := false), r)] else []
  }

  function Notices(c: Config, w: Services, rs: seq<Record>): seq<(Event, Record)> {
    if rs == [] then [] else Notices(c, w, rs[..|rs| - 1]) + NoticeOf(c, w, rs[|rs| - 1])
  }

  /** What healing does to one record: it is failed, except that a pending record is left alone
      when it can be republished. */
  function HealOne(s: Store, r: Record, canPublish: bool, now: real): Store {
    if r.status == Processing || (r.status == Pending && !canPublish) then s.Put(FailedRecord(r, now)) else s
  }

  function Heal(s: Store, rs: seq<Record>, canPublish: bool, now: real): Store {
    if rs == [] then s else HealOne(Heal(s, rs[..|rs| - 1], canPublish, now), rs[|rs| - 1], canPublish, now)
  }

  function ResubmissionOf(r: Record): seq<Payload> {
    if r.status == Pending then [Payload(r.requestId, r.acceptedAt, r.modelName)] else []
  }

  function Resubmissions(rs: seq<Record>): seq<Payload> {
    if rs == [] then [] else Resubmissions(rs[..|rs| - 1]) + ResubmissionOf(rs[|rs| - 1])
  }

  /** The store and the queue once a pass has dealt with `rs`. */
  function PassStore(c: Config, s: Store, rs: seq<Record>, canPublish: bool, now: real): Store {
    if Heals(c) then Heal(s, rs, canPublish, now) else s
  }

  function PassQueue(c: Config, published: seq<Payload>, rs: seq<Record>, canPublish: bool): seq<Payload> {
    if Heals(c) && canPublish then published + Resubmissions(rs) else published
  }

  /** One more record of a pass. */
  lemma {:induction false} PassSnoc(c: Config, w: Services, s: Store, published: seq<Payload>,
                                    sent: seq<(Event, Record)>, rs: seq<Record>, i: nat, canPublish: bool, now: real)
    requires i < |rs|
    ensures Events(c, w, rs[..i + 1]) == Events(c, w, rs[..i]) + [EventOf(c, w, rs[i])]
    ensures var before := PassStore(c, s, rs[..i], canPublish, now);
            PassStore(c, s, rs[..i + 1], canPublish, now)
              == if Heals(c) then HealOne(before, rs[i], canPublish, now) else before
    ensures var before := PassQueue(c, published, rs[..i], canPublish);
            PassQueue(c, published, rs[..i + 1], canPublish)
              == if Heals(c) && canPublish then before + ResubmissionOf(rs[i]) else before
    ensures sent + Notices(c, w, rs[..i + 1]) == (sent + Notices(c, w, rs[..i])) + NoticeOf(c, w, rs[i])
  {
    assert rs[..i + 1][..i] == rs[..i];
  }

  predicate Heals(c: Config) {
    c.healEnabled && !c.dryRunEnabled
  }

  /** The queue refuses the record's republication, which ends the pass with an exception. */
  predicate Raises(c: Config, canPublish: bool, takes: Record -> bool, r: Record) {
    Heals(c) && canPublish && r.status == Pending && !takes(r)
  }

  /** The records a pass has dealt with when it ends, by exception or not. */
  function DealtWith(c: Config, canPublish: bool, takes: Record -> bool, rs: seq<Record>): (done: seq<Record>)
    ensures done <= rs
  {
    if rs == [] then []
    else
      var init, r := rs[..|rs| - 1], rs[|rs| - 1];
      var done := DealtWith(c, canPublish, takes, init);
      if done == init && !Raises(c, canPublish, takes, r) then rs else done
  }

  lemma {:induction false} DealtWithSnoc(c: Config, canPublish: bool, takes: Record -> bool, rs: seq<Record>, i: nat)
    requires i < |rs| && DealtWith(c, canPublish, takes, rs[..i]) == rs[..i]
    ensures DealtWith(c, canPublish, takes, rs[..i + 1])
         == if Raises(c, canPublish, takes, rs[i]) then rs[..i] else rs[..i + 1]
  {
    assert rs[..i + 1][..i] == rs[..i];
  }

  /** Nothing behind a record that raises is dealt with. */
  lemma {:induction false} RaisingEnds(c: Config, canPublish: bool, takes: Record -> bool, rs: seq<Record>, i: nat)
    requires i <= |rs| && DealtWith(c, canPublish, takes, rs[..i]) != rs[..i]
    ensures DealtWith(c, canPublish, takes, rs) == DealtWith(c, canPublish, takes, rs[..i])
  {
    if i < |rs| {
      assert rs[..|rs| - 1][..i] == rs[..i];
      RaisingEnds(c, canPublish, takes, rs[..|rs| - 1], i);
    } else {
      assert rs[..i] == rs;
    }
  }

  class QueuePublisher {
    var published: seq<Payload>

    constructor ()
      ensures published == []
    {
      published := [];
    }

    /** Raises, that is, returns false, if the queue does not take the payload. */
    method Publish(payload: Payload, takes: bool) returns (ok: bool)
      modifies this
      ensures ok == takes && published == if takes then old(published) + [payload] else old(published)
    {
      ok := takes;
      if takes {
        published := published + [payload];
      }
    }
  }

  class SnsPublisher {
    var sent: seq<(Event, Record)>

    constructor ()
      ensures sent == []
    {
      sent := [];
    }

    method PublishFailure(event: Event, result: Record, accepts: bool) returns (ok: bool)
      modifies this
      ensures ok == accepts && sent == if accepts then old(sent) + [(event, result)] else old(sent)
    {
      ok := accepts;
      if accepts {
        sent := sent + [(event, result)];
      }
    }
  }

  class ReconciliationEngine {
    const config: Config
    const resultStore: InMemoryResultStore
    const queuePublisher: QueuePublisher?
    const snsPublisher: SnsPublisher?

    constructor (config: Config, resultStore: InMemoryResultStore, queuePublisher: QueuePublisher?,
                 snsPublisher: SnsPublisher?)
      ensures this.config == config && this.resultStore == resultStore
      ensures this.queuePublisher == queuePublisher && this.snsPublisher == snsPublisher
    {
      this.config := config;
      this.resultStore := resultStore;
      this.queuePublisher := queuePublisher;
      this.snsPublisher := snsPublisher;
    }

    /** The notices that went out; none without a publisher. */
    ghost function Sent(): seq<(Event, Record)>
      reads this, snsPublisher
    {
      if snsPublisher == null then [] else snsPublisher.sent
    }

    /** What has been put on the queue; nothing without a publisher. */
    ghost function Published(): seq<Payload>
      reads this, queuePublisher
    {
      if queuePublisher == null then [] else queuePublisher.published
    }

    /** One pass; `analyze`, `accepts` and `takes` are what the failure analyzer, the notification service
        and the queue answer for a record. None if the queue raises, which ends the pass where it is. */
    method RunOnce(now: real, analyze: Record -> Analysis, accepts: Record -> bool, takes: Record -> bool)
      returns (events: Option<seq<Event>>)
      requires resultStore.store.Valid()
      modifies resultStore, queuePublisher, snsPublisher
      ensures resultStore.store.Valid()
      ensures var stale := StaleRecords(config, old(resultStore.store), now);
              var done := DealtWith(config, queuePublisher != null, takes, stale);
              var w := Services(analyze, snsPublisher != null, accepts);
              && events == (if done == stale then Some(Events(config, w, stale)) else None)
              && Sent() == old(Sent()) + Notices(config, w, done)
              && resultStore.store == PassStore(config, old(resultStore.store), done, queuePublisher != null, now)
              && Published() == PassQueue(config, old(Published()), done, queuePublisher != null)
    {
      var stale := CollectStale(now);
      events := VisitAll(stale, now, analyze, accepts, takes);
    }

    /** The loop of a pass. */
    method VisitAll(stale: seq<Record>, now: real, analyze: Record -> Analysis, accepts: Record -> bool,
                    takes: Record -> bool)
      returns (events: Option<seq<Event>>)
      requires resultStore.store.Valid()
      modifies resultStore, queuePublisher, snsPublisher
      ensures resultStore.store.Valid()
      ensures var done := DealtWith(config, queuePublisher != null, takes, stale);
              var w := Services(analyze, snsPublisher != null, accepts);
              && events == (if done == stale then Some(Events(config, w, stale)) else None)
              && Sent() == old(Sent()) + Notices(config, w, done)
              && resultStore.store == PassStore(config, old(resultStore.store), done, queuePublisher != null, now)
              && Published() == PassQueue(config, old(Published()), done, queuePublisher != null)
    {
      var visited: seq<Event> := [];
      ghost var w := Services(analyze, snsPublisher != null, accepts);
      ghost var store0, published0, sent0 := resultStore.store, Published(), Sent();
      assert published0 + [] == published0 && sent0 + [] == sent0;
      for i := 0 to |stale|
        invariant resultStore.store.Valid()
        invariant DealtWith(config, queuePublisher != null, takes, stale[..i]) == stale[..i]
        invariant visited == Events(config, w, stale[..i]) && Sent() == sent0 + Notices(config, w, stale[..i])
        invariant resultStore.store == PassStore(config, store0, stale[..i], queuePublisher != null, now)
        invariant Published() == PassQueue(config, published0, stale[..i], queuePublisher != null)
      {
        PassSnoc(config, w, store0, published0, sent0, stale, i, queuePublisher != null, now);
        DealtWithSnoc(config, queuePublisher != null, takes, stale, i);
        var event := Visit(stale[i], now, analyze, accepts, takes);
        if event == None {
          RaisingEnds(config, queuePublisher != null, takes, stale, i + 1);
          return None;
        }
        visited := visited + [event.value];
      }
      assert stale[..|stale|] == stale;
      events := Some(visited);
    }

    /** One turn of the loop of a pass. */
    method Visit(record: Record, now: real, analyze: Record -> Analysis, accepts: Record -> bool,
                 takes: Record -> bool)
      returns (event: Option<Event>)
      requires resultStore.store.Valid()
      modifies resultStore, queuePublisher, snsPublisher
      ensures resultStore.store.Valid()
      ensures event == None <==> Raises(config, queuePublisher != null, takes, record)
      ensures event == None ==> Sent() == old(Sent()) && resultStore.store == old(resultStore.store)
                                && Published() == old(Published())
      ensures var w := Services(analyze, snsPublisher != null, accepts);
              event.Some? ==> event.value == EventOf(config, w, record)
                              && Sent() == old(Sent()) + NoticeOf(config, w, record)
      ensures event.Some? ==>
                resultStore.store == if Heals(config) then HealOne(old(resultStore.store), record,
                                                                   queuePublisher != null, now)
                                     else old(resultStore.store)
      ensures event.Some? ==>
                Published() == if Heals(config) && queuePublisher != null
                               then old(Published()) + ResubmissionOf(record) else old(Published())
    {
      var e := DecideAction(config, record);
      assert Published() + [] == Published() && Sent() + [] == Sent();
      if e.action == Skip {
        return Some(e);
      }
      if config.dryRunEnabled {
        return Some(e);
      }
      if config.healEnabled {
        var healed := ExecuteHeal(e, record, now, takes(record));
        if !healed {
          return None;
        }
        if e.action == MarkFailed {
          if config.analysisEnabled {
            e := e.(analysis := Some(analyze(record)));
          }
          if config.notificationEnabled {
            e := Notify(e, record, accepts(record));
          }
        }
      }
      event := Some(e);
    }

    /** Announces a failure, if there is somebody to announce it to. */
    method Notify(event: Event, record: Record, accepts: bool) returns (event': Event)
      requires !event.notified
      modifies snsPublisher
      ensures event' == event.(notified := snsPublisher != null && accepts)
      ensures Sent() == old(Sent()) + if event'.notified then [(event, record)] else []
    {
      event' := event;
      assert Sent() + [] == Sent();
      if snsPublisher != null {
        var ok := snsPublisher.PublishFailure(event, record, accepts);
        if ok {
          event' := event.(notified := true);
        }
      }
    }

    method CollectStale(now: real) returns (stale: seq<Record>)
      requires resultStore.store.Valid()
      ensures stale == StaleRecords(config, resultStore.store, now)
    {
      stale := [];
      for s := 0 to 2
        invariant stale == if s == 0 then [] else
                           if s == 1 then StaleOnly(config, resultStore.store.ScanByStatus(Pending), now)
                           else StaleRecords(config, resultStore.store, now)
      {
        var found := resultStore.store.ScanByStatus(if s == 0 then Pending else Processing);
        var more := KeepStale(found, now);
        stale := stale + more;
      }
    }

    method KeepStale(found: seq<Record>, now: real) returns (stale: seq<Record>)
      ensures stale == StaleOnly(config, found, now)
    {
      stale := [];
      for i := 0 to |found|
        invariant stale == StaleOnly(config, found[..i], now)
      {
        assert found[..i + 1][..i] == found[..i];
        if IsStale(config, found[i], now) {
          stale := stale + [found[i]];
        } else {
          assert stale + [] == stale;
        }
      }
      assert found[..|found|] == found;
    }

    /** Returns false if the queue raises. */
    method ExecuteHeal(event: Event, record: Record, now: real, takes: bool) returns (ok: bool)
      requires resultStore.store.Valid() && event == DecideAction(config, record)
      modifies resultStore, queuePublisher
      ensures resultStore.store.Valid()
      ensures resultStore.store
           == if event.action == MarkFailed || (event.action == Resubmit && queuePublisher == null)
              then old(resultStore.store).Put(FailedRecord(record, now)) else old(resultStore.store)
      ensures ok <==> !(event.action == Resubmit && queuePublisher != null && !takes)
      ensures Published()
           == if event.action == Resubmit && queuePublisher != null && takes
              then old(Published()) + [Payload(record.requestId, record.acceptedAt, record.modelName)]
              else old(Published())
    {
      ok := true;
      if event.action == Resubmit {
        if queuePublisher != null {
          ok := queuePublisher.Publish(Payload(record.requestId, record.acceptedAt, record.modelName), takes);
        } else {
          resultStore.Put(FailedRecord(record, now));
        }
      } else if event.action == MarkFailed {
        resultStore.Put(FailedRecord(record, now));
      }
    }
  }

  // ----- the vocabulary of what is promised -----

  /** Accepted longer ago than the limit, or at a time that does not parse. */
  predicate OlderThan(r: Record, limit: real, now: real) {
    r.acceptedAt == None || now - r.acceptedAt.value > limit
  }

  /** A PENDING or a PROCESSING record past the timeout of its own status. */
  predicate Overdue(c: Config, r: Record, now: real) {
    || (r.status == Pending && OlderThan(r, c.stalePendingTimeout, now))
    || (r.status == Processing && OlderThan(r, c.staleProcessingTimeout, now))
  }

  // ----- who is told -----

  /** The number of notices about a request. */
  function TimesNotified(ns: seq<(Event, Record)>, id: string): nat {
    if ns == [] then 0 else TimesNotified(ns[..|ns| - 1], id) + One(ns[|ns| - 1].1.requestId == id)
  }

  lemma {:induction false} TimesNotifiedSnoc(ns: seq<(Event, Record)>, n: (Event, Record), id: string)
    ensures TimesNotified(ns + [n], id) == TimesNotified(ns, id) + One(n.1.requestId == id)
  {
    assert (ns + [n])[..|ns|] == ns;
  }

  predicate Announced(c: Config, w: Services, rs: seq<Record>, id: string) {
    exists r :: r in rs && r.requestId == id && EventOf(c, w, r).notified
  }

  lemma AnnouncedSnoc(c: Config, w: Services, rs: seq<Record>, r: Record, id: string)
    ensures Announced(c, w, rs + [r], id)
       <==> (Announced(c, w, rs, id) || (r.requestId == id && EventOf(c, w, r).notified))
  {
    assert forall x :: x in rs ==> x in rs + [r];
    assert r in rs + [r];
  }

  lemma {:induction false} NoticesCount(c: Config, w: Services, rs: seq<Record>, id: string)
    requires forall i, j :: 0 <= i < j < |rs| ==> rs[i].requestId != rs[j].requestId
    ensures TimesNotified(Notices(c, w, rs), id) == One(Announced(c, w, rs, id))
  {
    if rs != [] {
      var init, r := rs[..|rs| - 1], rs[|rs| - 1];
      NoticesCount(c, w, init, id);
      AnnouncedSnoc(c, w, init, r, id);
      assert rs == init + [r];
      assert forall x :: x in init ==> x.requestId != r.requestId;
      var e := EventOf(c, w, r);
      if e.notified {
        TimesNotifiedSnoc(Notices(c, w, init), (e.(notified := false), r), id);
      } else {
        assert Notices(c, w, init) + [] == Notices(c, w, init);
      }
    }
  }

  /** Who is told of a failure in a pass: a healing pass with notifications announces each stale
      PROCESSING request once, if the service takes the notice. It announces nothing else, not even
      a stale PENDING request that it fails for want of a queue. */
  lemma {:induction false} NotifiedExactly(c: Config, w: Services, s: Store, now: real, id: string)
    requires s.Valid()
    ensures TimesNotified(Notices(c, w, StaleRecords(c, s, now)), id)
         == One(c.healEnabled && !c.dryRunEnabled && c.notificationEnabled && w.hasNotifier
                && id in s.records && w.accepts(s.records[id])
                && s.records[id].status == Processing && Overdue(c, s.records[id], now))
  {
    var stale := StaleRecords(c, s, now);
    StaleRecordsAreExactlyOnce(c, s, now);
    NoticesCount(c, w, stale, id);
    if id in s.records && s.records[id] in stale {
      assert s.records[id].requestId == id;
    }
  }

  // ----- a queue that refuses -----

  lemma {:induction false} OnlyPendingDone(c: Config, takes: Record -> bool, rs: seq<Record>, more: seq<Record>,
                                           r: Record)
    requires Heals(c) && (forall x :: x in rs ==> x.status == Pending) && r in rs && !takes(r)
    ensures var done := DealtWith(c, true, takes, rs + more);
            done != rs + more && forall x :: x in done ==> x.status == Pending
  {
    if more == [] {
      assert rs + more == rs;
      var init, last := rs[..|rs| - 1], rs[|rs| - 1];
      assert rs == init + [last];
      if r != last {
        OnlyPendingDone(c, takes, init, [], r);
        assert init + [] == init;
      }
      assert forall x :: x in DealtWith(c, true, takes, rs) ==> x in rs;
    } else {
      assert (rs + more)[..|rs + more| - 1] == rs + more[..|more| - 1];
      OnlyPendingDone(c, takes, rs, more[..|more| - 1], r);
    }
  }

  lemma {:induction false} PendingIsLeftAlone(c: Config, w: Services, s: Store, rs: seq<Record>, now: real)
    requires forall x :: x in rs ==> x.status == Pending
    ensures PassStore(c, s, rs, true, now) == s && Notices(c, w, rs) == []
  {
    if rs != [] {
      assert rs == rs[..|rs| - 1] + [rs[|rs| - 1]];
      PendingIsLeftAlone(c, w, s, rs[..|rs| - 1], now);
    }
  }

  /** One refusal by the queue blocks all healing: a pass that meets it changes no record at all and
      announces nothing, so that stale PROCESSING requests wait until the queue takes every stale
      PENDING one. A pass ends by exception exactly if there is such a refusal. */
  lemma {:induction false} RefusalBlocksHealing(c: Config, w: Services, s: Store, now: real, takes: Record -> bool)
    requires s.Valid() && Heals(c)
    ensures var stale := StaleRecords(c, s, now); var done := DealtWith(c, true, takes, stale);
            && (done != stale <==> exists r :: r in stale && r.status == Pending && !takes(r))
            && (done != stale ==> PassStore(c, s, done, true, now) == s && Notices(c, w, done) == [])
  {
    var pending := StaleOnly(c, s.ScanByStatus(Pending), now);
    var processing := StaleOnly(c, s.ScanByStatus(Processing), now);
    var stale := pending + processing;
    ScanFinds(s.order, s.records, Pending);
    ScanFinds(s.order, s.records, Processing);
    StaleOnlyFinds(c, s.ScanByStatus(Pending), now);
    StaleOnlyFinds(c, s.ScanByStatus(Processing), now);
    if r: Record :| r in stale && r.status == Pending && !takes(r) {
      assert r in pending;
      OnlyPendingDone(c, takes, pending, processing, r);
      PendingIsLeftAlone(c, w, s, DealtWith(c, true, takes, stale), now);
    } else {
      AllDealtWith(c, takes, stale);
    }
  }

  lemma {:induction false} AllDealtWith(c: Config, takes: Record -> bool, rs: seq<Record>)
    requires forall r :: r in rs ==> !(r.status == Pending && !takes(r))
    ensures DealtWith(c, true, takes, rs) == rs
  {
    if rs != [] {
      assert rs == rs[..|rs| - 1] + [rs[|rs| - 1]];
      AllDealtWith(c, takes, rs[..|rs| - 1]);
    }
  }

  // ----- what one pass does -----

  lemma {:induction false} StaleOnlyFinds(c: Config, rs: seq<Record>, now: real)
    requires forall i, j :: 0 <= i < j < |rs| ==> rs[i].requestId != rs[j].requestId
    ensures var out := StaleOnly(c, rs, now);
            && (forall r: Record :: r in out <==> r in rs && IsStale(c, r, now))
            && (forall i, j :: 0 <= i < j < |out| ==> out[i].requestId != out[j].requestId)
  {
    if rs != [] {
      var init, r := rs[..|rs| - 1], rs[|rs| - 1];
      StaleOnlyFinds(c, init, now);
      assert rs == init + [r];
      var out := StaleOnly(c, init, now);
      assert forall x :: x in init ==> x.requestId != r.requestId;
      assert forall i :: 0 <= i < |out| ==> out[i] in out;
    }
  }

  lemma {:induction false} StaleMembers(c: Config, s: Store, status: Status, now: real)
    requires s.Valid() && (status == Pending || status == Processing)
    ensures var out := StaleOnly(c, s.ScanByStatus(status), now);
            && (forall r: Record :: r in out <==>
                  r.requestId in s.records && s.records[r.requestId] == r && r.status == status && Overdue(c, r, now))
            && (forall i, j :: 0 <= i < j < |out| ==> out[i].requestId != out[j].requestId)
  {
    ScanFinds(s.order, s.records, status);
    StaleOnlyFinds(c, s.ScanByStatus(status), now);
    forall r: Record | r.status == status ensures IsStale(c, r, now) <==> Overdue(c, r, now) {
    }
  }

  /** A pass visits every overdue record, each exactly once, and nothing else; none of its events is a
      skip. */
  lemma {:induction false} StaleRecordsAreExactlyOnce(c: Config, s: Store, now: real)
    requires s.Valid()
    ensures var stale := StaleRecords(c, s, now);
            && (forall r: Record :: r in stale <==>
                  r.requestId in s.records && s.records[r.requestId] == r && Overdue(c, r, now))
            && (forall i, j :: 0 <= i < j < |stale| ==> stale[i].requestId != stale[j].requestId)
            && (forall r :: r in stale ==> DecideAction(c, r).action != Skip)
  {
    StaleMembers(c, s, Pending, now);
    StaleMembers(c, s, Processing, now);
    var p: seq<Record> := StaleOnly(c, s.ScanByStatus(Pending), now);
    var q: seq<Record> := StaleOnly(c, s.ScanByStatus(Processing), now);
    var both := p + q;
    forall i, j | 0 <= i < j < |both| ensures both[i].requestId != both[j].requestId {
      if i < |p| <= j {
        assert p[i] in p && q[j - |p|] in q;
      }
    }
  }

  predicate Mentions(rs: seq<Record>, id: string) {
    rs != [] && (rs[|rs| - 1].requestId == id || Mentions(rs[..|rs| - 1], id))
  }

  lemma {:induction false} MentionsIsMembership(rs: seq<Record>, id: string)
    ensures Mentions(rs, id) <==> exists r :: r in rs && r.requestId == id
  {
    if rs != [] {
      MentionsIsMembership(rs[..|rs| - 1], id);
      assert forall x :: x in rs <==> x in rs[..|rs| - 1] || x == rs[|rs| - 1];
    }
  }

  lemma {:induction false} HealKeepsValid(s: Store, rs: seq<Record>, canPublish: bool, now: real)
    requires s.Valid()
    ensures Heal(s, rs, canPublish, now).Valid()
  {
    if rs != [] {
      HealKeepsValid(s, rs[..|rs| - 1], canPublish, now);
      PutValid(Heal(s, rs[..|rs| - 1], canPublish, now), FailedRecord(rs[|rs| - 1], now));
    }
  }

  lemma {:induction false} HealKeepsOthers(s: Store, rs: seq<Record>, canPublish: bool, now: real, id: string)
    requires !Mentions(rs, id)
    ensures id in Heal(s, rs, canPublish, now).records <==> id in s.records
    ensures id in s.records ==> Heal(s, rs, canPublish, now).records[id] == s.records[id]
  {
    if rs != [] {
      HealKeepsOthers(s, rs[..|rs| - 1], canPublish, now, id);
    }
  }

  lemma {:induction false} HealNeverAdds(s: Store, rs: seq<Record>, canPublish: bool, now: real, id: string)
    requires s.Valid() && forall r :: r in rs ==> r.requestId in s.records
    ensures id in Heal(s, rs, canPublish, now).records ==> id in s.records
  {
    if rs != [] {
      assert rs[|rs| - 1] in rs;
      HealNeverAdds(s, rs[..|rs| - 1], canPublish, now, id);
    }
  }

  /** The record of a healed request, when the healed records have distinct ids. */
  lemma {:induction false} HealReplaces(s: Store, rs: seq<Record>, canPublish: bool, now: real, r: Record)
    requires r in rs && r.requestId in s.records
    requires forall i, j :: 0 <= i < j < |rs| ==> rs[i].requestId != rs[j].requestId
    ensures r.requestId in Heal(s, rs, canPublish, now).records
    ensures Heal(s, rs, canPublish, now).records[r.requestId]
         == if r.status == Processing || (r.status == Pending && !canPublish) then FailedRecord(r, now)
            else s.records[r.requestId]
  {
    var init, last := rs[..|rs| - 1], rs[|rs| - 1];
    if r == last {
      MentionsIsMembership(init, r.requestId);
      HealKeepsOthers(s, init, canPublish, now, r.requestId);
    } else {
      assert rs == init + [last];
      HealReplaces(s, init, canPublish, now, r);
    }
  }

  /** A pass, record by record: if it heals, a PROCESSING record past the timeout fails, and a PENDING one
      when nothing can republish it; a failed record keeps its request, its time and its model, and says
      when and that it was given up. Every other record stays as it is, and no record is added. */
  lemma {:induction false} HealingPass(c: Config, s: Store, canPublish: bool, now: real, id: string)
    requires s.Valid()
    ensures var t := PassStore(c, s, StaleRecords(c, s, now), canPublish, now);
            && t.Valid() && (id in t.records <==> id in s.records)
            && (id in s.records ==>
                  var r := s.records[id];
                  t.records[id] == if c.healEnabled && !c.dryRunEnabled && Overdue(c, r, now)
                                      && (r.status == Processing || !canPublish)
                                   then Record(id, Failed, r.acceptedAt, Some(now), r.modelName, None, Some(Reconciled))
                                   else r)
  {
    if Heals(c) {
      HealNeverAddsAny(c, s, canPublish, now, id);
      if id in s.records {
        HealedRecord(c, s, canPublish, now, id);
      } else {
        HealKeepsValid(s, StaleRecords(c, s, now), canPublish, now);
      }
    }
  }

  lemma {:induction false} HealNeverAddsAny(c: Config, s: Store, canPublish: bool, now: real, id: string)
    requires s.Valid()
    ensures id in Heal(s, StaleRecords(c, s, now), canPublish, now).records ==> id in s.records
  {
    StaleRecordsAreExactlyOnce(c, s, now);
    HealNeverAdds(s, StaleRecords(c, s, now), canPublish, now, id);
  }

  lemma {:induction false} HealedRecord(c: Config, s: Store, canPublish: bool, now: real, id: string)
    requires s.Valid() && id in s.records
    ensures var t, r := Heal(s, StaleRecords(c, s, now), canPublish, now), s.records[id];
            && t.Valid() && id in t.records
            && t.records[id] == if Overdue(c, r, now) && (r.status == Processing || !canPublish)
                                then FailedRecord(r, now) else r
  {
    StaleRecordsAreExactlyOnce(c, s, now);
    var stale := StaleRecords(c, s, now);
    HealKeepsValid(s, stale, canPublish, now);
    MentionsIsMembership(stale, id);
    if s.records[id] in stale {
      HealReplaces(s, stale, canPublish, now, s.records[id]);
    } else {
      HealKeepsOthers(s, stale, canPublish, now, id);
    }
  }

  function TimesPublished(ps: seq<Payload>, id: string): nat {
    if ps == [] then 0 else TimesPublished(ps[..|ps| - 1], id) + One(ps[|ps| - 1].eventId == id)
  }

  lemma {:induction false} TimesPublishedSnoc(ps: seq<Payload>, p: Payload, id: string)
    ensures TimesPublished(ps + [p], id) == TimesPublished(ps, id) + One(p.eventId == id)
  {
    assert (ps + [p])[..|ps|] == ps;
  }

  predicate HasPending(rs: seq<Record>, id: string) {
    exists r :: r in rs && r.requestId == id && r.status == Pending
  }

  lemma HasPendingSnoc(rs: seq<Record>, r: Record, id: string)
    ensures HasPending(rs + [r], id) <==> HasPending(rs, id) || (r.requestId == id && r.status == Pending)
  {
    assert forall x :: x in rs ==> x in rs + [r];
    assert r in rs + [r];
  }

  lemma {:induction false} ResubmittedOnce(rs: seq<Record>, id: string)
    requires forall i, j :: 0 <= i < j < |rs| ==> rs[i].requestId != rs[j].requestId
    ensures TimesPublished(Resubmissions(rs), id) == One(HasPending(rs, id))
  {
    if rs != [] {
      var init, r := rs[..|rs| - 1], rs[|rs| - 1];
      assert rs == init + [r];
      ResubmittedOnce(init, id);
      HasPendingSnoc(init, r, id);
      assert forall x :: x in init ==> x.requestId != r.requestId;
      ResubmittedSnoc(init, r, id);
    }
  }

  lemma {:induction false} ResubmittedSnoc(rs: seq<Record>, r: Record, id: string)
    ensures TimesPublished(Resubmissions(rs + [r]), id)
         == TimesPublished(Resubmissions(rs), id) + One(r.requestId == id && r.status == Pending)
  {
    assert (rs + [r])[..|rs|] == rs;
    if r.status == Pending {
      TimesPublishedSnoc(Resubmissions(rs), ResubmissionOf(r)[0], id);
    } else {
      assert Resubmissions(rs) + [] == Resubmissions(rs);
    }
  }

  lemma {:induction false} ResubmissionsCarry(rs: seq<Record>)
    ensures forall p :: p in Resubmissions(rs) ==>
              exists r: Record :: r in rs && p == Payload(r.requestId, r.acceptedAt, r.modelName)
  {
    if rs != [] {
      var init, last := rs[..|rs| - 1], rs[|rs| - 1];
      assert rs == init + [last] && last in rs && forall r :: r in init ==> r in rs;
      ResubmissionsCarry(init);
      forall p | p in Resubmissions(rs)
        ensures exists r: Record :: r in rs && p == Payload(r.requestId, r.acceptedAt, r.modelName)
      {
        if p in Resubmissions(init) {
          var r: Record :| r in init && p == Payload(r.requestId, r.acceptedAt, r.modelName);
          assert r in rs;
        }
      }
    }
  }

  /** A healing pass with a publisher puts each stale pending request on the queue exactly once, with its
      time and its model, and no other; any other pass puts nothing there. */
  lemma {:induction false} StalePendingPublishedOnce(c: Config, s: Store, canPublish: bool, now: real, id: string)
    requires s.Valid()
    ensures var ps := PassQueue(c, [], StaleRecords(c, s, now), canPublish);
            && TimesPublished(ps, id)
                 == One(c.healEnabled && !c.dryRunEnabled && canPublish && id in s.records
                        && s.records[id].status == Pending && Overdue(c, s.records[id], now))
            && (forall p :: p in ps ==> p.eventId in s.records
                                        && p.timestamp == s.records[p.eventId].acceptedAt
                                        && p.requestedModel == s.records[p.eventId].modelName)
  {
    var stale := StaleRecords(c, s, now);
    assert [] + Resubmissions(stale) == Resubmissions(stale);
    StaleRecordsAreExactlyOnce(c, s, now);
    ResubmissionsCarry(stale);
    StalePendingCount(c, s, now, id);
  }

  lemma {:induction false} StalePendingCount(c: Config, s: Store, now: real, id: string)
    requires s.Valid()
    ensures TimesPublished(Resubmissions(StaleRecords(c, s, now)), id)
         == One(id in s.records && s.records[id].status == Pending && Overdue(c, s.records[id], now))
  {
    StaleRecordsAreExactlyOnce(c, s, now);
    ResubmittedOnce(StaleRecords(c, s, now), id);
    if id in s.records && s.records[id].status == Pending && Overdue(c, s.records[id], now) {
      assert s.records[id] in StaleRecords(c, s, now);
    }
  }

  // ----- what is reported -----

  /** The report of a pass: each record visited, what is to be done with it, whether only that, and for a
      request given up by healing its analysis and whether somebody was told. */
  lemma {:induction false} EventsReport(c: Config, w: Services, s: Store, now: real, i: nat)
    requires s.Valid() && i < |StaleRecords(c, s, now)|
    ensures var r, healed := StaleRecords(c, s, now)[i], c.healEnabled && !c.dryRunEnabled;
            Events(c, w, StaleRecords(c, s, now))[i]
            == if r.status == Pending then Event(r.requestId, Pending, Resubmit, c.dryRunEnabled, None, false)
               else Event(r.requestId, Processing, MarkFailed, c.dryRunEnabled,
                          if healed && c.analysisEnabled then Some(w.analyze(r)) else None,
                          healed && c.notificationEnabled && w.hasNotifier && w.accepts(r))
  {
    StaleRecordsAreExactlyOnce(c, s, now);
    assert StaleRecords(c, s, now)[i] in StaleRecords(c, s, now);
  }

  /** What somebody is told: the event as it stands before the telling, and the record as it was. */
  lemma {:induction false} NoticesCarry(c: Config, w: Services, rs: seq<Record>)
    ensures forall n :: n in Notices(c, w, rs) ==>
              n.1 in rs && n.1.status == Processing
              && n.0 == Event(n.1.requestId, Processing, MarkFailed, c.dryRunEnabled,
                              if c.analysisEnabled then Some(w.analyze(n.1)) else None, false)
  {
    if rs != [] {
      var init, last := rs[..|rs| - 1], rs[|rs| - 1];
      assert rs == init + [last] && last in rs && forall r :: r in init ==> r in rs;
      NoticesCarry(c, w, init);
    }
  }

  ghost predicate InOrderOf(order: seq<string>, found: seq<Record>) {
    forall i, j :: 0 <= i < j < |found| ==> ComesBefore(order, found[i].requestId, found[j].requestId)
  }

  lemma ConsInOrder(first: string, rest: seq<string>, r: Record, later: seq<Record>)
    requires InOrderOf(rest, later) && r.requestId == first && forall x :: x in later ==> x.requestId in rest
    ensures InOrderOf([first] + rest, later) && InOrderOf([first] + rest, [r] + later)
  {
    forall i, j | 0 <= i < j < |later| ensures ComesBefore([first] + rest, later[i].requestId, later[j].requestId) {
      ComesBeforeCons(first, rest, later[i].requestId, later[j].requestId);
    }
    forall j | 0 <= j < |later| ensures ComesBefore([first] + rest, first, later[j].requestId) {
      assert later[j] in later;
      ComesBeforeCons(first, rest, first, later[j].requestId);
    }
  }

  lemma {:induction false} ScanKeepsOrder(order: seq<string>, records: map<string, Record>, status: Status)
    requires forall id :: id in order ==> id in records && records[id].requestId == id
    ensures InOrderOf(order, Scan(order, records, status))
  {
    if order != [] {
      var first, rest := order[0], order[1..];
      ScanKeepsOrder(rest, records, status);
      ScanIds(rest, records, status);
      assert order == [first] + rest;
      ConsInOrder(first, rest, records[first], Scan(rest, records, status));
    }
  }

  lemma {:induction false} ScanIds(order: seq<string>, records: map<string, Record>, status: Status)
    requires forall id :: id in order ==> id in records && records[id].requestId == id
    ensures forall r :: r in Scan(order, records, status) ==> r.requestId in order
  {
    if order != [] {
      ScanIds(order[1..], records, status);
    }
  }

  lemma {:induction false} StaleOnlyKeepsOrder(c: Config, rs: seq<Record>, now: real, i: nat, j: nat)
    requires i < j < |StaleOnly(c, rs, now)|
    ensures ComesBefore(rs, StaleOnly(c, rs, now)[i], StaleOnly(c, rs, now)[j])
  {
    var init, last := rs[..|rs| - 1], rs[|rs| - 1];
    var before := StaleOnly(c, init, now);
    assert rs == init + [last];
    if j < |before| {
      StaleOnlyKeepsOrder(c, init, now, i, j);
      var a, b :| 0 <= a < b < |init| && init[a] == before[i] && init[b] == before[j];
      assert rs[a] == before[i] && rs[b] == before[j];
    } else {
      StaleOnlyMembers(c, init, now);
      assert before[i] in before && before[i] in init;
      var a :| 0 <= a < |init| && init[a] == before[i];
      assert rs[a] == before[i] && rs[|rs| - 1] == last;
    }
  }

  lemma {:induction false} StaleOnlyMembers(c: Config, rs: seq<Record>, now: real)
    ensures forall r :: r in StaleOnly(c, rs, now) ==> r in rs
  {
    if rs != [] {
      StaleOnlyMembers(c, rs[..|rs| - 1], now);
      assert rs == rs[..|rs| - 1] + [rs[|rs| - 1]];
    }
  }

  lemma {:induction false} StaleOfStatus(c: Config, s: Store, status: Status, now: real)
    requires s.Valid()
    ensures forall i :: 0 <= i < |StaleOnly(c, s.ScanByStatus(status), now)| ==>
              StaleOnly(c, s.ScanByStatus(status), now)[i].status == status
  {
    var out := StaleOnly(c, s.ScanByStatus(status), now);
    ScanFinds(s.order, s.records, status);
    StaleOnlyMembers(c, s.ScanByStatus(status), now);
    assert forall i :: 0 <= i < |out| ==> out[i] in out;
  }

  /** The order of the report: PENDING before PROCESSING, and otherwise in the order of the store. */
  lemma {:induction false} VisitsInOrder(c: Config, s: Store, now: real, i: nat, j: nat)
    requires s.Valid() && i < j < |StaleRecords(c, s, now)|
    ensures var a, b := StaleRecords(c, s, now)[i], StaleRecords(c, s, now)[j];
            || (a.status == Pending && b.status == Processing)
            || (a.status == b.status && ComesBefore(s.order, a.requestId, b.requestId))
  {
    var n := |StaleOnly(c, s.ScanByStatus(Pending), now)|;
    StaleOfStatus(c, s, Pending, now);
    StaleOfStatus(c, s, Processing, now);
    if j < n {
      OneStatusInOrder(c, s, Pending, now, i, j);
    } else if i >= n {
      OneStatusInOrder(c, s, Processing, now, i - n, j - n);
    }
  }

  lemma {:induction false} OneStatusInOrder(c: Config, s: Store, status: Status, now: real, i: nat, j: nat)
    requires s.Valid() && i < j < |StaleOnly(c, s.ScanByStatus(status), now)|
    ensures var out := StaleOnly(c, s.ScanByStatus(status), now);
            ComesBefore(s.order, out[i].requestId, out[j].requestId)
  {
    var found, out := s.ScanByStatus(status), StaleOnly(c, s.ScanByStatus(status), now);
    StaleOnlyKeepsOrder(c, found, now, i, j);
    var a, b :| 0 <= a < b < |found| && found[a] == out[i] && found[b] == out[j];
    ScanKeepsOrder(s.order, s.records, status);
  }

  // ----- one pass after another -----

  /** Without a publisher, a second pass at the same instant finds nothing. */
  lemma {:induction false} SecondPassFindsNothing(c: Config, s: Store, now: real)
    requires s.Valid()
    ensures var t := Heal(s, StaleRecords(c, s, now), false, now);
            t.Valid() && StaleRecords(c, t, now) == []
  {
    var t := Heal(s, StaleRecords(c, s, now), false, now);
    StaleRecordsAreExactlyOnce(c, s, now);
    HealKeepsValid(s, StaleRecords(c, s, now), false, now);
    StaleRecordsAreExactlyOnce(c, t, now);
    if StaleRecords(c, t, now) != [] {
      var r := StaleRecords(c, t, now)[0];
      assert r in StaleRecords(c, t, now);
      HealNeverAdds(s, StaleRecords(c, s, now), false, now, r.requestId);
      HealedRecord(c, s, false, now, r.requestId);
      assert false;
    }
  }

  predicate StalePending(c: Config, s: Store, now: real, id: string, r: Record) {
    id in s.records && s.records[id] == r && r.status == Pending && Overdue(c, r, now)
  }

  lemma {:induction false} StalePendingStays(c: Config, s: Store, now: real, id: string, r: Record)
    requires s.Valid() && StalePending(c, s, now, id, r)
    ensures StalePending(c, Heal(s, StaleRecords(c, s, now), true, now), now, id, r)
  {
    HealedRecord(c, s, true, now, id);
  }

  function HealTimes(c: Config, s: Store, now: real, passes: nat): Store
    requires s.Valid()
    ensures HealTimes(c, s, now, passes).Valid()
  {
    if passes == 0 then s
    else
      var before := HealTimes(c, s, now, passes - 1);
      HealKeepsValid(before, StaleRecords(c, before, now), true, now);
      Heal(before, StaleRecords(c, before, now), true, now)
  }

  lemma NextPass(c: Config, s: Store, now: real, passes: nat)
    requires s.Valid()
    ensures var before := HealTimes(c, s, now, passes);
            HealTimes(c, s, now, passes + 1) == Heal(before, StaleRecords(c, before, now), true, now)
  {
  }

  lemma NextPassKeeps(c: Config, s: Store, now: real, passes: nat, id: string, r: Record)
    requires s.Valid() && StalePending(c, HealTimes(c, s, now, passes), now, id, r)
    ensures StalePending(c, HealTimes(c, s, now, passes + 1), now, id, r)
  {
    var before := HealTimes(c, s, now, passes);
    assert before.Valid();
    StalePendingStays(c, before, now, id, r);
    NextPass(c, s, now, passes);
  }

  lemma {:induction false} PassesKeepStalePending(c: Config, s: Store, now: real, passes: nat, id: string, r: Record)
    requires s.Valid() && StalePending(c, s, now, id, r)
    ensures StalePending(c, HealTimes(c, s, now, passes), now, id, r)
  {
    if passes > 0 {
      PassesKeepStalePending(c, s, now, passes - 1, id, r);
      NextPassKeeps(c, s, now, passes - 1, id, r);
    }
  }

  /** With a publisher, nothing remembers a resubmission: every further pass publishes a stale
      pending request once more, however often that has happened (max_heal_retries has no effect). */
  lemma {:induction false} ResubmissionIsNeverExhausted(c: Config, s: Store, now: real, passes: nat, id: string)
    requires s.Valid() && id in s.records && s.records[id].status == Pending && Overdue(c, s.records[id], now)
    ensures var t := HealTimes(c, s, now, passes);
            && id in t.records && t.records[id] == s.records[id]
            && TimesPublished(PassQueue(c, [], StaleRecords(c, t, now), true), id)
                 == One(c.healEnabled && !c.dryRunEnabled)
  {
    PassesKeepStalePending(c, s, now, passes, id, s.records[id]);
    StalePendingPublishedOnce(c, HealTimes(c, s, now, passes), true, now, id);
  }
}
