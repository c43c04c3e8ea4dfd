/** Whole runs of the router: any steps, in any order, with any answers. */
module RouterRuns {
  import opened Json
  import opened ResourceEpochs
  import opened RouterProtocol
  import opened Router
  import opened StoreEffects
  import opened PageEffects
  import opened SweepEffects
  import RS = ResourceStore

  /** A step of the router. Operations in flight are named by their position in the session. */
  datatype Event =
    | LoadBegins(keys: seq<string>, live: bool)
    | LoadEnds(load: nat, end: LoadEnd)
    | BatchBegins(keys: seq<string>)
    | BatchEnds(controller: nat)
    | VisitBegins
    | VisitEnds(visit: nat, envelope: PageEnvelope)
    | PrefetchBegins
    | PrefetchEnds(prefetch: nat, envelope: PageEnvelope)
    | MutationBegins
    | MutationEnds(mutation: nat, changes: seq<Change>, invalidated: seq<string>, subscribed: set<string>)
    | LiveArrives(event: LiveEvent, manifest: set<string>)
    | PageRestored(page: Page, pending: seq<string>)
    | LiveStarts
    | LiveStops
    | Cleared(blank: Page)
    | Destroyed

  /** Who made each write: one of these loads, or some other operation. A write by a load has the
      epoch that this load captured for the key. */
  ghost predicate Attributed(log: seq<Write>, authors: seq<Option<Load>>, loads: seq<Load>) {
    |authors| == |log| &&
    forall i :: 0 <= i < |log| && authors[i].Some? ==>
      && authors[i].value in loads && log[i].key in authors[i].value.captured
      && log[i].epoch == authors[i].value.captured[log[i].key]
  }

  /** The writes from position `from` on are by `author`. */
  ghost function Signed(authors: seq<Option<Load>>, count: nat, author: Option<Load>): (r: seq<Option<Load>>)
    requires |authors| <= count
    ensures |r| == count && authors <= r && forall i :: |authors| <= i < count ==> r[i] == author
  {
    authors + seq(count - |authors|, i => author)
  }

  lemma SignedByNone(log: seq<Write>, more: seq<Write>, authors: seq<Option<Load>>, loads: seq<Load>, all: seq<Load>)
    requires Attributed(log, authors, loads) && log <= more && loads <= all
    ensures Attributed(more, Signed(authors, |more|, None), all)
  {
  }

  lemma SignedByLoad(log: seq<Write>, more: seq<Write>, authors: seq<Option<Load>>, loads: seq<Load>, load: Load,
                     l: Ledger)
    requires Attributed(log, authors, loads) && log <= more && load in loads
    requires Stamped(more, |log|, load.captured, l)
    ensures Attributed(more, Signed(authors, |more|, Some(load)), loads)
  {
  }

  /** A router with everything it has ever started. */
  class Session {
    const router: FluxRouter
    var loads: seq<Load>
    var visits: seq<Visit>
    var prefetches: seq<Prefetch>
    var mutations: seq<Mutation>
    var finished: set<nat>
    ghost var authors: seq<Option<Load>>

    constructor (router: FluxRouter)
      requires router.Valid() && router.ended == {} && router.log == []
      ensures Valid() && this.router == router && loads == []
    {
      this.router := router;
      loads, visits, prefetches, mutations, finished := [], [], [], [], {};
      authors := [];
    }

    /** Every load ever started is accounted for: it has ended, is superseded, or can still be
        called off; every visit is known to the router; and each write by a load has the epoch that
        this load captured. */
    ghost predicate Valid()
      reads this, router, router.resourceStore, router.resourceEpochs
    {
      && router.Valid() && finished == router.ended
      && (forall load :: load in loads ==> router.Issued(load) && router.Accounted(load))
      && (forall visit :: visit in visits ==> visit.id <= router.visitCounter)
      && Attributed(router.log, authors, loads)
    }

    /** What lasts over any number of steps. */
    twostate predicate Lasts()
      reads this, router, router.resourceStore, router.resourceEpochs
    {
      && Valid() && old(loads) <= loads && old(visits) <= visits
      && old(router.log) <= router.log && old(authors) <= authors
      && (forall load :: load in old(loads) && old(router.Superseded(load)) ==> router.Superseded(load))
      && (forall visit :: visit in old(visits) && old(router.currentVisitId) != Some(visit.id) ==>
            router.currentVisitId != Some(visit.id))
    }

    /** A step of the router, with the operations it started, keeps all that is in flight
        accounted for. */
    twostate lemma StepLasts()
      requires old(Valid()) && router.Advanced() && finished == router.ended
      requires old(loads) <= loads && old(visits) <= visits
      requires forall load :: load in loads && load !in old(loads) ==> router.Issued(load) && router.Accounted(load)
      requires forall visit :: visit in visits && visit !in old(visits) ==> visit.id <= router.visitCounter
      requires Attributed(router.log, authors, loads) && old(authors) <= authors
      ensures Lasts()
    {
      forall load | load in old(loads)
        ensures router.Issued(load) && router.Accounted(load)
        ensures old(router.Superseded(load)) ==> router.Superseded(load)
      {
        router.LoadsAge(load);
      }
      forall visit | visit in old(visits)
        ensures visit.id <= router.visitCounter
        ensures old(router.currentVisitId) != Some(visit.id) ==> router.currentVisitId != Some(visit.id)
      {
        if old(router.currentVisitId) != Some(visit.id) {
          router.VisitsAge(visit);
        }
      }
    }

    /** A live load once live loads were superseded, a deferred load once its batch was aborted or
        replaced, and any load from before the last clear. */
    ghost predicate CalledOff(load: Load)
      reads router, router.resourceEpochs
    {
      && load.id !in router.ended
      && (|| load.generation < router.lifecycleGeneration
          || (load.reason.FromLive? && load.id !in router.Registered().live)
          || (load.reason.ForDeferred? && router.Registered().batch != Some(load.id)))
    }

    /** The new writes are by no load. */
    ghost method Sign(log: seq<Write>, earlier: seq<Load>)
      requires Attributed(log, authors, earlier) && log <= router.log && earlier <= loads
      modifies this`authors
      ensures Attributed(router.log, authors, loads) && old(authors) <= authors
    {
      SignedByNone(log, router.log, authors, earlier, loads);
      authors := Signed(authors, |router.log|, None);
    }

    /** The new writes are by this load. */
    ghost method SignAs(load: Load, log: seq<Write>)
      requires Attributed(log, authors, loads) && log <= router.log && load in loads
      requires Stamped(router.log, |log|, load.captured, router.Epochs())
      modifies this`authors
      ensures Attributed(router.log, authors, loads) && old(authors) <= authors
      ensures forall i :: |log| <= i < |authors| ==> authors[i] == Some(load)
    {
      SignedByLoad(log, router.log, authors, loads, load, router.Epochs());
      authors := Signed(authors, |router.log|, Some(load));
    }

    // ----- Steps -----

    method Take(load: Option<Load>)
      requires load.Some? ==> router.Started(load.value, load.value.keys, load.value.reason)
      modifies this`loads
      ensures loads == if load.Some? then old(loads) + [load.value] else old(loads)
      ensures load.Some? ==> router.Issued(load.value)
    {
      if load.Some? {
        CurrentIsKnown(load.value.captured, 0, false, router.Epochs());
        loads := loads + [load.value];
      }
    }

    method BeginLoad(keys: seq<string>, reason: Reason)
      requires Valid() && reason != ForDeferred
      modifies this, router, router.resourceEpochs, router.resourceStore
      ensures Lasts()
    {
      var load := router.BeginLoad(keys, reason);
      Take(load);
      Sign(old(router.log), old(loads));
      StepLasts();
    }

    method BeginBatch(keys: seq<string>)
      requires Valid()
      modifies this, router, router.resourceEpochs, router.resourceStore
      ensures Lasts()
    {
      var _, load := router.StartDeferredBatch(keys);
      Take(load);
      Sign(old(router.log), old(loads));
      StepLasts();
    }

    /** The end of a batch, once its load has ended. */
    method EndBatch(controller: nat)
      requires Valid()
      modifies this, router, router.resourceEpochs, router.resourceStore
      ensures Lasts()
    {
      var batch := router.activeDeferred;
      ForwardSame(router.Now());
      if batch.Some? && (batch.value.load.Some? ==> batch.value.load.value in finished) {
        router.FinishDeferred(controller);
      }
      Sign(old(router.log), old(loads));
      StepLasts();
    }

    /** Whatever happened since a load began: its end writes only keys that nothing else has touched
        since, each under the epoch that the load captured; once it is called off it writes nothing,
        even if the transport ignored the abort. */
    method EndLoad(load: Load, end: LoadEnd)
      requires Valid() && load in loads
      modifies this, router, router.resourceEpochs, router.resourceStore
      ensures Lasts() && router.page == old(router.page) && router.Epochs() == old(router.Epochs())
      ensures Stamped(router.log, |old(router.log)|, load.captured, router.Epochs())
      ensures forall i :: |old(router.log)| <= i < |router.log| ==> authors[i] == Some(load)
      ensures load.generation == router.lifecycleGeneration ==>
                Settling(load.keys, load.captured, router.Epochs(), end, old(router.RoomFor(|load.keys|)),
                         old(router.Seen()), router.Seen())
      ensures load.generation != router.lifecycleGeneration ==> router.Seen() == old(router.Seen())
      ensures old(CalledOff(load)) ==> router.log == old(router.log) && unchanged(router.resourceStore)
    {
      router.SettleLoad(load, end);
      finished := finished + {load.id};
      SignAs(load, old(router.log));
      StepLasts();
    }

    method BeginVisit() returns (visit: Visit)
      requires Valid()
      modifies this, router, router.resourceEpochs, router.resourceStore
      ensures Lasts() && visit == Visit(router.visitCounter, router.Epochs().counter)
      ensures router.currentVisitId == Some(visit.id) && visits == old(visits) + [visit]
    {
      visit := router.BeginVisit();
      visits := visits + [visit];
      Sign(old(router.log), old(loads));
      StepLasts();
    }

    method EndVisit(visit: Visit, envelope: PageEnvelope) returns (deferred: seq<string>)
      requires Valid() && visit in visits
      modifies this, router, router.resourceEpochs, router.resourceStore
      ensures Lasts()
      ensures old(router.currentVisitId) != Some(visit.id) ==>
                router.Now() == old(router.Now()) && router.page == old(router.page) && unchanged(router.resourceStore)
      ensures old(router.currentVisitId) == Some(visit.id) ==>
                && router.page == envelope.page
                && Applied(envelope, visit.startedAt, old(router.Epochs()), router.log, |old(router.log)|, deferred)
                && Displays(envelope.resources, envelope.errors, envelope.deferred,
                            EligibleOf(EnvelopeKeys(envelope), visit.startedAt, old(router.Epochs())),
                            old(router.RoomFor(EnvelopeSize(envelope))), old(router.Seen()), router.Seen())
    {
      var applied;
      applied, deferred := router.SettleVisit(visit, envelope);
      Sign(old(router.log), old(loads));
      StepLasts();
    }

    method EndPrefetch(prefetch: Prefetch, envelope: PageEnvelope)
      requires Valid()
      modifies this, router, router.resourceEpochs, router.resourceStore
      ensures Lasts() && visits == old(visits)
      ensures router.currentVisitId == old(router.currentVisitId) && router.page == old(router.page)
      ensures Speculated(old(router.Epochs()), router.Epochs())
      ensures prefetch.generation == router.lifecycleGeneration ==>
                && Prefetched(envelope.resources, prefetch.startedAt, old(router.Epochs()), router.log,
                              |old(router.log)|)
                && Displays(envelope.resources, [], [],
                            QuietOf(ResourceKeys(envelope.resources), prefetch.startedAt, old(router.Epochs())),
                            old(router.RoomFor(|envelope.resources|)), old(router.Seen()), router.Seen())
    {
      SpeculatedSame(router.Epochs());
      var _ := router.SettlePrefetch(prefetch, envelope);
      Sign(old(router.log), old(loads));
      StepLasts();
    }

    method EndMutation(mutation: Mutation, changes: seq<Change>, invalidated: seq<string>, subscribed: set<string>)
      requires Valid()
      modifies this, router, router.resourceEpochs, router.resourceStore
      ensures Lasts() && router.page == old(router.page)
      ensures if mutation.generation == router.lifecycleGeneration
              then && Swept(ChangedKeys(changes) + invalidated, PatchingOrDropping, old(router.Now()), router.Now())
                   && ShowsMutation(changes, invalidated, subscribed, old(router.Seen()), router.Seen())
              else router.Now() == old(router.Now()) && unchanged(router.resourceStore)
    {
      var _, _ := router.SettleMutation(mutation, changes, invalidated, subscribed);
      Sign(old(router.log), old(loads));
      StepLasts();
    }

    /** A navigation during which only prefetches complete, in any number and with any answers: its
        envelope is shown and applied as if nothing had happened. `from` is the end of the log and
        `shown` the store when the envelope arrives. */
    method NavigateAmidPrefetches(landings: seq<(Prefetch, PageEnvelope)>, envelope: PageEnvelope)
      returns (deferred: seq<string>, ghost from: nat, ghost shown: RS.Picture, ghost room: bool)
      requires Valid()
      modifies this, router, router.resourceEpochs, router.resourceStore
      ensures Lasts() && router.page == envelope.page
      ensures from <= |router.log|
      ensures forall n :: n in ResourceNotes(envelope.resources) + FailureNotes(envelope.errors) ==>
                            n in Noted(router.log, from)
      ensures forall k :: k in deferred <==> k in envelope.deferred
      ensures room <==> |shown.order| + EnvelopeSize(envelope) <= router.resourceStore.maxResources
      ensures Displays(envelope.resources, envelope.errors, envelope.deferred, SetOf(EnvelopeKeys(envelope)), room,
                       shown, router.Seen())
    {
      var visit := BeginVisit();
      ghost var start := router.Epochs();
      SpeculatedSame(start);
      for i := 0 to |landings|
        invariant Lasts() && visit in visits && router.currentVisitId == Some(visit.id)
        invariant Speculated(start, router.Epochs())
      {
        ghost var before := router.Epochs();
        EndPrefetch(landings[i].0, landings[i].1);
        SpeculatedChain(start, before, router.Epochs());
      }
      ghost var now := router.Epochs();
      from, shown, room := |router.log|, router.Seen(), router.RoomFor(EnvelopeSize(envelope));
      deferred := EndVisit(visit, envelope);
      AllEligible(envelope, start, now);
      AllApplied(envelope, start, now, router.log, from, deferred);
    }

    method Live(event: LiveEvent, manifest: set<string>)
      requires Valid()
      modifies this, router, router.resourceEpochs, router.resourceStore
      ensures Lasts()
    {
      var _ := router.HandleLiveEvent(event, manifest);
      Sign(old(router.log), old(loads));
      StepLasts();
    }

    /** Everything that changes the session as a whole. */
    method Switch(event: Event)
      requires Valid()
      modifies this, router, router.resourceEpochs, router.resourceStore
      ensures Lasts()
    {
      ForwardSame(router.Now());
      match event {
        case PageRestored(page, pending) => router.RestoreCached(page, pending);
        case LiveStarts => router.StartLive();
        case LiveStops => router.StopLive();
        case Cleared(blank) => router.Clear(blank);
        case Destroyed => router.Destroy();
        case _ =>
      }
      Sign(old(router.log), old(loads));
      StepLasts();
    }

    method Step(event: Event)
      requires Valid()
      modifies this, router, router.resourceEpochs, router.resourceStore
      ensures Lasts()
    {
      match event
      case LoadBegins(keys, live) => BeginLoad(keys, if live then FromLive else Asked);
      case BatchBegins(keys) => BeginBatch(keys);
      case BatchEnds(controller) => EndBatch(controller);
      case LoadEnds(i, end) => if i < |loads| { EndLoad(loads[i], end); }
      case VisitBegins => var _ := BeginVisit();
      case VisitEnds(i, envelope) => if i < |visits| { var _ := EndVisit(visits[i], envelope); }
      case PrefetchBegins => StartPrefetch();
      case PrefetchEnds(i, envelope) => if i < |prefetches| { EndPrefetch(prefetches[i], envelope); }
      case MutationBegins => StartMutation();
      case MutationEnds(i, changes, invalidated, subscribed) =>
        if i < |mutations| { EndMutation(mutations[i], changes, invalidated, subscribed); }
      case LiveArrives(live, manifest) => Live(live, manifest);
      case _ => Switch(event);
    }

    method StartPrefetch()
      requires Valid()
      modifies this`prefetches
      ensures Lasts()
    {
      var prefetch := router.BeginPrefetch();
      prefetches := prefetches + [prefetch];
    }

    method StartMutation()
      requires Valid()
      modifies this`mutations
      ensures Lasts()
    {
      var mutation := router.BeginMutation();
      mutations := mutations + [mutation];
    }

    /** Any run keeps each key's writes in issuing order, those of loads under the epochs that they
        captured, and everything in flight accounted for: what was superseded stays so, and a visit
        that lost its turn never gets it back. */
    method Run(script: seq<Event>)
      requires Valid()
      modifies this, router, router.resourceEpochs, router.resourceStore
      ensures Lasts() && InOrder(router.log) && Attributed(router.log, authors, loads)
    {
      for i := 0 to |script|
        invariant Lasts()
      {
        Step(script[i]);
      }
    }
  }

  lemma AllEligible(e: PageEnvelope, l: Ledger, m: Ledger)
    requires Speculated(l, m)
    ensures EligibleOf(EnvelopeKeys(e), l.counter, m) == SetOf(EnvelopeKeys(e))
  {
    forall k ensures AuthorityOf(m.table, k) <= l.counter {
      var run :| AllSpeculative(run) && m == ResourceEpochs.Run(l, run);
      SpeculationNeverVetoes(l, run, k);
    }
  }

  lemma AllApplied(e: PageEnvelope, l: Ledger, m: Ledger, log: seq<Write>, from: nat, deferred: seq<string>)
    requires Speculated(l, m) && Applied(e, l.counter, m, log, from, deferred)
    ensures forall n :: n in ResourceNotes(e.resources) + FailureNotes(e.errors) ==> n in Noted(log, from)
    ensures forall k :: k in deferred <==> k in e.deferred
  {
    forall n | n in ResourceNotes(e.resources) + FailureNotes(e.errors) ensures n in Noted(log, from) {
      PrefetchesBlockNothing(e, l, m, log, from, deferred, n);
    }
    forall k ensures k in deferred <==> k in e.deferred {
      var run :| AllSpeculative(run) && m == ResourceEpochs.Run(l, run);
      SpeculationNeverVetoes(l, run, k);
    }
  }

  /** A session from nothing, from which every script can start. */
  method NewSession(maxResources: nat, page: Page) returns (session: Session)
    requires maxResources >= 1
    ensures session.Valid() && session.router.page == page && session.router.log == []
    ensures fresh(session) && fresh(session.router) && fresh(session.router.resourceStore)
            && fresh(session.router.resourceEpochs)
  {
    var store := new RS.ResourceStore(maxResources);
    var router := new FluxRouter(store, page);
    session := new Session(router);
  }
}
