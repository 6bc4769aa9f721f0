/** What the methods of the executor pool do is made of steps of the dispatch protocol. */
module PoolSteps {
  import opened Common
  import opened Tables
  import opened Backend
  import opened ReadyStream
  import opened PoolModel
  import opened PoolState
  import opened Offering
  import opened ExecutorPools
  import opened Dispatch

  /** The offers that can be made one after another. */
  ghost predicate Offerable(s: State, offers: seq<Assignment>) {
    && s.fetch.Fetched?
    && (forall m :: 0 <= m < |offers| ==>
          && offers[m].record in s.fetch.batch && offers[m].executor in s.pool.live
          && offers[m].record.execution !in HeldIds(s.pool))
    && (forall m, n :: 0 <= m < n < |offers| ==> offers[m].record.execution != offers[n].record.execution)
  }

  lemma NotOfferedBefore(offers: seq<Assignment>, n: nat)
    requires n < |offers|
    requires forall m, n :: 0 <= m < n < |offers| ==> offers[m].record.execution != offers[n].record.execution
    ensures offers[n].record.execution !in OfferedIds(offers[..n])
  {
    forall o | o in offers[..n] ensures o.record.execution != offers[n].record.execution {
      var m :| 0 <= m < n && offers[m] == o;
    }
  }

  lemma OneMoreOffer(s: State, run: seq<Step>, v: PoolView, o: Assignment, deadline: Time, at: Time)
    requires Reaches(s, run, s.(pool := v)) && s.fetch.Fetched? && o.record in s.fetch.batch
    requires o.executor in v.live && o.record.execution !in HeldIds(v)
    ensures var step := Step.OfferOne(o.record, o.executor, o.handshake, deadline, at);
            Reaches(s, run + [step], s.(pool := PoolModel.Offer(v, o.record, o.executor, o.handshake, deadline, at)))
  {
    Extend(s, run, s.(pool := v), Step.OfferOne(o.record, o.executor, o.handshake, deadline, at));
  }

  lemma OfferHolds(v: PoolView, o: Assignment, deadline: Time, at: Time)
    ensures var w := PoolModel.Offer(v, o.record, o.executor, o.handshake, deadline, at);
            w.live == v.live && HeldIds(w) == HeldIds(v) + {o.record.execution}
  {
  }

  lemma {:induction false} OfferAllHolds(v: PoolView, offers: seq<Assignment>, deadline: Time, at: Time)
    ensures OfferAll(v, offers, deadline, at).live == v.live
    ensures HeldIds(OfferAll(v, offers, deadline, at)) == HeldIds(v) + OfferedIds(offers)
  {
    if offers == [] {
      assert OfferedIds(offers) == {};
    } else {
      var before, last := offers[..|offers| - 1], offers[|offers| - 1];
      OfferAllHolds(v, before, deadline, at);
      OfferHolds(OfferAll(v, before, deadline, at), last, deadline, at);
      OfferedIdsNext(before, last);
      assert before + [last] == offers;
    }
  }

  lemma {:induction false} OffersAreSteps(s: State, offers: seq<Assignment>, deadline: Time, at: Time)
    returns (run: seq<Step>)
    requires Offerable(s, offers)
    ensures Reaches(s, run, s.(pool := OfferAll(s.pool, offers, deadline, at)))
  {
    if offers == [] {
      run := [];
    } else {
      var before, last := offers[..|offers| - 1], offers[|offers| - 1];
      run := OffersAreSteps(s, before, deadline, at);
      NotOfferedBefore(offers, |offers| - 1);
      OfferAllHolds(s.pool, before, deadline, at);
      OneMoreOffer(s, run, OfferAll(s.pool, before, deadline, at), last, deadline, at);
      run := run + [Step.OfferOne(last.record, last.executor, last.handshake, deadline, at)];
    }
  }

  lemma {:induction false} ChosenIsUnheld(batch: seq<ReadyExecution>, held: set<ExecutionId>, free: string -> nat, r: ReadyExecution)
    requires r in Chosen(batch, held, free)
    ensures r.execution !in held
  {
    var n := |batch| - 1;
    if r in Chosen(batch[..n], held, free) {
      ChosenIsUnheld(batch[..n], held, free, r);
    }
  }

  lemma {:induction false} ChosenAreDistinct(batch: seq<ReadyExecution>, held: set<ExecutionId>, free: string -> nat, m: nat, n: nat)
    requires DistinctIds(batch)
    requires m < n < |Chosen(batch, held, free)|
    ensures Chosen(batch, held, free)[m].execution != Chosen(batch, held, free)[n].execution
  {
    var last := |batch| - 1;
    var before := Chosen(batch[..last], held, free);
    if n < |before| {
      ChosenAreDistinct(batch[..last], held, free, m, n);
    } else {
      ChosenFromBatch(batch[..last], held, free, before[m]);
    }
  }

  lemma ChosenAreOfferable(s: State, batch: seq<ReadyExecution>, free: string -> nat, offers: seq<Assignment>)
    requires s.fetch.Fetched? && forall r :: r in batch ==> RecordOf(r) in s.fetch.batch
    requires DistinctIds(batch) && Offers(Chosen(batch, HeldIds(s.pool), free), offers, s.pool.live)
    ensures Offerable(s, offers)
  {
    var held := HeldIds(s.pool);
    var chosen := Chosen(batch, held, free);
    forall m | 0 <= m < |offers|
      ensures offers[m].record in s.fetch.batch && offers[m].record.execution !in held
    {
      ChosenFromBatch(batch, held, free, chosen[m]);
      ChosenIsUnheld(batch, held, free, chosen[m]);
    }
    forall m, n | 0 <= m < n < |offers| ensures offers[m].record.execution != offers[n].record.execution {
      ChosenAreDistinct(batch, held, free, m, n);
    }
  }

  /**
    Offering a batch, or all batches of a pass, is a run of the protocol: forgetting started executions, and
    then offering executions that nobody holds, one at a time.
   */
  lemma TryOfferIsRun(s: State, batch: seq<ReadyExecution>, free: string -> nat, offers: seq<Assignment>,
                      deadline: Time, at: Time, view: PoolView)
    returns (run: seq<Step>)
    requires s.fetch.Fetched? && forall r :: r in batch ==> RecordOf(r) in s.fetch.batch
    requires DistinctIds(batch) && Offers(Chosen(batch, HeldIds(Purge(s.pool, s.fetch.at)), free), offers, s.pool.live)
    requires OfferedFrom(s.pool, batch, s.fetch.at, offers, deadline, at, view)
    ensures Reaches(s, run, s.(pool := view))
  {
    if batch == [] {
      run := [];
    } else {
      var purged := Next(s, PurgeAccepted);
      ChosenAreOfferable(purged, batch, free, offers);
      var rest := OffersAreSteps(purged, offers, deadline, at);
      run := [PurgeAccepted] + rest;
      assert run[1..] == rest;
    }
  }

  /** Withdrawing several offers is withdrawing one at a time. */
  lemma {:induction false} WithdrawalIsRun(s: State, gone: set<ExecutionId>) returns (run: seq<Step>)
    requires forall e :: e in gone ==> e in s.pool.held && s.pool.held[e].state.Offered?
    ensures Reaches(s, run, s.(pool := Release(s.pool, gone)))
    decreases gone
  {
    if gone == {} {
      run := [];
      assert s.pool.held - gone == s.pool.held;
    } else {
      var e :| e in gone;
      var m := Next(s, Withdraw(e));
      var rest := WithdrawalIsRun(m, gone - {e});
      ReleaseBoth(s.pool, {e}, gone - {e});
      assert {e} + (gone - {e}) == gone;
      run := [Withdraw(e)] + rest;
      assert run[1..] == rest;
    }
  }
}
