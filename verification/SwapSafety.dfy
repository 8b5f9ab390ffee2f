/**
  Every stretch of worker code keeps the protocol's invariant: a linked pair of
  jobs moves together, one allowed transition at a time, and the swap's lock is
  released exactly when the pair finishes.
 */
module SwapSafety {
  import opened AppState
  import opened Outcome
  import opened Sums
  import opened SwapProtocol

  lemma {:induction false} FindDistinct(ids: seq<string>, i: nat)
    requires Distinct(ids) && i < |ids|
    ensures FindId(ids, ids[i]) == Some(i)
  {
  }

  /** Job j and its partner, if it has one, go to the given state; nothing else about the jobs changes. */
  ghost predicate Moves(before: State, after: State, j: nat, state: JobState) {
    && j < |before.rebalances| == |after.rebalances|
    && |before.swaps| == |after.swaps|
    && after.rebalances == before.rebalances[j :=
         before.rebalances[j].(state := state, actualOut := after.rebalances[j].actualOut)]
    && (after.rebalances[j].actualOut == before.rebalances[j].actualOut
        || (before.rebalances[j].state == L1Swap && state == SettlingBack))
    && var partner := PartnerOf(before.swaps, before.rebalances[j].linked);
       if partner.None? then after.swaps == before.swaps
       else
         var out := after.swaps[partner.value].quotedOut;
         && after.swaps == before.swaps[partner.value := before.swaps[partner.value].(state := state, quotedOut := out)]
         && out == if state == Completed then SettledOut(after.rebalances[j]) else before.swaps[partner.value].quotedOut
  }

  /** The event log after job j reaches a state: one release for a linked job that finishes, else unchanged. */
  ghost predicate Releases(before: State, after: State, j: nat, state: JobState)
    requires j < |before.rebalances|
  {
    var partner := PartnerOf(before.swaps, before.rebalances[j].linked);
    if partner.None? || !state.Terminal() then after.events == before.events
    else
      && |after.events| == |before.events| + 1
      && var e := after.events[|before.events|];
         && after.events == before.events + [e]
         && (if state == Completed then e.Payout? else e.Refund?)
         && e.swapId == before.swaps[partner.value].id
  }

  ghost predicate SameIds(before: State, after: State) {
    SwapIds(before.swaps) == SwapIds(after.swaps) && RebalanceIds(before.rebalances) == RebalanceIds(after.rebalances)
  }

  lemma MovesKeepIds(before: State, after: State, j: nat, state: JobState)
    requires Moves(before, after, j, state)
    ensures SameIds(before, after)
  {
  }

  lemma MovesKeepLinks(before: State, after: State, j: nat, state: JobState)
    requires JobsInv(before) && Moves(before, after, j, state)
    ensures LinkedInStep(after.swaps, after.rebalances)
  {
    hide FindId, ReleasedOnce, FirstComeFirstServed, WorkerInStep, NextJob;
    MovesKeepIds(before, after, j, state);
    forall k | 0 <= k < |after.rebalances| && after.rebalances[k].linked.Some?
      ensures var partner := PartnerOf(after.swaps, after.rebalances[k].linked);
              partner.Some? && Agree(after.swaps[partner.value], after.rebalances[k])
    {
      assert PartnerOf(after.swaps, after.rebalances[k].linked) == PartnerOf(before.swaps, before.rebalances[k].linked);
      if k != j && before.rebalances[j].linked.Some? {
        assert PartnerOf(before.swaps, before.rebalances[k].linked) !=
               PartnerOf(before.swaps, before.rebalances[j].linked);
      }
    }
    forall i | 0 <= i < |after.swaps|
      ensures HasRebalance(after.rebalances, after.swaps[i].id)
    {
      assert HasRebalance(before.rebalances, before.swaps[i].id);
      var k :| 0 <= k < |before.rebalances| && before.rebalances[k].linked == Some(before.swaps[i].id);
      assert after.rebalances[k].linked == Some(after.swaps[i].id);
    }
  }

  lemma MovesKeepOrder(before: State, after: State, j: nat, state: JobState)
    requires JobsInv(before) && Moves(before, after, j, state)
    requires NextJob(before.rebalances) == Some(j)
    requires Follows(before.rebalances[j].state, state)
    ensures FirstComeFirstServed(after.rebalances) && JobsFollow(before, after)
    ensures !state.Terminal() ==> NextJob(after.rebalances) == Some(j)
  {
    hide FindId, ReleasedOnce, NextJob;
  }

  lemma PartnerInStep(s: State, j: nat)
    requires LinkedInStep(s.swaps, s.rebalances) && j < |s.rebalances|
    ensures var partner := PartnerOf(s.swaps, s.rebalances[j].linked);
            partner.Some? ==> s.swaps[partner.value].state == s.rebalances[j].state
  {
  }

  lemma MovesKeepReleases(before: State, after: State, j: nat, state: JobState)
    requires JobsInv(before) && Moves(before, after, j, state) && Releases(before, after, j, state)
    requires !before.rebalances[j].state.Terminal()
    ensures ReleasedOnce(after.swaps, after.events)
  {
    hide FindId, LinkedInStep, FirstComeFirstServed, WorkerInStep, NextJob, Sum;
    MovesKeepIds(before, after, j, state);
    PartnerInStep(before, j);
    var partner := PartnerOf(before.swaps, before.rebalances[j].linked);
    forall i | 0 <= i < |after.swaps|
      ensures var job := after.swaps[i];
              && Sum(after.events, ReleasesOf(job.id)) == (if job.state.Terminal() then 1 else 0)
              && Sum(after.events, PayoutsOf(job.id)) == (if job.state == Completed then 1 else 0)
    {
      var id := after.swaps[i].id;
      assert before.swaps[i].id == id == SwapIds(before.swaps)[i];
      if after.events != before.events {
        assert before.swaps[partner.value].id == SwapIds(before.swaps)[partner.value];
        SumAppend(before.events, after.events[|before.events|], ReleasesOf(id));
        SumAppend(before.events, after.events[|before.events|], PayoutsOf(id));
      }
    }
  }

  /** The three together: a legal move of the first unfinished job keeps the protocol in step. */
  lemma MovesKeepJobs(before: State, after: State, j: nat, state: JobState)
    requires JobsInv(before) && Moves(before, after, j, state) && Releases(before, after, j, state)
    requires NextJob(before.rebalances) == Some(j)
    requires Follows(before.rebalances[j].state, state)
    requires after.worker.Idle? || (after.worker == AwaitingSwap(j) && state == L1Swap)
    ensures JobsInv(after) && JobsFollow(before, after)
  {
    MovesKeepIds(before, after, j, state);
    MovesKeepLinks(before, after, j, state);
    MovesKeepOrder(before, after, j, state);
    MovesKeepReleases(before, after, j, state);
  }

  // ----- What the worker's code does to the jobs -----

  lemma UpdateFindsJob(s: State, j: nat, state: JobState, actualOut: Option<nat>)
    requires Distinct(RebalanceIds(s.rebalances)) && j < |s.rebalances|
    ensures var job := s.rebalances[j];
            UpdateRebalanceJob(s, job.id, state, actualOut) == s.(rebalances := s.rebalances[j :=
              job.(state := state, actualOut := if actualOut.Some? then actualOut else job.actualOut)])
  {
    FindDistinct(RebalanceIds(s.rebalances), j);
  }

  /** Re-marking a swap with its rebalance job's state changes nothing. */
  lemma MarkIsIdle(s: State, j: nat)
    requires JobsInv(s) && j < |s.rebalances| && s.rebalances[j].linked.Some?
    ensures MarkSwapState(s, s.rebalances[j].linked.value, s.rebalances[j].state) == s
  {
  }

  lemma AdvanceMoves(s: State, j: nat, state: JobState, actualOut: Option<nat>)
    requires JobsInv(s) && j < |s.rebalances| && !state.Terminal()
    requires actualOut.Some? ==> s.rebalances[j].state == L1Swap && state == SettlingBack
    ensures var job := s.rebalances[j];
            var updated := UpdateRebalanceJob(s, job.id, state, actualOut);
            var after := if job.linked.Some? then MarkSwapState(updated, job.linked.value, state) else updated;
            Moves(s, after, j, state) && Releases(s, after, j, state) && after.worker == s.worker
  {
    UpdateFindsJob(s, j, state, actualOut);
  }

  lemma FailMoves(s: State, j: nat)
    requires JobsInv(s) && j < |s.rebalances|
    ensures var after := Fail(s, s.rebalances[j].id, s.rebalances[j].linked);
            Moves(s, after, j, Failed) && Releases(s, after, j, Failed) && after.worker == s.worker
  {
    UpdateFindsJob(s, j, Failed, None);
  }

  lemma SettleMoves(s: State, j: nat)
    requires JobsInv(s) && j < |s.rebalances|
    ensures var after := Settle(s, s.rebalances[j]);
            Moves(s, after, j, Completed) && Releases(s, after, j, Completed) && after.worker == s.worker
  {
    FindDistinct(RebalanceIds(s.rebalances), j);
  }

  /** Where a tick takes its job once the health answer is in. */
  function StateAfterHealth(state: JobState, ready: bool, canSubmit: bool, routeable: bool): JobState {
    if !ready then Failed
    else
      match state
      case Queued => BridgingOut
      case BridgingOut => L1Swap
      case L1Swap => if canSubmit && routeable then L1Swap else Failed
      case SettlingBack => Completed
      case _ => state
  }

  /** Waiting for the exchange moves nothing. */
  lemma WaitingMoves(s: State, t: State, j: nat)
    requires JobsInv(s) && j < |s.rebalances| && !s.rebalances[j].state.Terminal()
    requires t.swaps == s.swaps && t.rebalances == s.rebalances && t.events == s.events
    ensures Moves(s, t, j, s.rebalances[j].state) && Releases(s, t, j, s.rebalances[j].state)
  {
  }

  lemma ProceedMoves(s: State, j: nat, canSubmit: bool, routeable: bool)
    requires JobsInv(s) && s.worker.Idle? && j < |s.rebalances| && !s.rebalances[j].state.Terminal()
    ensures var target := StateAfterHealth(s.rebalances[j].state, true, canSubmit, routeable);
            var after := Proceed(s, j, s.rebalances[j], canSubmit, routeable);
            Moves(s, after, j, target) && Releases(s, after, j, target)
  {
    hide FindId, LinkedInStep, ReleasedOnce, Moves, Releases, UpdateRebalanceJob, MarkSwapState, Fail, Settle;
    var state := s.rebalances[j].state;
    var target := StateAfterHealth(state, true, canSubmit, routeable);
    if target == state {
      WaitingMoves(s, Proceed(s, j, s.rebalances[j], canSubmit, routeable), j);
    } else if target == Failed {
      FailMoves(s, j);
    } else if target == Completed {
      SettleMoves(s, j);
    } else {
      AdvanceMoves(s, j, target, None);
    }
  }

  lemma AfterHealthKeepsJobs(s: State, ready: bool, canSubmit: bool, routeable: bool)
    requires JobsInv(s) && s.worker.AwaitingHealth?
    ensures s.worker.next < |s.rebalances|
    ensures var after := AfterHealth(s, ready, canSubmit, routeable);
            && JobsInv(after) && JobsFollow(s, after)
            && Moves(s, after, s.worker.next,
                     StateAfterHealth(s.rebalances[s.worker.next].state, ready, canSubmit, routeable))
  {
    var j := s.worker.next;
    var idle := s.(worker := Idle);
    assert JobsInv(idle);
    var target := StateAfterHealth(s.rebalances[j].state, ready, canSubmit, routeable);
    var after := AfterHealth(s, ready, canSubmit, routeable);
    if ready {
      if s.rebalances[j].linked.Some? { MarkIsIdle(idle, j); }
      ProceedMoves(idle, j, canSubmit, routeable);
    } else {
      FailMoves(idle, j);
    }
    MovesKeepJobs(idle, after, j, target);
  }

  lemma AfterSwapKeepsJobs(s: State, answer: SwapAnswer)
    requires JobsInv(s) && s.worker.AwaitingSwap?
    ensures s.worker.next < |s.rebalances|
    ensures var after := AfterSwap(s, answer);
            && JobsInv(after) && JobsFollow(s, after)
            && Moves(s, after, s.worker.next, if answer.Threw? then Failed else SettlingBack)
  {
    hide FindId, LinkedInStep, ReleasedOnce, FirstComeFirstServed, NextJob, Fail, UpdateRebalanceJob, MarkSwapState;
    var j := s.worker.next;
    var idle := s.(worker := Idle);
    assert JobsInv(idle);
    var after := AfterSwap(s, answer);
    match answer
    case Threw =>
      FailMoves(idle, j);
      MovesKeepJobs(idle, after, j, Failed);
    case Returned(amount, l1Decimals, tokenDecimals) =>
      AdvanceMoves(idle, j, SettlingBack, Some(ExchangedOut(s.rebalances[j], answer)));
      assert Moves(idle, after, j, SettlingBack) && Releases(idle, after, j, SettlingBack);
      MovesKeepJobs(idle, after, j, SettlingBack);
  }

  lemma BeginTickKeepsJobs(s: State)
    requires JobsInv(s) && s.worker.Idle?
    ensures JobsInv(BeginTick(s)) && JobsFollow(s, BeginTick(s))
  {
    hide FindId, LinkedInStep, ReleasedOnce, FirstComeFirstServed, NextJob;
  }

  /** A finished instant fill releases no swap. */
  lemma InstantKeepsReleases(swaps: seq<SwapJob>, events: seq<Event>, e: Event)
    requires ReleasedOnce(swaps, events) && e.Instant?
    ensures ReleasedOnce(swaps, events + [e])
  {
  }

  /** Only the jobs, the worker and the events matter. */
  lemma SameJobs(s: State, t: State)
    requires JobsInv(s)
    requires t.swaps == s.swaps && t.rebalances == s.rebalances && t.worker == s.worker && t.events == s.events
    ensures JobsInv(t) && JobsFollow(s, t)
  {
  }

  // ----- Requests that arrive while the worker is suspended -----

  /** Later arrivals do not change which job is first. */
  lemma {:induction false} AppendKeepsNextJob(jobs: seq<RebalanceJob>, job: RebalanceJob)
    ensures NextJob(jobs).Some? ==> NextJob(jobs + [job]) == NextJob(jobs)
  {
  }

  lemma SwapIdsAppend(jobs: seq<SwapJob>, job: SwapJob)
    ensures SwapIds(jobs + [job]) == SwapIds(jobs) + [job.id]
  {
  }

  lemma RebalanceIdsAppend(jobs: seq<RebalanceJob>, job: RebalanceJob)
    ensures RebalanceIds(jobs + [job]) == RebalanceIds(jobs) + [job.id]
  {
  }

  lemma {:induction false} NoReleasesYet(events: seq<Event>, id: string)
    requires forall e :: e in events && !e.Instant? ==> e.swapId != id
    ensures Sum(events, ReleasesOf(id)) == Sum(events, PayoutsOf(id)) == 0
  {
    if |events| > 0 {
      NoReleasesYet(events[..|events| - 1], id);
    }
  }

  lemma DriftKeepsLinks(s: State, job: RebalanceJob)
    requires LinkedInStep(s.swaps, s.rebalances)
    ensures LinkedInStep(s.swaps, EnqueueDriftJob(s, job).rebalances)
  {
    hide FindId;
    var after := EnqueueDriftJob(s, job);
    forall i | 0 <= i < |after.swaps| ensures HasRebalance(after.rebalances, after.swaps[i].id) {
      assert HasRebalance(s.rebalances, s.swaps[i].id);
      var j :| 0 <= j < |s.rebalances| && s.rebalances[j].linked == Some(s.swaps[i].id);
      assert after.rebalances[j].linked == Some(after.swaps[i].id);
    }
    assert forall j :: 0 <= j < |s.rebalances| ==> after.rebalances[j] == s.rebalances[j];
  }

  lemma DriftKeepsJobs(s: State, job: RebalanceJob)
    requires JobsInv(s) && job.id !in RebalanceIds(s.rebalances)
    ensures JobsInv(EnqueueDriftJob(s, job)) && JobsFollow(s, EnqueueDriftJob(s, job))
  {
    hide FindId, LinkedInStep, NextJob, Sum;
    var after := EnqueueDriftJob(s, job);
    var added := after.rebalances[|s.rebalances|];
    assert after.rebalances == s.rebalances + [added] && added.state == Queued;
    RebalanceIdsAppend(s.rebalances, added);
    AppendKeepsNextJob(s.rebalances, added);
    DriftKeepsLinks(s, job);
  }

  lemma {:induction false} FindAppended(ids: seq<string>, last: string)
    requires last !in ids
    ensures FindId(ids + [last], last) == Some(|ids|)
    ensures forall id :: id in ids ==> FindId(ids + [last], id) == FindId(ids, id)
  {
    assert (ids + [last])[..|ids|] == ids;
  }

  lemma AgreeFromTheStart(input: SwapInput, swapId: string, rebalanceId: string)
    ensures Agree(NewSwapJob(input, swapId), NewRebalanceJob(input, swapId, rebalanceId))
  {
  }

  lemma CreateKeepsLinks(s: State, input: SwapInput, swapId: string, rebalanceId: string)
    requires JobsInv(s) && CreateAsyncSwapJob(s, input, swapId, rebalanceId).Ok?
    requires swapId !in SwapIds(s.swaps) && rebalanceId !in RebalanceIds(s.rebalances)
    ensures var after := CreateAsyncSwapJob(s, input, swapId, rebalanceId).value;
            LinkedInStep(after.swaps, after.rebalances)
  {
    hide ReleasedOnce, FirstComeFirstServed, WorkerInStep, NextJob, FindId, Agree;
    var after := CreateAsyncSwapJob(s, input, swapId, rebalanceId).value;
    SwapIdsAppend(s.swaps, NewSwapJob(input, swapId));
    var last := |s.rebalances|;
    FindAppended(SwapIds(s.swaps), swapId);
    AgreeFromTheStart(input, swapId, rebalanceId);
    forall j | 0 <= j < |s.rebalances| && s.rebalances[j].linked.Some?
      ensures PartnerOf(after.swaps, after.rebalances[j].linked) == PartnerOf(s.swaps, s.rebalances[j].linked)
      ensures after.rebalances[j].linked != Some(swapId)
    {
      assert s.rebalances[j].linked.value in SwapIds(s.swaps);
    }
    assert PartnerOf(after.swaps, after.rebalances[last].linked) == Some(|s.swaps|);
    forall i | 0 <= i < |after.swaps|
      ensures HasRebalance(after.rebalances, after.swaps[i].id)
    {
      if i == |s.swaps| {
        assert after.rebalances[last].linked == Some(after.swaps[i].id);
      } else {
        assert HasRebalance(s.rebalances, s.swaps[i].id);
        var j :| 0 <= j < |s.rebalances| && s.rebalances[j].linked == Some(s.swaps[i].id);
        assert after.rebalances[j].linked == Some(after.swaps[i].id);
      }
    }
  }

  lemma CreateKeepsReleases(s: State, input: SwapInput, swapId: string, rebalanceId: string)
    requires ReleasedOnce(s.swaps, s.events) && CreateAsyncSwapJob(s, input, swapId, rebalanceId).Ok?
    requires swapId !in SwapIds(s.swaps)
    ensures var after := CreateAsyncSwapJob(s, input, swapId, rebalanceId).value;
            ReleasedOnce(after.swaps, after.events)
  {
    hide FindId;
    var after := CreateAsyncSwapJob(s, input, swapId, rebalanceId).value;
    SwapIdsAppend(s.swaps, NewSwapJob(input, swapId));
    NoReleasesYet(s.events, swapId);
    assert forall i :: 0 <= i < |s.swaps| ==> after.swaps[i] == s.swaps[i];
  }

  lemma CreateKeepsJobs(s: State, input: SwapInput, swapId: string, rebalanceId: string)
    requires JobsInv(s) && CreateAsyncSwapJob(s, input, swapId, rebalanceId).Ok?
    requires swapId !in SwapIds(s.swaps) && rebalanceId !in RebalanceIds(s.rebalances)
    ensures var after := CreateAsyncSwapJob(s, input, swapId, rebalanceId).value;
            JobsInv(after) && JobsFollow(s, after)
  {
    hide FindId, LinkedInStep, ReleasedOnce;
    CreateKeepsLinks(s, input, swapId, rebalanceId);
    CreateKeepsReleases(s, input, swapId, rebalanceId);
    SwapIdsAppend(s.swaps, NewSwapJob(input, swapId));
    RebalanceIdsAppend(s.rebalances, NewRebalanceJob(input, swapId, rebalanceId));
    AppendKeepsNextJob(s.rebalances, NewRebalanceJob(input, swapId, rebalanceId));
  }
}
