/**
 internal/datastore/data_store_status_poller.go: the last known availability of a persistent store,
 the statuses sent about it, and the task that polls for recovery.
 */
module StorePoller {

  datatype StoreStatus = StoreStatus(available: bool, needsRefresh: bool)

  datatype PollerState = PollerState(lastAvailable: bool, pollTasks: nat, sent: seq<StoreStatus>)

  function Reported(refreshOnRecovery: bool, s: PollerState, available: bool): PollerState {
    if available == s.lastAvailable then s
    else PollerState(
      available,
      if available then s.pollTasks else s.pollTasks + 1,
      s.sent + [StoreStatus(available, available && refreshOnRecovery)])
  }

  // One tick of a polling task; a task ends once the store answers.
  function Ticked(refreshOnRecovery: bool, s: PollerState, answered: bool): PollerState
    requires s.pollTasks > 0
  {
    if !answered then s
    else
      var s' := Reported(refreshOnRecovery, s, true);
      s'.(pollTasks := s'.pollTasks - 1)
  }

  class DataStoreStatusPoller {
    const refreshOnRecovery: bool
    var lastAvailable: bool
    var pollTasks: nat
    var statusesSent: seq<StoreStatus>

    constructor (availableNow: bool, refreshOnRecovery: bool)
      ensures this.refreshOnRecovery == refreshOnRecovery && View() == PollerState(availableNow, 0, [])
    {
      this.refreshOnRecovery := refreshOnRecovery;
      lastAvailable, pollTasks, statusesSent := availableNow, 0, [];
    }

    function View(): PollerState
      reads this
    {
      PollerState(lastAvailable, pollTasks, statusesSent)
    }

    method UpdateAvailability(available: bool)
      modifies this
      ensures View() == Reported(refreshOnRecovery, old(View()), available)
      ensures lastAvailable == available
      ensures statusesSent ==
              if available == old(lastAvailable) then old(statusesSent)
              else old(statusesSent) + [StoreStatus(available, available && refreshOnRecovery)]
      ensures pollTasks == if old(lastAvailable) && !available then old(pollTasks) + 1 else old(pollTasks)
    {
      if available == lastAvailable {
        return;
      }
      lastAvailable := available;
      var newStatus := StoreStatus(available, false);
      if available {
        newStatus := newStatus.(needsRefresh := refreshOnRecovery);
      }
      statusesSent := statusesSent + [newStatus];
      if !available {
        pollTasks := pollTasks + 1;
      }
    }

    // The body of the loop of startStatusPoller; answered is what the poll function returned.
    method PollTick(answered: bool)
      requires pollTasks > 0
      modifies this
      ensures View() == Ticked(refreshOnRecovery, old(View()), answered)
    {
      if answered {
        UpdateAvailability(true);
        pollTasks := pollTasks - 1;
      }
    }
  }

  // ---------- Every run up to Close ----------

  // A store operation fails, or a poll task ticks; a tick without a task changes nothing.
  datatype PollerEvent = OperationFailed | Tick(answered: bool)

  function Stepped(refresh: bool, s: PollerState, e: PollerEvent): PollerState {
    match e
    case OperationFailed => Reported(refresh, s, false)
    case Tick(answered) => if s.pollTasks > 0 then Ticked(refresh, s, answered) else s
  }

  function PollerAfter(refresh: bool, es: seq<PollerEvent>): PollerState {
    if es == [] then PollerState(true, 0, [])
    else Stepped(refresh, PollerAfter(refresh, es[..|es| - 1]), es[|es| - 1])
  }

  // Statuses alternate, starting with unavailable; one poll task is alive exactly while the store is
  // known to be unavailable; a refresh is asked for on every recovery of a poller set up that way and
  // on nothing else.
  lemma {:induction false} PollerAlternates(refresh: bool, es: seq<PollerEvent>)
    ensures var s := PollerAfter(refresh, es);
            && (forall i :: 0 <= i < |s.sent| ==> s.sent[i] == StoreStatus(i % 2 == 1, i % 2 == 1 && refresh))
            && s.lastAvailable == (|s.sent| % 2 == 0)
            && s.pollTasks == if s.lastAvailable then 0 else 1
  {
    if es != [] {
      PollerAlternates(refresh, es[..|es| - 1]);
    }
  }

  // The store is known to be available exactly when every failure has been followed by an answered tick.
  lemma {:induction false} AvailableExactlyWhen(refresh: bool, es: seq<PollerEvent>)
    ensures PollerAfter(refresh, es).lastAvailable <==>
              forall i :: 0 <= i < |es| && es[i].OperationFailed? ==> exists j :: i < j < |es| && es[j] == Tick(true)
  {
    if es != [] {
      var n := |es| - 1;
      AvailableExactlyWhen(refresh, es[..n]);
      PollerAlternates(refresh, es[..n]);
      assert forall i :: 0 <= i < n ==> es[..n][i] == es[i];
      if es[n] != Tick(true) {
        assert PollerAfter(refresh, es).lastAvailable == (PollerAfter(refresh, es[..n]).lastAvailable && !es[n].OperationFailed?);
      } else {
        assert PollerAfter(refresh, es).lastAvailable;
        assert forall i :: 0 <= i < |es| && es[i].OperationFailed? ==> i < n && es[n] == Tick(true);
      }
    }
  }

  // A failure of a store thought available is announced at once and starts a poll task; the answer that
  // ends the task is announced as well. Nothing else is.
  lemma {:induction false} OneMoreEvent(refresh: bool, es: seq<PollerEvent>, e: PollerEvent)
    ensures var s, s' := PollerAfter(refresh, es), PollerAfter(refresh, es + [e]);
            && s'.sent == s.sent +
                 (if s.lastAvailable && e == OperationFailed then [StoreStatus(false, false)]
                  else if !s.lastAvailable && e == Tick(true) then [StoreStatus(true, refresh)]
                  else [])
            && s'.pollTasks ==
                 (if s.lastAvailable && e == OperationFailed then 1
                  else if !s.lastAvailable && e == Tick(true) then 0
                  else s.pollTasks)
  {
    assert (es + [e])[..|es|] == es;
    PollerAlternates(refresh, es);
  }
}
