/**
 The status part of internal/datasource/data_source_update_sink_impl.go: what one status update does
 to the data source status and to the record of the current outage, and what every run keeps.
 */
module SourceStatus {
  import opened DataModel

  datatype State = Initializing | Valid | Interrupted | Off

  // NoError is the empty error kind.
  datatype ErrorKind = NoError | UnknownError | NetworkError | ErrorResponse | InvalidData | StoreError

  datatype ErrorInfo = ErrorInfo(kind: ErrorKind, statusCode: int, message: string, time: int)

  datatype Status = Status(state: State, stateSince: int, lastError: ErrorInfo)

  datatype ErrorKey = ErrorKey(kind: ErrorKind, statusCode: int)

  datatype Outage = Outage(inOutage: bool, errorCounts: map<ErrorKey, nat>)

  datatype SourceState = SourceState(status: Status, outage: Outage)

  // state is None for the empty state string; time is the clock reading at the call.
  datatype StatusUpdate = StatusUpdate(state: Option<State>, error: ErrorInfo, time: int)

  const NO_ERROR := ErrorInfo(NoError, 0, "", 0)

  // ---------- One update ----------

  function Counted(counts: map<ErrorKey, nat>, error: ErrorInfo): map<ErrorKey, nat> {
    var k := ErrorKey(error.kind, error.statusCode);
    counts[k := (if k in counts then counts[k] else 0) + 1]
  }

  function Tracked(timeout: int, o: Outage, state: State, error: ErrorInfo): Outage {
    if timeout == 0 then o
    else if state == Interrupted || error.kind != NoError || (state == Initializing && o.inOutage) then
      Outage(true, Counted(if o.inOutage then o.errorCounts else map[], error))
    else
      o.(inOutage := false)
  }

  // Interrupted only means something after a successful start.
  function EffectiveState(current: State, state: State): State {
    if state == Interrupted && current == Initializing then Initializing else state
  }

  // The update is not ignored.
  predicate Taken(s: SourceState, u: StatusUpdate) {
    && u.state.Some?
    && (EffectiveState(s.status.state, u.state.value) != s.status.state || u.error.kind != NoError)
  }

  function Updated(timeout: int, s: SourceState, u: StatusUpdate): SourceState {
    if !Taken(s, u) then s
    else
      var state := EffectiveState(s.status.state, u.state.value);
      SourceState(
        Status(
          state,
          if state != s.status.state then u.time else s.status.stateSince,
          if u.error.kind != NoError then u.error else s.status.lastError),
        Tracked(timeout, s.outage, state, u.error))
  }

  class OutageTracker {
    const outageLoggingTimeout: int
    var inOutage: bool
    var errorCounts: map<ErrorKey, nat>

    constructor (timeout: int)
      ensures outageLoggingTimeout == timeout && View() == Outage(false, map[])
    {
      outageLoggingTimeout := timeout;
      inOutage, errorCounts := false, map[];
    }

    function View(): Outage
      reads this
    {
      Outage(inOutage, errorCounts)
    }

    method TrackDataSourceState(newState: State, newError: ErrorInfo)
      modifies this
      ensures View() == Tracked(outageLoggingTimeout, old(View()), newState, newError)
    {
      if outageLoggingTimeout == 0 {
        return;
      }
      if newState == Interrupted || newError.kind != NoError || (newState == Initializing && inOutage) {
        if inOutage {
          RecordError(newError);
        } else {
          inOutage := true;
          errorCounts := map[];
          RecordError(newError);
        }
      } else {
        inOutage := false;
      }
    }

    method RecordError(newError: ErrorInfo)
      modifies this`errorCounts
      ensures errorCounts == Counted(old(errorCounts), newError)
    {
      var basicErrorInfo := ErrorKey(newError.kind, newError.statusCode);
      if basicErrorInfo !in errorCounts {
        errorCounts := errorCounts[basicErrorInfo := 0];
      }
      errorCounts := errorCounts[basicErrorInfo := errorCounts[basicErrorInfo] + 1];
    }
  }

  // ---------- Every run ----------

  function After(timeout: int, s: SourceState, us: seq<StatusUpdate>): SourceState {
    if us == [] then s else Updated(timeout, After(timeout, s, us[..|us| - 1]), us[|us| - 1])
  }

  function StateAfter(timeout: int, s: SourceState, us: seq<StatusUpdate>, i: nat): State
    requires i <= |us|
  {
    After(timeout, s, us[..i]).status.state
  }

  lemma {:induction false} AfterStep(timeout: int, s: SourceState, us: seq<StatusUpdate>, i: nat)
    requires i < |us|
    ensures After(timeout, s, us[..i + 1]) == Updated(timeout, After(timeout, s, us[..i]), us[i])
  {
    assert us[..i + 1][..i] == us[..i];
  }

  // A run that ends Interrupted had, before that, an update that reported a started or stopped source.
  lemma {:induction false} InterruptedOnlyAfterStart(timeout: int, s: SourceState, us: seq<StatusUpdate>)
    requires s.status.state == Initializing
    requires After(timeout, s, us).status.state == Interrupted
    ensures exists i :: 0 <= i < |us| && us[i].state in {Some(Valid), Some(Off)} &&
                        StateAfter(timeout, s, us, i) == Initializing
  {
    var n := |us| - 1;
    assert us[..|us|] == us;
    if StateAfter(timeout, s, us, n) == Interrupted {
      InterruptedOnlyAfterStart(timeout, s, us[..n]);
      var i :| 0 <= i < n && us[..n][i].state in {Some(Valid), Some(Off)} && StateAfter(timeout, s, us[..n], i) == Initializing;
      assert us[..n][..i] == us[..i];
      assert us[i].state in {Some(Valid), Some(Off)};
    } else {
      StartedBefore(timeout, s, us, n);
    }
  }

  // The first time the state is not Initializing, an update reported Valid or Off.
  lemma {:induction false} StartedBefore(timeout: int, s: SourceState, us: seq<StatusUpdate>, n: nat)
    requires s.status.state == Initializing && n <= |us|
    requires StateAfter(timeout, s, us, n) != Initializing
    ensures exists i :: 0 <= i < n && us[i].state in {Some(Valid), Some(Off)} &&
                        StateAfter(timeout, s, us, i) == Initializing
  {
    assert us[..0] == [];
    AfterStep(timeout, s, us, n - 1);
    if StateAfter(timeout, s, us, n - 1) != Initializing {
      StartedBefore(timeout, s, us, n - 1);
    } else {
      assert us[n - 1].state in {Some(Valid), Some(Off)};
    }
  }

  // ---------- Which state a run leads to ----------

  // i is the latest of the first n updates that carries a state, or -1.
  ghost predicate LatestReport(us: seq<StatusUpdate>, n: nat, i: int)
    requires n <= |us|
  {
    && -1 <= i < n && (i >= 0 ==> us[i].state.Some?)
    && forall k :: i < k < n ==> us[k].state.None?
  }

  // i is the latest of the first n updates that reports a state other than Interrupted, or -1.
  ghost predicate LatestOther(us: seq<StatusUpdate>, n: nat, i: int)
    requires n <= |us|
  {
    && -1 <= i < n && (i >= 0 ==> us[i].state.Some? && us[i].state != Some(Interrupted))
    && forall k :: i < k < n ==> us[k].state in {None, Some(Interrupted)}
  }

  // The state is the one last reported. Only Interrupted is not taken at its word: it leaves a source
  // Initializing that was Initializing according to the latest other report, or from the start.
  lemma {:induction false} StateIsLatestReport(timeout: int, s: SourceState, us: seq<StatusUpdate>, n: nat) returns (i: int, j: int)
    requires n <= |us|
    ensures LatestReport(us, n, i) && LatestOther(us, n, j)
    ensures StateAfter(timeout, s, us, n) ==
            if i < 0 then s.status.state
            else if us[i].state != Some(Interrupted) then us[i].state.value
            else if (if j < 0 then s.status.state else us[j].state.value) == Initializing then Initializing
            else Interrupted
  {
    if n == 0 {
      i, j := -1, -1;
      assert us[..0] == [];
    } else {
      AfterStep(timeout, s, us, n - 1);
      i, j := StateIsLatestReport(timeout, s, us, n - 1);
      if us[n - 1].state.Some? {
        i := n - 1;
        if us[n - 1].state != Some(Interrupted) {
          j := n - 1;
        }
      }
    }
  }

  // From Initializing, a run ends Interrupted exactly when that is what was last reported, after a
  // report of Valid or Off since which the source was not reported to be Initializing again.
  lemma {:induction false} InterruptedExactlyWhen(timeout: int, s: SourceState, us: seq<StatusUpdate>)
    requires s.status.state == Initializing
    ensures After(timeout, s, us).status.state == Interrupted <==>
              exists i, j ::
                && 0 <= j < i < |us|
                && us[i].state == Some(Interrupted) && (forall k :: i < k < |us| ==> us[k].state.None?)
                && us[j].state in {Some(Valid), Some(Off)} && (forall k :: j < k < i ==> us[k].state != Some(Initializing))
  {
    assert us[..|us|] == us;
    var i, j := StateIsLatestReport(timeout, s, us, |us|);
    if After(timeout, s, us).status.state == Interrupted {
      assert us[i].state == Some(Interrupted) && 0 <= j < i;
      assert us[j].state in {Some(Valid), Some(Off)};
    }
  }

  // It ends Valid or Off exactly when that is what was last reported.
  lemma {:induction false} ReportedStateExactlyWhen(timeout: int, s: SourceState, us: seq<StatusUpdate>, state: State)
    requires s.status.state == Initializing && state in {Valid, Off}
    ensures After(timeout, s, us).status.state == state <==>
              exists i :: 0 <= i < |us| && us[i].state == Some(state) && forall k :: i < k < |us| ==> us[k].state.None?
  {
    assert us[..|us|] == us;
    var i, j := StateIsLatestReport(timeout, s, us, |us|);
  }

  // For example, a source that is reported to be Initializing again after it was Valid is not taken to be
  // Interrupted when that is reported next.
  lemma {:induction false} InitializingAgain(timeout: int, s: SourceState, error: ErrorInfo)
    requires s.status.state == Initializing
    ensures var us := [StatusUpdate(Some(Valid), NO_ERROR, 1), StatusUpdate(Some(Initializing), NO_ERROR, 2), StatusUpdate(Some(Interrupted), error, 3)];
            After(timeout, s, us).status.state == Initializing
  {
    var us := [StatusUpdate(Some(Valid), NO_ERROR, 1), StatusUpdate(Some(Initializing), NO_ERROR, 2), StatusUpdate(Some(Interrupted), error, 3)];
    var i, j := StateIsLatestReport(timeout, s, us, 3);
    assert us[..3] == us;
    assert us[2].state.Some? && us[1].state == Some(Initializing);
  }

  // StateSince is the time of the update that last changed the state, or the initial one.
  lemma {:induction false} StateSinceIsLatestChange(timeout: int, s: SourceState, us: seq<StatusUpdate>, n: nat)
    returns (i: nat)
    requires n <= |us|
    ensures i <= n
    ensures forall j :: i <= j <= n ==> StateAfter(timeout, s, us, j) == StateAfter(timeout, s, us, n)
    ensures i > 0 ==> StateAfter(timeout, s, us, i - 1) != StateAfter(timeout, s, us, i)
    ensures After(timeout, s, us[..n]).status.stateSince == if i > 0 then us[i - 1].time else s.status.stateSince
  {
    if n == 0 {
      i := 0;
      assert us[..0] == [];
    } else {
      AfterStep(timeout, s, us, n - 1);
      if StateAfter(timeout, s, us, n - 1) == StateAfter(timeout, s, us, n) {
        i := StateSinceIsLatestChange(timeout, s, us, n - 1);
      } else {
        i := n;
      }
    }
  }

  predicate CarriesError(u: StatusUpdate) {
    u.state.Some? && u.error.kind != NoError
  }

  // LastError is the latest non-empty error reported with a state, even when the state did not change.
  lemma {:induction false} LastErrorIsLatest(timeout: int, s: SourceState, us: seq<StatusUpdate>, n: nat)
    returns (i: nat)
    requires n <= |us|
    ensures i <= n
    ensures forall j :: i <= j < n ==> !CarriesError(us[j])
    ensures i > 0 ==> CarriesError(us[i - 1])
    ensures After(timeout, s, us[..n]).status.lastError == if i > 0 then us[i - 1].error else s.status.lastError
  {
    if n == 0 {
      i := 0;
      assert us[..0] == [];
    } else {
      AfterStep(timeout, s, us, n - 1);
      if CarriesError(us[n - 1]) {
        i := n;
      } else {
        i := LastErrorIsLatest(timeout, s, us, n - 1);
      }
    }
  }

  // ---------- When there is an outage ----------

  // The update carries an error, or makes the state Interrupted.
  ghost predicate BeginsOutage(timeout: int, s: SourceState, us: seq<StatusUpdate>, i: nat)
    requires i < |us|
  {
    CarriesError(us[i]) || (StateAfter(timeout, s, us, i) != Interrupted && StateAfter(timeout, s, us, i + 1) == Interrupted)
  }

  // The update carries no error and makes the state Valid or Off.
  ghost predicate EndsOutage(timeout: int, s: SourceState, us: seq<StatusUpdate>, i: nat)
    requires i < |us|
  {
    && !CarriesError(us[i])
    && StateAfter(timeout, s, us, i) != StateAfter(timeout, s, us, i + 1)
    && StateAfter(timeout, s, us, i + 1) in {Valid, Off}
  }

  // With outage logging on, there is an outage exactly when one has begun and not ended since.
  lemma {:induction false} InOutageExactlyWhen(timeout: int, s: SourceState, us: seq<StatusUpdate>, n: nat)
    requires timeout != 0 && !s.outage.inOutage && n <= |us|
    ensures After(timeout, s, us[..n]).outage.inOutage <==>
              exists i :: 0 <= i < n && BeginsOutage(timeout, s, us, i) && forall j :: i < j < n ==> !EndsOutage(timeout, s, us, j)
  {
    if n == 0 {
      assert us[..0] == [];
    } else {
      var m := n - 1;
      AfterStep(timeout, s, us, m);
      InOutageExactlyWhen(timeout, s, us, m);
      if After(timeout, s, us[..n]).outage.inOutage {
        if !BeginsOutage(timeout, s, us, m) {
          var i :| 0 <= i < m && BeginsOutage(timeout, s, us, i) && forall j :: i < j < m ==> !EndsOutage(timeout, s, us, j);
          assert forall j :: i < j < n ==> !EndsOutage(timeout, s, us, j);
        }
      } else {
        forall i | 0 <= i < n && BeginsOutage(timeout, s, us, i)
          ensures exists j :: i < j < n && EndsOutage(timeout, s, us, j)
        {
          if After(timeout, s, us[..m]).outage.inOutage {
            assert EndsOutage(timeout, s, us, m);
          }
        }
      }
    }
  }

  // With it off, no outage is ever recorded.
  lemma {:induction false} NothingTrackedWithoutTimeout(s: SourceState, us: seq<StatusUpdate>)
    ensures After(0, s, us).outage == s.outage
  {
    if us != [] {
      NothingTrackedWithoutTimeout(s, us[..|us| - 1]);
    }
  }

  // ---------- Error counts of an outage ----------

  ghost function Total(m: map<ErrorKey, nat>): nat {
    if m == map[] then 0
    else
      var k :| k in m;
      m[k] + Total(m - {k})
  }

  lemma {:induction false} TotalAt(m: map<ErrorKey, nat>, k: ErrorKey)
    requires k in m
    ensures Total(m) == m[k] + Total(m - {k})
  {
    var k0 :| k0 in m && Total(m) == m[k0] + Total(m - {k0});
    if k0 != k {
      TotalAt(m - {k0}, k);
      TotalAt(m - {k}, k0);
      assert m - {k0} - {k} == m - {k} - {k0};
    }
  }

  lemma {:induction false} CountedAddsOne(m: map<ErrorKey, nat>, error: ErrorInfo)
    ensures Total(Counted(m, error)) == Total(m) + 1
  {
    var k := ErrorKey(error.kind, error.statusCode);
    var m' := Counted(m, error);
    TotalAt(m', k);
    assert m' - {k} == m - {k};
    if k in m {
      TotalAt(m, k);
    } else {
      assert m - {k} == m;
    }
  }

  // How many of the updates from b on, up to n, were not ignored.
  function TakenBetween(timeout: int, s: SourceState, us: seq<StatusUpdate>, b: nat, n: nat): nat
    requires b <= n <= |us|
    decreases n
  {
    if b == n then 0
    else TakenBetween(timeout, s, us, b, n - 1) + if Taken(After(timeout, s, us[..n - 1]), us[n - 1]) then 1 else 0
  }

  // How many of them carried this kind of error and status code.
  function TakenWith(timeout: int, s: SourceState, us: seq<StatusUpdate>, b: nat, n: nat, key: ErrorKey): nat
    requires b <= n <= |us|
    decreases n
  {
    if b == n then 0
    else
      var u := us[n - 1];
      TakenWith(timeout, s, us, b, n - 1, key) +
      if Taken(After(timeout, s, us[..n - 1]), u) && ErrorKey(u.error.kind, u.error.statusCode) == key then 1 else 0
  }

  function CountOf(counts: map<ErrorKey, nat>, key: ErrorKey): nat {
    if key in counts then counts[key] else 0
  }

  lemma CountedHasOneMore(counts: map<ErrorKey, nat>, error: ErrorInfo, key: ErrorKey)
    ensures CountOf(Counted(counts, error), key) ==
            CountOf(counts, key) + if ErrorKey(error.kind, error.statusCode) == key then 1 else 0
  {
  }

  // The counts are those of the updates taken from b on.
  ghost predicate CountsTaken(timeout: int, s: SourceState, us: seq<StatusUpdate>, b: nat, n: nat, counts: map<ErrorKey, nat>)
    requires b <= n <= |us|
  {
    && (forall key :: CountOf(counts, key) == TakenWith(timeout, s, us, b, n, key))
    && Total(counts) == TakenBetween(timeout, s, us, b, n)
  }

  lemma {:induction false} CountsOneMore(timeout: int, s: SourceState, us: seq<StatusUpdate>, b: nat, n: nat, counts: map<ErrorKey, nat>)
    requires b < n <= |us| && CountsTaken(timeout, s, us, b, n - 1, counts)
    requires Taken(After(timeout, s, us[..n - 1]), us[n - 1])
    ensures CountsTaken(timeout, s, us, b, n, Counted(counts, us[n - 1].error))
  {
    CountedAddsOne(counts, us[n - 1].error);
    forall key
      ensures CountOf(Counted(counts, us[n - 1].error), key) == TakenWith(timeout, s, us, b, n, key)
    {
      CountedHasOneMore(counts, us[n - 1].error, key);
    }
  }

  lemma {:induction false} CountsSame(timeout: int, s: SourceState, us: seq<StatusUpdate>, b: nat, n: nat, counts: map<ErrorKey, nat>)
    requires b < n <= |us| && CountsTaken(timeout, s, us, b, n - 1, counts)
    requires !Taken(After(timeout, s, us[..n - 1]), us[n - 1])
    ensures CountsTaken(timeout, s, us, b, n, counts)
  {
    forall key
      ensures CountOf(counts, key) == TakenWith(timeout, s, us, b, n, key)
    {
      assert CountOf(counts, key) == TakenWith(timeout, s, us, b, n - 1, key);
    }
  }

  // While an outage lasts, its error counts are those of the updates taken since the one that began it,
  // and add up to their number.
  lemma {:induction false} OutageCountsTakenUpdates(timeout: int, s: SourceState, us: seq<StatusUpdate>, n: nat)
    returns (b: nat)
    requires timeout != 0 && !s.outage.inOutage && n <= |us|
    requires After(timeout, s, us[..n]).outage.inOutage
    ensures b < n && !After(timeout, s, us[..b]).outage.inOutage
    ensures forall j :: b < j <= n ==> After(timeout, s, us[..j]).outage.inOutage
    ensures CountsTaken(timeout, s, us, b, n, After(timeout, s, us[..n]).outage.errorCounts)
  {
    assert us[..0] == [];
    AfterStep(timeout, s, us, n - 1);
    var before := After(timeout, s, us[..n - 1]);
    if before.outage.inOutage {
      b := OutageCountsTakenUpdates(timeout, s, us, n - 1);
      if Taken(before, us[n - 1]) {
        CountsOneMore(timeout, s, us, b, n, before.outage.errorCounts);
      } else {
        CountsSame(timeout, s, us, b, n, before.outage.errorCounts);
      }
    } else {
      b := n - 1;
      assert CountsTaken(timeout, s, us, b, b, map[]);
      CountsOneMore(timeout, s, us, b, n, map[]);
    }
  }
}
