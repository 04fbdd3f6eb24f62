/** The task-completion poller of the functional-verification suite
    (`wait_task_status_change`): fetch a task record over and over until its
    status leaves the in-progress value, giving up after a bounded number of
    fetches.

    The REST fetch is a scripted input: `script[k]` is the record the k-th
    fetch returns, and a fetch past the end of the script is a fetch that
    raises (its exception propagates out of the poller). Sleeping is counted,
    not timed. */
module TaskPoller {

  /** A task record as returned by `GET <task_uri>/<task_id>`. */
  datatype TaskRecord = TaskRecord(id: string, status: string, message: string, targetUri: string)

  /** How a poll ends: the record with the final status is returned, or one of
      the two exceptions the poller raises, or the fetch itself raised. */
  datatype PollResult =
    | Success(rec: TaskRecord)
    | Timeout
    | Unexpected(rec: TaskRecord)
    | FetchFailed

  /** The observable run of a poll: its outcome, the number of task records
      fetched, and the number of two-second sleeps. */
  datatype PollRun = PollRun(result: PollResult, fetches: nat, sleeps: nat)

  /** The poller raises its timeout once its attempt counter exceeds this. */
  const CounterBound: nat := 10

  const DefaultFinalStatus := "finished"
  const DefaultCurrentStatus := "running"

  /** Length of the longest prefix of `script` whose records all have the
      in-progress status. */
  function InProgressPrefix(script: seq<TaskRecord>, current: string): (n: nat)
    ensures n <= |script|
    ensures forall j :: 0 <= j < n ==> script[j].status == current
    ensures n < |script| ==> script[n].status != current
  {
    if script == [] || script[0].status != current then 0
    else 1 + InProgressPrefix(script[1..], current)
  }

  /** What a poll does with a given script, stated without the loop: after
      `n` in-progress replies the poller either has used up its attempts, or
      looks at reply `n + 1`. */
  function Poll(script: seq<TaskRecord>, final: string, current: string): PollRun
  {
    var n := InProgressPrefix(script, current);
    if n > CounterBound then PollRun(Timeout, CounterBound + 1, CounterBound + 1)
    else if n == |script| then PollRun(FetchFailed, n, n)
    else if script[n].status == final then PollRun(Success(script[n]), n + 1, n)
    else PollRun(Unexpected(script[n]), n + 1, n)
  }

  /** The polling loop as the Python helper runs it: the counter is tested before it
      is incremented, the in-progress status is tested before the final one. */
  method WaitTaskStatusChange(script: seq<TaskRecord>, finalStatus: string, currentStatus: string)
    returns (result: PollResult, fetches: nat, ghost sleeps: nat)
    ensures result == Poll(script, finalStatus, currentStatus).result
    ensures fetches == Poll(script, finalStatus, currentStatus).fetches
    ensures sleeps == Poll(script, finalStatus, currentStatus).sleeps
  {
    var counter := 0;
    fetches, sleeps := 0, 0;
    while true
      invariant counter == fetches == sleeps <= CounterBound + 1
      invariant counter <= |script|
      invariant forall j :: 0 <= j < counter ==> script[j].status == currentStatus
      decreases CounterBound + 1 - counter
    {
      if counter > CounterBound {
        result := Timeout;
        return;
      }
      counter := counter + 1;
      if fetches == |script| {
        result := FetchFailed;
        return;
      }
      var taskResp := script[fetches];
      fetches := fetches + 1;
      if taskResp.status == currentStatus {
        sleeps := sleeps + 1;
      } else if taskResp.status == finalStatus {
        result := Success(taskResp);
        return;
      } else {
        result := Unexpected(taskResp);
        return;
      }
    }
  }

  /** Number of records in `s` whose status is `status`. */
  function CountStatus(s: seq<TaskRecord>, status: string): (c: nat)
    ensures c <= |s|
  {
    if s == [] then 0
    else (if s[0].status == status then 1 else 0) + CountStatus(s[1..], status)
  }

  lemma {:induction false} CountStatusAllSame(s: seq<TaskRecord>, status: string)
    requires forall j :: 0 <= j < |s| ==> s[j].status == status
    ensures CountStatus(s, status) == |s|
  {
    if s != [] {
      CountStatusAllSame(s[1..], status);
    }
  }

  lemma {:induction false} CountStatusSnoc(s: seq<TaskRecord>, r: TaskRecord, status: string)
    ensures CountStatus(s + [r], status) == CountStatus(s, status) + (if r.status == status then 1 else 0)
  {
    if s != [] {
      assert (s + [r])[1..] == s[1..] + [r];
      CountStatusSnoc(s[1..], r, status);
    }
  }

  /** A timeout happens exactly when the first eleven replies are all
      in-progress; it then comes after eleven fetches, never fewer or more,
      and the poller slept after each of them. */
  lemma PollTimeoutIff(script: seq<TaskRecord>, final: string, current: string)
    ensures Poll(script, final, current).result == Timeout <==>
              |script| > CounterBound && forall j :: 0 <= j <= CounterBound ==> script[j].status == current
    ensures Poll(script, final, current).result == Timeout ==>
              Poll(script, final, current).fetches == Poll(script, final, current).sleeps == CounterBound + 1
  {
  }

  /** On a normal return the record has the final status, it is the last one
      fetched, and every earlier reply was in-progress. */
  lemma PollSuccessShape(script: seq<TaskRecord>, final: string, current: string)
    ensures var run := Poll(script, final, current);
            run.result.Success? ==>
              1 <= run.fetches <= CounterBound + 1 && run.fetches <= |script| &&
              run.result.rec == script[run.fetches - 1] &&
              run.result.rec.status == final && final != current &&
              (forall j :: 0 <= j < run.fetches - 1 ==> script[j].status == current)
  {
  }

  /** A status that is neither in-progress nor final stops the poll on that
      very fetch: no further fetch and no sleep after it. */
  lemma PollUnexpectedShape(script: seq<TaskRecord>, final: string, current: string)
    ensures var run := Poll(script, final, current);
            run.result.Unexpected? ==>
              1 <= run.fetches <= CounterBound + 1 && run.fetches <= |script| &&
              run.result.rec == script[run.fetches - 1] &&
              run.result.rec.status != current && run.result.rec.status != final &&
              run.sleeps == run.fetches - 1 &&
              (forall j :: 0 <= j < run.fetches - 1 ==> script[j].status == current)
  {
  }

  /** Sleeps are exactly the in-progress replies seen: none before the first
      fetch and none after a final or unexpected reply. */
  lemma PollSleepsCountInProgress(script: seq<TaskRecord>, final: string, current: string)
    ensures var run := Poll(script, final, current);
            run.fetches <= |script| && run.sleeps == CountStatus(script[..run.fetches], current)
  {
    var n := InProgressPrefix(script, current);
    var run := Poll(script, final, current);
    if n > CounterBound {
      CountStatusAllSame(script[..CounterBound + 1], current);
    } else {
      CountStatusAllSame(script[..n], current);
      if n < |script| {
        assert script[..n + 1] == script[..n] + [script[n]];
        CountStatusSnoc(script[..n], script[n], current);
      }
    }
  }

  /** When the caller passes the same value for the in-progress and the final
      status, the in-progress test always wins and the poll cannot succeed. */
  lemma PollSameStatusNeverSucceeds(script: seq<TaskRecord>, status: string)
    ensures !Poll(script, status, status).result.Success?
  {
  }

  /** `n` in-progress replies (`n` within the bound) followed by one with the
      caller's final status: success with that record after `n + 1` fetches
      and `n` sleeps. The final status is whatever the caller chose, for
      instance "failed" for a task that is expected to fail. */
  lemma PollFinishesAfterInProgress(script: seq<TaskRecord>, final: string, current: string, n: nat)
    requires n <= CounterBound && n < |script|
    requires forall j :: 0 <= j < n ==> script[j].status == current
    requires script[n].status == final && final != current
    ensures Poll(script, final, current) == PollRun(Success(script[n]), n + 1, n)
  {
  }

  /** The scenario the suite relies on with its default statuses: three
      "running" replies and then "finished" give back the finished record on
      the fourth fetch, after three sleeps. */
  lemma PollThreeRunningThenFinished(id: string, done: TaskRecord)
    requires done.status == DefaultFinalStatus
    ensures var running := TaskRecord(id, DefaultCurrentStatus, "", "");
            Poll([running, running, running, done], DefaultFinalStatus, DefaultCurrentStatus) ==
              PollRun(Success(done), 4, 3)
  {
    var running := TaskRecord(id, DefaultCurrentStatus, "", "");
    assert DefaultFinalStatus != DefaultCurrentStatus;
    PollFinishesAfterInProgress([running, running, running, done], DefaultFinalStatus, DefaultCurrentStatus, 3);
  }
}
