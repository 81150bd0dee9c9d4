/**
 * The sync manager: a one-second tick that decides which jobs are due, a busy flag
 * per job that keeps runs from overlapping, and the two-stage run of a job (a hash
 * check, then a download only when the hash moved or the target playlist is gone).
 *
 * The asynchronous GETs are recorded in `requests`; their completions are the methods
 * `OnHashComplete` and `OnPlaylistComplete`, which take the outcome as parameters.
 * Observer notifications are recorded in `events`, one per notification site. The
 * host's playlists are a map from name to the locations they hold.
 */
module Scheduler {
  import opened Common
  import opened Jobs
  import opened Manifest

  /** A notification to the observers: progress with a percentage, or completion. */
  datatype Event = Progress(job: nat, status: string, percent: int) | Complete(job: nat, status: string)

  /** An issued GET: the hash check, or the download together with the hash it will record. */
  datatype Request = HashCheck(job: nat, url: string) | Download(job: nat, url: string, newHash: string)

  function HashUrl(job: SyncJob): string {
    job.serverUrl + "/hash/" + job.playlistEndpoint
  }

  function PlaylistUrl(job: SyncJob): string {
    job.serverUrl + "/playlist/" + job.playlistEndpoint
  }

  function Abs(x: int): nat {
    if x < 0 then -x else x
  }

  /**
   * C++ `%` on `int`: the quotient truncates toward zero, so the remainder's magnitude
   * is that of the operands' magnitudes and a nonzero remainder has the dividend's sign.
   */
  function CppRem(a: int, b: int): (r: int)
    requires b != 0
    ensures Abs(r) == Abs(a) % Abs(b)
    ensures r != 0 ==> (r < 0 <==> a < 0)
  {
    var m := Abs(b);
    if a >= 0 then a % m else -((-a) % m)
  }

  /** `vector<bool>::resize(n, false)`: kept slots keep their value, new slots are false. */
  function Resized(s: seq<bool>, n: nat): (r: seq<bool>)
    ensures |r| == n
    ensures forall i :: 0 <= i < n && i < |s| ==> r[i] == s[i]
    ensures forall i :: |s| <= i < n ==> !r[i]
  {
    if n <= |s| then s[..n] else s + seq(n - |s|, _ => false)
  }

  lemma ResizedSame(s: seq<bool>)
    ensures Resized(s, |s|) == s
  {
  }

  // ---------------------------------------------------------------------
  // Which jobs a pass starts

  /** The loops read a job's busy flag only when the job is enabled, and without a bounds check. */
  predicate BusyCovers(jobs: seq<SyncJob>, busy: seq<bool>) {
    forall i :: 0 <= i < |jobs| && jobs[i].enabled ==> i < |busy|
  }

  /** The timer divides by the interval of every enabled job that is not busy. */
  predicate IntervalsUsable(jobs: seq<SyncJob>, busy: seq<bool>)
    requires BusyCovers(jobs, busy)
  {
    forall i :: 0 <= i < |jobs| && jobs[i].enabled && !busy[i] ==> jobs[i].pollIntervalSeconds != 0
  }

  /**
   * Whether a pass starts job `i`: the job is enabled and not busy, and, for a timer
   * pass at `tick` (`None` for `sync_all`), the tick is a multiple of its interval.
   */
  predicate Starts(jobs: seq<SyncJob>, busy: seq<bool>, tick: Option<int>, i: nat)
    requires i < |jobs| && BusyCovers(jobs, busy)
    requires tick.Some? ==> IntervalsUsable(jobs, busy)
  {
    jobs[i].enabled && !busy[i] && (tick.None? || CppRem(tick.value, jobs[i].pollIntervalSeconds) == 0)
  }

  /** The jobs below `n` a pass starts, in index order. */
  function StartList(jobs: seq<SyncJob>, busy: seq<bool>, tick: Option<int>, n: nat): (r: seq<nat>)
    requires n <= |jobs| && BusyCovers(jobs, busy)
    requires tick.Some? ==> IntervalsUsable(jobs, busy)
    ensures forall k :: 0 <= k < |r| ==> r[k] < n
  {
    if n == 0 then []
    else StartList(jobs, busy, tick, n - 1) + (if Starts(jobs, busy, tick, n - 1) then [n - 1] else [])
  }

  /** A pass starts exactly the jobs `Starts` selects. */
  lemma {:induction false} StartListMembers(jobs: seq<SyncJob>, busy: seq<bool>, tick: Option<int>, n: nat, i: nat)
    requires n <= |jobs| && BusyCovers(jobs, busy)
    requires tick.Some? ==> IntervalsUsable(jobs, busy)
    ensures i in StartList(jobs, busy, tick, n) <==> i < n && Starts(jobs, busy, tick, i)
  {
    if n > 0 {
      StartListMembers(jobs, busy, tick, n - 1, i);
    }
  }

  predicate Increasing(r: seq<nat>) {
    forall j, k :: 0 <= j < k < |r| ==> r[j] < r[k]
  }

  /** A pass starts the jobs in index order, each at most once. */
  lemma {:induction false} StartListIncreasing(jobs: seq<SyncJob>, busy: seq<bool>, tick: Option<int>, n: nat)
    requires n <= |jobs| && BusyCovers(jobs, busy)
    requires tick.Some? ==> IntervalsUsable(jobs, busy)
    ensures Increasing(StartList(jobs, busy, tick, n))
  {
    if n > 0 {
      var r0 := StartList(jobs, busy, tick, n - 1);
      StartListIncreasing(jobs, busy, tick, n - 1);
      if Starts(jobs, busy, tick, n - 1) {
        var r := r0 + [n - 1];
        assert StartList(jobs, busy, tick, n) == r;
        forall j, k | 0 <= j < k < |r|
          ensures r[j] < r[k]
        {
          assert r[j] == r0[j];
          if k < |r0| {
            assert r[k] == r0[k];
          }
        }
      } else {
        assert StartList(jobs, busy, tick, n) == r0 + [] == r0;
      }
    }
  }

  /**
   * A timer pass at a tick (never negative: it starts at 0 and only counts up) starts an
   * enabled idle job exactly when the tick is a multiple of the job's interval.
   */
  lemma TimerStartsOnMultiples(jobs: seq<SyncJob>, busy: seq<bool>, tick: nat, i: nat)
    requires BusyCovers(jobs, busy) && IntervalsUsable(jobs, busy)
    requires i < |jobs| && jobs[i].enabled && !busy[i]
    ensures i in StartList(jobs, busy, Some(tick), |jobs|) <==> CppRem(tick, jobs[i].pollIntervalSeconds) == 0
  {
    StartListMembers(jobs, busy, Some(tick), |jobs|, i);
    assert CppRem(tick, jobs[i].pollIntervalSeconds) == tick % Abs(jobs[i].pollIntervalSeconds);
  }

  /** The "Checking..." notifications for the jobs `d`, in order. */
  function CheckingEvents(d: seq<nat>): (es: seq<Event>)
    ensures |es| == |d|
    ensures forall k :: 0 <= k < |d| ==> es[k] == Progress(d[k], "Checking...", 10)
  {
    seq(|d|, k requires 0 <= k < |d| => Progress(d[k], "Checking...", 10))
  }

  /** The hash checks for the jobs `d`, in order. */
  function HashRequests(jobs: seq<SyncJob>, d: seq<nat>): (rs: seq<Request>)
    requires forall k :: 0 <= k < |d| ==> d[k] < |jobs|
    ensures |rs| == |d|
    ensures forall k :: 0 <= k < |d| ==> rs[k] == HashCheck(d[k], HashUrl(jobs[d[k]]))
  {
    seq(|d|, k requires 0 <= k < |d| => HashCheck(d[k], HashUrl(jobs[d[k]])))
  }

  lemma CheckingEventsSnoc(d: seq<nat>, x: nat)
    ensures CheckingEvents(d + [x]) == CheckingEvents(d) + [Progress(x, "Checking...", 10)]
  {
  }

  lemma HashRequestsSnoc(jobs: seq<SyncJob>, d: seq<nat>, x: nat)
    requires forall k :: 0 <= k < |d| ==> d[k] < |jobs|
    requires x < |jobs|
    ensures HashRequests(jobs, d + [x]) == HashRequests(jobs, d) + [HashCheck(x, HashUrl(jobs[x]))]
  {
  }

  /**
   * Starting the jobs `d` from busy flags `busy0`, with events `e0` and requests `r0`
   * before, leaves the flags `busy`, the events `es` and the requests `rs`.
   */
  predicate LaunchedFrom(jobs: seq<SyncJob>, busy0: seq<bool>, e0: seq<Event>, r0: seq<Request>, d: seq<nat>,
                         busy: seq<bool>, es: seq<Event>, rs: seq<Request>)
    requires forall k :: 0 <= k < |d| ==> d[k] < |jobs|
  {
    && |busy| == |busy0|
    && (forall i :: 0 <= i < |busy0| ==> busy[i] == (busy0[i] || i in d))
    && es == e0 + CheckingEvents(d)
    && rs == r0 + HashRequests(jobs, d)
  }

  /** Starting one more job, past those already started, extends the record by that job. */
  lemma LaunchedSnoc(jobs: seq<SyncJob>, busy0: seq<bool>, e0: seq<Event>, r0: seq<Request>, d: seq<nat>,
                     busy: seq<bool>, es: seq<Event>, rs: seq<Request>, x: nat)
    requires forall k :: 0 <= k < |d| ==> d[k] < x
    requires x < |jobs| && x < |busy0|
    requires LaunchedFrom(jobs, busy0, e0, r0, d, busy, es, rs)
    ensures LaunchedFrom(jobs, busy0, e0, r0, d + [x], busy[x := true],
                         es + [Progress(x, "Checking...", 10)], rs + [HashCheck(x, HashUrl(jobs[x]))])
  {
    CheckingEventsSnoc(d, x);
    HashRequestsSnoc(jobs, d, x);
    assert forall i :: 0 <= i < |busy0| ==> (i in d + [x] <==> i in d || i == x);
  }

  // ---------------------------------------------------------------------
  // The abandon path

  /**
   * The busy-flag write of a completion whose job index is no longer in the list,
   * guarded so that it only clears a slot that exists.
   */
  function Abandoned(busy: seq<bool>, i: nat): (r: seq<bool>)
    ensures |r| == |busy|
    ensures i < |busy| ==> !r[i]
    ensures forall k :: 0 <= k < |busy| && k != i ==> r[k] == busy[k]
  {
    if i < |busy| then busy[i := false] else busy
  }

  /** The abandon write as the completion handlers perform it: `m_syncing[job_index] = false` with no bounds check. */
  function AbandonedAsWritten(busy: seq<bool>, i: nat): (r: seq<bool>)
    requires i < |busy|
    ensures |r| == |busy| && !r[i]
  {
    busy[i := false]
  }

  /**
   * Once the busy flags were resized to the job count, every completion that takes the
   * abandon branch (its index at or past the count) writes past the end of the flags.
   */
  lemma AbandonAfterReloadOutOfRange(busy: seq<bool>, count: nat, i: nat)
    requires i >= count
    ensures i >= |Resized(busy, count)|
  {
  }

  /**
   * Two jobs, the second one running; the user deletes one, so the flags shrink to one
   * slot; the second job's hash check then completes with index 1.
   */
  lemma StaleIndexAfterShrink()
    ensures var busy := Resized([false, true], 1); 1 >= 1 && !(1 < |busy|) && Abandoned(busy, 1) == busy
  {
  }

  // ---------------------------------------------------------------------
  // The manager

  class SyncManager {
    const config: SyncConfig
    var timerRunning: bool
    var syncing: seq<bool>
    var tick: nat
    var playlists: map<string, seq<string>>
    var events: seq<Event>
    var requests: seq<Request>

    constructor(config: SyncConfig, playlists: map<string, seq<string>>)
      ensures this.config == config && this.playlists == playlists
      ensures !timerRunning && syncing == [] && tick == 0 && events == [] && requests == []
    {
      this.config := config;
      this.playlists := playlists;
      timerRunning := false;
      syncing := [];
      tick := 0;
      events := [];
      requests := [];
    }

    /** After a pass, the jobs `d` are busy and their checks issued and announced, in order. */
    ghost predicate Launched(busy0: seq<bool>, events0: seq<Event>, requests0: seq<Request>, d: seq<nat>)
      requires forall k :: 0 <= k < |d| ==> d[k] < |config.jobs|
      reads this, config
    {
      LaunchedFrom(config.jobs, busy0, events0, requests0, d, syncing, events, requests)
    }

    /**
     * `check_and_sync_job`: an index past the job count is ignored; otherwise the job is
     * marked busy before its hash check is issued.
     */
    method CheckAndSyncJob(i: nat)
      requires i < |config.jobs| ==> i < |syncing|
      modifies this
      ensures i >= |config.jobs| ==> syncing == old(syncing) && events == old(events) && requests == old(requests)
      ensures i < |config.jobs| ==> syncing == old(syncing)[i := true]
      ensures i < |config.jobs| ==> events == old(events) + [Progress(i, "Checking...", 10)]
      ensures i < |config.jobs| ==> requests == old(requests) + [HashCheck(i, HashUrl(config.jobs[i]))]
      ensures tick == old(tick) && timerRunning == old(timerRunning) && playlists == old(playlists)
    {
      if i >= |config.jobs| {
        return;
      }
      var job := config.GetJob(i);
      syncing := syncing[i := true];
      events := events + [Progress(i, "Checking...", 10)];
      var url := HashUrl(job);
      requests := requests + [HashCheck(i, url)];
    }

    /** The pass over the job list that `on_timer` and `sync_all` share. */
    method StartPass(t: Option<int>)
      requires BusyCovers(config.jobs, syncing)
      requires t.Some? ==> IntervalsUsable(config.jobs, syncing)
      modifies this
      ensures Launched(old(syncing), old(events), old(requests), StartList(config.jobs, old(syncing), t, |config.jobs|))
      ensures tick == old(tick) && timerRunning == old(timerRunning) && playlists == old(playlists)
    {
      ghost var busy0 := syncing;
      var i := 0;
      while i < config.JobCount()
        invariant 0 <= i <= |config.jobs|
        invariant tick == old(tick) && timerRunning == old(timerRunning) && playlists == old(playlists)
        invariant LaunchedFrom(config.jobs, busy0, old(events), old(requests), StartList(config.jobs, busy0, t, i),
                               syncing, events, requests)
      {
        PassStep(t, i, busy0, old(events), old(requests));
        i := i + 1;
      }
    }

    /** One iteration of the pass: job `i` is started exactly when `Starts` says so. */
    method PassStep(t: Option<int>, i: nat, ghost busy0: seq<bool>, ghost e0: seq<Event>, ghost r0: seq<Request>)
      requires i < |config.jobs| && BusyCovers(config.jobs, busy0)
      requires t.Some? ==> IntervalsUsable(config.jobs, busy0)
      requires LaunchedFrom(config.jobs, busy0, e0, r0, StartList(config.jobs, busy0, t, i), syncing, events, requests)
      modifies this
      ensures LaunchedFrom(config.jobs, busy0, e0, r0, StartList(config.jobs, busy0, t, i + 1), syncing, events, requests)
      ensures tick == old(tick) && timerRunning == old(timerRunning) && playlists == old(playlists)
    {
      ghost var d := StartList(config.jobs, busy0, t, i);
      var job := config.GetJob(i);
      if job.enabled && !syncing[i] && (t.None? || CppRem(t.value, job.pollIntervalSeconds) == 0) {
        assert i !in d;
        assert Starts(config.jobs, busy0, t, i);
        assert StartList(config.jobs, busy0, t, i + 1) == d + [i];
        LaunchedSnoc(config.jobs, busy0, e0, r0, d, syncing, events, requests, i);
        CheckAndSyncJob(i);
      } else {
        assert i !in d;
        assert !Starts(config.jobs, busy0, t, i);
        assert StartList(config.jobs, busy0, t, i + 1) == d + [] == d;
      }
    }

    /**
     * `on_timer`: the tick counts every call; with the manager enabled, the pass starts
     * every enabled idle job whose interval divides the new tick.
     */
    method OnTimer()
      requires config.enabled ==> BusyCovers(config.jobs, syncing) && IntervalsUsable(config.jobs, syncing)
      modifies this
      ensures tick == old(tick) + 1
      ensures !config.enabled ==> syncing == old(syncing) && events == old(events) && requests == old(requests)
      ensures config.enabled ==>
        Launched(old(syncing), old(events), old(requests), StartList(config.jobs, old(syncing), Some(tick), |config.jobs|))
      ensures timerRunning == old(timerRunning) && playlists == old(playlists)
    {
      tick := tick + 1;
      if !config.IsEnabled() {
        return;
      }
      StartPass(Some(tick));
    }

    /** `sync_all`: every enabled idle job is started, whatever the global switch says. */
    method SyncAll()
      requires BusyCovers(config.jobs, syncing)
      modifies this
      ensures Launched(old(syncing), old(events), old(requests), StartList(config.jobs, old(syncing), None, |config.jobs|))
      ensures tick == old(tick) && timerRunning == old(timerRunning) && playlists == old(playlists)
    {
      StartPass(None);
    }

    /** `reload_config`: the busy flags follow the job count. */
    method ReloadConfig()
      modifies this
      ensures syncing == Resized(old(syncing), |config.jobs|)
      ensures events == old(events) && requests == old(requests) && tick == old(tick)
      ensures timerRunning == old(timerRunning) && playlists == old(playlists)
    {
      if |syncing| != config.JobCount() {
        syncing := Resized(syncing, config.JobCount());
      } else {
        ResizedSame(syncing);
      }
    }

    /**
     * `sync_now`: grows the busy flags if they are short, then starts the job if it
     * exists and is idle; whether the job is enabled does not matter.
     */
    method SyncNow(i: nat)
      modifies this
      ensures var busy := if |old(syncing)| < |config.jobs| then Resized(old(syncing), |config.jobs|) else old(syncing);
        && |busy| >= |config.jobs|
        && (i < |config.jobs| && !busy[i] ==>
              syncing == busy[i := true] && events == old(events) + [Progress(i, "Checking...", 10)]
              && requests == old(requests) + [HashCheck(i, HashUrl(config.jobs[i]))])
        && (!(i < |config.jobs| && !busy[i]) ==>
              syncing == busy && events == old(events) && requests == old(requests))
      ensures tick == old(tick) && timerRunning == old(timerRunning) && playlists == old(playlists)
    {
      if |syncing| < config.JobCount() {
        ReloadConfig();
      }
      if i < config.JobCount() && i < |syncing| && !syncing[i] {
        CheckAndSyncJob(i);
      }
    }

    /** `is_syncing`: an index without a busy flag is not syncing. */
    function IsSyncing(i: nat): (r: bool)
      reads this
      ensures r <==> i < |syncing| && syncing[i]
    {
      i < |syncing| && syncing[i]
    }

    method StartTimer()
      modifies this
      ensures timerRunning
      ensures syncing == old(syncing) && events == old(events) && requests == old(requests)
      ensures tick == old(tick) && playlists == old(playlists)
    {
      if !timerRunning {
        timerRunning := true;
      }
    }

    method StopTimer()
      modifies this
      ensures !timerRunning
      ensures syncing == old(syncing) && events == old(events) && requests == old(requests)
      ensures tick == old(tick) && playlists == old(playlists)
    {
      if timerRunning {
        timerRunning := false;
      }
    }

    /**
     * `start`: the busy flags are sized to the job count; with the manager enabled and
     * at least one job, the timer starts and every enabled job is synced at once.
     */
    method Start()
      modifies this
      ensures var busy := Resized(old(syncing), |config.jobs|);
        && BusyCovers(config.jobs, busy)
        && (config.enabled && |config.jobs| > 0 ==>
              timerRunning && Launched(busy, old(events), old(requests), StartList(config.jobs, busy, None, |config.jobs|)))
        && (!(config.enabled && |config.jobs| > 0) ==>
              timerRunning == old(timerRunning) && syncing == busy && events == old(events) && requests == old(requests))
      ensures tick == old(tick) && playlists == old(playlists)
    {
      syncing := Resized(syncing, config.JobCount());
      if config.IsEnabled() && config.JobCount() > 0 {
        StartTimer();
        SyncAll();
      }
    }

    /** `stop`: the timer stops; runs in flight are not cancelled. */
    method Stop()
      modifies this
      ensures !timerRunning
      ensures syncing == old(syncing) && events == old(events) && requests == old(requests)
      ensures tick == old(tick) && playlists == old(playlists)
    {
      StopTimer();
    }

    // -------------------------------------------------------------------
    // The target playlist

    /** `find_or_create_playlist`: an existing playlist is kept as it is, a missing one is created empty. */
    method FindOrCreatePlaylist(name: string)
      modifies this
      ensures name in playlists
      ensures name in old(playlists) ==> playlists == old(playlists)
      ensures name !in old(playlists) ==> playlists == old(playlists)[name := []]
      ensures syncing == old(syncing) && events == old(events) && requests == old(requests)
      ensures tick == old(tick) && timerRunning == old(timerRunning)
    {
      if name !in playlists {
        playlists := playlists[name := []];
      }
    }

    /**
     * `update_playlist`: the entries of the manifest, stream paths prefixed with the
     * server url. An empty list touches no playlist; otherwise the target is found or
     * created, cleared, and given the list in order.
     */
    method UpdatePlaylist(job: SyncJob, content: string)
      modifies this
      ensures var paths := ResolveAll(job.serverUrl, Entries(content));
        playlists == if paths == [] then old(playlists) else old(playlists)[job.targetPlaylist := paths]
      ensures syncing == old(syncing) && events == old(events) && requests == old(requests)
      ensures tick == old(tick) && timerRunning == old(timerRunning)
    {
      var paths := ParseM3u8(content);
      paths := ResolvePaths(job.serverUrl, paths);
      if |paths| == 0 {
        return;
      }
      FindOrCreatePlaylist(job.targetPlaylist);
      playlists := playlists[job.targetPlaylist := []];
      playlists := playlists[job.targetPlaylist := playlists[job.targetPlaylist] + paths];
      assert [] + paths == paths;
      assert playlists == old(playlists)[job.targetPlaylist := paths];
    }

    // -------------------------------------------------------------------
    // Completions of the two requests

    /**
     * Completion of the hash check. A failure records the error and ends the run. An
     * unchanged hash with the target playlist present ends the run with the error
     * cleared. Otherwise the download is issued, carrying the new hash, and the job
     * stays busy.
     */
    method OnHashComplete(i: nat, success: bool, response: string, error: string)
      requires i < |config.jobs| ==> i < |syncing|
      modifies this, config
      ensures config.enabled == old(config.enabled) && config.defaultInterval == old(config.defaultInterval)
      ensures config.stored == old(config.stored)
      ensures playlists == old(playlists) && tick == old(tick) && timerRunning == old(timerRunning)
      ensures i >= |old(config.jobs)| ==>
        config.jobs == old(config.jobs) && syncing == Abandoned(old(syncing), i)
        && events == old(events) && requests == old(requests)
      ensures i < |old(config.jobs)| && !success ==>
        config.jobs == old(config.jobs)[i := old(config.jobs)[i].(lastError := error)]
        && syncing == old(syncing)[i := false]
        && events == old(events) + [Complete(i, "Error")] && requests == old(requests)
      ensures i < |old(config.jobs)| && success && response == old(config.jobs)[i].lastHash
              && old(config.jobs)[i].targetPlaylist in playlists ==>
        config.jobs == old(config.jobs)[i := old(config.jobs)[i].(lastError := "")]
        && syncing == old(syncing)[i := false]
        && events == old(events) + [Complete(i, "OK (No Change)")] && requests == old(requests)
      ensures i < |old(config.jobs)| && success && !(response == old(config.jobs)[i].lastHash
              && old(config.jobs)[i].targetPlaylist in playlists) ==>
        config.jobs == old(config.jobs) && syncing == old(syncing)
        && events == old(events) + [Progress(i, "Downloading...", 50)]
        && requests == old(requests) + [Download(i, PlaylistUrl(old(config.jobs)[i]), response)]
    {
      if i >= config.JobCount() {
        syncing := Abandoned(syncing, i);
        return;
      }
      var job := config.GetJob(i);
      if !success {
        config.SetJobInPlace(i, job.(lastError := error));
        syncing := syncing[i := false];
        events := events + [Complete(i, "Error")];
        return;
      }
      var forceUpdate := false;
      if job.targetPlaylist !in playlists {
        forceUpdate := true;
      }
      if response == job.lastHash && !forceUpdate {
        config.SetJobInPlace(i, job.(lastError := ""));
        syncing := syncing[i := false];
        events := events + [Complete(i, "OK (No Change)")];
        return;
      }
      events := events + [Progress(i, "Downloading...", 50)];
      var url := PlaylistUrl(job);
      requests := requests + [Download(i, url, response)];
    }

    /**
     * Completion of the download. A failure records the error and ends the run with
     * the stored hash untouched. A success rewrites the target playlist, records the
     * new hash (even when the manifest had no entries), clears the error and saves.
     */
    method OnPlaylistComplete(i: nat, newHash: string, success: bool, response: string, error: string)
      requires i < |config.jobs| ==> i < |syncing|
      modifies this, config
      ensures config.enabled == old(config.enabled) && config.defaultInterval == old(config.defaultInterval)
      ensures tick == old(tick) && timerRunning == old(timerRunning) && requests == old(requests)
      ensures i >= |old(config.jobs)| ==>
        config.jobs == old(config.jobs) && config.stored == old(config.stored)
        && syncing == Abandoned(old(syncing), i) && events == old(events) && playlists == old(playlists)
      ensures i < |old(config.jobs)| && !success ==>
        config.jobs == old(config.jobs)[i := old(config.jobs)[i].(lastError := error)]
        && config.stored == old(config.stored)
        && syncing == old(syncing)[i := false]
        && events == old(events) + [Complete(i, "Error")] && playlists == old(playlists)
      ensures i < |old(config.jobs)| && success ==>
        var job := old(config.jobs)[i];
        var paths := ResolveAll(job.serverUrl, Entries(response));
        && playlists == (if paths == [] then old(playlists) else old(playlists)[job.targetPlaylist := paths])
        && config.jobs == old(config.jobs)[i := job.(lastHash := newHash, lastError := "")]
        && config.InSync()
        && syncing == old(syncing)[i := false]
        && events == old(events) + [Progress(i, "Updating Playlist...", 80), Complete(i, "OK")]
    {
      if i >= config.JobCount() {
        syncing := Abandoned(syncing, i);
        return;
      }
      var job := config.GetJob(i);
      if !success {
        config.SetJobInPlace(i, job.(lastError := error));
        syncing := syncing[i := false];
        events := events + [Complete(i, "Error")];
        return;
      }
      events := events + [Progress(i, "Updating Playlist...", 80)];
      UpdatePlaylist(job, response);
      config.SetJobInPlace(i, job.(lastHash := newHash, lastError := ""));
      config.Save();
      syncing := syncing[i := false];
      events := events + [Complete(i, "OK")];
    }
  }
}
