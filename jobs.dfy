/**
 * The job registry: the `SyncJob` record, its field-by-field serialisation, and the
 * `sync_config` singleton that keeps the ordered job list, the global switch and the
 * default poll interval, copying them to and from the host's persisted settings.
 */
module Jobs {
  import opened Common

  /** One playlist sync job. `lastError` is run-time status only. */
  datatype SyncJob = SyncJob(
    serverUrl: string,
    playlistEndpoint: string,
    targetPlaylist: string,
    enabled: bool,
    pollIntervalSeconds: Int32,
    lastHash: string,
    lastError: string)

  /** A default-constructed `SyncJob`: enabled, polled every 60 seconds, every text empty. */
  const DefaultJob := SyncJob("", "", "", true, 60, "", "")

  // ---------------------------------------------------------------------
  // Serialisation

  /** One value on a settings stream; the stream's byte layout is not modelled. */
  datatype Field = Text(text: string) | Flag(flag: bool) | Number(number: Int32)

  /** The fields `SyncJob::write` puts on the stream, in order. */
  function Encode(job: SyncJob): (fs: seq<Field>)
    ensures |fs| == 6
    ensures fs[0] == Text(job.serverUrl) && fs[1] == Text(job.playlistEndpoint)
    ensures fs[2] == Text(job.targetPlaylist) && fs[3] == Flag(job.enabled)
    ensures fs[4] == Number(job.pollIntervalSeconds) && fs[5] == Text(job.lastHash)
  {
    [Text(job.serverUrl), Text(job.playlistEndpoint), Text(job.targetPlaylist),
     Flag(job.enabled), Number(job.pollIntervalSeconds), Text(job.lastHash)]
  }

  /** The six fields at the head of `fs` have the kinds `SyncJob::read` expects. */
  predicate WellFormed(fs: seq<Field>) {
    |fs| >= 6 && fs[0].Text? && fs[1].Text? && fs[2].Text? && fs[3].Flag? && fs[4].Number? && fs[5].Text?
  }

  /**
   * What `SyncJob::read` makes of `into` from the head of `fs`: the six serialised
   * fields are replaced, `lastError` is left as it was. A stream that runs short or
   * holds the wrong kind of value is an error (the source's stream exception).
   */
  function Decode(fs: seq<Field>, into: SyncJob): (r: Option<SyncJob>)
    ensures r.Some? <==> WellFormed(fs)
    ensures r.Some? ==> Encode(r.value) == fs[..6] && r.value.lastError == into.lastError
  {
    if WellFormed(fs) then
      Some(SyncJob(fs[0].text, fs[1].text, fs[2].text, fs[3].flag, fs[4].number, fs[5].text, into.lastError))
    else None
  }

  /** Reading back what was written restores every field but `lastError`, which stays the reader's. */
  lemma ReadAfterWrite(job: SyncJob, into: SyncJob, rest: seq<Field>)
    ensures Decode(Encode(job) + rest, into) == Some(job.(lastError := into.lastError))
  {
    var fs := Encode(job) + rest;
    assert fs[..6] == Encode(job);
  }

  /** `lastError` is never written: two jobs that differ only in it serialise alike. */
  lemma EncodeIgnoresLastError(a: SyncJob, b: SyncJob)
    ensures Encode(a) == Encode(b) <==> a.(lastError := "") == b.(lastError := "")
  {
    if Encode(a) == Encode(b) {
      assert Encode(a)[0] == Encode(b)[0] && Encode(a)[1] == Encode(b)[1] && Encode(a)[2] == Encode(b)[2];
      assert Encode(a)[3] == Encode(b)[3] && Encode(a)[4] == Encode(b)[4] && Encode(a)[5] == Encode(b)[5];
    }
  }

  /** A job restored from the settings of an earlier session has an empty `lastError`. */
  lemma LastErrorLost(job: SyncJob)
    ensures Decode(Encode(job), DefaultJob) == Some(job.(lastError := ""))
  {
    ReadAfterWrite(job, DefaultJob, []);
    assert Encode(job) + [] == Encode(job);
  }

  /** A settings stream: the values written so far and the read position. */
  class FieldStream {
    var fields: seq<Field>
    var pos: nat

    constructor(init: seq<Field>)
      ensures fields == init && pos == 0
    {
      fields := init;
      pos := 0;
    }

    /** Stream `<<`: appends one value. */
    method Put(f: Field)
      modifies this
      ensures fields == old(fields) + [f] && pos == old(pos)
    {
      fields := fields + [f];
    }

    /** Stream `>>` into a string; a missing or non-text value is an error. */
    method GetText() returns (r: Option<string>)
      requires pos <= |fields|
      modifies this
      ensures fields == old(fields)
      ensures r.Some? <==> old(pos) < |fields| && fields[old(pos)].Text?
      ensures r.Some? ==> r.value == fields[old(pos)].text && pos == old(pos) + 1
      ensures r.None? ==> pos == old(pos)
    {
      if pos < |fields| && fields[pos].Text? {
        r := Some(fields[pos].text);
        pos := pos + 1;
      } else {
        r := None;
      }
    }

    method GetFlag() returns (r: Option<bool>)
      requires pos <= |fields|
      modifies this
      ensures fields == old(fields)
      ensures r.Some? <==> old(pos) < |fields| && fields[old(pos)].Flag?
      ensures r.Some? ==> r.value == fields[old(pos)].flag && pos == old(pos) + 1
      ensures r.None? ==> pos == old(pos)
    {
      if pos < |fields| && fields[pos].Flag? {
        r := Some(fields[pos].flag);
        pos := pos + 1;
      } else {
        r := None;
      }
    }

    method GetNumber() returns (r: Option<Int32>)
      requires pos <= |fields|
      modifies this
      ensures fields == old(fields)
      ensures r.Some? <==> old(pos) < |fields| && fields[old(pos)].Number?
      ensures r.Some? ==> r.value == fields[old(pos)].number && pos == old(pos) + 1
      ensures r.None? ==> pos == old(pos)
    {
      if pos < |fields| && fields[pos].Number? {
        r := Some(fields[pos].number);
        pos := pos + 1;
      } else {
        r := None;
      }
    }

    /** `SyncJob::write`: the six serialised fields, in declaration order. */
    method WriteJob(job: SyncJob)
      modifies this
      ensures fields == old(fields) + Encode(job) && pos == old(pos)
    {
      Put(Text(job.serverUrl));
      Put(Text(job.playlistEndpoint));
      Put(Text(job.targetPlaylist));
      Put(Flag(job.enabled));
      Put(Number(job.pollIntervalSeconds));
      Put(Text(job.lastHash));
    }

    /**
     * `SyncJob::read` into a copy of `into`: field after field in the order `WriteJob`
     * writes them, stopping at the first value that is missing or of the wrong kind.
     */
    method ReadJob(into: SyncJob) returns (r: Option<SyncJob>)
      requires pos <= |fields|
      modifies this
      ensures fields == old(fields) && old(pos) <= pos <= |fields|
      ensures r == Decode(fields[old(pos)..], into)
      ensures r.Some? ==> pos == old(pos) + 6
    {
      var job := into;
      r := None;
      var url := GetText();
      if url.None? { return; }
      job := job.(serverUrl := url.value);
      var endpoint := GetText();
      if endpoint.None? { return; }
      job := job.(playlistEndpoint := endpoint.value);
      var target := GetText();
      if target.None? { return; }
      job := job.(targetPlaylist := target.value);
      var enabled := GetFlag();
      if enabled.None? { return; }
      job := job.(enabled := enabled.value);
      var interval := GetNumber();
      if interval.None? { return; }
      job := job.(pollIntervalSeconds := interval.value);
      var hash := GetText();
      if hash.None? { return; }
      job := job.(lastHash := hash.value);
      r := Some(job);
    }
  }

  // ---------------------------------------------------------------------
  // The registry

  /** The host's persisted settings: the global switch, the default interval and the job list. */
  datatype Stored = Stored(enabled: bool, pollInterval: Int32, jobs: seq<SyncJob>)

  /** The persisted settings before anything was ever saved. */
  const FirstRun := Stored(true, 60, [])

  /** `s` without its element `i`, the others in their order (`vector::erase`). */
  function Erase<T>(s: seq<T>, i: nat): (r: seq<T>)
    requires i < |s|
    ensures |r| == |s| - 1
    ensures forall k :: 0 <= k < i ==> r[k] == s[k]
    ensures forall k :: i <= k < |r| ==> r[k] == s[k + 1]
  {
    s[..i] + s[i + 1..]
  }

  /** Erasing loses exactly one occurrence of the erased element and nothing else. */
  lemma EraseMultiset<T>(s: seq<T>, i: nat)
    requires i < |s|
    ensures multiset(Erase(s, i)) + multiset{s[i]} == multiset(s)
  {
    assert s == s[..i] + [s[i]] + s[i + 1..];
  }

  /** `sync_config`: the in-memory registry and the persisted copy it saves to and loads from. */
  class SyncConfig {
    var jobs: seq<SyncJob>
    var enabled: bool
    var defaultInterval: Int32
    var stored: Stored

    /** The constructor loads the persisted settings over the member defaults. */
    constructor(s: Stored)
      ensures stored == s
      ensures jobs == s.jobs && enabled == s.enabled && defaultInterval == s.pollInterval
    {
      jobs := [];
      enabled := true;
      defaultInterval := 60;
      stored := s;
      new;
      Load();
    }

    /** The in-memory state is what was last saved or loaded. */
    ghost predicate InSync()
      reads this
    {
      stored == Stored(enabled, defaultInterval, jobs)
    }

    function JobCount(): (n: nat)
      reads this
      ensures n == |jobs|
    {
      |jobs|
    }

    /** `get_job`: no bounds check, so the caller must stay below the count. */
    function GetJob(i: nat): (job: SyncJob)
      requires i < |jobs|
      reads this
      ensures job == jobs[i]
    {
      jobs[i]
    }

    /** A write through the reference `get_job_mutable` returns: no bounds check, no save. */
    method SetJobInPlace(i: nat, job: SyncJob)
      requires i < |jobs|
      modifies this
      ensures jobs == old(jobs)[i := job]
      ensures enabled == old(enabled) && defaultInterval == old(defaultInterval) && stored == old(stored)
    {
      jobs := jobs[i := job];
    }

    function IsEnabled(): bool
      reads this
    {
      enabled
    }

    method SetEnabled(b: bool)
      modifies this
      ensures IsEnabled() == b
      ensures jobs == old(jobs) && defaultInterval == old(defaultInterval) && stored == old(stored)
    {
      enabled := b;
    }

    function GetDefaultInterval(): Int32
      reads this
    {
      defaultInterval
    }

    method SetDefaultInterval(seconds: Int32)
      modifies this
      ensures GetDefaultInterval() == seconds
      ensures jobs == old(jobs) && enabled == old(enabled) && stored == old(stored)
    {
      defaultInterval := seconds;
    }

    /** `save`: the settings, then the list emptied and refilled job by job. */
    method Save()
      modifies this
      ensures InSync()
      ensures jobs == old(jobs) && enabled == old(enabled) && defaultInterval == old(defaultInterval)
    {
      stored := stored.(enabled := enabled);
      stored := stored.(pollInterval := defaultInterval);
      stored := stored.(jobs := []);
      var i := 0;
      while i < |jobs|
        invariant 0 <= i <= |jobs|
        invariant jobs == old(jobs) && enabled == old(enabled) && defaultInterval == old(defaultInterval)
        invariant stored == Stored(enabled, defaultInterval, jobs[..i])
      {
        stored := stored.(jobs := stored.jobs + [jobs[i]]);
        i := i + 1;
      }
    }

    /** `load`: the settings, then the in-memory list emptied and refilled from the persisted one. */
    method Load()
      modifies this
      ensures InSync()
      ensures stored == old(stored)
    {
      enabled := stored.enabled;
      defaultInterval := stored.pollInterval;
      jobs := [];
      var i := 0;
      while i < |stored.jobs|
        invariant 0 <= i <= |stored.jobs|
        invariant stored == old(stored) && enabled == stored.enabled && defaultInterval == stored.pollInterval
        invariant jobs == stored.jobs[..i]
      {
        jobs := jobs + [stored.jobs[i]];
        i := i + 1;
      }
    }

    /** `add_job`: appended at the end, then saved. */
    method AddJob(job: SyncJob)
      modifies this
      ensures jobs == old(jobs) + [job]
      ensures enabled == old(enabled) && defaultInterval == old(defaultInterval)
      ensures InSync()
    {
      jobs := jobs + [job];
      Save();
    }

    /** `remove_job`: an index in range erases that job and saves; any other changes nothing. */
    method RemoveJob(index: nat)
      modifies this
      ensures index < |old(jobs)| ==> jobs == Erase(old(jobs), index) && InSync()
      ensures index >= |old(jobs)| ==> jobs == old(jobs) && stored == old(stored)
      ensures enabled == old(enabled) && defaultInterval == old(defaultInterval)
    {
      if index < |jobs| {
        jobs := Erase(jobs, index);
        Save();
      }
    }

    /** `update_job`: an index in range replaces that job and saves; any other changes nothing. */
    method UpdateJob(index: nat, job: SyncJob)
      modifies this
      ensures index < |old(jobs)| ==> jobs == old(jobs)[index := job] && InSync()
      ensures index >= |old(jobs)| ==> jobs == old(jobs) && stored == old(stored)
      ensures enabled == old(enabled) && defaultInterval == old(defaultInterval)
    {
      if index < |jobs| {
        jobs := jobs[index := job];
        Save();
      }
    }
  }

  /** Loading what was just saved gives back the same jobs and settings. */
  method SaveThenLoad(c: SyncConfig)
    modifies c
    ensures c.jobs == old(c.jobs) && c.enabled == old(c.enabled) && c.defaultInterval == old(c.defaultInterval)
    ensures c.InSync()
  {
    c.Save();
    c.Load();
  }
}
