/**
 * The data side of the preferences page: the job edit dialog's read-back, the page's
 * local copy of the registry, its add/edit/remove/sync-now actions, `apply`, `reset`
 * and the change test. The list view, buttons and status texts are not modelled; a
 * selection is the list's selected index (-1 for none) and a dialog is the values it
 * returned, or no value when it was cancelled.
 */
module Preferences {
  import opened Common
  import opened Jobs
  import opened Scheduler

  /** What the edit dialog's controls hold when OK is pressed. */
  datatype DialogInput = DialogInput(
    serverUrl: string,
    endpoint: string,
    targetPlaylist: string,
    interval: UInt32,
    enabled: bool)

  /** The smallest poll interval the dialog accepts, in seconds. */
  const MinInterval: Int32 := 10

  /**
   * `CEditJobDialog::OnOK`'s interval: the unsigned control value stored into an `int`
   * (values from 2^31 on wrap to negative), then raised to the minimum.
   */
  function ClampInterval(v: UInt32): (r: Int32)
    ensures r >= MinInterval
    ensures ToInt32(v) >= MinInterval ==> r == ToInt32(v)
    ensures ToInt32(v) < MinInterval ==> r == MinInterval
  {
    var n := ToInt32(v);
    if n < MinInterval then MinInterval else n
  }

  /** A control value too large for an `int` reads back as the minimum, not as a long interval. */
  lemma ClampWrapsLarge(v: UInt32)
    requires v >= 0x8000_0000
    ensures ClampInterval(v) == MinInterval
  {
  }

  /** `CEditJobDialog::OnOK`: the five edited fields are read back; the hash and error stay. */
  function EditedJob(job: SyncJob, d: DialogInput): (r: SyncJob)
    ensures r.serverUrl == d.serverUrl && r.playlistEndpoint == d.endpoint
    ensures r.targetPlaylist == d.targetPlaylist && r.enabled == d.enabled
    ensures r.pollIntervalSeconds == ClampInterval(d.interval)
    ensures r.lastHash == job.lastHash && r.lastError == job.lastError
  {
    job.(serverUrl := d.serverUrl, playlistEndpoint := d.endpoint,
         targetPlaylist := d.targetPlaylist,
         pollIntervalSeconds := ClampInterval(d.interval), enabled := d.enabled)
  }

  /** The job `OnAdd` offers in the dialog. */
  const NewJob := SyncJob("http://localhost:8090", "music", "Synced Music", true, 60, "", "")

  /** The settings the page compares: everything but the hash and the error. */
  datatype Settings = Settings(
    serverUrl: string, endpoint: string, targetPlaylist: string, interval: Int32, enabled: bool)

  function SettingsOf(job: SyncJob): Settings {
    Settings(job.serverUrl, job.playlistEndpoint, job.targetPlaylist, job.pollIntervalSeconds, job.enabled)
  }

  function AllSettings(jobs: seq<SyncJob>): (r: seq<Settings>)
    ensures |r| == |jobs|
    ensures forall i :: 0 <= i < |jobs| ==> r[i] == SettingsOf(jobs[i])
  {
    seq(|jobs|, i requires 0 <= i < |jobs| => SettingsOf(jobs[i]))
  }

  /** Two jobs differ in one of the five fields `HasChanged` compares. */
  predicate Differs(a: SyncJob, b: SyncJob) {
    a.serverUrl != b.serverUrl || a.playlistEndpoint != b.playlistEndpoint
    || a.targetPlaylist != b.targetPlaylist || a.pollIntervalSeconds != b.pollIntervalSeconds
    || a.enabled != b.enabled
  }

  /** `HasChanged`'s answer for the page's state against the registry's. */
  predicate Changed(enabled: bool, jobs: seq<SyncJob>, cfgEnabled: bool, cfgJobs: seq<SyncJob>) {
    enabled != cfgEnabled || |jobs| != |cfgJobs|
    || exists i :: 0 <= i < |jobs| && Differs(jobs[i], cfgJobs[i])
  }

  /** The page has changed exactly when the flag or the list of settings differs. */
  lemma ChangedIffSettingsDiffer(enabled: bool, jobs: seq<SyncJob>, cfgEnabled: bool, cfgJobs: seq<SyncJob>)
    ensures Changed(enabled, jobs, cfgEnabled, cfgJobs)
      <==> enabled != cfgEnabled || AllSettings(jobs) != AllSettings(cfgJobs)
  {
    if enabled == cfgEnabled && AllSettings(jobs) == AllSettings(cfgJobs) {
      forall i | 0 <= i < |jobs|
        ensures !Differs(jobs[i], cfgJobs[i])
      {
        assert AllSettings(jobs)[i] == AllSettings(cfgJobs)[i];
      }
    }
    if enabled == cfgEnabled && |jobs| == |cfgJobs| && !Changed(enabled, jobs, cfgEnabled, cfgJobs) {
      assert AllSettings(jobs) == AllSettings(cfgJobs) by {
        forall i | 0 <= i < |jobs|
          ensures AllSettings(jobs)[i] == AllSettings(cfgJobs)[i]
        {
          assert !Differs(jobs[i], cfgJobs[i]);
        }
      }
    }
  }

  /** Hashes and errors never count as a change. */
  lemma ChangedIgnoresHashAndError(enabled: bool, jobs: seq<SyncJob>, cfgEnabled: bool, cfgJobs: seq<SyncJob>,
                                   others: seq<SyncJob>)
    requires |others| == |cfgJobs|
    requires forall i :: 0 <= i < |cfgJobs| ==> SettingsOf(others[i]) == SettingsOf(cfgJobs[i])
    ensures Changed(enabled, jobs, cfgEnabled, cfgJobs) == Changed(enabled, jobs, cfgEnabled, others)
  {
    assert AllSettings(others) == AllSettings(cfgJobs);
    ChangedIffSettingsDiffer(enabled, jobs, cfgEnabled, cfgJobs);
    ChangedIffSettingsDiffer(enabled, jobs, cfgEnabled, others);
  }

  /** `CPreferencesPage`: the page's working copy of the switch and the job list. */
  class PreferencesPage {
    const manager: SyncManager
    var enabled: bool
    var jobs: seq<SyncJob>

    /** The page opens with a copy of the registry (`OnInitDialog`). */
    constructor(manager: SyncManager)
      ensures this.manager == manager
      ensures enabled == manager.config.enabled && jobs == manager.config.jobs
    {
      this.manager := manager;
      enabled := false;
      jobs := [];
      new;
      OnInitDialog();
    }

    /** `OnInitDialog`: copies the switch and every job of the registry, in order. */
    method OnInitDialog()
      modifies this
      ensures enabled == manager.config.enabled && jobs == manager.config.jobs
    {
      var config := manager.config;
      enabled := config.IsEnabled();
      jobs := [];
      var i := 0;
      while i < config.JobCount()
        invariant i <= |config.jobs|
        invariant jobs == config.jobs[..i] && enabled == config.enabled
      {
        jobs := jobs + [config.GetJob(i)];
        i := i + 1;
      }
      assert config.jobs[..i] == config.jobs;
    }

    /** `OnEnabledChanged`: the switch follows the check box. */
    method OnEnabledChanged(checked: bool)
      modifies this
      ensures enabled == checked && jobs == old(jobs)
    {
      enabled := checked;
    }

    /** `OnAdd`: the edited new job is appended only when the dialog returns OK. */
    method OnAdd(dialog: Option<DialogInput>)
      modifies this
      ensures dialog.None? ==> jobs == old(jobs)
      ensures dialog.Some? ==> jobs == old(jobs) + [EditedJob(NewJob, dialog.value)]
      ensures enabled == old(enabled)
    {
      if dialog.Some? {
        jobs := jobs + [EditedJob(NewJob, dialog.value)];
      }
    }

    /** `OnEdit`: a selected job is edited in place when the dialog returns OK. */
    method OnEdit(sel: int, dialog: Option<DialogInput>)
      modifies this
      ensures !(0 <= sel < |old(jobs)|) || dialog.None? ==> jobs == old(jobs)
      ensures 0 <= sel < |old(jobs)| && dialog.Some? ==>
        jobs == old(jobs)[sel := EditedJob(old(jobs)[sel], dialog.value)]
      ensures enabled == old(enabled)
    {
      if sel < 0 || sel >= |jobs| {
        return;
      }
      if dialog.Some? {
        jobs := jobs[sel := EditedJob(jobs[sel], dialog.value)];
      }
    }

    /** `OnRemove`: the selected job is erased; no selection changes nothing. */
    method OnRemove(sel: int)
      modifies this
      ensures !(0 <= sel < |old(jobs)|) ==> jobs == old(jobs)
      ensures 0 <= sel < |old(jobs)| ==> jobs == Erase(old(jobs), sel)
      ensures enabled == old(enabled)
    {
      if sel < 0 || sel >= |jobs| {
        return;
      }
      jobs := Erase(jobs, sel);
    }

    /**
     * `apply`: the registry takes the page's switch and jobs (hashes and errors as they
     * were copied), then the manager resizes its busy flags. Saving happens inside the
     * removes and adds, so with no job on either side nothing is saved.
     */
    method Apply()
      modifies manager, manager.config
      ensures manager.config.jobs == jobs && manager.config.enabled == enabled
      ensures manager.config.defaultInterval == old(manager.config.defaultInterval)
      ensures |old(manager.config.jobs)| > 0 || |jobs| > 0 ==> manager.config.InSync()
      ensures |old(manager.config.jobs)| == 0 && |jobs| == 0 ==> manager.config.stored == old(manager.config.stored)
      ensures manager.syncing == Resized(old(manager.syncing), |jobs|)
      ensures manager.events == old(manager.events) && manager.requests == old(manager.requests)
      ensures manager.tick == old(manager.tick) && manager.playlists == old(manager.playlists)
      ensures manager.timerRunning == old(manager.timerRunning)
      ensures !Changed(enabled, jobs, manager.config.enabled, manager.config.jobs)
    {
      var config := manager.config;
      config.SetEnabled(enabled);
      while config.JobCount() > 0
        invariant config.enabled == enabled && config.defaultInterval == old(config.defaultInterval)
        invariant |config.jobs| < |old(config.jobs)| ==> config.InSync()
        invariant |config.jobs| == |old(config.jobs)| ==> config.stored == old(config.stored)
        invariant |config.jobs| <= |old(config.jobs)|
        invariant unchanged(manager)
        decreases |config.jobs|
      {
        config.RemoveJob(0);
      }
      var i := 0;
      while i < |jobs|
        invariant i <= |jobs|
        invariant config.jobs == jobs[..i]
        invariant config.enabled == enabled && config.defaultInterval == old(config.defaultInterval)
        invariant |old(config.jobs)| > 0 || i > 0 ==> config.InSync()
        invariant |old(config.jobs)| == 0 && i == 0 ==> config.stored == old(config.stored)
        invariant unchanged(manager)
      {
        config.AddJob(jobs[i]);
        i := i + 1;
      }
      assert jobs[..i] == jobs;
      manager.ReloadConfig();
    }

    /**
     * `OnSyncNow`: with a job selected, apply the page and then ask the manager to sync
     * that job, which it starts when it is idle; no selection does nothing.
     */
    method OnSyncNow(sel: int)
      modifies manager, manager.config
      ensures !(0 <= sel < |jobs|) ==> unchanged(manager, manager.config)
      ensures 0 <= sel < |jobs| ==>
        var busy := Resized(old(manager.syncing), |jobs|);
        && manager.config.jobs == jobs && manager.config.enabled == enabled
        && (!busy[sel] ==>
              manager.syncing == busy[sel := true]
              && manager.events == old(manager.events) + [Progress(sel, "Checking...", 10)]
              && manager.requests == old(manager.requests) + [HashCheck(sel, HashUrl(jobs[sel]))])
        && (busy[sel] ==>
              manager.syncing == busy && manager.events == old(manager.events)
              && manager.requests == old(manager.requests))
    {
      if sel < 0 || sel >= |jobs| {
        return;
      }
      Apply();
      manager.SyncNow(sel);
    }

    /** `reset`: switched on with no jobs. */
    method Reset()
      modifies this
      ensures enabled && jobs == []
    {
      enabled := true;
      jobs := [];
    }

    /** `HasChanged`: the switch, the count, then the five fields of each job in turn. */
    method HasChanged() returns (r: bool)
      ensures r == Changed(enabled, jobs, manager.config.enabled, manager.config.jobs)
    {
      var config := manager.config;
      if enabled != config.IsEnabled() {
        return true;
      }
      if |jobs| != config.JobCount() {
        return true;
      }
      var i := 0;
      while i < |jobs|
        invariant i <= |jobs|
        invariant forall k :: 0 <= k < i ==> !Differs(jobs[k], config.jobs[k])
      {
        var a := jobs[i];
        var b := config.GetJob(i);
        if a.serverUrl != b.serverUrl || a.playlistEndpoint != b.playlistEndpoint
          || a.targetPlaylist != b.targetPlaylist || a.pollIntervalSeconds != b.pollIntervalSeconds
          || a.enabled != b.enabled
        {
          return true;
        }
        i := i + 1;
      }
      return false;
    }
  }
}
