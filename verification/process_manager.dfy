/** The job registry: one record per annotation job, keyed by `"{session_id}_{timestamp}"`. */
module ProcessManagement {
  import opened Wrappers

  /** `ProcessInfo.status`: the four names the system uses, and any other string a caller hands to
      `update_process_status`, which stores it unchecked. */
  datatype Status = Running | Completed | Cancelled | Error | Other(name: string)

  const KnownStatusNames := {"running", "completed", "cancelled", "error"}

  /** A status a job can hold: `Other` only for a string that is none of the four names, so each
      Python string has exactly one status. */
  type StatusValue = s: Status | !s.Other? || s.name !in KnownStatusNames witness Running

  /** The string Python stores for a status. */
  function StatusName(s: Status): string {
    match s
    case Running => "running"
    case Completed => "completed"
    case Cancelled => "cancelled"
    case Error => "error"
    case Other(name) => name
  }

  /** The status a string stands for. */
  function StatusNamed(name: string): (s: StatusValue)
    ensures StatusName(s) == name
  {
    if name == "running" then Running
    else if name == "completed" then Completed
    else if name == "cancelled" then Cancelled
    else if name == "error" then Error
    else Other(name)
  }

  /** Distinct statuses have distinct names, so a status is the one its name stands for. */
  lemma StatusNamedRoundTrip(s: StatusValue)
    ensures StatusNamed(StatusName(s)) == s
  {
    if s.Other? {
      assert s.name !in KnownStatusNames;
    }
  }

  /** What killing the registered process and its children did: finished, or raised
      (no such process, access denied, ...). */
  datatype KillOutcome = Killed | KillRaised

  const SecondsPerHour := 3600
  const DefaultMaxAgeHours := 24

  /** The fields of one `ProcessInfo` at one moment. Times are whole seconds. */
  datatype JobRecord = JobRecord(
    processId: int, startTime: int, status: StatusValue, sessionId: string,
    timestamp: string, annotationType: string, inputFile: string, outputFolder: string)

  /** The registry key of a job. */
  function ProcessKey(sessionId: string, timestamp: string): string {
    sessionId + "_" + timestamp
  }

  /** A job `cleanup_old_processes` drops: more than `maxAgeHours` old, and completed or cancelled.
      `age_hours > max` on real numbers is `now - start > max * 3600` on seconds. */
  predicate Evictable(job: JobRecord, now: int, maxAgeHours: int) {
    now - job.startTime > maxAgeHours * SecondsPerHour && (job.status == Completed || job.status == Cancelled)
  }

  /** The registry left after evicting old finished jobs. */
  function Retained(jobs: map<string, JobRecord>, now: int, maxAgeHours: int): (r: map<string, JobRecord>)
    ensures forall k :: k in r ==> k in jobs && r[k] == jobs[k] && !Evictable(jobs[k], now, maxAgeHours)
    ensures forall k :: k in jobs && !Evictable(jobs[k], now, maxAgeHours) ==> k in r
    ensures forall k :: k in jobs && jobs[k].status in {Running, Error} ==> k in r
  {
    map k | k in jobs && !Evictable(jobs[k], now, maxAgeHours) :: jobs[k]
  }

  /** A registry that kept exactly the jobs that are not evictable, with their records, is the
      retained one. */
  lemma RetainedFromKeys(jobs: map<string, JobRecord>, kept: map<string, JobRecord>, now: int, maxAgeHours: int)
    requires forall k :: k in kept <==> k in jobs && !Evictable(jobs[k], now, maxAgeHours)
    requires forall k :: k in kept ==> kept[k] == jobs[k]
    ensures kept == Retained(jobs, now, maxAgeHours)
  {
  }

  /** Evicting twice at the same moment evicts nothing more. */
  lemma RetainedIdempotent(jobs: map<string, JobRecord>, now: int, maxAgeHours: int)
    ensures Retained(Retained(jobs, now, maxAgeHours), now, maxAgeHours) == Retained(jobs, now, maxAgeHours)
  {
  }

  /** One registered job; the registry updates `status` in place. */
  class ProcessInfo {
    const processId: int
    const startTime: int
    var status: StatusValue
    const sessionId: string
    const timestamp: string
    const annotationType: string
    const inputFile: string
    const outputFolder: string

    constructor (processId: int, startTime: int, status: StatusValue, sessionId: string,
                 timestamp: string, annotationType: string, inputFile: string, outputFolder: string)
      ensures Record() == JobRecord(processId, startTime, status, sessionId, timestamp,
                                    annotationType, inputFile, outputFolder)
    {
      this.processId := processId;
      this.startTime := startTime;
      this.status := status;
      this.sessionId := sessionId;
      this.timestamp := timestamp;
      this.annotationType := annotationType;
      this.inputFile := inputFile;
      this.outputFolder := outputFolder;
    }

    function Record(): JobRecord
      reads this
    {
      JobRecord(processId, startTime, status, sessionId, timestamp, annotationType, inputFile, outputFolder)
    }
  }

  class ProcessManager {
    var processes: map<string, ProcessInfo>

    /** Distinct keys hold distinct records, so a status change under one key shows under no other. */
    ghost predicate Valid()
      reads this
    {
      forall k1, k2 :: k1 in processes && k2 in processes && k1 != k2 ==> processes[k1] != processes[k2]
    }

    /** The registry's contents as values. */
    ghost function Jobs(): map<string, JobRecord>
      reads this, processes.Values
    {
      map k | k in processes :: processes[k].Record()
    }

    constructor ()
      ensures Valid() && processes == map[]
    {
      processes := map[];
    }

    /** Registers a job as running under `"{session_id}_{timestamp}"`, replacing any job already
        there. `pid` is the caller's own process id (`os.getpid()`), `now` the registration time. */
    method StartProcess(pid: int, now: int, sessionId: string, timestamp: string, annotationType: string,
                        inputFile: string, outputFolder: string) returns (key: string)
      requires Valid()
      modifies this
      ensures Valid()
      ensures key == ProcessKey(sessionId, timestamp) && key in processes && fresh(processes[key])
      ensures Jobs() == old(Jobs())[key := JobRecord(pid, now, Running, sessionId, timestamp,
                                                     annotationType, inputFile, outputFolder)]
      ensures forall k :: k in old(processes) && k != key ==> k in processes && processes[k] == old(processes[k])
    {
      var info := new ProcessInfo(pid, now, Running, sessionId, timestamp, annotationType, inputFile, outputFolder);
      key := ProcessKey(sessionId, timestamp);
      processes := processes[key := info];
    }

    /** Cancels a running job: kills the registered process tree, deletes the output folder's files
        (failures there are only logged) and marks the job cancelled. Unknown and finished jobs,
        and a kill that raises, give false and change nothing. */
    method CancelProcess(key: string, kill: KillOutcome) returns (ok: bool)
      requires Valid()
      modifies processes.Values
      ensures Valid() && processes == old(processes)
      ensures ok <==> key in old(Jobs()) && old(Jobs())[key].status == Running && kill == Killed
      ensures Jobs() == if ok then old(Jobs())[key := old(Jobs())[key].(status := Cancelled)] else old(Jobs())
    {
      if key !in processes {
        return false;
      }
      var info := processes[key];
      if info.status != Running {
        return false;
      }
      match kill
      case KillRaised =>
        return false;
      case Killed =>
        info.status := Cancelled;
        return true;
    }

    /** The stored status, or None for an unknown key. */
    function GetProcessStatus(key: string): (r: Option<Status>)
      reads this, processes.Values
      ensures r.Some? <==> key in Jobs()
      ensures r.Some? ==> r.value == Jobs()[key].status
    {
      if key in processes then Some(processes[key].status) else None
    }

    /** Sets the status of a known job, whatever it was before (a finished job can be made running
        again); an unknown key changes nothing. */
    method UpdateProcessStatus(key: string, status: StatusValue)
      requires Valid()
      modifies processes.Values
      ensures Valid() && processes == old(processes)
      ensures Jobs() == if key in old(Jobs()) then old(Jobs())[key := old(Jobs())[key].(status := status)] else old(Jobs())
    {
      if key in processes {
        processes[key].status := status;
      }
    }

    /** The keys of the jobs `cleanup_old_processes` drops, in no particular order. */
    method EvictableKeys(now: int, maxAgeHours: int) returns (toRemove: seq<string>)
      ensures forall k :: k in toRemove <==> k in processes && Evictable(processes[k].Record(), now, maxAgeHours)
    {
      toRemove := [];
      var pending := processes.Keys;
      while pending != {}
        invariant pending <= processes.Keys
        invariant forall k :: k in toRemove <==>
          k in processes && k !in pending && Evictable(processes[k].Record(), now, maxAgeHours)
        decreases pending
      {
        var k :| k in pending;
        var info := processes[k];
        var ageSeconds := now - info.startTime;
        if ageSeconds > maxAgeHours * SecondsPerHour && (info.status == Completed || info.status == Cancelled) {
          toRemove := toRemove + [k];
        }
        pending := pending - {k};
      }
    }

    /** Drops completed and cancelled jobs older than `maxAgeHours`; running and failed jobs stay
        whatever their age. The remaining entries keep their records. */
    method CleanupOldProcesses(now: int, maxAgeHours: int := DefaultMaxAgeHours)
      requires Valid()
      modifies this
      ensures Valid()
      ensures Jobs() == Retained(old(Jobs()), now, maxAgeHours)
      ensures forall k :: k in processes ==> k in old(processes) && processes[k] == old(processes[k])
    {
      var toRemove := EvictableKeys(now, maxAgeHours);
      var i := 0;
      while i < |toRemove|
        invariant 0 <= i <= |toRemove|
        invariant forall k :: k in processes <==> k in old(processes) && k !in toRemove[..i]
        invariant forall k :: k in processes ==> processes[k] == old(processes[k])
      {
        processes := processes - {toRemove[i]};
        i := i + 1;
      }
      assert toRemove[..i] == toRemove;
      RetainedFromKeys(old(Jobs()), Jobs(), now, maxAgeHours);
    }

    /** The jobs of one session: the same records the registry holds, not copies. */
    function GetSessionProcesses(sessionId: string): (r: map<string, ProcessInfo>)
      reads this
      ensures forall k :: k in r <==> k in processes && processes[k].sessionId == sessionId
      ensures forall k :: k in r ==> r[k] == processes[k]
    {
      map k | k in processes && processes[k].sessionId == sessionId :: processes[k]
    }
  }

  /** Registering a job and asking for its status at once reports it running. */
  method StartThenQuery(m: ProcessManager, pid: int, now: int, sessionId: string, timestamp: string)
    returns (status: Option<Status>)
    requires m.Valid()
    modifies m
    ensures status == Some(Running)
  {
    var key := m.StartProcess(pid, now, sessionId, timestamp, "dbnsfp", "input.vcf", "out");
    status := m.GetProcessStatus(key);
  }

  /** Once a cancellation succeeded, a second one fails; after a kill that raised, the job is still
      running and a retry can succeed. */
  method CancelTwice(m: ProcessManager, key: string, first: KillOutcome, second: KillOutcome)
    returns (ok1: bool, ok2: bool)
    requires m.Valid()
    modifies m.processes.Values
    ensures ok1 ==> !ok2 && m.GetProcessStatus(key) == Some(Cancelled)
    ensures old(m.GetProcessStatus(key)) == Some(Running) && first == KillRaised && second == Killed ==> ok2
  {
    ok1 := m.CancelProcess(key, first);
    ok2 := m.CancelProcess(key, second);
  }

  /** Nothing keeps a cancelled job cancelled: a later status update makes it running again. */
  method ReviveAfterCancel(m: ProcessManager, key: string)
    returns (ok: bool, status: Option<Status>)
    requires m.Valid() && key in m.processes && m.processes[key].status == Running
    modifies m.processes.Values
    ensures ok && status == Some(Running)
  {
    ok := m.CancelProcess(key, Killed);
    m.UpdateProcessStatus(key, Running);
    status := m.GetProcessStatus(key);
  }
}
