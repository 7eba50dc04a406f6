/**
  The quota pass over the job store (src/async-jobs.js).  A scan of the job directories adds
  up their bytes; then terminal jobs are removed oldest first while the store is over its
  byte or job limit, down to nine tenths of the limit.

  What a directory holds and which of its operations succeed are inputs, and so is the set of
  jobs whose directory cannot be removed.  Nine tenths is taken as exact integer division.
 */
module JobQuota {
  import opened Common

  datatype Job = Job(name: string, bytes: nat, terminalAt: int)

  /** One job directory: its status (absent if it cannot be read, else whether it is terminal),
      when the job ended, the size recorded by earlier maintenance, and its size as measured
      after any log compaction. */
  datatype Directory = Directory(
    name: string, terminal: Option<bool>, endedAt: Option<int>, recorded: Option<int>, reconciled: bool,
    bytes: nat, removable: bool, readable: bool, writable: bool)

  /** What the scan makes of a directory.  An expired one is past the retention time and was
      removed; a broken one raised an error, after or before it was seen to be terminal. */
  datatype Entry = Active(bytes: nat) | Expired | Terminal(job: Job) | Broken(terminal: bool)

  predicate PastRetention(d: Directory, now: int, retention: nat) {
    retention > 0 && d.endedAt.Some? && now - d.endedAt.value >= retention
  }

  /** The size recorded by earlier maintenance is used instead of measuring. */
  predicate UsesRecord(d: Directory) { d.recorded.Some? && d.recorded.value >= 0 && d.reconciled }

  function Examined(d: Directory, now: int, retention: nat): Entry {
    if d.terminal.None? then Broken(false)
    else if !d.terminal.value then Active(d.bytes)
    else if PastRetention(d, now, retention) then if d.removable then Expired else Broken(true)
    else if !d.readable || (!UsesRecord(d) && !d.writable) then Broken(true)
    else Terminal(Job(d.name, if UsesRecord(d) then d.recorded.value else d.bytes,
                      if d.endedAt.Some? then d.endedAt.value else 0))
  }

  function Entries(dirs: seq<Directory>, now: int, retention: nat): (r: seq<Entry>)
    ensures |r| == |dirs| && forall i :: 0 <= i < |r| ==> r[i] == Examined(dirs[i], now, retention)
  {
    seq(|dirs|, i requires 0 <= i < |dirs| => Examined(dirs[i], now, retention))
  }

  datatype Summary = Summary(
    scanned: nat, active: nat, terminal: nat, deleted: nat, errors: nat, storeBytes: nat,
    terminalRetained: nat, quotaDeleted: nat)

  /** The terminal jobs, the active bytes and the failures among the first `n` entries. */
  function TerminalsUpTo(entries: seq<Entry>, n: nat): seq<Job>
    requires n <= |entries|
  {
    if n == 0 then []
    else if entries[n - 1].Terminal? then TerminalsUpTo(entries, n - 1) + [entries[n - 1].job]
    else TerminalsUpTo(entries, n - 1)
  }

  function ActiveUpTo(entries: seq<Entry>, n: nat): nat
    requires n <= |entries|
  {
    if n == 0 then 0 else ActiveUpTo(entries, n - 1) + if entries[n - 1].Active? then entries[n - 1].bytes else 0
  }

  /** A failure is a directory that was seen to be terminal and then raised an error. */
  function FailedUpTo(entries: seq<Entry>, n: nat): nat
    requires n <= |entries|
  {
    if n == 0 then 0 else FailedUpTo(entries, n - 1) + if entries[n - 1] == Broken(true) then 1 else 0
  }

  function Terminals(entries: seq<Entry>): seq<Job> { TerminalsUpTo(entries, |entries|) }
  function ActiveBytes(entries: seq<Entry>): nat { ActiveUpTo(entries, |entries|) }
  function Failed(entries: seq<Entry>): nat { FailedUpTo(entries, |entries|) }

  function Sum(jobs: seq<Job>): nat {
    if jobs == [] then 0 else Sum(jobs[..|jobs| - 1]) + jobs[|jobs| - 1].bytes
  }

  lemma {:induction false} SumJoins(a: seq<Job>, b: seq<Job>)
    ensures Sum(a + b) == Sum(a) + Sum(b)
  {
    if b == [] {
      assert a + b == a;
    } else {
      SumJoins(a, b[..|b| - 1]);
      assert (a + b)[..|a + b| - 1] == a + b[..|b| - 1];
    }
  }

  /** The scan: the store holds the bytes of active and of retained terminal jobs, and no others;
      every directory is counted once, except that a terminal one that raises an error counts as
      both terminal and an error. */
  method Scan(dirs: seq<Directory>, now: int, retention: nat) returns (summary: Summary, terminal: seq<Job>)
    ensures var entries := Entries(dirs, now, retention);
            && terminal == Terminals(entries)
            && summary.storeBytes == ActiveBytes(entries) + Sum(terminal)
            && summary.scanned == |dirs|
            && summary.active + summary.terminal + summary.errors == |dirs| + Failed(entries)
            && summary.terminal == |terminal| + summary.deleted + Failed(entries)
    ensures summary.quotaDeleted == 0
  {
    summary, terminal := Tally(Entries(dirs, now, retention));
  }

  /** The loop over what was found. */
  method Tally(entries: seq<Entry>) returns (summary: Summary, terminal: seq<Job>)
    ensures Tallies(entries, |entries|, summary, terminal)
  {
    summary, terminal := Summary(0, 0, 0, 0, 0, 0, 0, 0), [];
    for i := 0 to |entries|
      invariant Tallies(entries, i, summary, terminal)
    {
      TallyNext(entries, i, summary, terminal);
      summary := Counted(summary, entries[i]);
      if entries[i].Terminal? {
        terminal := terminal + [entries[i].job];
      }
    }
  }

  /** The counters after one more directory. */
  function Counted(s: Summary, e: Entry): Summary {
    var t := s.(scanned := s.scanned + 1);
    match e
    case Active(bytes) => t.(active := s.active + 1, storeBytes := s.storeBytes + bytes)
    case Expired => t.(terminal := s.terminal + 1, deleted := s.deleted + 1)
    case Terminal(job) => t.(terminal := s.terminal + 1, storeBytes := s.storeBytes + job.bytes)
    case Broken(wasTerminal) => t.(errors := s.errors + 1, terminal := s.terminal + if wasTerminal then 1 else 0)
  }

  /** The counters describe the first `n` directories. */
  ghost predicate Tallies(entries: seq<Entry>, n: nat, s: Summary, terminal: seq<Job>)
    requires n <= |entries|
  {
    && terminal == TerminalsUpTo(entries, n)
    && s.storeBytes == ActiveUpTo(entries, n) + Sum(terminal)
    && s.scanned == n && s.quotaDeleted == 0
    && s.active + s.terminal + s.errors == n + FailedUpTo(entries, n)
    && s.terminal == |terminal| + s.deleted + FailedUpTo(entries, n)
  }

  lemma SumOfLast(jobs: seq<Job>, job: Job)
    ensures Sum(jobs + [job]) == Sum(jobs) + job.bytes
  {
    assert (jobs + [job])[..|jobs|] == jobs;
  }

  lemma TallyNext(entries: seq<Entry>, n: nat, s: Summary, terminal: seq<Job>)
    requires n < |entries| && Tallies(entries, n, s, terminal)
    ensures Tallies(entries, n + 1, Counted(s, entries[n]),
                    if entries[n].Terminal? then terminal + [entries[n].job] else terminal)
  {
    if entries[n].Terminal? {
      SumOfLast(terminal, entries[n].job);
    }
  }

  /** The bytes on disk of a directory that the scan keeps. */
  function OnDisk(d: Directory, e: Entry): nat { if e.Active? || e.Terminal? then d.bytes else 0 }

  function DiskBytes(dirs: seq<Directory>, entries: seq<Entry>, n: nat): nat
    requires n <= |dirs| == |entries|
  {
    if n == 0 then 0 else DiskBytes(dirs, entries, n - 1) + OnDisk(dirs[n - 1], entries[n - 1])
  }

  /** A recorded size that is used is the size on disk. */
  predicate RecordIsRight(d: Directory) { UsesRecord(d) ==> d.recorded.value == d.bytes }

  lemma {:induction false} StoreIsOnDiskUpTo(dirs: seq<Directory>, entries: seq<Entry>, now: int, retention: nat, n: nat)
    requires entries == Entries(dirs, now, retention) && n <= |dirs|
    requires forall i :: 0 <= i < |dirs| ==> RecordIsRight(dirs[i])
    ensures ActiveUpTo(entries, n) + Sum(TerminalsUpTo(entries, n)) == DiskBytes(dirs, entries, n)
  {
    if n > 0 {
      StoreIsOnDiskUpTo(dirs, entries, now, retention, n - 1);
      assert RecordIsRight(dirs[n - 1]) && entries[n - 1] == Examined(dirs[n - 1], now, retention);
      if entries[n - 1].Terminal? {
        SumOfLast(TerminalsUpTo(entries, n - 1), entries[n - 1].job);
      }
    }
  }

  /** The store size is the bytes on disk of what the scan keeps, when every recorded size that
      is used is still right. */
  lemma StoreIsOnDisk(dirs: seq<Directory>, now: int, retention: nat)
    requires forall i :: 0 <= i < |dirs| ==> RecordIsRight(dirs[i])
    ensures var entries := Entries(dirs, now, retention);
            ActiveBytes(entries) + Sum(Terminals(entries)) == DiskBytes(dirs, entries, |dirs|)
  {
    StoreIsOnDiskUpTo(dirs, Entries(dirs, now, retention), now, retention, |dirs|);
  }

  // ---------------------------------------------------------------------------------------
  // Oldest first

  /** The jobs that ended at one moment, in their order. */
  function EndedAt(jobs: seq<Job>, at: int): seq<Job> {
    if jobs == [] then []
    else
      var last := jobs[|jobs| - 1];
      EndedAt(jobs[..|jobs| - 1], at) + if last.terminalAt == at then [last] else []
  }

  ghost predicate OldestFirst(jobs: seq<Job>) {
    forall i, j :: 0 <= i < j < |jobs| ==> jobs[i].terminalAt <= jobs[j].terminalAt
  }

  function Insert(jobs: seq<Job>, job: Job): seq<Job> {
    if jobs == [] || jobs[|jobs| - 1].terminalAt <= job.terminalAt then jobs + [job]
    else Insert(jobs[..|jobs| - 1], job) + [jobs[|jobs| - 1]]
  }

  /** The order of a stable sort by end time. */
  function Sorted(jobs: seq<Job>): seq<Job> {
    if jobs == [] then [] else Insert(Sorted(jobs[..|jobs| - 1]), jobs[|jobs| - 1])
  }

  lemma {:induction false} InsertKeepsOrder(jobs: seq<Job>, job: Job)
    requires OldestFirst(jobs)
    ensures OldestFirst(Insert(jobs, job))
    ensures forall x :: x in Insert(jobs, job) ==> x == job || x in jobs
  {
    if jobs != [] && jobs[|jobs| - 1].terminalAt > job.terminalAt {
      InsertKeepsOrder(jobs[..|jobs| - 1], job);
      var rest := Insert(jobs[..|jobs| - 1], job);
      assert forall x :: x in rest ==> x.terminalAt <= jobs[|jobs| - 1].terminalAt;
    }
  }

  lemma EndedAtSnoc(jobs: seq<Job>, job: Job, at: int)
    ensures EndedAt(jobs + [job], at) == EndedAt(jobs, at) + if job.terminalAt == at then [job] else []
  {
    assert (jobs + [job])[..|jobs|] == jobs;
  }

  lemma {:induction false} InsertIsStable(jobs: seq<Job>, job: Job, at: int)
    requires OldestFirst(jobs)
    ensures EndedAt(Insert(jobs, job), at) == EndedAt(jobs, at) + if job.terminalAt == at then [job] else []
  {
    if jobs == [] || jobs[|jobs| - 1].terminalAt <= job.terminalAt {
      EndedAtSnoc(jobs, job, at);
    } else {
      var front, last := jobs[..|jobs| - 1], jobs[|jobs| - 1];
      InsertIsStable(front, job, at);
      EndedAtSnoc(Insert(front, job), last, at);
      if job.terminalAt == at {
        assert EndedAt(jobs, at) == EndedAt(front, at) + [];
      }
    }
  }

  /** Sorting orders the jobs by end time and keeps, for every moment, exactly the jobs that
      ended then and the order in which they were scanned. */
  lemma {:induction false} SortedIsStable(jobs: seq<Job>)
    ensures OldestFirst(Sorted(jobs)) && |Sorted(jobs)| == |jobs| && Sum(Sorted(jobs)) == Sum(jobs)
    ensures forall at :: EndedAt(Sorted(jobs), at) == EndedAt(jobs, at)
  {
    if jobs != [] {
      var front, last := jobs[..|jobs| - 1], jobs[|jobs| - 1];
      SortedIsStable(front);
      InsertKeepsOrder(Sorted(front), last);
      InsertAdds(Sorted(front), last);
      forall at ensures EndedAt(Sorted(jobs), at) == EndedAt(jobs, at) {
        InsertIsStable(Sorted(front), last, at);
      }
    }
  }

  lemma {:induction false} InsertAdds(jobs: seq<Job>, job: Job)
    ensures |Insert(jobs, job)| == |jobs| + 1 && Sum(Insert(jobs, job)) == Sum(jobs) + job.bytes
  {
    if jobs == [] || jobs[|jobs| - 1].terminalAt <= job.terminalAt {
      assert (jobs + [job])[..|jobs|] == jobs;
    } else {
      var rest := Insert(jobs[..|jobs| - 1], job);
      InsertAdds(jobs[..|jobs| - 1], job);
      assert (rest + [jobs[|jobs| - 1]])[..|rest|] == rest;
    }
  }

  // ---------------------------------------------------------------------------------------
  // The quota loop

  /** The jobs of a list whose directory cannot (or can) be removed. */
  function Only(jobs: seq<Job>, stuck: set<string>, removable: bool): seq<Job> {
    if jobs == [] then []
    else
      var last := jobs[|jobs| - 1];
      Only(jobs[..|jobs| - 1], stuck, removable) + if (last.name in stuck) != removable then [last] else []
  }

  /** The jobs that are left once removal of the first `k` has been attempted. */
  function Left(jobs: seq<Job>, stuck: set<string>, k: nat): seq<Job>
    requires k <= |jobs|
  {
    Only(jobs[..k], stuck, false) + jobs[k..]
  }

  lemma LeftAtStart(jobs: seq<Job>, stuck: set<string>)
    ensures Left(jobs, stuck, 0) == jobs
  {
    assert [] + jobs[0..] == jobs;
  }

  lemma SumWithout(a: seq<Job>, job: Job, b: seq<Job>)
    ensures Sum(a + ([job] + b)) == Sum(a + b) + job.bytes
  {
    SumJoins(a, [job] + b);
    SumJoins([job], b);
    SumJoins(a, b);
    assert [job][..0] == [];
  }

  /** One more attempt leaves the same jobs, or all but the one it removed. */
  lemma LeftStep(jobs: seq<Job>, stuck: set<string>, k: nat)
    requires k < |jobs|
    ensures jobs[k].name in stuck ==> Left(jobs, stuck, k + 1) == Left(jobs, stuck, k)
    ensures jobs[k].name !in stuck ==>
              && |Left(jobs, stuck, k + 1)| == |Left(jobs, stuck, k)| - 1
              && Sum(Left(jobs, stuck, k + 1)) == Sum(Left(jobs, stuck, k)) - jobs[k].bytes
  {
    var kept, rest := Only(jobs[..k], stuck, false), jobs[k + 1..];
    assert jobs[..k + 1][..k] == jobs[..k];
    assert jobs[k..] == [jobs[k]] + rest;
    if jobs[k].name in stuck {
      assert kept + ([jobs[k]] + rest) == kept + [jobs[k]] + rest;
    } else {
      SumWithout(kept, jobs[k], rest);
      assert kept + [] == kept;
    }
  }

  /** The terminal bytes, the number of terminal jobs and the removed jobs after `k` attempts,
      as the loop counts them. */
  function BytesAfter(jobs: seq<Job>, stuck: set<string>, k: nat): int
    requires k <= |jobs|
  {
    if k == 0 then Sum(jobs)
    else BytesAfter(jobs, stuck, k - 1) - if jobs[k - 1].name in stuck then 0 else jobs[k - 1].bytes
  }

  function CountAfter(jobs: seq<Job>, stuck: set<string>, k: nat): int
    requires k <= |jobs|
  {
    if k == 0 then |jobs| else CountAfter(jobs, stuck, k - 1) - if jobs[k - 1].name in stuck then 0 else 1
  }

  function RemovedAfter(jobs: seq<Job>, stuck: set<string>, k: nat): seq<Job>
    requires k <= |jobs|
  {
    if k == 0 then []
    else RemovedAfter(jobs, stuck, k - 1) + if jobs[k - 1].name in stuck then [] else [jobs[k - 1]]
  }

  /** What the loop counts is what is left and what was removed. */
  lemma CountsAreExact(jobs: seq<Job>, stuck: set<string>, k: nat)
    requires k <= |jobs|
    ensures BytesAfter(jobs, stuck, k) == Sum(Left(jobs, stuck, k))
    ensures CountAfter(jobs, stuck, k) == |Left(jobs, stuck, k)|
  {
    BytesAreExact(jobs, stuck, k);
    CountIsExact(jobs, stuck, k);
  }

  lemma BytesStep(jobs: seq<Job>, stuck: set<string>, k: nat, bytes: int)
    requires k < |jobs| && bytes == Sum(Left(jobs, stuck, k))
    ensures Sum(Left(jobs, stuck, k + 1)) == bytes - if jobs[k].name in stuck then 0 else jobs[k].bytes
  {
    LeftStep(jobs, stuck, k);
  }

  lemma {:induction false} BytesAreExact(jobs: seq<Job>, stuck: set<string>, k: nat)
    requires k <= |jobs|
    ensures BytesAfter(jobs, stuck, k) == Sum(Left(jobs, stuck, k))
  {
    if k == 0 {
      LeftAtStart(jobs, stuck);
    } else {
      BytesAreExact(jobs, stuck, k - 1);
      BytesStep(jobs, stuck, k - 1, BytesAfter(jobs, stuck, k - 1));
    }
  }

  lemma {:induction false} CountIsExact(jobs: seq<Job>, stuck: set<string>, k: nat)
    requires k <= |jobs|
    ensures CountAfter(jobs, stuck, k) == |Left(jobs, stuck, k)|
  {
    if k == 0 {
      LeftAtStart(jobs, stuck);
    } else {
      CountIsExact(jobs, stuck, k - 1);
      LeftStep(jobs, stuck, k - 1);
    }
  }

  lemma {:induction false} RemovedIsExact(jobs: seq<Job>, stuck: set<string>, k: nat)
    requires k <= |jobs|
    ensures RemovedAfter(jobs, stuck, k) == Only(jobs[..k], stuck, true)
  {
    if k > 0 {
      RemovedIsExact(jobs, stuck, k - 1);
      assert jobs[..k][..k - 1] == jobs[..k - 1];
    }
  }

  /** The low-water marks of a pass: terminal bytes and terminal jobs, where they apply. */
  datatype Marks = Marks(bytes: Option<nat>, jobs: Option<nat>)

  predicate Met(left: seq<Job>, m: Marks) {
    && (m.bytes.Some? ==> Sum(left) <= m.bytes.value)
    && (m.jobs.Some? ==> |left| <= m.jobs.value)
  }

  ghost predicate MetAfter(jobs: seq<Job>, stuck: set<string>, m: Marks, k: nat) {
    && k <= |jobs|
    && (m.bytes.Some? ==> BytesAfter(jobs, stuck, k) <= m.bytes.value)
    && (m.jobs.Some? ==> CountAfter(jobs, stuck, k) <= m.jobs.value)
  }

  /** The number of attempts is the least after which both marks are met, or all of them. */
  ghost predicate StopsAt(jobs: seq<Job>, stuck: set<string>, m: Marks, k: nat) {
    && k <= |jobs|
    && (k == |jobs| || MetAfter(jobs, stuck, m, k))
    && forall j: nat :: j < k ==> !MetAfter(jobs, stuck, m, j)
  }

  /** The loop over the sorted jobs; it has made as many attempts as it removed jobs and met errors. */
  method Evict(jobs: seq<Job>, stuck: set<string>, m: Marks, active: nat)
    returns (storeBytes: nat, retained: nat, errors: nat, removed: seq<Job>)
    ensures var k := |removed| + errors;
            && StopsAt(jobs, stuck, m, k)
            && removed == RemovedAfter(jobs, stuck, k)
            && storeBytes == active + BytesAfter(jobs, stuck, k) && retained == CountAfter(jobs, stuck, k)
  {
    var terminalBytes := Sum(jobs);
    storeBytes, retained, errors, removed := active + terminalBytes, |jobs|, 0, [];
    for i := 0 to |jobs|
      invariant terminalBytes == BytesAfter(jobs, stuck, i)
      invariant removed == RemovedAfter(jobs, stuck, i)
      invariant storeBytes == active + terminalBytes && retained == CountAfter(jobs, stuck, i)
      invariant errors == i - |removed|
      invariant forall j: nat :: j < i ==> !MetAfter(jobs, stuck, m, j)
    {
      var bytesSatisfied := m.bytes.None? || terminalBytes <= m.bytes.value;
      var countSatisfied := m.jobs.None? || retained <= m.jobs.value;
      if bytesSatisfied && countSatisfied {
        break;
      }
      CountsAreExact(jobs, stuck, i + 1);
      if jobs[i].name in stuck {
        errors := errors + 1;
        continue;
      }
      terminalBytes := Max(0, terminalBytes - jobs[i].bytes);
      storeBytes := Max(0, storeBytes - jobs[i].bytes);
      retained := Max(0, retained - 1);
      removed := removed + [jobs[i]];
    }
  }

  /** When the byte limit is exceeded and removing terminal jobs can help. */
  predicate Reducible(maxBytes: nat, active: nat, store: nat) {
    maxBytes > 0 && store > maxBytes && active < maxBytes
  }

  predicate Crowded(maxJobs: nat, jobs: nat) { maxJobs > 0 && jobs > maxJobs }

  function MarksFor(maxBytes: nat, maxJobs: nat, active: nat, store: nat): Marks {
    Marks(if Reducible(maxBytes, active, store) then Some(Max(0, 9 * maxBytes / 10 - active)) else None,
          if maxJobs > 0 then Some(9 * maxJobs / 10) else None)
  }

  /** The pass attempts the removal of the first `k` sorted jobs. */
  ghost predicate PassStops(jobs: seq<Job>, stuck: set<string>, maxBytes: nat, maxJobs: nat, active: nat, k: nat) {
    var store := active + Sum(jobs);
    if Reducible(maxBytes, active, store) || Crowded(maxJobs, |jobs|)
    then StopsAt(jobs, stuck, MarksFor(maxBytes, maxJobs, active, store), k)
    else k == 0
  }

  /** The pass over the sorted terminal jobs of a store that also holds `active` bytes. */
  method Enforce(jobs: seq<Job>, stuck: set<string>, maxBytes: nat, maxJobs: nat, active: nat)
    returns (storeBytes: nat, retained: nat, errors: nat, removed: seq<Job>)
    ensures var k := |removed| + errors;
            && k <= |jobs| && PassStops(jobs, stuck, maxBytes, maxJobs, active, k)
            && removed == RemovedAfter(jobs, stuck, k)
            && storeBytes == active + BytesAfter(jobs, stuck, k) && retained == CountAfter(jobs, stuck, k)
  {
    var store := active + Sum(jobs);
    var bytePressure := maxBytes > 0 && store > maxBytes;
    var countPressure := maxJobs > 0 && |jobs| > maxJobs;
    var canReduce := bytePressure && active < maxBytes;
    if canReduce || countPressure {
      var targetBytes := if canReduce then Some(Max(0, 9 * maxBytes / 10 - active)) else None;
      var targetJobs := if maxJobs > 0 then Some(9 * maxJobs / 10) else None;
      storeBytes, retained, errors, removed := Evict(jobs, stuck, Marks(targetBytes, targetJobs), active);
    } else {
      storeBytes, retained, errors, removed := store, |jobs|, 0, [];
    }
  }

  /** What a whole pass leaves of a store whose scan gave `entries`. */
  ghost predicate PassLeaves(entries: seq<Entry>, stuck: set<string>, maxBytes: nat, maxJobs: nat,
                             k: nat, storeBytes: nat, retained: nat, removed: seq<Job>) {
    var jobs := Sorted(Terminals(entries));
    && k <= |jobs| && PassStops(jobs, stuck, maxBytes, maxJobs, ActiveBytes(entries), k)
    && removed == Only(jobs[..k], stuck, true)
    && storeBytes == ActiveBytes(entries) + Sum(Left(jobs, stuck, k))
    && retained == |Left(jobs, stuck, k)|
  }

  lemma CountsGivePass(entries: seq<Entry>, stuck: set<string>, maxBytes: nat, maxJobs: nat,
                       k: nat, storeBytes: nat, retained: nat, removed: seq<Job>)
    requires var jobs := Sorted(Terminals(entries));
             && k <= |jobs| && PassStops(jobs, stuck, maxBytes, maxJobs, ActiveBytes(entries), k)
             && removed == RemovedAfter(jobs, stuck, k)
             && storeBytes == ActiveBytes(entries) + BytesAfter(jobs, stuck, k)
             && retained == CountAfter(jobs, stuck, k)
    ensures PassLeaves(entries, stuck, maxBytes, maxJobs, k, storeBytes, retained, removed)
  {
    CountsAreExact(Sorted(Terminals(entries)), stuck, k);
    RemovedIsExact(Sorted(Terminals(entries)), stuck, k);
  }

  /** The whole pass.  Only terminal jobs are removed, oldest first, until both marks are met
      and no further; what is reported is what remains. */
  method Reconcile(dirs: seq<Directory>, now: int, retention: nat, stuck: set<string>,
                   maxBytesSetting: int, maxJobsSetting: int)
    returns (summary: Summary, removed: seq<Job>, ghost k: nat)
    ensures PassLeaves(Entries(dirs, now, retention), stuck, Max(0, maxBytesSetting), Max(0, maxJobsSetting),
                       k, summary.storeBytes, summary.terminalRetained, removed)
    ensures summary.quotaDeleted == |removed|
  {
    var terminal;
    summary, terminal := Scan(dirs, now, retention);
    var jobs := Sorted(terminal);
    var active := ActiveOf(summary.storeBytes, terminal, jobs);
    var storeBytes, retained, errors;
    storeBytes, retained, errors, removed :=
      Enforce(jobs, stuck, Max(0, maxBytesSetting), Max(0, maxJobsSetting), active);
    k := |removed| + errors;
    CountsGivePass(Entries(dirs, now, retention), stuck, Max(0, maxBytesSetting), Max(0, maxJobsSetting),
                   k, storeBytes, retained, removed);
    summary := summary.(storeBytes := storeBytes, terminalRetained := retained, quotaDeleted := |removed|,
                        deleted := summary.deleted + |removed|, errors := summary.errors + errors);
  }

  /** The bytes that are not terminal: sorting loses none of them. */
  method ActiveOf(storeBytes: nat, terminal: seq<Job>, jobs: seq<Job>) returns (active: nat)
    requires jobs == Sorted(terminal) && storeBytes >= Sum(terminal)
    ensures active == storeBytes - Sum(terminal)
  {
    SortedIsStable(terminal);
    active := Max(0, storeBytes - Sum(jobs));
  }

  // ---------------------------------------------------------------------------------------
  // Without removal failures

  lemma {:induction false} NothingStuck(jobs: seq<Job>)
    ensures Only(jobs, {}, true) == jobs && Only(jobs, {}, false) == []
  {
    if jobs != [] {
      NothingStuck(jobs[..|jobs| - 1]);
    }
  }

  lemma LeftWithoutFailures(jobs: seq<Job>, k: nat)
    requires k <= |jobs|
    ensures Left(jobs, {}, k) == jobs[k..]
  {
    NothingStuck(jobs[..k]);
  }

  lemma MetWithoutFailures(jobs: seq<Job>, m: Marks, k: nat)
    requires k <= |jobs|
    ensures MetAfter(jobs, {}, m, k) <==> Met(jobs[k..], m)
  {
    CountsAreExact(jobs, {}, k);
    LeftWithoutFailures(jobs, k);
  }

  /** When every removal succeeds, the pass removes exactly the shortest run of oldest jobs
      after which both marks are met. */
  lemma ShortestRun(jobs: seq<Job>, m: Marks, k: nat)
    requires StopsAt(jobs, {}, m, k)
    ensures Only(jobs[..k], {}, true) == jobs[..k] && Left(jobs, {}, k) == jobs[k..]
    ensures Met(jobs[k..], m) && forall j: nat :: j < k ==> !Met(jobs[j..], m)
  {
    NothingStuck(jobs[..k]);
    LeftWithoutFailures(jobs, k);
    MetWithoutFailures(jobs, m, k);
    assert Met(jobs[|jobs|..], m);
    forall j: nat | j < k ensures !Met(jobs[j..], m) {
      MetWithoutFailures(jobs, m, j);
    }
  }

  /** Under byte pressure that can be reduced, and when every removal succeeds, the store ends
      at or below the larger of the active bytes and nine tenths of the limit, and so back
      under the limit. */
  lemma PressureIsRelieved(jobs: seq<Job>, maxBytes: nat, maxJobs: nat, active: nat, k: nat)
    requires PassStops(jobs, {}, maxBytes, maxJobs, active, k)
    requires Reducible(maxBytes, active, active + Sum(jobs))
    ensures 0 < k <= |jobs|
    ensures active + Sum(Left(jobs, {}, k)) <= Max(active, 9 * maxBytes / 10) < maxBytes
  {
    ShortestRun(jobs, MarksFor(maxBytes, maxJobs, active, active + Sum(jobs)), k);
    assert jobs[0..] == jobs;
  }

  /** A pass that byte pressure alone has started still works to the job mark: it removes more
      than the byte mark asks for if and only if what that would leave exceeds nine tenths of the
      job limit, although the count was within the limit all along. */
  lemma BytePassAlsoCutsJobs(jobs: seq<Job>, maxBytes: nat, maxJobs: nat, active: nat, k: nat, b: nat)
    requires Reducible(maxBytes, active, active + Sum(jobs)) && !Crowded(maxJobs, |jobs|)
    requires PassStops(jobs, {}, maxBytes, maxJobs, active, k)
    requires StopsAt(jobs, {}, MarksFor(maxBytes, maxJobs, active, active + Sum(jobs)).(jobs := None), b)
    ensures b <= k && (b < k <==> maxJobs > 0 && |jobs| - b > 9 * maxJobs / 10)
  {
    var m := MarksFor(maxBytes, maxJobs, active, active + Sum(jobs));
    ShortestRun(jobs, m, k);
    ShortestRun(jobs, m.(jobs := None), b);
    assert b < k ==> !Met(jobs[b..], m);
    assert k < b ==> !Met(jobs[k..], m.(jobs := None));
  }

  lemma {:induction false} SumOfEmpty(jobs: seq<Job>)
    requires forall i :: 0 <= i < |jobs| ==> jobs[i].bytes == 0
    ensures Sum(jobs) == 0
  {
    if jobs != [] {
      SumOfEmpty(jobs[..|jobs| - 1]);
    }
  }

  /** One job of twenty bytes, ten empty ones, and limits of ten bytes and eleven jobs: removing
      the first meets the byte mark, and a second, empty one is removed for the job mark, although
      eleven jobs were within their limit. */
  lemma BytePassRemovesExtraJob(empty: seq<Job>)
    requires |empty| == 10 && forall i :: 0 <= i < |empty| ==> empty[i].bytes == 0
    ensures var jobs := [Job("", 20, 0)] + empty;
            && Reducible(10, 0, Sum(jobs)) && !Crowded(11, |jobs|)
            && PassStops(jobs, {}, 10, 11, 0, 2)
            && StopsAt(jobs, {}, MarksFor(10, 11, 0, Sum(jobs)).(jobs := None), 1)
  {
    var first := [Job("", 20, 0)];
    var jobs := first + empty;
    SumJoins(first, empty);
    SumOfEmpty(empty);
    assert first[..0] == [];
    assert Sum(jobs) == 20;
    assert BytesAfter(jobs, {}, 0) == 20 && BytesAfter(jobs, {}, 1) == 0 && BytesAfter(jobs, {}, 2) == 0;
    assert CountAfter(jobs, {}, 0) == 11 && CountAfter(jobs, {}, 1) == 10 && CountAfter(jobs, {}, 2) == 9;
  }
}
