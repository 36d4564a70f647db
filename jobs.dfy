/** The job table of `src/engine/jobs.rs`: background and suspended process
    groups, numbered from 1 by a counter that starts again at 1 whenever the
    table becomes empty. */
module Jobs {
  import opened Wrappers

  /** `JobStatus`. */
  datatype JobStatus = Running | Suspended

  /** The `Display` of a status: a suspended job shows as "Stopped". */
  function StatusName(s: JobStatus): (r: string)
    ensures r == "Running" <==> s == Running
    ensures r == "Stopped" <==> s == Suspended
  {
    match s
    case Running => "Running"
    case Suspended => "Stopped"
  }

  /** A `Job`. The process group id is a plain integer and the start time is
      a number of seconds read from a clock the caller supplies. */
  datatype Job = Job(id: nat, pgid: int, cmd: string, status: JobStatus, startTime: nat)

  /** The ids of `js` strictly increase along the table. */
  ghost predicate IdsIncreasing(js: seq<Job>) {
    forall i, j :: 0 <= i < j < |js| ==> js[i].id < js[j].id
  }

  /** The table after `retain(|j| j.pgid != pgid)`. */
  function Without(js: seq<Job>, pgid: int): (r: seq<Job>)
    ensures |r| <= |js|
    ensures forall k :: 0 <= k < |r| ==> r[k].pgid != pgid && r[k] in js
  {
    if js == [] then []
    else if js[0].pgid == pgid then Without(js[1..], pgid)
    else [js[0]] + Without(js[1..], pgid)
  }

  /** A job survives `Without` exactly when it was there and has another pgid. */
  lemma {:induction false} WithoutMembers(js: seq<Job>, pgid: int, j: Job)
    ensures j in Without(js, pgid) <==> j in js && j.pgid != pgid
  {
    if js != [] {
      WithoutMembers(js[1..], pgid, j);
      assert js == [js[0]] + js[1..];
    }
  }

  /** `Without` works piece by piece, so the kept jobs stay in their order. */
  lemma {:induction false} WithoutAppend(a: seq<Job>, b: seq<Job>, pgid: int)
    ensures Without(a + b, pgid) == Without(a, pgid) + Without(b, pgid)
  {
    if a == [] {
      assert a + b == b;
    } else {
      assert (a + b)[1..] == a[1..] + b;
      WithoutAppend(a[1..], b, pgid);
    }
  }

  /** Removing an unknown process group leaves the table as it was. */
  lemma {:induction false} WithoutAbsent(js: seq<Job>, pgid: int)
    requires forall k :: 0 <= k < |js| ==> js[k].pgid != pgid
    ensures Without(js, pgid) == js
  {
    if js != [] {
      WithoutAbsent(js[1..], pgid);
      assert js == [js[0]] + js[1..];
    }
  }

  /** Removing the same process group twice removes nothing more. */
  lemma {:induction false} WithoutIdempotent(js: seq<Job>, pgid: int)
    ensures Without(Without(js, pgid), pgid) == Without(js, pgid)
  {
    WithoutAbsent(Without(js, pgid), pgid);
  }

  /** The ids stay increasing after `Without`, and each kept id was there. */
  lemma {:induction false} WithoutIncreasing(js: seq<Job>, pgid: int)
    requires IdsIncreasing(js)
    ensures IdsIncreasing(Without(js, pgid))
  {
    if js != [] {
      var rest := Without(js[1..], pgid);
      assert IdsIncreasing(js[1..]) by {
        forall i, j | 0 <= i < j < |js[1..]| ensures js[1..][i].id < js[1..][j].id {
          assert js[1..][i] == js[i + 1] && js[1..][j] == js[j + 1];
        }
      }
      WithoutIncreasing(js[1..], pgid);
      if js[0].pgid != pgid {
        forall k | 0 <= k < |rest| ensures js[0].id < rest[k].id {
          var m :| 0 <= m < |js[1..]| && js[1..][m] == rest[k];
          assert js[1..][m] == js[m + 1];
        }
      }
    }
  }

  /** `iter().find(|j| j.id == id)`: the first job with that id. */
  function FindById(js: seq<Job>, id: nat): (r: Option<Job>)
    ensures r.Some? ==> r.value.id == id && exists k :: (0 <= k < |js| && js[k] == r.value
      && forall m :: 0 <= m < k ==> js[m].id != id)
    ensures r.None? <==> forall k :: 0 <= k < |js| ==> js[k].id != id
  {
    if js == [] then None
    else if js[0].id == id then Some(js[0])
    else
      var r := FindById(js[1..], id);
      assert r.Some? ==> r.value.id == id && exists k :: (0 <= k < |js| && js[k] == r.value
        && forall m :: 0 <= m < k ==> js[m].id != id) by {
        if r.Some? {
          var k :| 0 <= k < |js[1..]| && js[1..][k] == r.value && r.value.id == id
            && forall m :: 0 <= m < k ==> js[1..][m].id != id;
          assert js[k + 1] == r.value;
          forall m | 0 <= m < k + 1 ensures js[m].id != id {
            if m > 0 { assert js[m] == js[1..][m - 1]; }
          }
        }
      }
      assert r.None? ==> forall k :: 0 <= k < |js| ==> js[k].id != id by {
        if r.None? {
          forall k | 0 <= k < |js| ensures js[k].id != id {
            if k > 0 { assert js[k] == js[1..][k - 1]; }
          }
        }
      }
      r
  }

  /** A job appended with an id above all others is found by that id. */
  lemma {:induction false} FindAppended(js: seq<Job>, j: Job)
    requires forall k :: 0 <= k < |js| ==> js[k].id < j.id
    ensures FindById(js + [j], j.id) == Some(j)
  {
    if js == [] {
      assert js + [j] == [j];
    } else {
      assert (js + [j])[1..] == js[1..] + [j];
      FindAppended(js[1..], j);
    }
  }

  /** With increasing ids, the job found is the only one with that id. */
  lemma {:induction false} FindUnique(js: seq<Job>, id: nat, k: nat)
    requires IdsIncreasing(js)
    requires k < |js| && js[k].id == id
    ensures FindById(js, id) == Some(js[k])
  {
    var r := FindById(js, id);
    var m :| 0 <= m < |js| && js[m] == r.value
      && forall q :: 0 <= q < m ==> js[q].id != id;
    assert !(m < k) && !(k < m);
  }

  /** `JobManager`. */
  class JobManager {
    var jobs: seq<Job>
    var nextId: nat

    /** Ids increase along the table, are at least 1 and below `nextId`, and
        the counter is 1 exactly when the table is empty. */
    ghost predicate Valid()
      reads this
    {
      && IdsIncreasing(jobs)
      && (forall k :: 0 <= k < |jobs| ==> 1 <= jobs[k].id < nextId)
      && (jobs == [] <==> nextId == 1)
    }

    /** `JobManager::new`. */
    constructor ()
      ensures Valid() && jobs == [] && nextId == 1
    {
      jobs := [];
      nextId := 1;
    }

    /** `add_job`: the job gets the current counter, goes to the end of the
        table, and the counter moves on by one. */
    method AddJob(pgid: int, cmd: string, status: JobStatus, now: nat) returns (id: nat)
      requires Valid()
      modifies this
      ensures Valid()
      ensures id == old(nextId) && nextId == id + 1
      ensures jobs == old(jobs) + [Job(id, pgid, cmd, status, now)]
    {
      id := nextId;
      assert id >= 1 by {
        if jobs != [] { assert 1 <= jobs[0].id < nextId; }
      }
      jobs := jobs + [Job(id, pgid, cmd, status, now)];
      nextId := nextId + 1;
    }

    /** `remove_job`: drop every job of that process group, in order; an
        empty table starts the numbering again. */
    method RemoveJob(pgid: int)
      requires Valid()
      modifies this
      ensures Valid()
      ensures jobs == Without(old(jobs), pgid)
      ensures nextId == if jobs == [] then 1 else old(nextId)
    {
      WithoutIncreasing(jobs, pgid);
      jobs := Without(jobs, pgid);
      if jobs == [] {
        nextId := 1;
      }
    }

    /** `get_jobs`: the table, in the order the jobs were added, which is the
        order of their ids. */
    function GetJobs(): (r: seq<Job>)
      reads this
      requires Valid()
      ensures IdsIncreasing(r)
      ensures forall k :: 0 <= k < |r| ==> 1 <= r[k].id < nextId
    {
      jobs
    }

    /** `find_job_by_id`, the iterator search written as a loop. */
    method FindJobById(id: nat) returns (r: Option<Job>)
      ensures r == FindById(jobs, id)
    {
      var i := 0;
      while i < |jobs|
        invariant 0 <= i <= |jobs|
        invariant FindById(jobs, id) == FindById(jobs[i..], id)
      {
        if jobs[i].id == id {
          return Some(jobs[i]);
        }
        assert jobs[i..][1..] == jobs[i + 1..];
        i := i + 1;
      }
      return None;
    }
  }
}
