/** `extractCronJobs` (src/server.js, lines 1055-1093): a walk over the JSON that
    `openclaw cron list --json` printed, collecting every object that carries an id and a name,
    once per `id::name` key, and descending no deeper than 8 levels. */
module CronJobs {
  import opened Text
  import opened Json

  /** The walk returns at once from any node deeper than this. */
  const MaxDepth: nat := 8

  datatype CronJob = CronJob(id: string, name: string, enabled: bool)

  /** The de-duplication key `${id}::${name}`. */
  function Key(job: CronJob): string {
    job.id + "::" + job.name
  }

  /** The job an object describes, if any: the id is `jobId` when that is a string, else `id`
      when that is a string; both id and name must be non-empty strings; the job is enabled
      unless `enabled` is literally `false`. */
  function JobOf(fields: seq<Field>): (r: Option<CronJob>)
    ensures r.Some? ==> r.value.id != "" && r.value.name != ""
    ensures r.Some? ==> GetString(fields, "name") == Some(r.value.name)
    ensures r.Some? && GetString(fields, "jobId").Some? ==> r.value.id == GetString(fields, "jobId").value
    ensures r.Some? && GetString(fields, "jobId").None? ==> GetString(fields, "id") == Some(r.value.id)
    ensures r.Some? ==> (!r.value.enabled <==> Get(fields, "enabled") == Some(JBool(false)))
    ensures r.None? <==>
      (var id := if GetString(fields, "jobId").Some? then GetString(fields, "jobId") else GetString(fields, "id");
       id.None? || id.value == "" || GetString(fields, "name").None? || GetString(fields, "name").value == "")
  {
    var id := if GetString(fields, "jobId").Some? then GetString(fields, "jobId") else GetString(fields, "id");
    var name := GetString(fields, "name");
    if id.Some? && id.value != "" && name.Some? && name.value != "" then
      Some(CronJob(id.value, name.value, Get(fields, "enabled") != Some(JBool(false))))
    else None
  }

  function JobList(job: Option<CronJob>): seq<CronJob> {
    if job.Some? then [job.value] else []
  }

  /** Every job the walk meets, in the order it meets them, before de-duplication. */
  function Visit(node: Json, depth: nat): (r: seq<CronJob>)
    ensures depth > MaxDepth ==> r == []
    ensures forall j :: j in r ==> j.id != "" && j.name != ""
  {
    if depth > MaxDepth then []
    else
      match node
      case JArr(items) => VisitItems(items, depth + 1)
      case JObj(fields) => JobList(JobOf(fields)) + VisitValues(fields, depth + 1)
      case _ => []
  }

  /** The walk over the elements of an array, one after the other. */
  function VisitItems(items: seq<Json>, depth: nat): (r: seq<CronJob>)
    ensures forall j :: j in r ==> j.id != "" && j.name != ""
    decreases items
  {
    if items == [] then [] else VisitItems(items[..|items| - 1], depth) + Visit(items[|items| - 1], depth)
  }

  /** The walk over the property values of an object, one after the other. */
  function VisitValues(fields: seq<Field>, depth: nat): (r: seq<CronJob>)
    ensures forall j :: j in r ==> j.id != "" && j.name != ""
    decreases fields
  {
    if fields == [] then []
    else VisitValues(fields[..|fields| - 1], depth) + Visit(fields[|fields| - 1].value, depth)
  }

  /** Appending met jobs to `jobs`, skipping those whose key is in `seen`. */
  function Collect(jobs: seq<CronJob>, seen: set<string>, met: seq<CronJob>): (res: (seq<CronJob>, set<string>))
    ensures seen <= res.1
    ensures |jobs| <= |res.0| && res.0[..|jobs|] == jobs
    decreases |met|
  {
    if met == [] then (jobs, seen)
    else if Key(met[0]) in seen then Collect(jobs, seen, met[1..])
    else
      var res := Collect(jobs + [met[0]], seen + {Key(met[0])}, met[1..]);
      assert res.0[..|jobs|] == (jobs + [met[0]])[..|jobs|];
      res
  }

  /** Collecting two runs of met jobs one after the other is collecting them together. */
  lemma {:induction false} CollectAppend(jobs: seq<CronJob>, seen: set<string>, a: seq<CronJob>, b: seq<CronJob>)
    ensures Collect(jobs, seen, a + b) == Collect(Collect(jobs, seen, a).0, Collect(jobs, seen, a).1, b)
    decreases |a|
  {
    if a != [] {
      assert (a + b)[1..] == a[1..] + b;
      if Key(a[0]) in seen {
        CollectAppend(jobs, seen, a[1..], b);
      } else {
        CollectAppend(jobs + [a[0]], seen + {Key(a[0])}, a[1..], b);
      }
    } else {
      assert a + b == b;
    }
  }

  ghost predicate UniqueKeys(jobs: seq<CronJob>) {
    forall i, k :: 0 <= i < k < |jobs| ==> Key(jobs[i]) != Key(jobs[k])
  }

  /** Collecting keeps keys unique and records exactly the keys of what it kept; every job kept
      was met, and every job met has its key among the recorded ones. */
  lemma {:induction false} CollectFacts(jobs: seq<CronJob>, seen: set<string>, met: seq<CronJob>)
    requires UniqueKeys(jobs) && forall j :: j in jobs ==> Key(j) in seen
    ensures var (r, s) := Collect(jobs, seen, met);
      && UniqueKeys(r)
      && (forall j :: j in r ==> Key(j) in s)
      && (forall j :: j in r[|jobs|..] ==> j in met && Key(j) !in seen)
      && (forall j :: j in met ==> Key(j) in s)
      && s == seen + set j | j in r[|jobs|..] :: Key(j)
    decreases |met|
  {
    if met != [] {
      var m := met[0];
      if Key(m) in seen {
        CollectFacts(jobs, seen, met[1..]);
      } else {
        var jobs' := jobs + [m];
        var seen' := seen + {Key(m)};
        assert UniqueKeys(jobs') by {
          forall i, k | 0 <= i < k < |jobs'| ensures Key(jobs'[i]) != Key(jobs'[k]) {
            if k == |jobs| { assert jobs'[i] in jobs; }
          }
        }
        CollectFacts(jobs', seen', met[1..]);
        var r := Collect(jobs', seen', met[1..]).0;
        assert r[..|jobs'|] == jobs';
        assert r[|jobs|..] == [m] + r[|jobs'|..];
      }
    }
  }

  /** `extractCronJobs(payload)` as a value. */
  function Extracted(payload: Json): seq<CronJob> {
    Collect([], {}, Visit(payload, 0)).0
  }

  /** What `extractCronJobs` promises of the jobs it returns: each has a non-empty id and
      name, their keys are unique, and each was met by the walk. */
  lemma ExtractedFacts(payload: Json)
    ensures var r := Extracted(payload);
      && (forall j :: j in r ==> j.id != "" && j.name != "")
      && UniqueKeys(r)
      && (forall j :: j in r ==> j in Visit(payload, 0))
  {
    CollectFacts([], {}, Visit(payload, 0));
    var r := Extracted(payload);
    assert r[0..] == r;
  }

  /** And of the jobs it drops: every job the walk met is represented by a returned job with
      the same key. */
  lemma ExtractedCoversMet(payload: Json)
    ensures forall m :: m in Visit(payload, 0) ==> exists j :: j in Extracted(payload) && Key(j) == Key(m)
  {
    var met := Visit(payload, 0);
    CollectFacts([], {}, met);
    var (r, s) := Collect([], {}, met);
    assert r[0..] == r;
    KeysCovered(r, s, met);
  }

  /** A job whose key is among the keys of `r` has a job in `r` with that key. */
  lemma KeysCovered(r: seq<CronJob>, s: set<string>, met: seq<CronJob>)
    requires s == {} + set j | j in r :: Key(j)
    requires forall j :: j in met ==> Key(j) in s
    ensures forall m :: m in met ==> exists j :: j in r && Key(j) == Key(m)
  {
    forall m | m in met ensures exists j :: j in r && Key(j) == Key(m) {
      assert Key(m) in s;
    }
  }

  /** `n` arrays, each holding only the next. */
  function Nest(n: nat, node: Json): Json {
    if n == 0 then node else JArr([Nest(n - 1, node)])
  }

  lemma {:induction false} VisitNest(n: nat, node: Json, depth: nat)
    ensures Visit(Nest(n, node), depth) == Visit(node, depth + n)
  {
    if n > 0 {
      VisitNest(n - 1, node, depth + 1);
      var items := [Nest(n - 1, node)];
      assert items[..0] == [];
      if depth <= MaxDepth {
        assert Visit(Nest(n, node), depth) == VisitItems(items, depth + 1);
        assert VisitItems(items, depth + 1) == VisitItems([], depth + 1) + Visit(items[0], depth + 1);
      }
    }
  }

  lemma CollectOne(job: CronJob)
    ensures Collect([], {}, [job]).0 == [job]
  {
    assert [job][1..] == [];
  }

  /** The depth bound: a job object wrapped in `n` arrays is found exactly when `n <= 8`. */
  lemma DepthCutoff(n: nat, fields: seq<Field>)
    requires JobOf(fields).Some? && VisitValues(fields, n + 1) == []
    ensures Extracted(Nest(n, JObj(fields))) == if n <= MaxDepth then [JobOf(fields).value] else []
  {
    var met := NestedMet(n, JObj(fields));
    if n <= MaxDepth {
      VisitLoneJob(n, fields);
      CollectOne(JobOf(fields).value);
    } else {
      TooDeep(JObj(fields), n);
    }
  }

  /** What the walk meets in a nested node is what it meets in the node at the depth of
      the nesting. */
  lemma NestedMet(n: nat, node: Json) returns (met: seq<CronJob>)
    ensures met == Visit(node, n)
    ensures Extracted(Nest(n, node)) == Collect([], {}, met).0
  {
    VisitNest(n, node, 0);
    met := Visit(node, n);
  }

  lemma TooDeep(node: Json, depth: nat)
    requires depth > MaxDepth
    ensures Visit(node, depth) == []
  {
  }

  lemma VisitLoneJob(n: nat, fields: seq<Field>)
    requires JobOf(fields).Some? && VisitValues(fields, n + 1) == [] && n <= MaxDepth
    ensures Visit(JObj(fields), n) == [JobOf(fields).value]
  {
    assert Visit(JObj(fields), n) == [JobOf(fields).value] + [];
  }

  /** An empty `jobId` string is still the chosen id, so a non-empty `id` beside it is ignored
      and the object yields no job. */
  lemma EmptyJobIdHidesId(id: string, name: string)
    ensures JobOf([Field("jobId", JStr("")), Field("id", JStr(id)), Field("name", JStr(name))]).None?
  {
    var fields := [Field("jobId", JStr("")), Field("id", JStr(id)), Field("name", JStr(name))];
    assert Get(fields, "jobId") == Some(JStr(""));
  }

  /** The `jobs` array and `seen` set the walk fills. */
  class CronJobWalk {
    var jobs: seq<CronJob>
    var seen: set<string>

    constructor ()
      ensures jobs == [] && seen == {}
    {
      jobs := [];
      seen := {};
    }

    /** `walk(node, depth)`. */
    method Walk(node: Json, depth: nat)
      modifies this
      ensures (jobs, seen) == Collect(old(jobs), old(seen), Visit(node, depth))
      decreases node, 1
    {
      if depth > MaxDepth {
        return;
      }
      match node {
        case JArr(items) =>
          WalkItems(items, depth + 1);
        case JObj(fields) =>
          var job := JobOf(fields);
          if job.Some? && Key(job.value) !in seen {
            seen := seen + {Key(job.value)};
            jobs := jobs + [job.value];
          }
          ghost var mid := (jobs, seen);
          assert mid == Collect(old(jobs), old(seen), JobList(job));
          WalkValues(fields, depth + 1);
          CollectAppend(old(jobs), old(seen), JobList(job), VisitValues(fields, depth + 1));
        case _ =>
      }
    }

    /** `for (const item of node) walk(item, depth)`. */
    method WalkItems(items: seq<Json>, depth: nat)
      modifies this
      ensures (jobs, seen) == Collect(old(jobs), old(seen), VisitItems(items, depth))
      decreases items, 0
    {
      var i := 0;
      while i < |items|
        invariant 0 <= i <= |items|
        invariant (jobs, seen) == Collect(old(jobs), old(seen), VisitItems(items[..i], depth))
      {
        ghost var before := (jobs, seen);
        Walk(items[i], depth);
        assert items[..i + 1][..i] == items[..i];
        CollectAppend(old(jobs), old(seen), VisitItems(items[..i], depth), Visit(items[i], depth));
        i := i + 1;
      }
      assert items[..i] == items;
    }

    /** `for (const value of Object.values(node)) walk(value, depth)`. */
    method WalkValues(fields: seq<Field>, depth: nat)
      modifies this
      ensures (jobs, seen) == Collect(old(jobs), old(seen), VisitValues(fields, depth))
      decreases fields, 0
    {
      var i := 0;
      while i < |fields|
        invariant 0 <= i <= |fields|
        invariant (jobs, seen) == Collect(old(jobs), old(seen), VisitValues(fields[..i], depth))
      {
        Walk(fields[i].value, depth);
        assert fields[..i + 1][..i] == fields[..i];
        CollectAppend(old(jobs), old(seen), VisitValues(fields[..i], depth), Visit(fields[i].value, depth));
        i := i + 1;
      }
      assert fields[..i] == fields;
    }
  }

  /** `extractCronJobs(payload)`. */
  method ExtractCronJobs(payload: Json) returns (jobs: seq<CronJob>)
    ensures jobs == Extracted(payload)
    ensures forall j :: j in jobs ==> j.id != "" && j.name != ""
    ensures UniqueKeys(jobs)
  {
    var walk := new CronJobWalk();
    walk.Walk(payload, 0);
    jobs := walk.jobs;
    ExtractedFacts(payload);
  }
}
