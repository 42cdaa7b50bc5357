/** Scrape jobs collected from several relations must have different names.  Jobs that share a name
    get a digest of themselves appended to it, and identical jobs are kept once. */
module JobNames {
  import opened Lists

  /** A job as JSON text: its name, and the text before and after the name.  Two jobs that differ only
      in the order of their fields are two jobs, with two digests. */
  datatype Job = Job(name: string, body: Body)

  datatype Body = Body(before: string, after: string)

  type Hash = Job -> string

  const DIGEST_LENGTH := 64

  // ---- What de-duplication computes ----

  function NamesOf(jobs: seq<Job>): seq<string> {
    if jobs == [] then []
    else
      var names := NamesOf(jobs[..|jobs| - 1]);
      var name := jobs[|jobs| - 1].name;
      if name in names then names else names + [name]
  }

  function WithName(jobs: seq<Job>, name: string): seq<Job> {
    if jobs == [] then []
    else
      var rest := WithName(jobs[..|jobs| - 1], name);
      if jobs[|jobs| - 1].name == name then rest + [jobs[|jobs| - 1]] else rest
  }

  function HashedName(h: Hash, job: Job): string {
    job.name + "_" + h(job)
  }

  function Renamed(h: Hash, group: seq<Job>): seq<Job> {
    if |group| > 1
    then seq(|group|, i requires 0 <= i < |group| => group[i].(name := HashedName(h, group[i])))
    else group
  }

  function Groups(h: Hash, jobs: seq<Job>, names: seq<string>): seq<seq<Job>> {
    seq(|names|, i requires 0 <= i < |names| => Renamed(h, WithName(jobs, names[i])))
  }

  function Grouped(h: Hash, jobs: seq<Job>, names: seq<string>): seq<Job> {
    Concat(Groups(h, jobs, names))
  }

  lemma GroupedGrows(h: Hash, jobs: seq<Job>, names: seq<string>, name: string)
    ensures Grouped(h, jobs, names + [name]) == Grouped(h, jobs, names) + Renamed(h, WithName(jobs, name))
  {
    assert Groups(h, jobs, names + [name])[..|names|] == Groups(h, jobs, names);
  }

  predicate Seen(h: Hash, jobs: seq<Job>, job: Job) {
    exists i :: 0 <= i < |jobs| && h(jobs[i]) == h(job)
  }

  function FirstOfEach(h: Hash, jobs: seq<Job>): seq<Job> {
    if jobs == [] then []
    else
      var rest := FirstOfEach(h, jobs[..|jobs| - 1]);
      var job := jobs[|jobs| - 1];
      if Seen(h, rest, job) then rest else rest + [job]
  }

  function Deduped(h: Hash, jobs: seq<Job>): seq<Job> {
    FirstOfEach(h, Grouped(h, jobs, NamesOf(jobs)))
  }

  // ---- The loops that compute it ----

  method RenameGroup(h: Hash, group: seq<Job>) returns (r: seq<Job>)
    ensures r == Renamed(h, group)
  {
    r := group;
    if |group| > 1 {
      for i := 0 to |group|
        invariant |r| == |group|
        invariant forall k | 0 <= k < i :: r[k] == group[k].(name := HashedName(h, group[k]))
        invariant forall k | i <= k < |group| :: r[k] == group[k]
      {
        r := r[i := r[i].(name := HashedName(h, r[i]))];
      }
    }
  }

  method DropEqualJobs(h: Hash, jobs: seq<Job>) returns (kept: seq<Job>)
    ensures kept == FirstOfEach(h, jobs)
  {
    kept := [];
    var seen: set<string> := {};
    for i := 0 to |jobs|
      invariant kept == FirstOfEach(h, jobs[..i])
      invariant forall digest :: digest in seen <==> exists k :: 0 <= k < |kept| && h(kept[k]) == digest
    {
      assert jobs[..i + 1][..i] == jobs[..i];
      var digest := h(jobs[i]);
      if digest !in seen {
        assert !Seen(h, kept, jobs[i]);
        ghost var before := kept;
        kept := kept + [jobs[i]];
        assert forall k | 0 <= k < |before| :: kept[k] == before[k];
        assert kept[|before|] == jobs[i];
        seen := seen + {digest};
      }
    }
    assert jobs[..|jobs|] == jobs;
  }

  method DedupeJobNames(h: Hash, jobs: seq<Job>) returns (r: seq<Job>)
    ensures r == Deduped(h, jobs)
  {
    var names := NamesOf(jobs);
    var grouped := [];
    for i := 0 to |names|
      invariant grouped == Grouped(h, jobs, names[..i])
    {
      assert names[..i + 1] == names[..i] + [names[i]];
      GroupedGrows(h, jobs, names[..i], names[i]);
      var group := RenameGroup(h, WithName(jobs, names[i]));
      grouped := grouped + group;
    }
    assert names[..|names|] == names;
    r := DropEqualJobs(h, grouped);
  }

  // ---- Which jobs come out ----

  predicate IsShared(jobs: seq<Job>, name: string) {
    |WithName(jobs, name)| > 1
  }

  function Final(h: Hash, jobs: seq<Job>, job: Job): Job {
    if IsShared(jobs, job.name) then job.(name := HashedName(h, job)) else job
  }

  lemma {:induction false} NamesAreExact(jobs: seq<Job>, name: string)
    ensures name in NamesOf(jobs) <==> exists i :: 0 <= i < |jobs| && jobs[i].name == name
    decreases |jobs|
  {
    if jobs != [] {
      var init := jobs[..|jobs| - 1];
      NamesAreExact(init, name);
      assert forall i | 0 <= i < |init| :: init[i] == jobs[i];
    }
  }

  lemma {:induction false} WithNameIsExact(jobs: seq<Job>, name: string, job: Job)
    ensures job in WithName(jobs, name) <==> job in jobs && job.name == name
    decreases |jobs|
  {
    if jobs != [] {
      WithNameIsExact(jobs[..|jobs| - 1], name, job);
      assert jobs == jobs[..|jobs| - 1] + [jobs[|jobs| - 1]];
    }
  }

  // Whether the job is what some job with one of these names finally becomes.
  ghost predicate Becomes(h: Hash, jobs: seq<Job>, names: seq<string>, job: Job) {
    exists j :: j in jobs && j.name in names && job == Final(h, jobs, j)
  }

  // A renamed group lists what its jobs finally become.
  lemma {:induction false} RenamedIsFinal(h: Hash, jobs: seq<Job>, name: string, job: Job)
    ensures job in Renamed(h, WithName(jobs, name)) <==> Becomes(h, jobs, [name], job)
  {
    var group := WithName(jobs, name);
    var renamed := Renamed(h, group);
    assert |renamed| == |group|;
    if job in renamed {
      var i: nat :| i < |renamed| && renamed[i] == job;
      WithNameIsExact(jobs, name, group[i]);
      assert job == Final(h, jobs, group[i]);
    }
    if Becomes(h, jobs, [name], job) {
      var j :| j in jobs && j.name in [name] && job == Final(h, jobs, j);
      WithNameIsExact(jobs, name, j);
      var i: nat :| i < |group| && group[i] == j;
      assert renamed[i] == job;
    }
  }

  lemma {:induction false} BecomesEither(h: Hash, jobs: seq<Job>, a: seq<string>, b: seq<string>, job: Job)
    ensures Becomes(h, jobs, a + b, job) <==> Becomes(h, jobs, a, job) || Becomes(h, jobs, b, job)
  {
  }

  lemma {:induction false} GroupedHolds(h: Hash, jobs: seq<Job>, names: seq<string>, job: Job)
    ensures job in Grouped(h, jobs, names) <==> Becomes(h, jobs, names, job)
    decreases |names|
  {
    if names != [] {
      var init, last := names[..|names| - 1], names[|names| - 1];
      GroupedHolds(h, jobs, init, job);
      RenamedIsFinal(h, jobs, last, job);
      BecomesEither(h, jobs, init, [last], job);
      assert names == init + [last];
      GroupedGrows(h, jobs, init, last);
    }
  }

  lemma {:induction false} FirstOfEachIsSublist(h: Hash, jobs: seq<Job>, job: Job)
    ensures job in FirstOfEach(h, jobs) ==> job in jobs
    ensures job in jobs ==> Seen(h, FirstOfEach(h, jobs), job)
    decreases |jobs|
  {
    if jobs != [] {
      var init, last := jobs[..|jobs| - 1], jobs[|jobs| - 1];
      FirstOfEachIsSublist(h, init, job);
      assert jobs == init + [last];
      var rest, all := FirstOfEach(h, init), FirstOfEach(h, jobs);
      if Seen(h, rest, job) {
        var i: nat :| i < |rest| && h(rest[i]) == h(job);
        assert all[i] == rest[i];
      } else if job == last {
        assert all[|rest|] == last;
      }
    }
  }

  ghost predicate DistinctDigests(h: Hash, jobs: seq<Job>) {
    forall i, j | 0 <= i < j < |jobs| :: h(jobs[i]) != h(jobs[j])
  }

  lemma {:induction false} FirstOfEachIsDistinct(h: Hash, jobs: seq<Job>)
    ensures DistinctDigests(h, FirstOfEach(h, jobs))
    decreases |jobs|
  {
    if jobs != [] {
      FirstOfEachIsDistinct(h, jobs[..|jobs| - 1]);
    }
  }

  /** The jobs whose digests matter: those that come in, and what they finally become. */
  ghost predicate InPool(h: Hash, jobs: seq<Job>, job: Job) {
    job in jobs || exists j :: j in jobs && job == Final(h, jobs, j)
  }

  // No two of these jobs have the same digest.
  ghost predicate NoCollision(h: Hash, jobs: seq<Job>) {
    && (forall j | j in jobs :: |h(j)| == DIGEST_LENGTH)
    && (forall x, y | InPool(h, jobs, x) && InPool(h, jobs, y) && h(x) == h(y) :: x == y)
  }

  lemma {:induction false} DedupedHoldsFinal(h: Hash, jobs: seq<Job>, job: Job)
    requires NoCollision(h, jobs)
    ensures job in Deduped(h, jobs) <==> exists j :: j in jobs && job == Final(h, jobs, j)
    ensures DistinctDigests(h, Deduped(h, jobs))
  {
    var names := NamesOf(jobs);
    var grouped := Grouped(h, jobs, names);
    FirstOfEachIsDistinct(h, grouped);
    InGrouped(h, jobs, job);
    FirstOfEachIsSublist(h, grouped, job);
    if job in grouped {
      var out := Deduped(h, jobs);
      var i: nat :| i < |out| && h(out[i]) == h(job);
      FirstOfEachIsSublist(h, grouped, out[i]);
      InGrouped(h, jobs, out[i]);
      assert InPool(h, jobs, out[i]) && InPool(h, jobs, job);
    }
  }

  lemma {:induction false} InGrouped(h: Hash, jobs: seq<Job>, job: Job)
    ensures job in Grouped(h, jobs, NamesOf(jobs)) <==> exists j :: j in jobs && job == Final(h, jobs, j)
  {
    GroupedHolds(h, jobs, NamesOf(jobs), job);
    forall j | j in jobs ensures j.name in NamesOf(jobs) {
      var i: nat :| i < |jobs| && jobs[i] == j;
      NamesAreExact(jobs, j.name);
    }
  }

  // Another job in the list has the name of the i-th.
  ghost predicate SharesItsName(jobs: seq<Job>, i: nat)
    requires i < |jobs|
  {
    exists k :: 0 <= k < |jobs| && k != i && jobs[k].name == jobs[i].name
  }

  lemma {:induction false} SharedIff(jobs: seq<Job>, i: nat)
    requires i < |jobs|
    ensures IsShared(jobs, jobs[i].name) <==> SharesItsName(jobs, i)
    decreases |jobs|
  {
    if k :| 0 <= k < |jobs| && k != i && jobs[k].name == jobs[i].name {
      SharedByTwo(jobs, if i < k then i else k, if i < k then k else i);
    } else {
      OnceOnly(jobs, i);
    }
  }

  lemma {:induction false} OnceOnly(jobs: seq<Job>, i: nat)
    requires i < |jobs| && !SharesItsName(jobs, i)
    ensures WithName(jobs, jobs[i].name) == [jobs[i]]
    decreases |jobs|
  {
    var init, last := jobs[..|jobs| - 1], |jobs| - 1;
    if i < last {
      assert !SharesItsName(init, i);
      OnceOnly(init, i);
      assert jobs[last].name != jobs[i].name;
    } else {
      NoneWithName(init, jobs[i].name);
    }
  }

  lemma {:induction false} NoneWithName(jobs: seq<Job>, name: string)
    requires forall k | 0 <= k < |jobs| :: jobs[k].name != name
    ensures WithName(jobs, name) == []
    decreases |jobs|
  {
    if jobs != [] {
      NoneWithName(jobs[..|jobs| - 1], name);
    }
  }

  // What the i-th job becomes: itself, or itself with its digest in its name.
  ghost function Unambiguous(h: Hash, jobs: seq<Job>, i: nat): Job
    requires i < |jobs|
  {
    if SharesItsName(jobs, i) then Job(jobs[i].name + "_" + h(jobs[i]), jobs[i].body) else jobs[i]
  }

  /** What comes out is, with no digest twice, what the jobs that came in become: a job whose name no
      other has stays as it is, any other gets an underscore and its digest appended to its name. */
  lemma {:induction false} DedupedIsExact(h: Hash, jobs: seq<Job>, job: Job)
    requires NoCollision(h, jobs)
    ensures job in Deduped(h, jobs) <==> exists i: nat :: i < |jobs| && job == Unambiguous(h, jobs, i)
    ensures DistinctDigests(h, Deduped(h, jobs))
  {
    DedupedHoldsFinal(h, jobs, job);
    forall i: nat | i < |jobs| ensures Unambiguous(h, jobs, i) == Final(h, jobs, jobs[i]) {
      SharedIff(jobs, i);
    }
    if j :| j in jobs && job == Final(h, jobs, j) {
      var i: nat :| i < |jobs| && jobs[i] == j;
      assert job == Unambiguous(h, jobs, i);
    }
    if i: nat :| i < |jobs| && job == Unambiguous(h, jobs, i) {
      assert jobs[i] in jobs;
    }
  }

  /** The jobs come out in the order of their first appearance: what a part of the list keeps, the
      whole list keeps first, and a job is added exactly when none before it has its digest. */
  lemma {:induction false} KeptInOrder(h: Hash, jobs: seq<Job>, n: nat)
    requires n <= |jobs|
    ensures FirstOfEach(h, jobs[..n]) <= FirstOfEach(h, jobs)
    ensures n < |jobs| ==>
              FirstOfEach(h, jobs[..n + 1]) == FirstOfEach(h, jobs[..n])
                + if exists k :: 0 <= k < n && h(jobs[k]) == h(jobs[n]) then [] else [jobs[n]]
    decreases |jobs|
  {
    if n < |jobs| {
      var init := jobs[..|jobs| - 1];
      if n < |jobs| - 1 {
        KeptInOrder(h, init, n);
        assert init[..n] == jobs[..n] && init[..n + 1] == jobs[..n + 1];
      } else {
        assert jobs[..n + 1] == jobs;
        SeenIff(h, init, jobs[n]);
      }
    } else {
      assert jobs[..n] == jobs;
    }
  }

  lemma {:induction false} SeenIff(h: Hash, jobs: seq<Job>, job: Job)
    ensures Seen(h, FirstOfEach(h, jobs), job) <==> exists k :: 0 <= k < |jobs| && h(jobs[k]) == h(job)
  {
    var kept := FirstOfEach(h, jobs);
    if i :| 0 <= i < |kept| && h(kept[i]) == h(job) {
      FirstOfEachIsSublist(h, jobs, kept[i]);
      assert kept[i] in jobs;
    }
    if k :| 0 <= k < |jobs| && h(jobs[k]) == h(job) {
      FirstOfEachIsSublist(h, jobs, jobs[k]);
    }
  }

  // ---- Whether the names that come out are different ----

  ghost predicate DistinctNames(jobs: seq<Job>) {
    forall i, j | 0 <= i < j < |jobs| :: jobs[i].name != jobs[j].name
  }

  /** A job that keeps its name carries, by chance, the name another job is given. */
  ghost predicate Clash(h: Hash, jobs: seq<Job>, kept: Job, renamed: Job) {
    && kept in jobs && !IsShared(jobs, kept.name)
    && renamed in jobs && IsShared(jobs, renamed.name)
    && kept.name == HashedName(h, renamed)
  }

  lemma {:induction false} EqualHashedNames(h: Hash, j: Job, k: Job)
    requires HashedName(h, j) == HashedName(h, k) && |h(j)| == |h(k)|
    ensures j.name == k.name && h(j) == h(k)
  {
    var full := HashedName(h, j);
    assert full[..|j.name|] == j.name && full[..|k.name|] == k.name;
    assert full[|j.name| + 1..] == h(j) && full[|k.name| + 1..] == h(k);
  }

  lemma {:induction false} AloneWithName(jobs: seq<Job>, j: Job, k: Job)
    requires j in jobs && k in jobs && j.name == k.name && !IsShared(jobs, j.name)
    ensures j == k
  {
    WithNameIsExact(jobs, j.name, j);
    WithNameIsExact(jobs, j.name, k);
  }

  // Two jobs finally have one name only if they are one job, or clash.
  lemma {:induction false} FinalNames(h: Hash, jobs: seq<Job>, j: Job, k: Job)
    requires NoCollision(h, jobs) && j in jobs && k in jobs
    requires Final(h, jobs, j).name == Final(h, jobs, k).name
    ensures j == k || Clash(h, jobs, j, k) || Clash(h, jobs, k, j)
  {
    if IsShared(jobs, j.name) && IsShared(jobs, k.name) {
      EqualHashedNames(h, j, k);
      assert InPool(h, jobs, j) && InPool(h, jobs, k);
    } else if !IsShared(jobs, j.name) && !IsShared(jobs, k.name) {
      AloneWithName(jobs, j, k);
    }
  }

  /** Every distinct job that comes in has an output job of its own, equal to it up to its name,
      unless it clashes with a job that has the same body. */
  lemma {:induction false} FinalIsInjectiveIff(h: Hash, jobs: seq<Job>)
    requires NoCollision(h, jobs)
    ensures (forall j, k | j in jobs && k in jobs && Final(h, jobs, j) == Final(h, jobs, k) :: j == k)
            <==> !exists j, k :: Clash(h, jobs, j, k) && j.body == k.body
  {
    forall j, k | j in jobs && k in jobs && Final(h, jobs, j) == Final(h, jobs, k) && j != k
      ensures j.body == k.body && (Clash(h, jobs, j, k) || Clash(h, jobs, k, j))
    {
      FinalNames(h, jobs, j, k);
    }
    forall j, k | Clash(h, jobs, j, k) && j.body == k.body
      ensures j in jobs && k in jobs && Final(h, jobs, j) == Final(h, jobs, k) && j != k
    {
    }
  }

  /** The names that come out are pairwise different exactly when no clashing jobs differ. */
  lemma {:induction false} NamesDifferIff(h: Hash, jobs: seq<Job>)
    requires NoCollision(h, jobs)
    ensures DistinctNames(Deduped(h, jobs)) <==> !exists j, k :: Clash(h, jobs, j, k) && j.body != k.body
  {
    var out := Deduped(h, jobs);
    if exists j, k :: Clash(h, jobs, j, k) && j.body != k.body {
      var j, k :| Clash(h, jobs, j, k) && j.body != k.body;
      ClashShows(h, jobs, j, k);
    } else {
      forall a, b | 0 <= a < b < |out| ensures out[a].name != out[b].name {
        if out[a].name == out[b].name {
          OutputNames(h, jobs, a, b);
        }
      }
    }
  }

  lemma {:induction false} ClashShows(h: Hash, jobs: seq<Job>, j: Job, k: Job)
    requires NoCollision(h, jobs) && Clash(h, jobs, j, k) && j.body != k.body
    ensures !DistinctNames(Deduped(h, jobs))
  {
    var out := Deduped(h, jobs);
    var j', k' := Final(h, jobs, j), Final(h, jobs, k);
    DedupedHoldsFinal(h, jobs, j');
    DedupedHoldsFinal(h, jobs, k');
    var a: nat :| a < |out| && out[a] == j';
    var b: nat :| b < |out| && out[b] == k';
    assert a != b && out[a].name == out[b].name;
  }

  lemma {:induction false} OutputNames(h: Hash, jobs: seq<Job>, a: nat, b: nat)
    requires NoCollision(h, jobs) && a < b < |Deduped(h, jobs)|
    requires Deduped(h, jobs)[a].name == Deduped(h, jobs)[b].name
    ensures exists j, k :: Clash(h, jobs, j, k) && j.body != k.body
  {
    var out := Deduped(h, jobs);
    DedupedHoldsFinal(h, jobs, out[a]);
    DedupedHoldsFinal(h, jobs, out[b]);
    var j :| j in jobs && out[a] == Final(h, jobs, j);
    var k :| k in jobs && out[b] == Final(h, jobs, k);
    assert out[a] != out[b];
    FinalNames(h, jobs, j, k);
  }

  // ---- Applying it again ----

  // Where no name is shared, every group is one job, in place.
  lemma {:induction false} DistinctAlone(jobs: seq<Job>, name: string)
    requires DistinctNames(jobs)
    ensures name !in NamesOf(jobs) ==> WithName(jobs, name) == []
    ensures forall i | 0 <= i < |jobs| && jobs[i].name == name :: WithName(jobs, name) == [jobs[i]]
    decreases |jobs|
  {
    if jobs != [] {
      var init := jobs[..|jobs| - 1];
      DistinctAlone(init, name);
      NamesAreExact(jobs, name);
      NamesAreExact(init, name);
    }
  }

  lemma {:induction false} DistinctNamesInOrder(jobs: seq<Job>)
    requires DistinctNames(jobs)
    ensures NamesOf(jobs) == seq(|jobs|, i requires 0 <= i < |jobs| => jobs[i].name)
    decreases |jobs|
  {
    if jobs != [] {
      var init := jobs[..|jobs| - 1];
      DistinctNamesInOrder(init);
      NamesAreExact(init, jobs[|jobs| - 1].name);
    }
  }

  lemma {:induction false} AloneStays(h: Hash, jobs: seq<Job>, i: nat)
    requires DistinctNames(jobs) && i < |jobs|
    ensures Renamed(h, WithName(jobs, jobs[i].name)) == [jobs[i]]
  {
    DistinctAlone(jobs, jobs[i].name);
  }

  lemma {:induction false} DistinctDigestsStay(h: Hash, jobs: seq<Job>)
    requires DistinctDigests(h, jobs)
    ensures FirstOfEach(h, jobs) == jobs
    decreases |jobs|
  {
    if jobs != [] {
      DistinctDigestsStay(h, jobs[..|jobs| - 1]);
    }
  }

  lemma {:induction false} KeepsDistinctNames(h: Hash, jobs: seq<Job>)
    requires DistinctNames(jobs) && DistinctDigests(h, jobs)
    ensures Deduped(h, jobs) == jobs
  {
    DistinctNamesInOrder(jobs);
    forall i | 0 <= i < |jobs| ensures Groups(h, jobs, NamesOf(jobs))[i] == [jobs[i]] {
      AloneStays(h, jobs, i);
    }
    ConcatSingletons(Groups(h, jobs, NamesOf(jobs)), jobs);
    DistinctDigestsStay(h, jobs);
  }

  // A job with a shared name that is there after renaming was renamed from a shorter one.
  lemma {:induction false} NoneSharedIfUnchanged(h: Hash, jobs: seq<Job>, job: Job)
    requires Deduped(h, jobs) == jobs && job in jobs && IsShared(jobs, job.name)
    ensures false
    decreases |job.name|
  {
    FirstOfEachIsSublist(h, Grouped(h, jobs, NamesOf(jobs)), job);
    InGrouped(h, jobs, job);
    var j :| j in jobs && job == Final(h, jobs, j);
    NoneSharedIfUnchanged(h, jobs, j);
  }

  lemma {:induction false} SharedByTwo(jobs: seq<Job>, a: nat, b: nat)
    requires a < b < |jobs| && jobs[a].name == jobs[b].name
    ensures IsShared(jobs, jobs[a].name)
    decreases |jobs|
  {
    var init := jobs[..|jobs| - 1];
    if b < |jobs| - 1 {
      SharedByTwo(init, a, b);
    } else {
      WithNameIsExact(init, jobs[a].name, jobs[a]);
      assert init[a] == jobs[a];
    }
  }

  lemma {:induction false} StaysIff(h: Hash, jobs: seq<Job>)
    requires DistinctDigests(h, jobs)
    ensures Deduped(h, jobs) == jobs <==> DistinctNames(jobs)
  {
    if DistinctNames(jobs) {
      KeepsDistinctNames(h, jobs);
    } else if Deduped(h, jobs) == jobs {
      var a: nat, b: nat :| a < b < |jobs| && jobs[a].name == jobs[b].name;
      SharedByTwo(jobs, a, b);
      NoneSharedIfUnchanged(h, jobs, jobs[a]);
    }
  }

  /** A second application changes nothing exactly when the names that came out are different. */
  lemma {:induction false} AgainChangesNothingIff(h: Hash, jobs: seq<Job>)
    requires NoCollision(h, jobs)
    ensures Deduped(h, Deduped(h, jobs)) == Deduped(h, jobs) <==>
            !exists j, k :: Clash(h, jobs, j, k) && j.body != k.body
  {
    FirstOfEachIsDistinct(h, Grouped(h, jobs, NamesOf(jobs)));
    StaysIff(h, Deduped(h, jobs));
    NamesDifferIff(h, jobs);
  }

  // ---- All relations together ----

  predicate Accepted(h: Hash, relation: seq<Job>, accepts: seq<Job> -> bool) {
    relation != [] && accepts(Deduped(h, relation))
  }

  // What each relation adds: its jobs de-duplicated on their own, if validation accepts them.
  function Parts(h: Hash, relations: seq<seq<Job>>, accepts: seq<Job> -> bool): seq<seq<Job>> {
    seq(|relations|, i requires 0 <= i < |relations| =>
      if Accepted(h, relations[i], accepts) then Deduped(h, relations[i]) else [])
  }

  function Collected(h: Hash, relations: seq<seq<Job>>, accepts: seq<Job> -> bool): seq<Job> {
    Concat(Parts(h, relations, accepts))
  }

  method Jobs(h: Hash, relations: seq<seq<Job>>, accepts: seq<Job> -> bool) returns (r: seq<Job>)
    ensures r == Deduped(h, Collected(h, relations, accepts))
  {
    var collected := [];
    ghost var parts := Parts(h, relations, accepts);
    for i := 0 to |relations|
      invariant collected == Concat(parts[..i])
    {
      assert parts[..i + 1][..i] == parts[..i];
      if relations[i] != [] {
        var jobs := DedupeJobNames(h, relations[i]);
        if accepts(jobs) {
          collected := collected + jobs;
        }
      }
    }
    assert parts[..|relations|] == parts;
    r := DedupeJobNames(h, collected);
  }

  ghost predicate HasBody(jobs: seq<Job>, body: Body) {
    exists j :: j in jobs && j.body == body
  }

  lemma {:induction false} BodiesKept(h: Hash, jobs: seq<Job>, body: Body)
    requires NoCollision(h, jobs)
    ensures HasBody(Deduped(h, jobs), body) <==> HasBody(jobs, body)
  {
    if HasBody(Deduped(h, jobs), body) {
      var y :| y in Deduped(h, jobs) && y.body == body;
      DedupedHoldsFinal(h, jobs, y);
    }
    if HasBody(jobs, body) {
      var j :| j in jobs && j.body == body;
      DedupedHoldsFinal(h, jobs, Final(h, jobs, j));
    }
  }

  lemma {:induction false} HasBodyInEither(a: seq<Job>, b: seq<Job>, body: Body)
    ensures HasBody(a + b, body) <==> HasBody(a, body) || HasBody(b, body)
  {
  }

  lemma {:induction false} ConcatHolds(parts: seq<seq<Job>>, body: Body)
    ensures HasBody(Concat(parts), body) <==> exists i: nat :: i < |parts| && HasBody(parts[i], body)
    decreases |parts|
  {
    if parts != [] {
      var init, last := parts[..|parts| - 1], parts[|parts| - 1];
      ConcatHolds(init, body);
      HasBodyInEither(Concat(init), last, body);
      if exists i: nat :: i < |init| && HasBody(init[i], body) {
        var i: nat :| i < |init| && HasBody(init[i], body);
        assert parts[i] == init[i];
      }
      if exists i: nat :: i < |parts| && HasBody(parts[i], body) {
        var i: nat :| i < |parts| && HasBody(parts[i], body);
        assert i < |init| ==> init[i] == parts[i];
      }
    }
  }

  /** Scraping everything: a body is scraped exactly if an accepted relation asked for it, and no
      two equal jobs are scraped. */
  lemma {:induction false} JobsKeepBodies(h: Hash, relations: seq<seq<Job>>, accepts: seq<Job> -> bool, body: Body)
    requires forall k | 0 <= k < |relations| :: NoCollision(h, relations[k])
    requires NoCollision(h, Collected(h, relations, accepts))
    ensures HasBody(Deduped(h, Collected(h, relations, accepts)), body) <==>
            exists i: nat :: i < |relations| && accepts(Deduped(h, relations[i])) && HasBody(relations[i], body)
    ensures DistinctDigests(h, Deduped(h, Collected(h, relations, accepts)))
  {
    var collected := Collected(h, relations, accepts);
    BodiesKept(h, collected, body);
    FirstOfEachIsDistinct(h, Grouped(h, collected, NamesOf(collected)));
    PartsHold(h, relations, accepts, body);
  }

  lemma {:induction false} PartsHold(h: Hash, relations: seq<seq<Job>>, accepts: seq<Job> -> bool, body: Body)
    requires forall k | 0 <= k < |relations| :: NoCollision(h, relations[k])
    ensures HasBody(Collected(h, relations, accepts), body) <==>
            exists i: nat :: i < |relations| && Accepted(h, relations[i], accepts) && HasBody(relations[i], body)
  {
    var parts := Parts(h, relations, accepts);
    ConcatHolds(parts, body);
    forall i: nat | i < |relations|
      ensures HasBody(parts[i], body) <==> Accepted(h, relations[i], accepts) && HasBody(relations[i], body)
    {
      BodiesKept(h, relations[i], body);
    }
  }
}
