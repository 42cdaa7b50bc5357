/** Scrape jobs may name wildcard targets, which stand for every unit of a relation.  Expansion
    replaces a job by one job per unit for its wildcard targets and one for its fixed targets. */
module ScrapeJobs {
  import opened Lists
  import opened Options
  import opened Texts

  const DEFAULT_PATH := "/metrics"
  const UNNAMED := "unnamed-job"

  datatype StaticConfig = StaticConfig(targets: seq<string>, labels: map<string, string>)

  /** A job's name and metrics path, if it has any, its static configurations and everything else. */
  datatype Job = Job(name: Option<string>, path: Option<string>, configs: seq<StaticConfig>, rest: map<string, string>)

  // A unit's name, its host name and its path.
  datatype Host = Host(unit: string, hostname: string, path: string)

  // The last part of a unit's name.
  function Number(unit: string): string {
    if unit == "" || unit[|unit| - 1] == '/' then "" else Number(unit[..|unit| - 1]) + [unit[|unit| - 1]]
  }

  lemma {:induction false} NumberIsTheLastPart(unit: string) returns (cut: nat)
    ensures cut <= |unit| && Number(unit) == unit[cut..] && '/' !in unit[cut..]
    ensures cut > 0 ==> unit[cut - 1] == '/'
  {
    if unit == "" || unit[|unit| - 1] == '/' {
      cut := |unit|;
    } else {
      var last := |unit| - 1;
      cut := NumberIsTheLastPart(unit[..last]);
      assert unit[cut..] == unit[..last][cut..] + [unit[last]];
    }
  }

  // ---- Single targets ----

  predicate IsWildcard(target: string) {
    target != "" && target[0] == '*'
  }

  function ForHost(target: string, hostname: string): string {
    if target == "" then ""
    else (if target[0] == '*' then hostname else [target[0]]) + ForHost(target[1..], hostname)
  }

  // Every asterisk replaced by the host's name.
  function Substituted(target: string, hostname: string): string {
    Join(Split(target, '*'), hostname)
  }

  /** What a target becomes on a host: every asterisk gives way to the host's name, and nothing else
      changes. */
  lemma {:induction false} ForHostSubstitutes(target: string, hostname: string)
    ensures ForHost(target, hostname) == Substituted(target, hostname)
  {
    if target != "" {
      ForHostSubstitutes(target[1..], hostname);
      JoinInFront(target[0], Split(target[1..], '*'), hostname);
    }
  }

  lemma {:induction false} ForHostPlain(target: string, hostname: string)
    requires Free(target, '*')
    ensures ForHost(target, hostname) == target
  {
    if target != "" {
      ForHostPlain(target[1..], hostname);
      assert target == [target[0]] + target[1..];
    }
  }

  /** In particular a wildcard keeps its port. */
  lemma {:induction false} ForHostKeepsPort(port: string, hostname: string)
    requires Free(port, '*')
    ensures ForHost("*" + port, hostname) == hostname + port
  {
    ForHostAtFirst("", port, hostname);
    ForHostPlain(port, hostname);
    assert "" + "*" + port == "*" + port;
  }

  /** One asterisk at a time. */
  lemma {:induction false} ForHostAtFirst(head: string, tail: string, hostname: string)
    requires Free(head, '*')
    ensures ForHost(head + "*" + tail, hostname) == head + hostname + ForHost(tail, hostname)
  {
    if head == "" {
      assert ("*" + tail)[1..] == tail && head + "*" + tail == "*" + tail;
    } else {
      ForHostAtFirst(head[1..], tail, hostname);
      assert (head + "*" + tail)[1..] == head[1..] + "*" + tail;
    }
  }

  function Wildcards(targets: seq<string>): seq<string> {
    if targets == [] then []
    else
      var rest := Wildcards(targets[..|targets| - 1]);
      var last := targets[|targets| - 1];
      if IsWildcard(last) then rest + [last] else rest
  }

  function Fixed(targets: seq<string>): seq<string> {
    if targets == [] then []
    else
      var rest := Fixed(targets[..|targets| - 1]);
      var last := targets[|targets| - 1];
      if IsWildcard(last) then rest else rest + [last]
  }

  /** Sorting targets loses and adds none: those that begin with an asterisk are the wildcards. */
  lemma {:induction false} TargetsAreSorted(targets: seq<string>)
    ensures multiset(Wildcards(targets)) + multiset(Fixed(targets)) == multiset(targets)
    ensures forall t | t in Wildcards(targets) :: "*" <= t
    ensures forall t | t in Fixed(targets) :: !("*" <= t)
    decreases |targets|
  {
    if targets != [] {
      var init, last := targets[..|targets| - 1], targets[|targets| - 1];
      TargetsAreSorted(init);
      assert targets == init + [last];
    }
  }

  function AllForHost(targets: seq<string>, hostname: string): seq<string> {
    seq(|targets|, i requires 0 <= i < |targets| => ForHost(targets[i], hostname))
  }

  function PathOr(path: Option<string>): string {
    if path.None? || path.value == "" then DEFAULT_PATH else path.value
  }

  function HostJob(job: Job, config: StaticConfig, host: Host): Job {
    Job(Some((if job.name.Some? then job.name.value else UNNAMED) + "-" + Number(host.unit)),
        Some(host.path + PathOr(job.path)),
        [config.(targets := AllForHost(Wildcards(config.targets), host.hostname))],
        job.rest)
  }

  function HostJobs(job: Job, config: StaticConfig, hosts: seq<Host>): seq<Job> {
    if Wildcards(config.targets) == [] then []
    else seq(|hosts|, i requires 0 <= i < |hosts| => HostJob(job, config, hosts[i]))
  }

  function WildcardJobs(job: Job, configs: seq<StaticConfig>, hosts: seq<Host>): seq<Job> {
    if configs == [] then []
    else WildcardJobs(job, configs[..|configs| - 1], hosts) + HostJobs(job, configs[|configs| - 1], hosts)
  }

  function FixedConfigs(configs: seq<StaticConfig>): seq<StaticConfig> {
    if configs == [] then []
    else
      var rest := FixedConfigs(configs[..|configs| - 1]);
      var last := configs[|configs| - 1];
      if Fixed(last.targets) == [] then rest else rest + [last.(targets := Fixed(last.targets))]
  }

  function FixedJob(job: Job): seq<Job> {
    if FixedConfigs(job.configs) == [] then []
    else [job.(path := Some(PathOr(job.path)), configs := FixedConfigs(job.configs))]
  }

  function ExpandedJob(job: Job, hosts: seq<Host>): seq<Job> {
    WildcardJobs(job, job.configs, hosts) + FixedJob(job)
  }

  function ExpandedEach(jobs: seq<Job>, hosts: seq<Host>): seq<seq<Job>> {
    seq(|jobs|, i requires 0 <= i < |jobs| => ExpandedJob(jobs[i], hosts))
  }

  function Expanded(jobs: seq<Job>, hosts: seq<Host>): seq<Job> {
    Concat(ExpandedEach(jobs, hosts))
  }

  lemma LastIsExpandedLast(jobs: seq<Job>, hosts: seq<Host>)
    requires jobs != []
    ensures Expanded(jobs, hosts) == Expanded(jobs[..|jobs| - 1], hosts) + ExpandedJob(jobs[|jobs| - 1], hosts)
  {
    assert ExpandedEach(jobs, hosts)[..|jobs| - 1] == ExpandedEach(jobs[..|jobs| - 1], hosts);
  }

  // ---- The loops ----

  method SplitTargets(targets: seq<string>) returns (wildcards: seq<string>, fixed: seq<string>)
    ensures wildcards == Wildcards(targets) && fixed == Fixed(targets)
  {
    wildcards, fixed := [], [];
    for i := 0 to |targets|
      invariant wildcards == Wildcards(targets[..i]) && fixed == Fixed(targets[..i])
    {
      assert targets[..i + 1][..i] == targets[..i];
      if IsWildcard(targets[i]) {
        wildcards := wildcards + [targets[i]];
      } else {
        fixed := fixed + [targets[i]];
      }
    }
    assert targets[..|targets|] == targets;
  }

  method ExpandConfig(job: Job, config: StaticConfig, hosts: seq<Host>) returns (jobs: seq<Job>, fixed: seq<string>)
    ensures jobs == HostJobs(job, config, hosts) && fixed == Fixed(config.targets)
  {
    jobs := [];
    var wildcards;
    wildcards, fixed := SplitTargets(config.targets);
    if wildcards != [] {
      for i := 0 to |hosts|
        invariant |jobs| == i
        invariant forall k | 0 <= k < i :: jobs[k] == HostJob(job, config, hosts[k])
      {
        jobs := jobs + [HostJob(job, config, hosts[i])];
      }
    }
  }

  method ExpandJob(job: Job, hosts: seq<Host>) returns (jobs: seq<Job>)
    ensures jobs == ExpandedJob(job, hosts)
  {
    jobs := [];
    var fixedConfigs := [];
    for i := 0 to |job.configs|
      invariant jobs == WildcardJobs(job, job.configs[..i], hosts)
      invariant fixedConfigs == FixedConfigs(job.configs[..i])
    {
      var config := job.configs[i];
      assert job.configs[..i + 1][..i] == job.configs[..i];
      var hostJobs, fixed := ExpandConfig(job, config, hosts);
      if fixed != [] {
        fixedConfigs := fixedConfigs + [config.(targets := fixed)];
      }
      jobs := jobs + hostJobs;
    }
    assert job.configs[..|job.configs|] == job.configs;
    if fixedConfigs != [] {
      jobs := jobs + [job.(path := Some(PathOr(job.path)), configs := fixedConfigs)];
    }
  }

  method ExpandWildcardTargets(jobs: seq<Job>, hosts: seq<Host>) returns (expanded: seq<Job>)
    ensures expanded == Expanded(jobs, hosts)
  {
    expanded := [];
    for i := 0 to |jobs|
      invariant expanded == Expanded(jobs[..i], hosts)
    {
      assert jobs[..i + 1][..i] == jobs[..i];
      LastIsExpandedLast(jobs[..i + 1], hosts);
      var one := ExpandJob(jobs[i], hosts);
      expanded := expanded + one;
    }
    assert jobs[..|jobs|] == jobs;
  }

  // ---- Conservation ----

  function ConfigTargets(configs: seq<StaticConfig>): multiset<string> {
    if configs == [] then multiset{}
    else ConfigTargets(configs[..|configs| - 1]) + multiset(configs[|configs| - 1].targets)
  }

  function JobTargets(jobs: seq<Job>): multiset<string> {
    if jobs == [] then multiset{}
    else JobTargets(jobs[..|jobs| - 1]) + ConfigTargets(jobs[|jobs| - 1].configs)
  }

  // What one target must become: itself, or itself for every host.
  function OnHosts(target: string, hosts: seq<Host>): multiset<string> {
    if hosts == [] then multiset{}
    else OnHosts(target, hosts[..|hosts| - 1]) + multiset{ForHost(target, hosts[|hosts| - 1].hostname)}
  }

  function Meant(targets: seq<string>, hosts: seq<Host>): multiset<string> {
    if targets == [] then multiset{}
    else
      var last := targets[|targets| - 1];
      Meant(targets[..|targets| - 1], hosts) + if IsWildcard(last) then OnHosts(last, hosts) else multiset{last}
  }

  function MeantByConfigs(configs: seq<StaticConfig>, hosts: seq<Host>): multiset<string> {
    if configs == [] then multiset{}
    else MeantByConfigs(configs[..|configs| - 1], hosts) + Meant(configs[|configs| - 1].targets, hosts)
  }

  function MeantByJobs(jobs: seq<Job>, hosts: seq<Host>): multiset<string> {
    if jobs == [] then multiset{}
    else MeantByJobs(jobs[..|jobs| - 1], hosts) + MeantByConfigs(jobs[|jobs| - 1].configs, hosts)
  }

  lemma {:induction false} OneMoreJob(jobs: seq<Job>, job: Job, more: seq<Job>)
    requires more == jobs + [job]
    ensures JobTargets(more) == JobTargets(jobs) + ConfigTargets(job.configs)
  {
    assert more[..|jobs|] == jobs;
  }

  lemma SplitLast(a: seq<Job>, b: seq<Job>)
    requires b != []
    ensures a + b == a + b[..|b| - 1] + [b[|b| - 1]]
  {
  }

  lemma {:induction false} JobTargetsAdd(a: seq<Job>, b: seq<Job>)
    ensures JobTargets(a + b) == JobTargets(a) + JobTargets(b)
    decreases |b|
  {
    if b == [] {
      assert a + b == a;
    } else {
      var init, last := b[..|b| - 1], b[|b| - 1];
      JobTargetsAdd(a, init);
      SplitLast(a, b);
      OneMoreJob(a + init, last, a + b);
    }
  }

  // All wildcards, for every host.
  function HostTargets(wildcards: seq<string>, hosts: seq<Host>): multiset<string> {
    if hosts == [] then multiset{}
    else HostTargets(wildcards, hosts[..|hosts| - 1]) + multiset(AllForHost(wildcards, hosts[|hosts| - 1].hostname))
  }

  // One wildcard more adds its copy on every host.
  lemma {:induction false} OneMoreWildcard(targets: seq<string>, last: string, hosts: seq<Host>)
    ensures HostTargets(targets + [last], hosts) == HostTargets(targets, hosts) + OnHosts(last, hosts)
    decreases |hosts|
  {
    if hosts != [] {
      var n := |hosts| - 1;
      OneMoreWildcard(targets, last, hosts[..n]);
      assert AllForHost(targets + [last], hosts[n].hostname) ==
             AllForHost(targets, hosts[n].hostname) + [ForHost(last, hosts[n].hostname)];
    }
  }

  lemma {:induction false} NoWildcards(hosts: seq<Host>)
    ensures HostTargets([], hosts) == multiset{}
    decreases |hosts|
  {
    if hosts != [] {
      NoWildcards(hosts[..|hosts| - 1]);
    }
  }

  lemma {:induction false} SplitIsMeant(targets: seq<string>, hosts: seq<Host>)
    ensures HostTargets(Wildcards(targets), hosts) + multiset(Fixed(targets)) == Meant(targets, hosts)
    decreases |targets|
  {
    if targets == [] {
      NoWildcards(hosts);
    } else {
      var init, last := targets[..|targets| - 1], targets[|targets| - 1];
      SplitIsMeant(init, hosts);
      if IsWildcard(last) {
        OneMoreWildcard(Wildcards(init), last, hosts);
      }
    }
  }

  lemma {:induction false} HostJobsHold(job: Job, config: StaticConfig, hosts: seq<Host>)
    ensures JobTargets(HostJobs(job, config, hosts)) == HostTargets(Wildcards(config.targets), hosts)
    decreases |hosts|
  {
    var wildcards := Wildcards(config.targets);
    if wildcards == [] {
      NoWildcards(hosts);
    } else if hosts != [] {
      var n := |hosts| - 1;
      HostJobsHold(job, config, hosts[..n]);
      var jobs := HostJobs(job, config, hosts);
      assert jobs[..n] == HostJobs(job, config, hosts[..n]);
      OneConfig(HostJob(job, config, hosts[n]).configs[0]);
      assert jobs[n] == HostJob(job, config, hosts[n]);
    }
  }

  lemma {:induction false} OneConfig(config: StaticConfig)
    ensures ConfigTargets([config]) == multiset(config.targets)
  {
  }

  lemma {:induction false} ConfigsHold(job: Job, configs: seq<StaticConfig>, hosts: seq<Host>)
    ensures JobTargets(WildcardJobs(job, configs, hosts)) + ConfigTargets(FixedConfigs(configs)) ==
            MeantByConfigs(configs, hosts)
    decreases |configs|
  {
    if configs != [] {
      var init, last := configs[..|configs| - 1], configs[|configs| - 1];
      ConfigsHold(job, init, hosts);
      JobTargetsAdd(WildcardJobs(job, init, hosts), HostJobs(job, last, hosts));
      HostJobsHold(job, last, hosts);
      SplitIsMeant(last.targets, hosts);
      assert ConfigTargets(FixedConfigs(configs)) == ConfigTargets(FixedConfigs(init)) + multiset(Fixed(last.targets));
    }
  }

  lemma {:induction false} FixedJobHolds(job: Job)
    ensures JobTargets(FixedJob(job)) == ConfigTargets(FixedConfigs(job.configs))
  {
  }

  /** Expansion emits every fixed target once and every wildcard target once per host, and nothing
      else. */
  lemma {:induction false} TargetsAreConserved(jobs: seq<Job>, hosts: seq<Host>)
    ensures JobTargets(Expanded(jobs, hosts)) == MeantByJobs(jobs, hosts)
    decreases |jobs|
  {
    if jobs != [] {
      var init, last := jobs[..|jobs| - 1], jobs[|jobs| - 1];
      TargetsAreConserved(init, hosts);
      LastIsExpandedLast(jobs, hosts);
      JobTargetsAdd(Expanded(init, hosts), ExpandedJob(last, hosts));
      JobTargetsAdd(WildcardJobs(last, last.configs, hosts), FixedJob(last));
      ConfigsHold(last, last.configs, hosts);
      FixedJobHolds(last);
    }
  }

  // ---- Each job that comes out ----

  // A job for one host: the wildcard targets of one configuration, under its labels.
  predicate ForOneHost(job: Job, src: Job, config: StaticConfig, host: Host) {
    && job.name == Some((if src.name.Some? then src.name.value else "unnamed-job") + "-" + Number(host.unit))
    && job.path == Some(host.path + if src.path.None? || src.path.value == "" then "/metrics" else src.path.value)
    && |job.configs| == 1 && job.configs[0].labels == config.labels
    && Wildcards(config.targets) != []
    && AreSubstituted(job.configs[0].targets, Wildcards(config.targets), host.hostname)
    && job.rest == src.rest
  }

  predicate AreSubstituted(outs: seq<string>, targets: seq<string>, hostname: string) {
    |outs| == |targets| && forall i | 0 <= i < |outs| :: outs[i] == Substituted(targets[i], hostname)
  }

  ghost predicate HasHostJob(jobs: seq<Job>, src: Job, config: StaticConfig, host: Host) {
    exists job :: job in jobs && ForOneHost(job, src, config, host)
  }

  // The fixed targets of one configuration, under its labels.
  predicate FixedPart(out: StaticConfig, config: StaticConfig) {
    out.labels == config.labels && out.targets == Fixed(config.targets) && out.targets != []
  }

  ghost predicate PartOfSome(out: StaticConfig, configs: seq<StaticConfig>) {
    exists c :: 0 <= c < |configs| && FixedPart(out, configs[c])
  }

  ghost predicate HasPart(outs: seq<StaticConfig>, config: StaticConfig) {
    exists i :: 0 <= i < |outs| && FixedPart(outs[i], config)
  }

  // The job for the fixed targets of all configurations.
  ghost predicate ForFixed(job: Job, src: Job) {
    && job.name == src.name && job.rest == src.rest
    && job.path == Some(if src.path.None? || src.path.value == "" then "/metrics" else src.path.value)
    && (forall i | 0 <= i < |job.configs| :: PartOfSome(job.configs[i], src.configs))
    && (forall c | 0 <= c < |src.configs| && Fixed(src.configs[c].targets) != [] :: HasPart(job.configs, src.configs[c]))
  }

  ghost predicate ForSomeHost(job: Job, src: Job, hosts: seq<Host>) {
    exists c, k :: 0 <= c < |src.configs| && 0 <= k < |hosts| && ForOneHost(job, src, src.configs[c], hosts[k])
  }

  // Some original job accounts for the job, its labels and its targets.
  ghost predicate Explained(job: Job, jobs: seq<Job>, hosts: seq<Host>) {
    exists src :: src in jobs && (ForFixed(job, src) || ForSomeHost(job, src, hosts))
  }

  // The job has something to scrape, no wildcard, and a path.
  ghost predicate Settled(job: Job) {
    && job.path.Some? && job.path.value != "" && job.configs != []
    && AllPlain(job.configs)
  }

  predicate Plain(config: StaticConfig) {
    config.targets != [] && NoWildcard(config.targets)
  }

  predicate AllPlain(configs: seq<StaticConfig>) {
    forall i | 0 <= i < |configs| :: Plain(configs[i])
  }

  predicate NoWildcard(targets: seq<string>) {
    forall i | 0 <= i < |targets| :: !IsWildcard(targets[i])
  }

  lemma {:induction false} ForHostIsFixed(target: string, hostname: string)
    requires !IsWildcard(hostname)
    ensures !IsWildcard(ForHost(target, hostname))
  {
    if target != "" {
      ForHostIsFixed(target[1..], hostname);
    }
  }

  lemma {:induction false} FixedAreFixed(targets: seq<string>)
    ensures NoWildcard(Fixed(targets))
    ensures NoWildcard(targets) ==> Fixed(targets) == targets && Wildcards(targets) == []
    decreases |targets|
  {
    if targets != [] {
      FixedAreFixed(targets[..|targets| - 1]);
      assert targets[..|targets| - 1] + [targets[|targets| - 1]] == targets;
    }
  }

  lemma {:induction false} HostJobIsForOneHost(src: Job, config: StaticConfig, host: Host)
    requires Wildcards(config.targets) != []
    ensures ForOneHost(HostJob(src, config, host), src, config, host)
  {
    var wildcards := Wildcards(config.targets);
    forall i | 0 <= i < |wildcards| ensures ForHost(wildcards[i], host.hostname) == Substituted(wildcards[i], host.hostname) {
      ForHostSubstitutes(wildcards[i], host.hostname);
    }
  }

  lemma {:induction false} HostJobSettled(job: Job, config: StaticConfig, host: Host)
    requires Wildcards(config.targets) != [] && !IsWildcard(host.hostname)
    ensures Settled(HostJob(job, config, host))
  {
    var wildcards := Wildcards(config.targets);
    var targets := AllForHost(wildcards, host.hostname);
    forall i | 0 <= i < |targets| ensures !IsWildcard(targets[i]) {
      ForHostIsFixed(wildcards[i], host.hostname);
    }
  }

  lemma {:induction false} WildcardJobsSettled(src: Job, n: nat, hosts: seq<Host>, job: Job)
    requires forall k | 0 <= k < |hosts| :: !IsWildcard(hosts[k].hostname)
    requires n <= |src.configs| && job in WildcardJobs(src, src.configs[..n], hosts)
    ensures Settled(job) && ForSomeHost(job, src, hosts)
  {
    var last := n - 1;
    assert src.configs[..n][..last] == src.configs[..last];
    if job in WildcardJobs(src, src.configs[..last], hosts) {
      WildcardJobsSettled(src, last, hosts, job);
    } else {
      var k :| 0 <= k < |hosts| && job == HostJob(src, src.configs[last], hosts[k]);
      HostJobSettled(src, src.configs[last], hosts[k]);
      HostJobIsForOneHost(src, src.configs[last], hosts[k]);
    }
  }

  lemma {:induction false} FixedConfigsAreParts(configs: seq<StaticConfig>, out: StaticConfig)
    requires out in FixedConfigs(configs)
    ensures PartOfSome(out, configs)
    decreases |configs|
  {
    var init, last := configs[..|configs| - 1], configs[|configs| - 1];
    if out in FixedConfigs(init) {
      FixedConfigsAreParts(init, out);
      var c :| 0 <= c < |init| && FixedPart(out, init[c]);
      assert configs[c] == init[c];
    } else {
      assert FixedPart(out, last);
    }
  }

  lemma {:induction false} FixedConfigsHaveParts(configs: seq<StaticConfig>, c: nat)
    requires c < |configs| && Fixed(configs[c].targets) != []
    ensures HasPart(FixedConfigs(configs), configs[c])
    decreases |configs|
  {
    var last := |configs| - 1;
    var before, out := FixedConfigs(configs[..last]), FixedConfigs(configs);
    if c < last {
      FixedConfigsHaveParts(configs[..last], c);
      var i :| 0 <= i < |before| && FixedPart(before[i], configs[c]);
      assert out[i] == before[i];
    } else {
      assert FixedPart(out[|before|], configs[c]);
    }
  }

  lemma {:induction false} FixedJobMatches(src: Job)
    requires FixedJob(src) != []
    ensures Settled(FixedJob(src)[0]) && ForFixed(FixedJob(src)[0], src)
  {
    var job := FixedJob(src)[0];
    FixedConfigsArePlain(src.configs);
    forall i | 0 <= i < |job.configs| ensures PartOfSome(job.configs[i], src.configs) {
      FixedConfigsAreParts(src.configs, job.configs[i]);
    }
    forall c | 0 <= c < |src.configs| && Fixed(src.configs[c].targets) != [] ensures HasPart(job.configs, src.configs[c]) {
      FixedConfigsHaveParts(src.configs, c);
    }
  }

  lemma {:induction false} FixedConfigsArePlain(configs: seq<StaticConfig>)
    ensures AllPlain(FixedConfigs(configs))
    decreases |configs|
  {
    if configs != [] {
      FixedConfigsArePlain(configs[..|configs| - 1]);
      FixedAreFixed(configs[|configs| - 1].targets);
    }
  }

  lemma {:induction false} PlainConfigsStay(configs: seq<StaticConfig>)
    requires AllPlain(configs)
    ensures FixedConfigs(configs) == configs
    decreases |configs|
  {
    if configs != [] {
      var init, last := configs[..|configs| - 1], configs[|configs| - 1];
      PlainConfigsStay(init);
      FixedAreFixed(last.targets);
      assert last.(targets := Fixed(last.targets)) == last;
      assert configs == init + [last];
    }
  }

  /** What every job that comes out is like: it can be scraped as it is, and it is either the job for
      the fixed targets of one original job or that for the wildcard targets of one of its
      configurations on one host. */
  lemma {:induction false} ExpandedAreSettled(jobs: seq<Job>, hosts: seq<Host>, job: Job)
    requires forall k | 0 <= k < |hosts| :: !IsWildcard(hosts[k].hostname)
    requires job in Expanded(jobs, hosts)
    ensures Settled(job) && Explained(job, jobs, hosts)
  {
    var src := ComesFrom(jobs, hosts, job);
    if job in FixedJob(src) {
      FixedJobMatches(src);
    } else {
      assert src.configs[..|src.configs|] == src.configs;
      WildcardJobsSettled(src, |src.configs|, hosts, job);
    }
  }

  lemma {:induction false} ComesFrom(jobs: seq<Job>, hosts: seq<Host>, job: Job) returns (src: Job)
    requires job in Expanded(jobs, hosts)
    ensures src in jobs && job in ExpandedJob(src, hosts)
    decreases |jobs|
  {
    var init, last := jobs[..|jobs| - 1], jobs[|jobs| - 1];
    LastIsExpandedLast(jobs, hosts);
    src := last;
    if job in Expanded(init, hosts) {
      src := ComesFrom(init, hosts, job);
    }
  }

  lemma {:induction false} ComesOut(jobs: seq<Job>, hosts: seq<Host>, src: Job, job: Job)
    requires src in jobs && job in ExpandedJob(src, hosts)
    ensures job in Expanded(jobs, hosts)
    decreases |jobs|
  {
    var init := jobs[..|jobs| - 1];
    LastIsExpandedLast(jobs, hosts);
    if src in init {
      ComesOut(init, hosts, src, job);
    }
  }

  function HostJobsEach(src: Job, hosts: seq<Host>): seq<seq<Job>> {
    seq(|src.configs|, i requires 0 <= i < |src.configs| => HostJobs(src, src.configs[i], hosts))
  }

  lemma {:induction false} WildcardJobsAreConcat(src: Job, n: nat, hosts: seq<Host>)
    requires n <= |src.configs|
    ensures WildcardJobs(src, src.configs[..n], hosts) == Concat(HostJobsEach(src, hosts)[..n])
  {
    if n > 0 {
      var parts := HostJobsEach(src, hosts);
      WildcardJobsAreConcat(src, n - 1, hosts);
      assert src.configs[..n][..n - 1] == src.configs[..n - 1];
      assert parts[..n][..n - 1] == parts[..n - 1];
    }
  }

  lemma HostJobIsThere(src: Job, hosts: seq<Host>, c: nat, k: nat)
    requires c < |src.configs| && k < |hosts| && Wildcards(src.configs[c].targets) != []
    ensures HostJob(src, src.configs[c], hosts[k]) in ExpandedJob(src, hosts)
  {
    var parts := HostJobsEach(src, hosts);
    WildcardJobsAreConcat(src, |src.configs|, hosts);
    assert src.configs[..|src.configs|] == src.configs && parts[..|parts|] == parts;
    assert parts[c][k] == HostJob(src, src.configs[c], hosts[k]);
    InConcat(parts, c, k);
  }

  /** Conversely, every configuration is served: its fixed targets in the original job's job for them,
      and its wildcard targets in one job for every host. */
  lemma {:induction false} EveryConfigIsServed(jobs: seq<Job>, hosts: seq<Host>, src: Job, c: nat)
    requires src in jobs && c < |src.configs|
    ensures Fixed(src.configs[c].targets) != [] ==>
              exists job :: job in Expanded(jobs, hosts) && ForFixed(job, src) && HasPart(job.configs, src.configs[c])
    ensures Wildcards(src.configs[c].targets) != [] ==>
              forall k | 0 <= k < |hosts| :: HasHostJob(Expanded(jobs, hosts), src, src.configs[c], hosts[k])
  {
    var config := src.configs[c];
    if Fixed(config.targets) != [] {
      FixedConfigsHaveParts(src.configs, c);
      FixedJobMatches(src);
      ComesOut(jobs, hosts, src, FixedJob(src)[0]);
    }
    if Wildcards(config.targets) != [] {
      forall k | 0 <= k < |hosts| ensures HasHostJob(Expanded(jobs, hosts), src, config, hosts[k]) {
        var job := HostJob(src, config, hosts[k]);
        HostJobIsThere(src, hosts, c, k);
        ComesOut(jobs, hosts, src, job);
        HostJobIsForOneHost(src, config, hosts[k]);
      }
    }
  }

  // ---- Expanding again ----

  lemma {:induction false} NoWildcardJobs(job: Job, configs: seq<StaticConfig>, hosts: seq<Host>)
    requires AllPlain(configs)
    ensures WildcardJobs(job, configs, hosts) == []
    decreases |configs|
  {
    if configs != [] {
      NoWildcardJobs(job, configs[..|configs| - 1], hosts);
      FixedAreFixed(configs[|configs| - 1].targets);
    }
  }

  lemma {:induction false} SettledJobStays(job: Job, hosts: seq<Host>)
    requires Settled(job)
    ensures ExpandedJob(job, hosts) == [job]
  {
    NoWildcardJobs(job, job.configs, hosts);
    PlainConfigsStay(job.configs);
    assert FixedJob(job) == [job];
  }

  /** Unless a host is itself named like a wildcard, expanding what came out, for any hosts, changes
      nothing. */
  lemma {:induction false} ExpansionIsFinal(jobs: seq<Job>, hosts: seq<Host>, others: seq<Host>)
    requires forall k | 0 <= k < |hosts| :: !IsWildcard(hosts[k].hostname)
    ensures Expanded(Expanded(jobs, hosts), others) == Expanded(jobs, hosts)
  {
    var out := Expanded(jobs, hosts);
    forall i | 0 <= i < |out| ensures ExpandedEach(out, others)[i] == [out[i]] {
      ExpandedAreSettled(jobs, hosts, out[i]);
      SettledJobStays(out[i], others);
    }
    ConcatSingletons(ExpandedEach(out, others), out);
  }
}
