/** Installing a manifest for one agent and accounting for what was installed, bundle by bundle. */
module ApplyReport {
  import opened Codec

  datatype Status = Applied | Failed | Skipped

  /** An artifact of the manifest; `bundle` is empty for one that belongs to none. */
  datatype Artifact = Artifact(kind: string, name: string, bundle: string, targets: seq<string>)

  datatype Report = Report(agent: string, kind: string, name: string, status: Status, bundle: string)

  datatype Rollup = Rollup(bundle: string, targeted: nat, applied: nat, failed: nat, skipped: nat)

  datatype Outcome = OK | Warn | BundleFailed | Error

  const ALL_DETECTED := "all-detected"

  /** What happens to a targeted artifact: it is dispatched, or its secrets never came. */
  datatype Fate = Dispatched(status: Status) | SecretsMissing

  predicate Targets(a: Artifact, agent: string) {
    a.targets == [ALL_DETECTED] || agent in a.targets
  }

  /** artifactTargetsAgent */
  method ArtifactTargetsAgent(targets: seq<string>, agent: string) returns (yes: bool)
    ensures yes <==> targets == [ALL_DETECTED] || agent in targets
  {
    if |targets| == 1 && targets[0] == ALL_DETECTED {
      return true;
    }
    for i := 0 to |targets|
      invariant agent !in targets[..i]
    {
      if targets[i] == agent {
        return true;
      }
    }
    assert targets[..|targets|] == targets;
    return false;
  }

  // ------------------------------------------------------------------ installing

  function StatusOf(known: bool, fate: Fate): Status {
    if known && fate.Dispatched? then fate.status else Skipped
  }

  /** The reports of an install: one for each artifact that targets the agent, in order. */
  function Reports(arts: seq<Artifact>, agent: string, known: bool, fates: Artifact -> Fate): seq<Report> {
    if arts == [] then []
    else
      var a := arts[|arts| - 1];
      Reports(arts[..|arts| - 1], agent, known, fates)
      + if Targets(a, agent) then [Report(agent, a.kind, a.name, StatusOf(known, fates(a)), "")] else []
  }

  /** ApplyFiltered for a named agent; `known` says whether it is in the registry. Emitters report under
      the artifact's own kind and name. A failure to write the managed index adds a report of its own. */
  method ApplyFiltered(arts: seq<Artifact>, agent: string, known: bool, fates: Artifact -> Fate, indexFails: bool)
    returns (reports: seq<Report>, installed: seq<Artifact>)
    requires agent != ""
    ensures reports == Reports(arts, agent, known, fates)
                       + if indexFails then [Report("", "managed-index", "", Failed, "")] else []
    ensures forall a :: a in installed <==> a in arts && Targets(a, agent) && StatusOf(known, fates(a)).Applied?
  {
    reports, installed := [], [];
    for i := 0 to |arts|
      invariant reports == Reports(arts[..i], agent, known, fates)
      invariant forall a :: a in installed <==>
                a in arts[..i] && Targets(a, agent) && StatusOf(known, fates(a)).Applied?
    {
      var a := arts[i];
      assert arts[..i + 1] == arts[..i] + [a] && arts[..i + 1][..i] == arts[..i];
      var yes := ArtifactTargetsAgent(a.targets, agent);
      if !yes {
      } else if !known {
        reports := reports + [Report(agent, a.kind, a.name, Skipped, "")];
      } else {
        var fate := fates(a);
        if fate.SecretsMissing? {
          reports := reports + [Report(agent, a.kind, a.name, Skipped, "")];
        } else {
          if fate.status.Applied? {
            installed := installed + [a];
          }
          reports := reports + [Report(agent, a.kind, a.name, fate.status, "")];
        }
      }
    }
    assert arts[..|arts|] == arts;
    if indexFails {
      reports := reports + [Report("", "managed-index", "", Failed, "")];
    }
  }

  // ------------------------------------------------------------------ accounting

  /** The agent's last report of an artifact. */
  function EntryFor(reports: seq<Report>, agent: string, kind: string, name: string): Option<Status> {
    if reports == [] then None
    else
      var r := reports[|reports| - 1];
      if r.agent == agent && r.kind == kind && r.name == name then Some(r.status)
      else EntryFor(reports[..|reports| - 1], agent, kind, name)
  }

  function Count(r: Rollup, entry: Option<Status>): Rollup {
    var t := r.(targeted := r.targeted + 1);
    match entry
    case None => t
    case Some(Applied) => t.(applied := t.applied + 1)
    case Some(Failed) => t.(failed := t.failed + 1)
    case Some(Skipped) => t.(skipped := t.skipped + 1)
  }

  /** One bundle's tally. */
  function Tally(arts: seq<Artifact>, reports: seq<Report>, agent: string, bundle: string): (r: Rollup)
    ensures r.bundle == bundle
  {
    if arts == [] then Rollup(bundle, 0, 0, 0, 0)
    else
      var a := arts[|arts| - 1];
      var before := Tally(arts[..|arts| - 1], reports, agent, bundle);
      if a.bundle == bundle && Targets(a, agent) then Count(before, EntryFor(reports, agent, a.kind, a.name))
      else before
  }

  /** The bundles in the order the manifest first names them. */
  function Bundles(arts: seq<Artifact>): seq<string> {
    if arts == [] then []
    else
      var b, before := arts[|arts| - 1].bundle, Bundles(arts[..|arts| - 1]);
      if b == "" || b in before then before else before + [b]
  }

  function Rollups(arts: seq<Artifact>, reports: seq<Report>, agent: string): seq<Rollup> {
    seq(|Bundles(arts)|, i requires 0 <= i < |Bundles(arts)| => Tally(arts, reports, agent, Bundles(arts)[i]))
  }

  /** The report table by kind and name: later reports overwrite earlier ones. */
  method IndexReports(reports: seq<Report>, agent: string) returns (entryFor: map<(string, string), Status>)
    ensures forall k, n :: (k, n) in entryFor <==> EntryFor(reports, agent, k, n).Some?
    ensures forall k, n :: (k, n) in entryFor ==> Some(entryFor[(k, n)]) == EntryFor(reports, agent, k, n)
  {
    entryFor := map[];
    for i := 0 to |reports|
      invariant forall k, n :: (k, n) in entryFor <==> EntryFor(reports[..i], agent, k, n).Some?
      invariant forall k, n :: (k, n) in entryFor ==> Some(entryFor[(k, n)]) == EntryFor(reports[..i], agent, k, n)
    {
      var r := reports[i];
      assert reports[..i + 1][..i] == reports[..i];
      if r.agent == agent {
        entryFor := entryFor[(r.kind, r.name) := r.status];
      }
    }
    assert reports[..|reports|] == reports;
  }

  /** bundleRollups */
  method BundleRollups(arts: seq<Artifact>, reports: seq<Report>, agent: string) returns (out: seq<Rollup>)
    ensures out == Rollups(arts, reports, agent)
  {
    var entryFor := IndexReports(reports, agent);
    var order: seq<string>, byBundle: map<string, Rollup> := [], map[];
    for i := 0 to |arts|
      invariant order == Bundles(arts[..i])
      invariant forall b :: b in byBundle <==> b in order
      invariant forall b :: b in byBundle ==> byBundle[b] == Tally(arts[..i], reports, agent, b)
    {
      var a := arts[i];
      assert arts[..i + 1][..i] == arts[..i];
      if a.bundle != "" {
        if a.bundle !in byBundle {
          UnseenTally(arts[..i], reports, agent, a.bundle);
          byBundle, order := byBundle[a.bundle := Rollup(a.bundle, 0, 0, 0, 0)], order + [a.bundle];
        }
        var yes := ArtifactTargetsAgent(a.targets, agent);
        if yes {
          var entry := if (a.kind, a.name) in entryFor then Some(entryFor[(a.kind, a.name)]) else None;
          byBundle := byBundle[a.bundle := Count(byBundle[a.bundle], entry)];
        }
      } else {
        NoEmptyBundle(arts[..i]);
      }
    }
    assert arts[..|arts|] == arts;
    out := [];
    for i := 0 to |order|
      invariant |out| == i && forall j :: 0 <= j < i ==> out[j] == Tally(arts, reports, agent, order[j])
    {
      out := out + [byBundle[order[i]]];
    }
  }

  lemma {:induction false} UnseenTally(arts: seq<Artifact>, reports: seq<Report>, agent: string, bundle: string)
    requires bundle !in Bundles(arts) && bundle != ""
    ensures Tally(arts, reports, agent, bundle) == Rollup(bundle, 0, 0, 0, 0)
    decreases |arts|
  {
    if arts != [] {
      UnseenTally(arts[..|arts| - 1], reports, agent, bundle);
    }
  }

  lemma {:induction false} NoEmptyBundle(arts: seq<Artifact>)
    ensures "" !in Bundles(arts)
    decreases |arts|
  {
    if arts != [] {
      NoEmptyBundle(arts[..|arts| - 1]);
    }
  }

  // ------------------------------------------------------------------ the envelope

  /** The bundle of the last artifact of that kind and name which has one. */
  function BundleOf(arts: seq<Artifact>, kind: string, name: string): Option<string> {
    if arts == [] then None
    else
      var a := arts[|arts| - 1];
      if a.bundle != "" && a.kind == kind && a.name == name then Some(a.bundle)
      else BundleOf(arts[..|arts| - 1], kind, name)
  }

  function ExitCodeFor(outcome: Outcome): int {
    match outcome
    case OK => 0
    case Warn => 2
    case BundleFailed => 3
    case Error => 1
  }

  /** Some artifact of a bundle that targets the agent was not installed, going by its last report. */
  ghost predicate SomeBundleBroken(arts: seq<Artifact>, reports: seq<Report>, agent: string) {
    exists a :: a in arts && a.bundle != "" && Targets(a, agent)
        && EntryFor(reports, agent, a.kind, a.name) != Some(Applied)
  }

  /** BuildApplyReport: the tagged reports, the rollups, and a verdict that says exactly whether a bundle
      is incomplete or something was not applied. */
  method BuildApplyReport(arts: seq<Artifact>, reports: seq<Report>, agent: string)
    returns (tagged: seq<Report>, rollups: seq<Rollup>, outcome: Outcome, exitCode: int)
    ensures |tagged| == |reports| && forall i :: 0 <= i < |reports| ==>
              var bundle := BundleOf(arts, reports[i].kind, reports[i].name);
              tagged[i] == if bundle.Some? then reports[i].(bundle := bundle.value) else reports[i]
    ensures rollups == if agent == "" then [] else Rollups(arts, reports, agent)
    ensures outcome.BundleFailed? <==> agent != "" && SomeBundleBroken(arts, reports, agent)
    ensures outcome.OK? <==> !outcome.BundleFailed? && forall r :: r in reports ==> r.status.Applied?
    ensures outcome != Error && exitCode == if outcome.BundleFailed? then 3 else if outcome.Warn? then 2 else 0
  {
    var bundleOf := IndexBundles(arts);
    tagged := reports;
    for i := 0 to |tagged|
      invariant |tagged| == |reports|
      invariant forall j :: 0 <= j < i ==>
                  var bundle := BundleOf(arts, reports[j].kind, reports[j].name);
                  tagged[j] == if bundle.Some? then reports[j].(bundle := bundle.value) else reports[j]
      invariant forall j :: i <= j < |tagged| ==> tagged[j] == reports[j]
    {
      var key := (tagged[i].kind, tagged[i].name);
      if key in bundleOf {
        tagged := tagged[i := tagged[i].(bundle := bundleOf[key])];
      }
    }
    var warn := false;
    for i := 0 to |tagged|
      invariant warn <==> exists j :: 0 <= j < i && !tagged[j].status.Applied?
    {
      if tagged[i].status.Failed? || tagged[i].status.Skipped? {
        warn := true;
      }
    }
    rollups := [];
    if agent != "" {
      SameEntries(reports, tagged, agent);
      rollups := BundleRollups(arts, tagged, agent);
      SameRollups(arts, reports, tagged, agent);
    }
    var bundleFailed := false;
    for i := 0 to |rollups|
      invariant bundleFailed <==> exists j :: 0 <= j < i && rollups[j].applied != rollups[j].targeted
    {
      if rollups[i].applied != rollups[i].targeted {
        bundleFailed := true;
      }
    }
    if agent != "" {
      BrokenIff(arts, reports, agent);
    }
    outcome := if bundleFailed then BundleFailed else if warn then Warn else OK;
    exitCode := ExitCodeFor(outcome);
    assert forall r :: r in reports <==> exists j :: 0 <= j < |reports| && reports[j] == r;
  }

  method IndexBundles(arts: seq<Artifact>) returns (bundleOf: map<(string, string), string>)
    ensures forall k, n :: (k, n) in bundleOf <==> BundleOf(arts, k, n).Some?
    ensures forall k, n :: (k, n) in bundleOf ==> Some(bundleOf[(k, n)]) == BundleOf(arts, k, n)
  {
    bundleOf := map[];
    for i := 0 to |arts|
      invariant forall k, n :: (k, n) in bundleOf <==> BundleOf(arts[..i], k, n).Some?
      invariant forall k, n :: (k, n) in bundleOf ==> Some(bundleOf[(k, n)]) == BundleOf(arts[..i], k, n)
    {
      assert arts[..i + 1][..i] == arts[..i];
      if arts[i].bundle != "" {
        bundleOf := bundleOf[(arts[i].kind, arts[i].name) := arts[i].bundle];
      }
    }
    assert arts[..|arts|] == arts;
  }

  /** Tagging changes no entry, and so no tally. */
  lemma {:induction false} SameEntries(a: seq<Report>, b: seq<Report>, agent: string)
    requires |a| == |b| && forall i :: 0 <= i < |a| ==> b[i].(bundle := "") == a[i].(bundle := "")
    ensures forall k, n :: EntryFor(a, agent, k, n) == EntryFor(b, agent, k, n)
    decreases |a|
  {
    if a != [] {
      assert a[|a| - 1].(bundle := "") == b[|b| - 1].(bundle := "");
      SameEntries(a[..|a| - 1], b[..|b| - 1], agent);
    }
  }

  lemma {:induction false} SameTally(arts: seq<Artifact>, a: seq<Report>, b: seq<Report>, agent: string, bundle: string)
    requires forall k, n :: EntryFor(a, agent, k, n) == EntryFor(b, agent, k, n)
    ensures Tally(arts, a, agent, bundle) == Tally(arts, b, agent, bundle)
    decreases |arts|
  {
    if arts != [] {
      SameTally(arts[..|arts| - 1], a, b, agent, bundle);
    }
  }

  lemma SameRollups(arts: seq<Artifact>, a: seq<Report>, b: seq<Report>, agent: string)
    requires forall k, n :: EntryFor(a, agent, k, n) == EntryFor(b, agent, k, n)
    ensures Rollups(arts, a, agent) == Rollups(arts, b, agent)
  {
    forall bundle {
      SameTally(arts, a, b, agent, bundle);
    }
  }

  // ------------------------------------------------------------------ what the tallies mean

  lemma {:induction false} TallyBounds(arts: seq<Artifact>, reports: seq<Report>, agent: string, bundle: string)
    ensures
      var t := Tally(arts, reports, agent, bundle);
      && t.applied + t.failed + t.skipped <= t.targeted
      && (t.applied == t.targeted <==>
            forall a :: a in arts && a.bundle == bundle && Targets(a, agent) ==>
                EntryFor(reports, agent, a.kind, a.name) == Some(Applied))
      && (t.applied + t.failed + t.skipped == t.targeted <==>
            forall a :: a in arts && a.bundle == bundle && Targets(a, agent) ==>
                EntryFor(reports, agent, a.kind, a.name).Some?)
    decreases |arts|
  {
    if arts != [] {
      var front, last := arts[..|arts| - 1], arts[|arts| - 1];
      TallyBounds(front, reports, agent, bundle);
      assert arts == front + [last];
    }
  }

  lemma {:induction false} BundlesAreAll(arts: seq<Artifact>)
    ensures forall b :: b in Bundles(arts) <==> b != "" && exists a :: a in arts && a.bundle == b
    ensures forall i, j :: 0 <= i < j < |Bundles(arts)| ==> Bundles(arts)[i] != Bundles(arts)[j]
    decreases |arts|
  {
    if arts != [] {
      var front, last := arts[..|arts| - 1], arts[|arts| - 1];
      BundlesAreAll(front);
      assert arts == front + [last];
      assert forall i :: 0 <= i < |Bundles(front)| ==> Bundles(front)[i] in Bundles(front);
    }
  }

  /** A bundle is incomplete exactly when an artifact of it that targets the agent was not applied. */
  lemma BrokenIff(arts: seq<Artifact>, reports: seq<Report>, agent: string)
    ensures
      var r := Rollups(arts, reports, agent);
      (exists j :: 0 <= j < |r| && r[j].applied != r[j].targeted) <==> SomeBundleBroken(arts, reports, agent)
  {
    var r, bs := Rollups(arts, reports, agent), Bundles(arts);
    BundlesAreAll(arts);
    forall b {
      TallyBounds(arts, reports, agent, b);
    }
    if SomeBundleBroken(arts, reports, agent) {
      var a :| a in arts && a.bundle != "" && Targets(a, agent)
          && EntryFor(reports, agent, a.kind, a.name) != Some(Applied);
      assert a.bundle in bs;
      var j :| 0 <= j < |bs| && bs[j] == a.bundle;
      assert r[j].applied != r[j].targeted;
    }
    if j :| 0 <= j < |r| && r[j].applied != r[j].targeted {
      assert bs[j] in bs;
    }
  }

  lemma {:induction false} TargetedIsReported(arts: seq<Artifact>, agent: string, known: bool,
                                fates: Artifact -> Fate, a: Artifact)
    requires a in arts && Targets(a, agent)
    ensures EntryFor(Reports(arts, agent, known, fates), agent, a.kind, a.name).Some?
    decreases |arts|
  {
    var front, last := arts[..|arts| - 1], arts[|arts| - 1];
    var before := Reports(front, agent, known, fates);
    assert arts == front + [last];
    if Targets(last, agent) {
      var r := Report(agent, last.kind, last.name, StatusOf(known, fates(last)), "");
      assert (before + [r])[..|before|] == before;
    }
    assert before + [] == before;
    if a in front {
      TargetedIsReported(front, agent, known, fates, a);
    }
  }

  lemma EntryBefore(reports: seq<Report>, extra: Report, agent: string, kind: string, name: string)
    requires extra.agent != agent
    ensures EntryFor(reports + [extra], agent, kind, name) == EntryFor(reports, agent, kind, name)
  {
    assert (reports + [extra])[..|reports|] == reports;
  }

  /** Install, then account: after ApplyFiltered every bundle has one rollup, in first-seen order, in which
      each targeted artifact is counted exactly once as applied, failed or skipped. */
  lemma EveryTargetIsCounted(arts: seq<Artifact>, agent: string, known: bool, fates: Artifact -> Fate,
                             indexFails: bool, j: nat)
    requires agent != "" && j < |Bundles(arts)|
    ensures
      var reports := Reports(arts, agent, known, fates)
                     + if indexFails then [Report("", "managed-index", "", Failed, "")] else [];
      var r := Rollups(arts, reports, agent);
      && |r| == |Bundles(arts)| && r[j].bundle == Bundles(arts)[j]
      && r[j].applied + r[j].failed + r[j].skipped == r[j].targeted
  {
    var installed := Reports(arts, agent, known, fates);
    var reports := installed + if indexFails then [Report("", "managed-index", "", Failed, "")] else [];
    forall a | a in arts && Targets(a, agent)
      ensures EntryFor(reports, agent, a.kind, a.name).Some?
    {
      TargetedIsReported(arts, agent, known, fates, a);
      EntryBefore(installed, Report("", "managed-index", "", Failed, ""), agent, a.kind, a.name);
      assert !indexFails ==> reports == installed;
    }
    TallyBounds(arts, reports, agent, Bundles(arts)[j]);
  }

  // ------------------------------------------------------------------ the same by positions

  predicate Matches(r: Report, agent: string, kind: string, name: string) {
    r.agent == agent && r.kind == kind && r.name == name
  }

  /** The status of an artifact is its last report's, and there is none without a report. */
  lemma {:induction false} EntryForIs(reports: seq<Report>, agent: string, kind: string, name: string)
    ensures EntryFor(reports, agent, kind, name).None? <==> forall r :: r in reports ==> !Matches(r, agent, kind, name)
    ensures forall i :: 0 <= i < |reports| && Matches(reports[i], agent, kind, name)
              && (forall j :: i < j < |reports| ==> !Matches(reports[j], agent, kind, name))
              ==> EntryFor(reports, agent, kind, name) == Some(reports[i].status)
    decreases |reports|
  {
    if reports != [] {
      var front, last := reports[..|reports| - 1], reports[|reports| - 1];
      EntryForIs(front, agent, kind, name);
      assert reports == front + [last] && last in reports;
    }
  }

  predicate Names(a: Artifact, kind: string, name: string) {
    a.bundle != "" && a.kind == kind && a.name == name
  }

  /** A report is tagged with the bundle of the last artifact of its kind and name that has one. */
  lemma {:induction false} BundleOfIs(arts: seq<Artifact>, kind: string, name: string)
    ensures BundleOf(arts, kind, name).None? <==> forall a :: a in arts ==> !Names(a, kind, name)
    ensures forall i :: 0 <= i < |arts| && Names(arts[i], kind, name)
              && (forall j :: i < j < |arts| ==> !Names(arts[j], kind, name))
              ==> BundleOf(arts, kind, name) == Some(arts[i].bundle)
    decreases |arts|
  {
    if arts != [] {
      var front, last := arts[..|arts| - 1], arts[|arts| - 1];
      BundleOfIs(front, kind, name);
      assert arts == front + [last] && last in arts;
    }
  }

  predicate Belongs(a: Artifact, agent: string, bundle: string) {
    a.bundle == bundle && (a.targets == [ALL_DETECTED] || agent in a.targets)
  }

  /** Where the artifacts of a bundle that target the agent and have a given entry stand. */
  ghost function Standing(arts: seq<Artifact>, reports: seq<Report>, agent: string, bundle: string,
                          entry: Option<Status>): set<nat> {
    set i: nat | i < |arts| && Belongs(arts[i], agent, bundle)
                 && EntryFor(reports, agent, arts[i].kind, arts[i].name) == entry
  }

  /** Each number of a rollup is the number of the artifacts it stands for. */
  lemma {:induction false} TallyCounts(arts: seq<Artifact>, reports: seq<Report>, agent: string, bundle: string)
    ensures
      var t := Tally(arts, reports, agent, bundle);
      && t.applied == |Standing(arts, reports, agent, bundle, Some(Applied))|
      && t.failed == |Standing(arts, reports, agent, bundle, Some(Failed))|
      && t.skipped == |Standing(arts, reports, agent, bundle, Some(Skipped))|
      && t.targeted == t.applied + t.failed + t.skipped + |Standing(arts, reports, agent, bundle, None)|
    decreases |arts|
  {
    if arts != [] {
      TallyCounts(arts[..|arts| - 1], reports, agent, bundle);
      StandingLast(arts, reports, agent, bundle, Some(Applied));
      StandingLast(arts, reports, agent, bundle, Some(Failed));
      StandingLast(arts, reports, agent, bundle, Some(Skipped));
      StandingLast(arts, reports, agent, bundle, None);
      hide Standing, EntryFor;
    }
  }

  lemma StandingLast(arts: seq<Artifact>, reports: seq<Report>, agent: string, bundle: string, entry: Option<Status>)
    requires arts != []
    ensures
      var a := arts[|arts| - 1];
      |Standing(arts, reports, agent, bundle, entry)|
      == |Standing(arts[..|arts| - 1], reports, agent, bundle, entry)|
         + if Belongs(a, agent, bundle) && EntryFor(reports, agent, a.kind, a.name) == entry then 1 else 0
  {
    var n, a := |arts| - 1, arts[|arts| - 1];
    var before := Standing(arts[..n], reports, agent, bundle, entry);
    var after := Standing(arts, reports, agent, bundle, entry);
    assert forall i: nat :: i in after && i != n <==> i in before;
    hide EntryFor, Belongs;
    if Belongs(a, agent, bundle) && EntryFor(reports, agent, a.kind, a.name) == entry {
      assert after == before + {n};
    } else {
      assert after == before;
    }
  }

  ghost predicate FirstNamed(arts: seq<Artifact>, bundle: string, i: nat) {
    i < |arts| && arts[i].bundle == bundle && forall j :: 0 <= j < i ==> arts[j].bundle != bundle
  }

  lemma {:induction false} BundlesGrow(arts: seq<Artifact>, i: nat)
    requires i <= |arts|
    ensures Bundles(arts[..i]) <= Bundles(arts)
    decreases |arts|
  {
    if i == |arts| {
      assert arts[..i] == arts;
    } else {
      assert arts[..|arts| - 1][..i] == arts[..i];
      BundlesGrow(arts[..|arts| - 1], i);
    }
  }

  /** The rollups come in the order in which the manifest first names their bundles. */
  lemma BundlesInOrder(arts: seq<Artifact>, x: nat, y: nat, i: nat, j: nat)
    requires x < y < |Bundles(arts)|
    requires FirstNamed(arts, Bundles(arts)[x], i) && FirstNamed(arts, Bundles(arts)[y], j)
    ensures i < j
  {
    BundlesAreAll(arts);
    BundlesAreAll(arts[..i]);
    BundlesGrow(arts, i);
    hide Bundles;
    assert Bundles(arts)[y] in Bundles(arts);
    assert j < i ==> arts[j] in arts[..i];
    BeforeItToo(Bundles(arts[..i]), Bundles(arts), x, y);
  }

  lemma BeforeItToo(front: seq<string>, all: seq<string>, x: nat, y: nat)
    requires front <= all && x < y < |all| && forall i, j :: 0 <= i < j < |all| ==> all[i] != all[j]
    ensures all[y] in front ==> all[x] in front
  {
  }

  ghost function Targeted(arts: seq<Artifact>, agent: string): nat {
    |set i: nat | i < |arts| && Targets(arts[i], agent)|
  }

  lemma TargetedLast(arts: seq<Artifact>, agent: string)
    requires arts != []
    ensures Targeted(arts, agent)
            == Targeted(arts[..|arts| - 1], agent) + if Targets(arts[|arts| - 1], agent) then 1 else 0
  {
    var n, front := |arts| - 1, arts[..|arts| - 1];
    var before := set i: nat | i < n && Targets(front[i], agent);
    var after := set i: nat | i < |arts| && Targets(arts[i], agent);
    hide Targets;
    if Targets(arts[n], agent) {
      assert after == before + {n};
    } else {
      assert after == before;
    }
  }

  /** The install reports each artifact that targets the agent, in the manifest's order, and nothing else:
      skipped for an agent not in the registry or without its secrets, and as dispatched otherwise. */
  lemma {:induction false} ReportsAre(arts: seq<Artifact>, agent: string, known: bool, fates: Artifact -> Fate, i: nat)
    requires i < |arts|
    ensures |Reports(arts, agent, known, fates)| == Targeted(arts, agent)
    ensures
      var a := arts[i];
      a.targets == [ALL_DETECTED] || agent in a.targets ==>
        && Targeted(arts[..i], agent) < Targeted(arts, agent)
        && Reports(arts, agent, known, fates)[Targeted(arts[..i], agent)]
           == Report(agent, a.kind, a.name, if !known || fates(a).SecretsMissing? then Skipped else fates(a).status, "")
    decreases |arts|
  {
    var n, front := |arts| - 1, arts[..|arts| - 1];
    TargetedLast(arts, agent);
    hide Targeted;
    if i < n {
      ReportsAre(front, agent, known, fates, i);
      assert arts[..i] == front[..i] && arts[i] == front[i];
    } else if n > 0 {
      ReportsAre(front, agent, known, fates, 0);
    } else {
      assert Targeted([], agent) == 0 by { NoneTargeted(agent); }
    }
  }

  lemma NoneTargeted(agent: string)
    ensures Targeted([], agent) == 0
  {
    var none: seq<Artifact> := [];
    assert (set i: nat | i < |none| && Targets(none[i], agent)) == {};
  }
}
