/**
  Compiling repeated fixes into draft policies (ai-agents/shared/policy_synthesizer.py).
*/
module PolicySynthesizer {
  import opened Prelude
  import opened Text
  import opened PolicyTemplates
  import opened PipelineModels

  /** The alert types with a verifiable condition. */
  const RECIPES: set<string> := {"InterfaceAdminDown", "InterfaceDown", "BGPPeerDown"}

  /** What `_collect_evidence` reads of an RCA task. */
  datatype ResolvedTask = ResolvedTask(
    alertname: string,
    fixType: string,
    deviceRole: string,
    device: string,
    commands: string,
    resolved: bool,
    fastPath: bool)

  datatype Key = Key(alertname: string, fixType: string, deviceRole: string)

  datatype Sample = Sample(device: string, commands: string)

  datatype ExistingPolicy = ExistingPolicy(alertname: string, deviceRole: string, hasConditions: bool)

  datatype Draft = Draft(key: Key, commands: string, level: Level, enabled: bool, samples: seq<Sample>)

  predicate Counts(t: ResolvedTask) {
    t.alertname != "" && t.resolved && !t.fastPath && t.fixType != "" && t.commands != "" && t.commands != "none"
  }

  function KeyOf(t: ResolvedTask): Key { Key(t.alertname, t.fixType, t.deviceRole) }

  /** The evidence for one pattern, in task order. */
  function SamplesFor(tasks: seq<ResolvedTask>, key: Key): seq<Sample> {
    if tasks == [] then [] else
    var t := tasks[|tasks| - 1];
    SamplesFor(tasks[..|tasks| - 1], key) + if Counts(t) && KeyOf(t) == key then [Sample(t.device, t.commands)] else []
  }

  /** A verified success of the full pipeline on this pattern, with commands to learn from. */
  predicate Teaches(t: ResolvedTask, key: Key) {
    && t.resolved && !t.fastPath && t.commands !in {"", "none"} && t.fixType != "" && t.alertname != ""
    && t.alertname == key.alertname && t.fixType == key.fixType && t.deviceRole == key.deviceRole
  }

  /** `at` are the positions of the lessons among the first `n` tasks, ascending, and `samples` what they teach. */
  ghost predicate Lessons(tasks: seq<ResolvedTask>, n: nat, key: Key, at: seq<nat>, samples: seq<Sample>) {
    && n <= |tasks| && |at| == |samples|
    && (forall k :: 0 <= k < |at| ==>
          at[k] < n && Teaches(tasks[at[k]], key) && samples[k] == Sample(tasks[at[k]].device, tasks[at[k]].commands))
    && (forall k, l :: 0 <= k < l < |at| ==> at[k] < at[l])
    && (forall i :: 0 <= i < n && Teaches(tasks[i], key) ==> i in at)
  }

  lemma OneMoreLesson(tasks: seq<ResolvedTask>, n: nat, key: Key, at: seq<nat>, samples: seq<Sample>)
    requires n < |tasks| && Lessons(tasks, n, key, at, samples)
    ensures if Teaches(tasks[n], key)
            then Lessons(tasks, n + 1, key, at + [n], samples + [Sample(tasks[n].device, tasks[n].commands)])
            else Lessons(tasks, n + 1, key, at, samples)
  {
    if Teaches(tasks[n], key) {
      assert (at + [n])[|at|] == n;
      forall i | 0 <= i < n && Teaches(tasks[i], key)
        ensures i in at + [n]
      {
        assert i in at;
      }
    }
  }

  lemma {:induction false} LessonsUpTo(tasks: seq<ResolvedTask>, n: nat, key: Key) returns (at: seq<nat>)
    requires n <= |tasks|
    ensures Lessons(tasks, n, key, at, SamplesFor(tasks[..n], key))
  {
    at := [];
    if n > 0 {
      at := LessonsUpTo(tasks, n - 1, key);
      OneMoreLesson(tasks, n - 1, key, at, SamplesFor(tasks[..n - 1], key));
      assert tasks[..n][..n - 1] == tasks[..n - 1];
      if Teaches(tasks[n - 1], key) { at := at + [n - 1]; }
    }
  }

  /** The evidence for a pattern is made of its lessons and of nothing else, one sample each, in task order. */
  lemma SamplesAreLessons(tasks: seq<ResolvedTask>, key: Key) returns (at: seq<nat>)
    ensures |at| == |SamplesFor(tasks, key)|
    ensures forall k :: 0 <= k < |at| ==>
              at[k] < |tasks| && Teaches(tasks[at[k]], key) && SamplesFor(tasks, key)[k] == Sample(tasks[at[k]].device, tasks[at[k]].commands)
    ensures forall k, l :: 0 <= k < l < |at| ==> at[k] < at[l]
    ensures forall i :: 0 <= i < |tasks| && Teaches(tasks[i], key) ==> i in at
  {
    at := LessonsUpTo(tasks, |tasks|, key);
    assert tasks[..|tasks|] == tasks;
  }

  /** `_already_covered`. */
  predicate AlreadyCovered(existing: seq<ExistingPolicy>, key: Key) {
    exists i :: 0 <= i < |existing| && existing[i].hasConditions && existing[i].alertname == key.alertname
                && (existing[i].deviceRole == "" || existing[i].deviceRole == key.deviceRole)
  }

  /** Every sample generalises to the same non-empty commands `g`. */
  predicate AgreeOn(samples: seq<Sample>, g: string) {
    g != "" && samples != [] && forall i :: 0 <= i < |samples| ==> Generalize(samples[i].commands, samples[i].device) == g
  }

  /** The draft one pattern deserves. */
  function DraftFor(existing: seq<ExistingPolicy>, minSuccesses: nat, key: Key,
                    samples: seq<Sample>): (r: Option<Draft>)
    ensures r.Some? <==> (&& |samples| >= minSuccesses && key.alertname in RECIPES && !AlreadyCovered(existing, key)
                          && exists g :: AgreeOn(samples, g))
    ensures r.Some? ==> r.value.key == key && r.value.samples == samples && AgreeOn(samples, r.value.commands)
                        && !r.value.enabled && r.value.level == L3
  {
    if |samples| < minSuccesses || key.alertname !in RECIPES || AlreadyCovered(existing, key) || samples == [] then None
    else
      var g := Generalize(samples[0].commands, samples[0].device);
      if AgreeOn(samples, g) then Some(Draft(key, g, L3, false, samples)) else None
  }

  /** Instantiating a draft for any task it was learned from gives that task's own commands. */
  lemma DraftReproducesSamples(d: Draft, k: nat, interface: string, ctx: seq<(string, string)>)
    requires k < |d.samples| && AgreeOn(d.samples, d.commands)
    requires var s := d.samples[k];
             NoOpenBrace(s.commands) && VisibleEdges(s.device) && OnlyInterface(s.commands, s.device, interface)
    requires |ctx| >= 2 && ctx[0] == ("device", d.samples[k].device) && ctx[1] == ("interface", interface)
    ensures Fill(d.commands, ctx) == Strip(d.samples[k].commands)
  {
    GeneralizeThenFill(d.samples[k].commands, d.samples[k].device, interface, ctx);
  }

  /** The keys in order of first appearance, each with its evidence. */
  ghost predicate Collected(tasks: seq<ResolvedTask>, order: seq<Key>, groups: map<Key, seq<Sample>>) {
    && NoDuplicates(order) && (forall key :: key in order <==> key in groups)
    && (forall key :: key in groups <==> SamplesFor(tasks, key) != [])
    && (forall key :: key in groups ==> groups[key] == SamplesFor(tasks, key))
  }

  lemma SkippedTask(tasks: seq<ResolvedTask>, t: ResolvedTask, order: seq<Key>, groups: map<Key, seq<Sample>>)
    requires Collected(tasks, order, groups) && !Counts(t)
    ensures Collected(tasks + [t], order, groups)
  {
    assert (tasks + [t])[..|tasks|] == tasks;
    assert forall key :: SamplesFor(tasks + [t], key) == SamplesFor(tasks, key);
  }

  lemma EvidenceOf(tasks: seq<ResolvedTask>, t: ResolvedTask, key: Key)
    requires Counts(t)
    ensures SamplesFor(tasks + [t], key) == if key == KeyOf(t) then SamplesFor(tasks, key) + [Sample(t.device, t.commands)] else SamplesFor(tasks, key)
  {
    assert (tasks + [t])[..|tasks|] == tasks;
  }

  lemma KnownPattern(tasks: seq<ResolvedTask>, t: ResolvedTask, order: seq<Key>, groups: map<Key, seq<Sample>>)
    requires Collected(tasks, order, groups) && Counts(t) && KeyOf(t) in groups
    ensures Collected(tasks + [t], order, groups[KeyOf(t) := groups[KeyOf(t)] + [Sample(t.device, t.commands)]])
  {
    forall key
      ensures SamplesFor(tasks + [t], key) == if key == KeyOf(t) then SamplesFor(tasks, key) + [Sample(t.device, t.commands)] else SamplesFor(tasks, key)
    {
      EvidenceOf(tasks, t, key);
    }
  }

  lemma NewKey(order: seq<Key>, groups: map<Key, seq<Sample>>, mine: Key, samples: seq<Sample>)
    requires NoDuplicates(order) && (forall key :: key in order <==> key in groups) && mine !in groups
    ensures NoDuplicates(order + [mine]) && forall key :: key in order + [mine] <==> key in groups[mine := samples]
  {
    forall i | 0 <= i < |order|
      ensures order[i] != mine
    {
      assert order[i] in groups;
    }
  }

  lemma NewPattern(tasks: seq<ResolvedTask>, t: ResolvedTask, order: seq<Key>, groups: map<Key, seq<Sample>>)
    requires Collected(tasks, order, groups) && Counts(t) && KeyOf(t) !in groups
    ensures Collected(tasks + [t], order + [KeyOf(t)], groups[KeyOf(t) := [Sample(t.device, t.commands)]])
  {
    var mine, first := KeyOf(t), [Sample(t.device, t.commands)];
    NewKey(order, groups, mine, first);
    forall key
      ensures key in groups[mine := first] <==> SamplesFor(tasks + [t], key) != []
      ensures key in groups[mine := first] ==> groups[mine := first][key] == SamplesFor(tasks + [t], key)
    {
      EvidenceOf(tasks, t, key);
    }
  }

  /** `groups.setdefault(key, []).append(...)`, one task at a time. */
  method CollectEvidence(tasks: seq<ResolvedTask>) returns (order: seq<Key>, groups: map<Key, seq<Sample>>)
    ensures NoDuplicates(order) && forall key :: key in order <==> key in groups
    ensures forall key :: key in groups <==> SamplesFor(tasks, key) != []
    ensures forall key :: key in groups ==> groups[key] == SamplesFor(tasks, key)
  {
    order, groups := [], map[];
    for i := 0 to |tasks|
      invariant Collected(tasks[..i], order, groups)
    {
      var t := tasks[i];
      assert tasks[..i + 1] == tasks[..i] + [t];
      if Counts(t) {
        var key, sample := KeyOf(t), Sample(t.device, t.commands);
        if key in groups {
          KnownPattern(tasks[..i], t, order, groups);
          groups := groups[key := groups[key] + [sample]];
        } else {
          NewPattern(tasks[..i], t, order, groups);
          order := order + [key];
          groups := groups[key := [sample]];
        }
      } else {
        SkippedTask(tasks[..i], t, order, groups);
      }
    }
    assert tasks[..|tasks|] == tasks;
  }

  ghost predicate Deserved(tasks: seq<ResolvedTask>, existing: seq<ExistingPolicy>, minSuccesses: nat, d: Draft) {
    DraftFor(existing, minSuccesses, d.key, SamplesFor(tasks, d.key)) == Some(d)
  }

  lemma CoveredIff(existing: seq<ExistingPolicy>, key: Key)
    ensures AlreadyCovered(existing, key) <==>
            exists p :: p in existing && p.hasConditions && p.alertname == key.alertname
                        && (p.deviceRole == "" || p.deviceRole == key.deviceRole)
  {
  }

  lemma AgreeIff(samples: seq<Sample>, g: string)
    ensures AgreeOn(samples, g) <==>
            samples != [] && g != "" && forall s | s in samples :: Generalize(s.commands, s.device) == g
  {
  }

  /** A draft is deserved exactly when the pattern has a recipe and enough samples that all generalise to its commands,
      and no fast-path policy for the alert has that role or none; it is a disabled one at L3. */
  lemma DeservedIff(tasks: seq<ResolvedTask>, existing: seq<ExistingPolicy>, minSuccesses: nat, d: Draft)
    ensures Deserved(tasks, existing, minSuccesses, d) <==>
            && d.key.alertname in {"InterfaceAdminDown", "InterfaceDown", "BGPPeerDown"}
            && d.samples == SamplesFor(tasks, d.key) && |d.samples| >= minSuccesses && d.samples != []
            && (forall p | p in existing && p.hasConditions && p.alertname == d.key.alertname ::
                  p.deviceRole != "" && p.deviceRole != d.key.deviceRole)
            && d.commands != "" && (forall s | s in d.samples :: Generalize(s.commands, s.device) == d.commands)
            && d.level == L3 && !d.enabled
  {
    var samples := SamplesFor(tasks, d.key);
    CoveredIff(existing, d.key);
    AgreeIff(samples, d.commands);
    if samples != [] { AgreeIff(samples, Generalize(samples[0].commands, samples[0].device)); }
  }

  /** One draft for each of the keys that deserves one. */
  ghost predicate DraftsFor(tasks: seq<ResolvedTask>, existing: seq<ExistingPolicy>, minSuccesses: nat,
                            keys: seq<Key>, drafts: seq<Draft>) {
    && (forall d :: d in drafts <==> d.key in keys && Deserved(tasks, existing, minSuccesses, d))
    && (forall i, j :: 0 <= i < j < |drafts| ==> drafts[i].key != drafts[j].key)
  }

  lemma OneMoreKey(tasks: seq<ResolvedTask>, existing: seq<ExistingPolicy>, minSuccesses: nat, keys: seq<Key>,
                   key: Key, drafts: seq<Draft>)
    requires DraftsFor(tasks, existing, minSuccesses, keys, drafts) && key !in keys
    ensures var draft := DraftFor(existing, minSuccesses, key, SamplesFor(tasks, key));
            DraftsFor(tasks, existing, minSuccesses, keys + [key], if draft.Some? then drafts + [draft.value] else drafts)
  {
    var draft := DraftFor(existing, minSuccesses, key, SamplesFor(tasks, key));
    forall d: Draft
      ensures d.key in keys + [key] && Deserved(tasks, existing, minSuccesses, d) <==>
              (d.key in keys && Deserved(tasks, existing, minSuccesses, d)) || draft == Some(d)
    {
    }
    forall i | 0 <= i < |drafts|
      ensures drafts[i].key != key
    {
      assert drafts[i] in drafts;
    }
  }

  /** Exactly one disabled draft for every pattern that deserves one. */
  method Synthesize(tasks: seq<ResolvedTask>, existing: seq<ExistingPolicy>,
                    minSuccesses: nat) returns (drafts: seq<Draft>)
    ensures forall d :: d in drafts <==> Deserved(tasks, existing, minSuccesses, d)
    ensures forall i, j :: 0 <= i < j < |drafts| ==> drafts[i].key != drafts[j].key
  {
    var order, groups := CollectEvidence(tasks);
    drafts := [];
    for n := 0 to |order|
      invariant DraftsFor(tasks, existing, minSuccesses, order[..n], drafts)
    {
      var key := order[n];
      assert key in order;
      assert order[..n + 1] == order[..n] + [key];
      OneMoreKey(tasks, existing, minSuccesses, order[..n], key, drafts);
      var draft := DraftFor(existing, minSuccesses, key, groups[key]);
      if draft.Some? { drafts := drafts + [draft.value]; }
    }
    assert order[..|order|] == order;
    forall d | Deserved(tasks, existing, minSuccesses, d)
      ensures d.key in order
    {
      assert SamplesFor(tasks, d.key) != [];
    }
  }
}
