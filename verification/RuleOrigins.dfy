/** How one PrometheusRule resource names the Dash0 objects that are created from its rules. */
module RuleOrigins {
  import opened Common
  import opened Text

  /** A recording rule has a record, an alerting rule an alert; the definition is everything else. */
  datatype Rule = Rule(record: string, alert: string, definition: string) {
    function Name(): string {
      if record != "" then record else alert
    }
  }

  datatype RuleGroup = RuleGroup(name: string, rules: seq<Rule>)

  const UNNAMED_RULE := "unnamed rule"

  /** The characters that the Dash0 API does not accept in an origin are replaced by "|". */
  function Sanitize(name: string): (r: string)
    ensures |r| == |name|
    ensures forall i | 0 <= i < |r| :: r[i] == if name[i] in {'/', '%', ':'} then '|' else name[i]
  {
    ReplaceAll(ReplaceAll(ReplaceAll(name, '/', '|'), '%', '|'), ':', '|')
  }

  function NamespacePrefix(clusterUid: string, dataset: string, namespace: string): string {
    "dash0-operator_" + clusterUid + "_" + dataset + "_" + namespace + "_"
  }

  function ResourcePrefix(clusterUid: string, dataset: string, namespace: string, name: string): string {
    NamespacePrefix(clusterUid, dataset, namespace) + name + "_"
  }

  /** The origin a rule asks for. Two rules can ask for the same one. */
  function RuleOrigin(prefix: string, groupName: string, ruleName: string): string {
    prefix + Sanitize(groupName) + "_" + Sanitize(if ruleName == "" then UNNAMED_RULE else ruleName)
  }

  function DerivedOrigins(prefix: string, groups: seq<RuleGroup>): (rows: seq<seq<string>>)
    ensures |rows| == |groups|
    ensures forall g | 0 <= g < |groups| :: |rows[g]| == |groups[g].rules|
    ensures forall g, r | 0 <= g < |groups| && 0 <= r < |groups[g].rules| ::
      rows[g][r] == RuleOrigin(prefix, groups[g].name, groups[g].rules[r].Name())
  {
    seq(|groups|, g requires 0 <= g < |groups| =>
      seq(|groups[g].rules|, r requires 0 <= r < |groups[g].rules| =>
        RuleOrigin(prefix, groups[g].name, groups[g].rules[r].Name())))
  }

  // ---------------------------------------------------------------------------------------------
  // Specification: what the origins are, without counters and without a second pass.
  // ---------------------------------------------------------------------------------------------

  function Elements<T>(s: seq<T>): set<T> {
    set x | x in s
  }

  lemma ElementsOfAppend<T>(s: seq<T>, x: T)
    ensures Elements(s + [x]) == Elements(s) + {x}
  {
  }

  function Candidate(base: string, k: nat): string {
    base + "_" + Itoa(k)
  }

  lemma CandidateInjective(base: string, j: nat, k: nat)
    requires Candidate(base, j) == Candidate(base, k)
    ensures j == k
  {
    assert Candidate(base, j)[|base| + 1..] == Itoa(j);
    assert Candidate(base, k)[|base| + 1..] == Itoa(k);
    ItoaInjective(j, k);
  }

  /** The taken origins that a search for a suffix that starts at k can still run into. */
  ghost function TakenFrom(base: string, taken: set<string>, k: nat): set<string> {
    set origin | origin in taken && exists j: nat :: j >= k && origin == Candidate(base, j)
  }

  lemma SkippingOneShrinks(base: string, taken: set<string>, k: nat)
    requires Candidate(base, k) in taken
    ensures TakenFrom(base, taken, k + 1) < TakenFrom(base, taken, k)
    ensures |TakenFrom(base, taken, k + 1)| < |TakenFrom(base, taken, k)|
  {
    var smaller, larger := TakenFrom(base, taken, k + 1), TakenFrom(base, taken, k);
    assert Candidate(base, k) in larger;
    if Candidate(base, k) in smaller {
      var j: nat :| j >= k + 1 && Candidate(base, k) == Candidate(base, j);
      CandidateInjective(base, j, k);
    }
    assert smaller <= larger - {Candidate(base, k)};
    SubsetSize(smaller, larger - {Candidate(base, k)});
  }

  /** The least free suffix at or above k. */
  ghost function LeastFree(base: string, taken: set<string>, k: nat): (free: nat)
    ensures free >= k && Candidate(base, free) !in taken
    ensures forall j | k <= j < free :: Candidate(base, j) in taken
    decreases |TakenFrom(base, taken, k)|
  {
    if Candidate(base, k) !in taken then
      k
    else
      SkippingOneShrinks(base, taken, k);
      LeastFree(base, taken, k + 1)
  }

  ghost predicate IsFirst<T>(derived: seq<T>, i: nat)
    requires i < |derived|
  {
    derived[i] !in derived[..i]
  }

  /** The origins of the first n rules: the first rule that asks for an origin gets it, every other rule gets the
      least suffix that makes it differ from all derived origins and all origins settled before. */
  ghost function Settle(derived: seq<string>, n: nat): (settled: seq<string>)
    requires n <= |derived|
    ensures |settled| == n
  {
    if n == 0 then
      []
    else
      var before := Settle(derived, n - 1);
      before + [SettleNext(derived, before, n - 1)]
  }

  ghost function SettleNext(derived: seq<string>, before: seq<string>, i: nat): string
    requires i < |derived|
  {
    if IsFirst(derived, i) then
      derived[i]
    else
      Candidate(derived[i], LeastFree(derived[i], Elements(derived) + Elements(before), 1))
  }

  ghost function Settled(derived: seq<string>): seq<string> {
    Settle(derived, |derived|)
  }

  lemma {:induction false} SettleAt(derived: seq<string>, n: nat, i: nat)
    requires i < n <= |derived|
    ensures Settle(derived, n)[i] == SettleNext(derived, Settle(derived, i), i)
    ensures Settle(derived, n)[..i] == Settle(derived, i)
  {
    if i < n - 1 {
      SettleAt(derived, n - 1, i);
      assert Settle(derived, n)[..i] == Settle(derived, n - 1)[..i];
    }
  }

  // ---------------------------------------------------------------------------------------------
  // Properties of the origins
  // ---------------------------------------------------------------------------------------------

  /** A rule keeps the origin it asks for exactly if no earlier rule asks for it. */
  lemma FirstKeepsDerivedOrigin(derived: seq<string>, i: nat)
    requires i < |derived|
    ensures Settled(derived)[i] == derived[i] <==> IsFirst(derived, i)
    ensures derived[i] <= Settled(derived)[i]
  {
    SettleAt(derived, |derived|, i);
    if !IsFirst(derived, i) {
      assert |Settled(derived)[i]| > |derived[i]|;
    }
  }

  /** Every origin that some rule asks for is the origin of some rule. */
  lemma EveryDerivedOriginIsSettled(derived: seq<string>)
    ensures Elements(derived) <= Elements(Settled(derived))
  {
    forall i | 0 <= i < |derived|
      ensures derived[i] in Settled(derived)
    {
      var j := FirstAsking(derived, i);
      FirstKeepsDerivedOrigin(derived, j);
      assert Settled(derived)[j] == derived[i];
    }
  }

  lemma {:induction false} FirstAsking(derived: seq<string>, i: nat) returns (j: nat)
    requires i < |derived|
    ensures j <= i && derived[j] == derived[i] && IsFirst(derived, j)
  {
    j := i;
    if !IsFirst(derived, i) {
      var k :| 0 <= k < i && derived[k] == derived[i];
      j := FirstAsking(derived, k);
    }
  }

  /** No two rules of a resource share an origin. */
  lemma OriginsAreDistinct(derived: seq<string>, i: nat, j: nat)
    requires i < j < |derived|
    ensures Settled(derived)[i] != Settled(derived)[j]
  {
    var n := |derived|;
    SettleAt(derived, n, i);
    SettleAt(derived, n, j);
    assert Settled(derived)[i] == Settle(derived, j)[i];
    assert derived[j] in Elements(derived);
    if IsFirst(derived, j) {
      if IsFirst(derived, i) {
        assert derived[i] in derived[..j];
      }
    }
  }

  function DerivedOrigin(prefix: string, groups: seq<RuleGroup>, g: nat, r: nat): string
    requires g < |groups| && r < |groups[g].rules|
  {
    RuleOrigin(prefix, groups[g].name, groups[g].rules[r].Name())
  }

  ghost predicate AsksAlone(prefix: string, groups: seq<RuleGroup>, g: nat, r: nat)
    requires g < |groups| && r < |groups[g].rules|
  {
    forall h: nat, s: nat | h < |groups| && s < |groups[h].rules| && (h, s) != (g, r) ::
      DerivedOrigin(prefix, groups, h, s) != DerivedOrigin(prefix, groups, g, r)
  }

  /** A rule whose derived origin is asked for by no other rule has exactly that origin, whatever the other rules of the
      resource are: how many there are, in which order, and whether one is literally named like a suffixed duplicate. */
  lemma OriginIsStable(prefix: string, groups: seq<RuleGroup>, g: nat, r: nat)
    requires g < |groups| && r < |groups[g].rules| && AsksAlone(prefix, groups, g, r)
    ensures SettledOrigins(prefix, groups)[g][r] == DerivedOrigin(prefix, groups, g, r)
  {
    var rows := DerivedOrigins(prefix, groups);
    var i, derived := FlatIndex(rows, g, r), Flatten(rows);
    FlattenAt(rows, g, r);
    forall j | 0 <= j < i
      ensures derived[j] != derived[i]
    {
      var h, s := FlattenFrom(rows, j);
      FlattenAt(rows, h, s);
      assert derived[j] == DerivedOrigin(prefix, groups, h, s);
    }
    FirstKeepsDerivedOrigin(derived, i);
  }

  /** A text as it appears in an origin, character by character. */
  function Cleaned(text: string): string {
    seq(|text|, i requires 0 <= i < |text| =>
      if text[i] == '/' || text[i] == '%' || text[i] == ':' then '|' else text[i])
  }

  /** The name of a rule, or what stands for it. */
  function NameOrStandIn(rule: Rule): string {
    if rule.record != "" then rule.record else if rule.alert != "" then rule.alert else "unnamed rule"
  }

  /** What a rule asks for, written out. */
  function OriginText(prefix: string, groups: seq<RuleGroup>, g: nat, r: nat): string
    requires g < |groups| && r < |groups[g].rules|
  {
    prefix + Cleaned(groups[g].name) + "_" + Cleaned(NameOrStandIn(groups[g].rules[r]))
  }

  lemma SanitizedIsCleaned(name: string)
    ensures Sanitize(name) == Cleaned(name)
  {
  }

  lemma DerivedOriginIsText(prefix: string, groups: seq<RuleGroup>, g: nat, r: nat)
    requires g < |groups| && r < |groups[g].rules|
    ensures DerivedOrigin(prefix, groups, g, r) == OriginText(prefix, groups, g, r)
  {
    hide Sanitize, Cleaned;
    SanitizedIsCleaned(groups[g].name);
    SanitizedIsCleaned(NameOrStandIn(groups[g].rules[r]));
  }

  /** A rule that alone asks for its origin gets the prefix, the cleaned name of its group, an underscore, and its own
      cleaned name. */
  lemma OriginIsText(prefix: string, groups: seq<RuleGroup>, g: nat, r: nat)
    requires g < |groups| && r < |groups[g].rules|
    requires forall h: nat, t: nat | h < |groups| && t < |groups[h].rules| && (h, t) != (g, r) ::
      OriginText(prefix, groups, h, t) != OriginText(prefix, groups, g, r)
    ensures SettledOrigins(prefix, groups)[g][r] == OriginText(prefix, groups, g, r)
  {
    forall h: nat, t: nat | h < |groups| && t < |groups[h].rules|
      ensures DerivedOrigin(prefix, groups, h, t) == OriginText(prefix, groups, h, t)
    {
      DerivedOriginIsText(prefix, groups, h, t);
    }
    hide OriginText, DerivedOrigin, SettledOrigins;
    OriginIsStable(prefix, groups, g, r);
  }

  /** Every origin is what the rule asks for, followed, if an earlier rule asks for the same, by an underscore and a
      positive number in decimal form. */
  lemma OriginIsTextWithSuffix(prefix: string, groups: seq<RuleGroup>, g: nat, r: nat) returns (k: nat)
    requires g < |groups| && r < |groups[g].rules|
    ensures SettledOrigins(prefix, groups)[g][r] ==
      OriginText(prefix, groups, g, r) + if k == 0 then "" else "_" + Itoa(k)
  {
    var rows := DerivedOrigins(prefix, groups);
    var derived, i := Flatten(rows), FlatIndex(rows, g, r);
    FlattenAt(rows, g, r);
    DerivedOriginIsText(prefix, groups, g, r);
    assert SettledOrigins(prefix, groups)[g][r] == Settled(derived)[i];
    hide DerivedOrigins, OriginText, RuleOrigin, SettledOrigins;
    k := SuffixOf(derived, i);
  }

  /** The number is the least positive one that avoids all origins that are asked for and all that earlier rules have
      got. */
  lemma SuffixOf(derived: seq<string>, i: nat) returns (k: nat)
    requires i < |derived|
    ensures k == 0 <==> derived[i] !in derived[..i]
    ensures Settled(derived)[i] == derived[i] + if k == 0 then "" else "_" + Itoa(k)
    ensures forall j: nat | 0 < j < k ::
      derived[i] + "_" + Itoa(j) in derived || derived[i] + "_" + Itoa(j) in Settled(derived)[..i]
  {
    SettleAt(derived, |derived|, i);
    k := 0;
    if !IsFirst(derived, i) {
      k := LeastFree(derived[i], Elements(derived) + Elements(Settle(derived, i)), 1);
      forall j: nat | 0 < j < k
        ensures derived[i] + "_" + Itoa(j) in derived || derived[i] + "_" + Itoa(j) in Settled(derived)[..i]
      {
        assert Candidate(derived[i], j) in Elements(derived) + Elements(Settle(derived, i));
      }
      assert Candidate(derived[i], k) == derived[i] + ("_" + Itoa(k));
    }
  }

  /** Behind the prefix, no origin has a character that the Dash0 API does not accept. */
  lemma OriginsAreSanitized(prefix: string, groups: seq<RuleGroup>, g: nat, r: nat)
    requires g < |groups| && r < |groups[g].rules|
    ensures var origin := SettledOrigins(prefix, groups)[g][r];
      prefix <= origin && forall i | |prefix| <= i < |origin| :: origin[i] !in {'/', '%', ':'}
  {
    hide SettledOrigins, Itoa, NameOrStandIn, Cleaned;
    var k := OriginIsTextWithSuffix(prefix, groups, g, r);
    var suffix := if k == 0 then "" else "_" + Itoa(k);
    SuffixHasNoForbidden(k);
    CleanedHasNoForbidden(groups[g].name);
    CleanedHasNoForbidden(NameOrStandIn(groups[g].rules[r]));
    Joined(prefix, Cleaned(groups[g].name), Cleaned(NameOrStandIn(groups[g].rules[r])), suffix);
  }

  lemma SuffixHasNoForbidden(k: nat)
    ensures HasNoForbidden(if k == 0 then "" else "_" + Itoa(k))
  {
    ItoaIsDecimal(k);
  }

  ghost predicate HasNoForbidden(text: string) {
    forall i | 0 <= i < |text| :: text[i] !in {'/', '%', ':'}
  }

  lemma CleanedHasNoForbidden(text: string)
    ensures HasNoForbidden(Cleaned(text))
  {
  }

  lemma Joined(prefix: string, a: string, b: string, c: string)
    requires HasNoForbidden(a) && HasNoForbidden(b) && HasNoForbidden(c)
    ensures var text := prefix + a + "_" + b + c;
      prefix <= text && forall i | |prefix| <= i < |text| :: text[i] !in {'/', '%', ':'}
  {
    assert HasNoForbidden(a + "_" + b + c);
    assert prefix + a + "_" + b + c == prefix + (a + "_" + b + c);
  }

  /** All origins of a resource carry the prefix of that resource. */
  lemma OriginsCarryPrefix(prefix: string, groups: seq<RuleGroup>, i: nat)
    requires i < |Flatten(DerivedOrigins(prefix, groups))|
    ensures prefix <= Settled(Flatten(DerivedOrigins(prefix, groups)))[i]
  {
    var rows := DerivedOrigins(prefix, groups);
    var g, r := FlattenFrom(rows, i);
    FlattenAt(rows, g, r);
    FirstKeepsDerivedOrigin(Flatten(rows), i);
  }

  /** Kubernetes names do not contain the separator. */
  predicate IsKubernetesName(name: string) {
    '_' !in name
  }

  /** Within one dataset, no origin carries the prefixes of two different resources. */
  lemma PrefixesNeverOverlap(clusterUid: string, dataset: string, namespace: string, name: string,
                             namespace': string, name': string, origin: string)
    requires IsKubernetesName(namespace) && IsKubernetesName(name)
    requires IsKubernetesName(namespace') && IsKubernetesName(name')
    requires ResourcePrefix(clusterUid, dataset, namespace, name) <= origin
    requires ResourcePrefix(clusterUid, dataset, namespace', name') <= origin
    ensures namespace == namespace' && name == name'
  {
    var common := "dash0-operator_" + clusterUid + "_" + dataset + "_";
    PrefixOfRest(common, namespace + "_" + name + "_", origin);
    PrefixOfRest(common, namespace' + "_" + name' + "_", origin);
    var rest := origin[|common|..];
    FirstSeparator(namespace, namespace', '_', rest);
    PrefixOfRest(namespace + "_", name + "_", rest);
    PrefixOfRest(namespace' + "_", name' + "_", rest);
    FirstSeparator(name, name', '_', rest[|namespace| + 1..]);
  }

  /** No origin carries the prefixes of resources in different clusters. */
  lemma ClustersNeverOverlap(clusterUid: string, dataset: string, namespace: string, name: string, clusterUid': string,
                             dataset': string, namespace': string, name': string, origin: string)
    requires '_' !in clusterUid && '_' !in clusterUid'
    requires ResourcePrefix(clusterUid, dataset, namespace, name) <= origin
    requires ResourcePrefix(clusterUid', dataset', namespace', name') <= origin
    ensures clusterUid == clusterUid'
  {
    var common := "dash0-operator_";
    PrefixOfRest(common, clusterUid + "_" + (dataset + "_" + namespace + "_" + name + "_"), origin);
    PrefixOfRest(common, clusterUid' + "_" + (dataset' + "_" + namespace' + "_" + name' + "_"), origin);
    FirstSeparator(clusterUid, clusterUid', '_', origin[|common|..]);
  }

  lemma PrefixOfRest(a: string, b: string, s: string)
    requires a + b <= s
    ensures |a| <= |s| && b <= s[|a|..]
  {
    assert (a + b)[|a|..] == b;
  }

  /** The settled origins, one row per group. */
  ghost function SettledOrigins(prefix: string, groups: seq<RuleGroup>): (origins: seq<seq<string>>)
    ensures |origins| == |groups|
    ensures forall g | 0 <= g < |groups| :: |origins[g]| == |groups[g].rules|
  {
    var rows := DerivedOrigins(prefix, groups);
    seq(|groups|, g requires 0 <= g < |groups| =>
      seq(|groups[g].rules|, r requires 0 <= r < |groups[g].rules| =>
        FlattenAt(rows, g, r); Settled(Flatten(rows))[FlatIndex(rows, g, r)]))
  }

  lemma RowsFromFlat(prefix: string, groups: seq<RuleGroup>, origins: seq<seq<string>>)
    requires SameShape(DerivedOrigins(prefix, groups), origins)
    requires Flatten(origins) == Settled(Flatten(DerivedOrigins(prefix, groups)))
    ensures origins == SettledOrigins(prefix, groups)
  {
    var rows := DerivedOrigins(prefix, groups);
    SameShapeSameIndex(rows, origins);
    forall g | 0 <= g < |groups|
      ensures origins[g] == SettledOrigins(prefix, groups)[g]
    {
      forall r | 0 <= r < |groups[g].rules|
        ensures origins[g][r] == SettledOrigins(prefix, groups)[g][r]
      {
        FlattenAt(origins, g, r);
        FlattenAt(rows, g, r);
        assert FlatIndex(rows, g, r) == FlatIndex(origins, g, r);
      }
    }
  }

  // ---------------------------------------------------------------------------------------------
  // The algorithm
  // ---------------------------------------------------------------------------------------------

  datatype RuleIndex = RuleIndex(groupIdx: nat, ruleIdx: nat)

  /** The recorded positions are those, in order, of the rules among the first n that ask for an origin again. */
  ghost predicate DuplicatesAmong<T(!new)>(derived: seq<T>, n: nat, flat: seq<nat>) {
    && n <= |derived|
    && (forall t | 0 <= t < |flat| :: flat[t] < n)
    && (forall t, u | 0 <= t < u < |flat| :: flat[t] < flat[u])
    && (forall i | 0 <= i < n :: IsFirst(derived, i) <==> i !in flat)
  }

  ghost predicate Locate(rows: seq<seq<string>>, duplicates: seq<RuleIndex>, flat: seq<nat>) {
    && |duplicates| == |flat|
    && forall t | 0 <= t < |flat| ::
      && duplicates[t].groupIdx < |rows|
      && duplicates[t].ruleIdx < |rows[duplicates[t].groupIdx]|
      && flat[t] == FlatIndex(rows, duplicates[t].groupIdx, duplicates[t].ruleIdx)
  }

  /** The first t duplicates are settled once all rules before this bound are. */
  ghost function Bound<T>(derived: seq<T>, flat: seq<nat>, t: nat): nat {
    if t < |flat| then flat[t] else |derived|
  }

  ghost predicate FirstPass<T(!new)>(derived: seq<T>, n: nat, producedOrigins: map<T, nat>, flat: seq<nat>) {
    && DuplicatesAmong(derived, n, flat)
    && (forall origin :: origin in producedOrigins <==> origin in derived[..n])
    && forall origin | origin in producedOrigins :: producedOrigins[origin] == 1
  }

  lemma RecordNext<T(!new)>(derived: seq<T>, n: nat, producedOrigins: map<T, nat>, flat: seq<nat>, origin: T)
    requires n < |derived| && FirstPass(derived, n, producedOrigins, flat) && derived[n] == origin
    ensures if origin in producedOrigins then FirstPass(derived, n + 1, producedOrigins, flat + [n])
            else FirstPass(derived, n + 1, producedOrigins[origin := 1], flat)
  {
    RecordDuplicate(derived, n, flat);
    assert derived[..n + 1] == derived[..n] + [origin];
    hide DuplicatesAmong;
  }

  lemma RecordDuplicate<T(!new)>(derived: seq<T>, n: nat, flat: seq<nat>)
    requires n < |derived| && DuplicatesAmong(derived, n, flat)
    ensures DuplicatesAmong(derived, n + 1, if IsFirst(derived, n) then flat else flat + [n])
  {
    assert n !in flat;
    assert forall i :: i in flat + [n] <==> i in flat || i == n;
  }

  lemma NoDuplicateBefore<T(!new)>(derived: seq<T>, flat: seq<nat>, t: nat)
    requires DuplicatesAmong(derived, |derived|, flat)
    requires t <= |flat|
    ensures (if t == 0 then 0 else flat[t - 1] + 1) <= Bound(derived, flat, t) <= |derived|
    ensures forall i | (if t == 0 then 0 else flat[t - 1] + 1) <= i < Bound(derived, flat, t) :: IsFirst(derived, i)
  {
    forall i | (if t == 0 then 0 else flat[t - 1] + 1) <= i < Bound(derived, flat, t)
      ensures i !in flat
    {
      forall u | 0 <= u < |flat|
        ensures flat[u] != i
      {
        if t > 0 && u < t - 1 {
          assert flat[u] < flat[t - 1];
        } else if t < u {
          assert flat[t] < flat[u];
        }
      }
    }
  }

  /** Every suffix below the counter of an origin is taken. */
  ghost predicate CountersSkipOnlyTaken(producedOrigins: map<string, nat>) {
    forall origin | origin in producedOrigins ::
      && producedOrigins[origin] >= 1
      && forall j | 1 <= j < producedOrigins[origin] :: Candidate(origin, j) in producedOrigins
  }

  /** Advancing a counter past a suffix that is taken, or taken now, keeps the meaning of the counters. */
  lemma AdvanceCounter(before: map<string, nat>, origin: string, after: map<string, nat>)
    requires CountersSkipOnlyTaken(before) && origin in before
    requires var candidate := Candidate(origin, before[origin]);
      var advanced := before[origin := before[origin] + 1];
      after == if candidate in before then advanced else advanced[candidate := 1]
    ensures CountersSkipOnlyTaken(after)
    ensures after.Keys == before.Keys + {Candidate(origin, before[origin])}
  {
    var candidate := Candidate(origin, before[origin]);
    assert candidate in after;
    forall o | o in after
      ensures after[o] >= 1
      ensures forall j | 1 <= j < after[o] :: Candidate(o, j) in after
    {
      if o == origin {
        assert |candidate| != |origin|;
      }
    }
  }

  ghost predicate SecondPass(rows: seq<seq<string>>, origins: seq<seq<string>>, bound: nat,
                             producedOrigins: map<string, nat>) {
    && SameShape(rows, origins)
    && SettledUpTo(Flatten(rows), Flatten(origins), bound)
    && producedOrigins.Keys == Taken(Flatten(rows), bound)
    && CountersSkipOnlyTaken(producedOrigins)
  }

  lemma FirstIsSettled(derived: seq<string>, i: nat)
    requires i < |derived| && IsFirst(derived, i)
    ensures Settle(derived, i + 1) == Settle(derived, i) + [derived[i]]
    ensures Elements(derived) + Elements(Settle(derived, i + 1)) == Elements(derived) + Elements(Settle(derived, i))
  {
    var before := Settle(derived, i);
    hide LeastFree;
    assert Settle(derived, i + 1) == before + [derived[i]];
    assert derived[i] in Elements(derived);
    ElementsOfAppend(before, derived[i]);
  }

  /** Rules that are the first to ask for their origin need no second pass. */
  lemma {:induction false} FirstsAreSettled(derived: seq<string>, a: nat, b: nat)
    requires a <= b <= |derived|
    requires forall i | a <= i < b :: IsFirst(derived, i)
    ensures forall i | 0 <= i < b :: Settle(derived, b)[i] == if i < a then Settle(derived, a)[i] else derived[i]
    ensures Elements(derived) + Elements(Settle(derived, b)) == Elements(derived) + Elements(Settle(derived, a))
  {
    hide Settle, Elements;
    if a < b {
      FirstsAreSettled(derived, a, b - 1);
      FirstIsSettled(derived, b - 1);
    }
  }

  /** All rules below the bound have their settled origin, the others still have the one they ask for. */
  ghost predicate SettledUpTo(derived: seq<string>, origins: seq<string>, bound: nat) {
    && bound <= |derived| == |origins|
    && forall i | 0 <= i < |derived| :: origins[i] == if i < bound then Settle(derived, bound)[i] else derived[i]
  }

  ghost function Taken(derived: seq<string>, bound: nat): set<string>
    requires bound <= |derived|
  {
    Elements(derived) + Elements(Settle(derived, bound))
  }

  ghost predicate LeastFreeIs(base: string, taken: set<string>, k: nat) {
    && k >= 1
    && Candidate(base, k) !in taken
    && forall j | 1 <= j < k :: Candidate(base, j) in taken
  }

  lemma SettleDuplicate(derived: seq<string>, i: nat, k: nat)
    requires i < |derived| && !IsFirst(derived, i)
    requires LeastFreeIs(derived[i], Taken(derived, i), k)
    ensures Settle(derived, i + 1) == Settle(derived, i) + [Candidate(derived[i], k)]
  {
    var free := LeastFree(derived[i], Taken(derived, i), 1);
    assert free == k by {
      assert Candidate(derived[i], free) !in Taken(derived, i);
    }
  }

  /** Settling the duplicate at position i settles everything up to the next duplicate. */
  lemma SecondPassStep(derived: seq<string>, origins: seq<string>, i: nat, origin: string, bound: nat)
    requires i < bound <= |derived|
    requires forall j | i < j < bound :: IsFirst(derived, j)
    requires SettledUpTo(derived, origins, i)
    requires Settle(derived, i + 1) == Settle(derived, i) + [origin]
    ensures SettledUpTo(derived, origins[i := origin], bound)
    ensures Taken(derived, bound) == Taken(derived, i) + {origin}
  {
    hide Settle, Elements, IsFirst;
    var now, next := Settle(derived, i), Settle(derived, i + 1);
    ElementsOfAppend(now, origin);
    FirstsAreSettled(derived, i + 1, bound);
    var origins' := origins[i := origin];
    forall j | 0 <= j < |derived|
      ensures origins'[j] == if j < bound then Settle(derived, bound)[j] else derived[j]
    {
      if j < i {
        assert origins'[j] == origins[j] == now[j] == next[j];
      } else if j == i {
        assert origins'[j] == next[i];
      }
    }
  }

  /** The same step on the nested origins, at the t-th recorded duplicate. */
  lemma SettleDuplicateAt(rows: seq<seq<string>>, origins: seq<seq<string>>, duplicates: seq<RuleIndex>, flat: seq<nat>,
                          t: nat, k: nat)
    requires DuplicatesAmong(Flatten(rows), |Flatten(rows)|, flat) && Locate(rows, duplicates, flat)
    requires t < |flat| && SameShape(rows, origins) && SettledUpTo(Flatten(rows), Flatten(origins), flat[t])
    requires LeastFreeIs(Flatten(rows)[flat[t]], Taken(Flatten(rows), flat[t]), k)
    ensures var at, candidate := duplicates[t], Candidate(Flatten(rows)[flat[t]], k);
      var origins' := origins[at.groupIdx := origins[at.groupIdx][at.ruleIdx := candidate]];
      && Bound(Flatten(rows), flat, t + 1) <= |Flatten(rows)|
      && SameShape(rows, origins')
      && SettledUpTo(Flatten(rows), Flatten(origins'), Bound(Flatten(rows), flat, t + 1))
      && Taken(Flatten(rows), Bound(Flatten(rows), flat, t + 1)) == Taken(Flatten(rows), flat[t]) + {candidate}
  {
    var derived, at := Flatten(rows), duplicates[t];
    assert flat[t] in flat;
    NoDuplicateBefore(derived, flat, t + 1);
    SettleDuplicate(derived, flat[t], k);
    SecondPassStep(derived, Flatten(origins), flat[t], Candidate(derived[flat[t]], k), Bound(derived, flat, t + 1));
    SameShapeSameIndex(rows, origins);
    FlattenUpdate(origins, at.groupIdx, at.ruleIdx, Candidate(derived[flat[t]], k));
  }

  lemma DuplicateAt(rows: seq<seq<string>>, origins: seq<seq<string>>, duplicates: seq<RuleIndex>, flat: seq<nat>,
                    t: nat)
    requires Locate(rows, duplicates, flat) && SameShape(rows, origins)
    requires t < |flat| && flat[t] < |Flatten(rows)| && SettledUpTo(Flatten(rows), Flatten(origins), flat[t])
    ensures origins[duplicates[t].groupIdx][duplicates[t].ruleIdx] == Flatten(rows)[flat[t]]
  {
    SameShapeSameIndex(rows, origins);
    FlattenAt(origins, duplicates[t].groupIdx, duplicates[t].ruleIdx);
  }

  /** Settles the origins in two passes, with one counter per produced origin. */
  method RenderRuleOrigins(prefix: string, groups: seq<RuleGroup>) returns (origins: seq<seq<string>>)
    ensures origins == SettledOrigins(prefix, groups)
  {
    var producedOrigins, duplicates;
    ghost var flat;
    origins, producedOrigins, duplicates, flat := DeriveOrigins(prefix, groups);
    origins, producedOrigins := SettleDuplicates(origins, producedOrigins, duplicates, flat);
    RowsFromFlat(prefix, groups, origins);
  }

  /** What the first pass does for one rule. */
  lemma RecordRule(prefix: string, groups: seq<RuleGroup>, groupIdx: nat, ruleIdx: nat,
                   producedOrigins: map<string, nat>, duplicates: seq<RuleIndex>, flat: seq<nat>)
    requires groupIdx < |groups| && ruleIdx < |groups[groupIdx].rules|
    requires var rows := DerivedOrigins(prefix, groups);
      var n := |Flatten(rows[..groupIdx])| + ruleIdx;
      n <= |Flatten(rows)| && FirstPass(Flatten(rows), n, producedOrigins, flat) && Locate(rows, duplicates, flat)
    ensures var rows := DerivedOrigins(prefix, groups);
      var origin := RuleOrigin(prefix, groups[groupIdx].name, groups[groupIdx].rules[ruleIdx].Name());
      var n := |Flatten(rows[..groupIdx])| + ruleIdx;
      && n < |Flatten(rows)|
      && rows[groupIdx][..ruleIdx + 1] == rows[groupIdx][..ruleIdx] + [origin]
      && if origin in producedOrigins then
           && FirstPass(Flatten(rows), n + 1, producedOrigins, flat + [n])
           && Locate(rows, duplicates + [RuleIndex(groupIdx, ruleIdx)], flat + [n])
         else
           FirstPass(Flatten(rows), n + 1, producedOrigins[origin := 1], flat)
  {
    hide FirstPass, Flatten, DerivedOrigins, RuleOrigin;
    var rows := DerivedOrigins(prefix, groups);
    var origin := rows[groupIdx][ruleIdx];
    FlattenAt(rows, groupIdx, ruleIdx);
    TakeOneMore(rows[groupIdx], ruleIdx);
    RecordNext(Flatten(rows), FlatIndex(rows, groupIdx, ruleIdx), producedOrigins, flat, origin);
  }

  /** First pass: every rule gets the origin it asks for, and the rules that ask for one again are recorded. */
  method DeriveOrigins(prefix: string, groups: seq<RuleGroup>)
    returns (origins: seq<seq<string>>, producedOrigins: map<string, nat>, duplicates: seq<RuleIndex>,
             ghost flat: seq<nat>)
    ensures origins == DerivedOrigins(prefix, groups)
    ensures FirstPass(Flatten(origins), |Flatten(origins)|, producedOrigins, flat)
    ensures Locate(origins, duplicates, flat)
  {
    ghost var rows := DerivedOrigins(prefix, groups);
    ghost var derived := Flatten(rows);
    origins, producedOrigins, duplicates, flat := [], map[], [], [];
    assert FirstPass(derived, 0, producedOrigins, flat) && Locate(rows, duplicates, flat);
    assert Flatten(rows[..0]) == [];
    hide FirstPass, Locate, Flatten, DerivedOrigins;
    for groupIdx := 0 to |groups|
      invariant origins == rows[..groupIdx] && |Flatten(origins)| <= |derived|
      invariant FirstPass(derived, |Flatten(origins)|, producedOrigins, flat) && Locate(rows, duplicates, flat)
    {
      var row;
      row, producedOrigins, duplicates, flat :=
        DeriveRow(prefix, groups, groupIdx, producedOrigins, duplicates, flat, rows, |Flatten(origins)|);
      FlattenNext(rows, groupIdx);
      TakeOneMore(rows, groupIdx);
      origins := origins + [row];
    }
    assert rows[..|groups|] == rows;
  }

  method DeriveRow(prefix: string, groups: seq<RuleGroup>, groupIdx: nat,
                   producedOriginsBefore: map<string, nat>, duplicatesBefore: seq<RuleIndex>,
                   ghost flatBefore: seq<nat>, ghost rows: seq<seq<string>>, ghost start: nat)
    returns (row: seq<string>, producedOrigins: map<string, nat>, duplicates: seq<RuleIndex>, ghost flat: seq<nat>)
    requires groupIdx < |groups| && rows == DerivedOrigins(prefix, groups)
    requires start == |Flatten(rows[..groupIdx])| <= |Flatten(rows)|
    requires FirstPass(Flatten(rows), start, producedOriginsBefore, flatBefore)
    requires Locate(rows, duplicatesBefore, flatBefore)
    ensures row == rows[groupIdx] && start + |row| <= |Flatten(rows)|
    ensures FirstPass(Flatten(rows), start + |row|, producedOrigins, flat) && Locate(rows, duplicates, flat)
  {
    hide *;
    var group := groups[groupIdx];
    row, producedOrigins, duplicates, flat := [], producedOriginsBefore, duplicatesBefore, flatBefore;
    for ruleIdx := 0 to |group.rules|
      invariant row == rows[groupIdx][..ruleIdx] && start + ruleIdx <= |Flatten(rows)|
      invariant FirstPass(Flatten(rows), start + ruleIdx, producedOrigins, flat) && Locate(rows, duplicates, flat)
    {
      var origin := RuleOrigin(prefix, group.name, group.rules[ruleIdx].Name());
      RecordRule(prefix, groups, groupIdx, ruleIdx, producedOrigins, duplicates, flat);
      row := row + [origin];
      if origin in producedOrigins {
        duplicates := duplicates + [RuleIndex(groupIdx, ruleIdx)];
        flat := flat + [start + ruleIdx];
      } else {
        producedOrigins := producedOrigins[origin := 1];
      }
    }
    assert row == rows[groupIdx];
  }

  /** The inner search of the second pass: there is no bound on the number of attempts other than the number of taken
      origins that are suffixed forms of this one. */
  method TakeFreeSuffix(origin: string, producedOrigins: map<string, nat>)
    returns (candidate: string, producedOrigins': map<string, nat>, ghost k: nat)
    requires CountersSkipOnlyTaken(producedOrigins) && origin in producedOrigins
    ensures LeastFreeIs(origin, producedOrigins.Keys, k)
    ensures candidate == Candidate(origin, k)
    ensures producedOrigins'.Keys == producedOrigins.Keys + {candidate}
    ensures CountersSkipOnlyTaken(producedOrigins')
  {
    ghost var taken := producedOrigins.Keys;
    producedOrigins' := producedOrigins;
    while true
      invariant producedOrigins'.Keys == taken
      invariant CountersSkipOnlyTaken(producedOrigins')
      decreases |TakenFrom(origin, taken, producedOrigins'[origin])|
    {
      ghost var before := producedOrigins';
      var duplicationIndex := producedOrigins'[origin];
      producedOrigins' := producedOrigins'[origin := duplicationIndex + 1];
      candidate := Candidate(origin, duplicationIndex);
      k := duplicationIndex;
      if candidate !in producedOrigins' {
        producedOrigins' := producedOrigins'[candidate := 1];
        AdvanceCounter(before, origin, producedOrigins');
        break;
      }
      AdvanceCounter(before, origin, producedOrigins');
      SkippingOneShrinks(origin, taken, duplicationIndex);
    }
  }

  /** Second pass: every recorded rule gets the first suffix, counted per origin, that has not been taken. */
  method SettleDuplicates(rows: seq<seq<string>>, firstPassOrigins: map<string, nat>, duplicates: seq<RuleIndex>,
                          ghost flat: seq<nat>)
    returns (origins: seq<seq<string>>, producedOrigins: map<string, nat>)
    requires FirstPass(Flatten(rows), |Flatten(rows)|, firstPassOrigins, flat)
    requires Locate(rows, duplicates, flat)
    ensures SameShape(rows, origins)
    ensures Flatten(origins) == Settled(Flatten(rows))
    ensures producedOrigins.Keys == Elements(Flatten(origins))
  {
    ghost var derived := Flatten(rows);
    origins := rows;
    producedOrigins := firstPassOrigins;
    assert derived[..|derived|] == derived;
    NoDuplicateBefore(derived, flat, 0);
    FirstsAreSettled(derived, 0, Bound(derived, flat, 0));

    for t := 0 to |duplicates|
      invariant SecondPass(rows, origins, Bound(derived, flat, t), producedOrigins)
    {
      var duplicate := duplicates[t];
      var origin := origins[duplicate.groupIdx][duplicate.ruleIdx];
      DuplicateAt(rows, origins, duplicates, flat, t);
      var candidate;
      ghost var k;
      candidate, producedOrigins, k := TakeFreeSuffix(origin, producedOrigins);
      SettleDuplicateAt(rows, origins, duplicates, flat, t, k);
      origins := origins[duplicate.groupIdx := origins[duplicate.groupIdx][duplicate.ruleIdx := candidate]];
    }
    EveryDerivedOriginIsSettled(derived);
  }
}
