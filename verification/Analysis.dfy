/** Analysis of a batch of work items: a template for the largest group of alike items, the
    model's findings for the rest, and the compilation of both into payloads. */
module Analysis {
  import opened Actions
  import opened Distinctness
  import opened Wrappers

  datatype Operation = Create | Update | Delete | Retain | Skip

  datatype Kind =
    | TargetExtra | TargetDuplicate | TargetMissing | FieldDifference | AuthorityInvalid | IdentityConflict
    | NotActionable

  /** Which operations may answer a finding of each kind. */
  predicate OperationAllowed(kind: Kind, op: Operation) {
    match kind
    case TargetExtra => op == Delete
    case TargetDuplicate => op == Delete || op == Retain
    case TargetMissing => op == Create || op == Retain
    case FieldDifference => op == Update || op == Retain
    case AuthorityInvalid => op == Skip
    case IdentityConflict => op == Update || op == Delete || op == Retain
    case NotActionable => false
  }

  /** Read by operation: what may be created is missing from the target; deleted, extra, a duplicate or
      in conflict; updated, different or in conflict; kept, anything of these but an extra record; and
      skipped, an invalid authority record.  Nothing answers a finding that is not actionable. */
  lemma OperationAnswersKind(kind: Kind, op: Operation)
    ensures OperationAllowed(kind, op) <==>
      match op
      case Create => kind == TargetMissing
      case Update => kind == FieldDifference || kind == IdentityConflict
      case Delete => kind == TargetExtra || kind == TargetDuplicate || kind == IdentityConflict
      case Retain => kind == TargetDuplicate || kind == TargetMissing || kind == FieldDifference || kind == IdentityConflict
      case Skip => kind == AuthorityInvalid
  {
  }

  datatype Field = Category | Name | Number | ClassName | Phone | Email

  datatype Record = Record(inputRef: Option<nat>, fields: set<Field>)

  datatype Evidence = Evidence(
    workItem: nat, entity: nat, kind: Kind, ref: nat, refs: seq<nat>, fieldDifferences: bool,
    candidateConflicts: bool, authorityClaim: bool, authority: Option<Record>, target: Option<Record>,
    keyHits: seq<nat>, candidates: seq<nat>, operations: seq<Operation>)

  datatype WorkItem = WorkItem(id: nat, entity: nat, candidateRefs: seq<nat>, evidence: Evidence)

  datatype Profile = Profile(
    entity: nat, disposition: Kind, operations: seq<Operation>, authorityPresent: bool, targetPresent: bool,
    fields: set<Field>, noCandidate: bool)

  // ----- Profiles -----

  predicate PlainEvidence(item: WorkItem) {
    var e := item.evidence;
    && e.workItem == item.id && e.entity == item.entity
    && (e.kind == TargetExtra || e.kind == TargetMissing)
    && !e.fieldDifferences && !e.candidateConflicts && !e.authorityClaim && e.ref in item.candidateRefs
  }

  predicate PlainExtra(e: Evidence) {
    e.target.Some? && e.authority.None? && e.keyHits == [] && e.candidates == [] && e.operations == [Delete]
  }

  predicate PlainMissing(e: Evidence) {
    && e.authority.Some? && e.target.None? && ToSet(e.operations) == {Create, Retain}
    && e.authority.value.inputRef.Some?
    && (forall c :: c in e.candidates ==> Some(c) == e.authority.value.inputRef)
    && (forall h :: h in e.keyHits ==> Some(h) == e.authority.value.inputRef)
  }

  function ProfileOf(item: WorkItem): Option<Profile> {
    var e := item.evidence;
    if !PlainEvidence(item) then None
    else if e.kind == TargetExtra then
      if PlainExtra(e) then Some(Profile(e.entity, e.kind, e.operations, false, true, e.target.value.fields, true))
      else None
    else if PlainMissing(e) then
      Some(Profile(e.entity, e.kind, e.operations, true, false, e.authority.value.fields, false))
    else None
  }

  // ----- The split of a batch -----

  /** Canonical encodings of profiles: different profiles have different, comparable keys. */
  ghost predicate Injective(key: Profile -> nat) {
    forall p, q :: key(p) == key(q) ==> p == q
  }

  predicate HasKey(key: Profile -> nat, item: WorkItem, k: nat) {
    ProfileOf(item).Some? && key(ProfileOf(item).value) == k
  }

  function Group(key: Profile -> nat, items: seq<WorkItem>, k: nat): (r: seq<WorkItem>)
    ensures forall x :: x in r <==> x in items && HasKey(key, x, k)
    ensures |r| <= |items|
  {
    if items == [] then []
    else
      var last := items[|items|-1];
      Group(key, items[..|items|-1], k) + if HasKey(key, last, k) then [last] else []
  }

  function Others(key: Profile -> nat, items: seq<WorkItem>, k: nat): (r: seq<WorkItem>)
    ensures forall x :: x in r <==> x in items && !HasKey(key, x, k)
  {
    if items == [] then []
    else
      var last := items[|items|-1];
      Others(key, items[..|items|-1], k) + if HasKey(key, last, k) then [] else [last]
  }

  function WithIds(items: seq<WorkItem>, ids: set<nat>): (r: seq<WorkItem>)
    ensures forall x :: x in r <==> x in items && x.id in ids
  {
    if items == [] then []
    else
      var last := items[|items|-1];
      WithIds(items[..|items|-1], ids) + if last.id in ids then [last] else []
  }

  ghost predicate UniqueIds(items: seq<WorkItem>) {
    forall i, j :: 0 <= i < j < |items| ==> items[i].id != items[j].id
  }

  /** `k` is the key of a largest group, the smallest such key. */
  ghost predicate Best(key: Profile -> nat, items: seq<WorkItem>, k: nat) {
    && Group(key, items, k) != []
    && forall other :: other != k && Group(key, items, other) != [] ==>
         |Group(key, items, k)| > |Group(key, items, other)| ||
         (|Group(key, items, k)| == |Group(key, items, other)| && k < other)
  }

  datatype Split = Split(profile: Option<Profile>, chosen: seq<WorkItem>, fallback: seq<WorkItem>)

  ghost predicate SplitOf(key: Profile -> nat, items: seq<WorkItem>, s: Split) {
    match s.profile
    case None => s.chosen == [] && s.fallback == items && forall x :: x in items ==> ProfileOf(x).None?
    case Some(p) =>
      Best(key, items, key(p)) && s.chosen == Group(key, items, key(p)) &&
      s.fallback == WithIds(items, IdsOutside(key, items, key(p))) &&
      forall x :: x in s.chosen ==> ProfileOf(x) == Some(p)
  }

  function IdsOutside(key: Profile -> nat, items: seq<WorkItem>, k: nat): set<nat> {
    set x | x in items && !HasKey(key, x, k) :: x.id
  }

  /** An item whose evidence leaves nothing to judge: it is about this item, shows no differences,
      conflicts or claims, and the record is on one side only, with no other record in sight. */
  ghost predicate NothingToJudge(x: WorkItem) {
    var e := x.evidence;
    && e.workItem == x.id && e.entity == x.entity && e.ref in x.candidateRefs
    && !(e.fieldDifferences || e.candidateConflicts || e.authorityClaim)
    && match e.kind
       case TargetExtra =>
         e.authority == None && e.target != None && |e.keyHits| + |e.candidates| == 0 && e.operations == [Delete]
       case TargetMissing =>
         && e.target == None && e.authority != None && e.authority.value.inputRef != None
         && (forall r :: r in e.candidates + e.keyHits ==> r == e.authority.value.inputRef.value)
         && (forall op :: op in e.operations <==> op == Create || op == Retain)
       case _ => false
  }

  /** The items of the template group leave nothing to judge and are alike in kind, entity, operations
      and the fields of their record; and without a group no item of the batch is such an item. */
  lemma TemplateGroupIsAlike(key: Profile -> nat, items: seq<WorkItem>, s: Split, x: WorkItem, y: WorkItem)
    requires SplitOf(key, items, s)
    ensures x in s.chosen ==> NothingToJudge(x)
    ensures x in s.chosen && y in s.chosen ==>
      && x.evidence.kind == y.evidence.kind && x.entity == y.entity && x.evidence.operations == y.evidence.operations
      && (x.evidence.target.Some? <==> y.evidence.target.Some?) && (x.evidence.authority.Some? <==> y.evidence.authority.Some?)
      && (x.evidence.target.Some? ==> x.evidence.target.value.fields == y.evidence.target.value.fields)
      && (x.evidence.authority.Some? ==> x.evidence.authority.value.fields == y.evidence.authority.value.fields)
    ensures s.profile.None? && x in items ==> !NothingToJudge(x)
    ensures s.profile.Some? && x in s.chosen ==>
      s.profile.value.disposition == x.evidence.kind && s.profile.value.operations == x.evidence.operations
  {
    PlainIff(x);
    PlainIff(y);
    hide PlainEvidence, PlainExtra, PlainMissing, NothingToJudge;
  }

  lemma PlainIff(x: WorkItem)
    ensures ProfileOf(x).Some? <==> NothingToJudge(x)
    ensures ProfileOf(x).Some? ==> AppliesTo(ProfileOf(x).value, x)
  {
    var e := x.evidence;
    if e.kind == TargetMissing && e.authority.Some? {
      assert forall r :: r in e.candidates + e.keyHits <==> r in e.candidates || r in e.keyHits;
      assert forall op :: op in e.operations <==> op in ToSet(e.operations);
      if forall op :: op in e.operations <==> op == Create || op == Retain {
        assert ToSet(e.operations) == {Create, Retain};
      }
    }
  }

  /** What a profile records of an item. */
  ghost predicate AppliesTo(p: Profile, x: WorkItem) {
    var e := x.evidence;
    && p.entity == x.entity && p.disposition == e.kind && p.operations == e.operations
    && p.authorityPresent == e.authority.Some? && p.targetPresent == e.target.Some? && p.noCandidate == e.target.Some?
    && (e.target.Some? ==> p.fields == e.target.value.fields)
    && (e.authority.Some? ==> p.fields == e.authority.value.fields)
  }

  lemma {:induction false} FallbackById(key: Profile -> nat, items: seq<WorkItem>, all: seq<WorkItem>, k: nat)
    requires UniqueIds(all) && forall x :: x in items ==> x in all
    ensures WithIds(items, IdsOutside(key, all, k)) == Others(key, items, k)
  {
    hide HasKey;
    if items != [] {
      var last := items[|items|-1];
      FallbackById(key, items[..|items|-1], all, k);
      assert last in items && last in all;
      if last.id in IdsOutside(key, all, k) {
        var x :| x in all && x.id == last.id && !HasKey(key, x, k);
        SameId(all, x, last);
      }
    }
  }

  lemma SameId(items: seq<WorkItem>, x: WorkItem, y: WorkItem)
    requires UniqueIds(items) && x in items && y in items && x.id == y.id
    ensures x == y
  {
  }

  lemma GroupGrows(key: Profile -> nat, items: seq<WorkItem>, i: nat, k: nat)
    requires i < |items|
    ensures Group(key, items[..i+1], k) ==
      Group(key, items[..i], k) + if HasKey(key, items[i], k) then [items[i]] else []
  {
    assert items[..i+1][..i] == items[..i];
  }

  /** The groups found among `items`, by profile key. */
  ghost predicate Groups(key: Profile -> nat, items: seq<WorkItem>, grouped: map<nat, (Profile, seq<WorkItem>)>) {
    && (forall k :: k in grouped ==> key(grouped[k].0) == k && grouped[k].1 == Group(key, items, k))
    && (forall k :: k in grouped <==> Group(key, items, k) != [])
  }

  /** The entry of key `k` after one more item. */
  function Entry(grouped: map<nat, (Profile, seq<WorkItem>)>, k: nat, p: Profile, item: WorkItem): (Profile, seq<WorkItem>) {
    if k in grouped then (grouped[k].0, grouped[k].1 + [item]) else (p, [item])
  }

  lemma GroupsGrow(key: Profile -> nat, items: seq<WorkItem>, i: nat, grouped: map<nat, (Profile, seq<WorkItem>)>)
    requires i < |items| && Groups(key, items[..i], grouped)
    ensures ProfileOf(items[i]).None? ==> Groups(key, items[..i+1], grouped)
    ensures ProfileOf(items[i]).Some? ==>
      var p := ProfileOf(items[i]).value;
      Groups(key, items[..i+1], grouped[key(p) := Entry(grouped, key(p), p, items[i])])
  {
    forall k: nat ensures Group(key, items[..i+1], k) ==
      Group(key, items[..i], k) + if HasKey(key, items[i], k) then [items[i]] else []
    {
      GroupGrows(key, items, i, k);
    }
    hide ProfileOf, Group, Groups;
    if ProfileOf(items[i]).Some? {
      var p := ProfileOf(items[i]).value;
      forall k: nat ensures Group(key, items[..i+1], k) ==
        if k == key(p) then Group(key, items[..i], k) + [items[i]] else Group(key, items[..i], k)
      {
      }
      OneGroupGrows(key, items[..i], items[..i+1], grouped, p, items[i]);
    } else {
      forall k: nat ensures Group(key, items[..i+1], k) == Group(key, items[..i], k) {
      }
      SameGroups(key, items[..i], items[..i+1], grouped);
    }
  }

  lemma SameGroups(key: Profile -> nat, s: seq<WorkItem>, t: seq<WorkItem>, grouped: map<nat, (Profile, seq<WorkItem>)>)
    requires Groups(key, s, grouped) && forall k: nat :: Group(key, t, k) == Group(key, s, k)
    ensures Groups(key, t, grouped)
  {
  }

  lemma OneGroupGrows(key: Profile -> nat, s: seq<WorkItem>, t: seq<WorkItem>,
                      grouped: map<nat, (Profile, seq<WorkItem>)>, p: Profile, item: WorkItem)
    requires Groups(key, s, grouped)
    requires forall k: nat :: Group(key, t, k) == if k == key(p) then Group(key, s, k) + [item] else Group(key, s, k)
    ensures Groups(key, t, grouped[key(p) := Entry(grouped, key(p), p, item)])
  {
  }

  method GroupByProfile(key: Profile -> nat, items: seq<WorkItem>)
      returns (grouped: map<nat, (Profile, seq<WorkItem>)>, order: seq<nat>, ineligible: seq<WorkItem>)
    ensures Groups(key, items, grouped)
    ensures forall k :: k in order <==> k in grouped
    ensures forall x :: x in ineligible <==> x in items && ProfileOf(x).None?
  {
    hide ProfileOf, Groups;
    grouped, order, ineligible := map[], [], [];
    assert Groups(key, items[..0], grouped) by {
      EmptyGroups(key);
    }
    for i := 0 to |items|
      invariant Groups(key, items[..i], grouped)
      invariant forall k :: k in order <==> k in grouped
      invariant forall x :: x in ineligible <==> x in items[..i] && ProfileOf(x).None?
    {
      var item := items[i];
      var profile := ProfileOf(item);
      GroupsGrow(key, items, i, grouped);
      assert items[..i+1] == items[..i] + [item];
      if profile.None? {
        ineligible := ineligible + [item];
      } else {
        var k := key(profile.value);
        if k !in grouped {
          order := order + [k];
        }
        grouped := grouped[k := Entry(grouped, k, profile.value, item)];
      }
    }
    assert items[..|items|] == items;
  }

  lemma EmptyGroups(key: Profile -> nat)
    ensures Groups(key, [], map[])
  {
  }

  method ChooseKey(grouped: map<nat, (Profile, seq<WorkItem>)>, order: seq<nat>) returns (best: nat)
    requires order != [] && forall k :: k in order <==> k in grouped
    ensures best in grouped
    ensures forall k :: k in grouped && k != best ==>
      |grouped[best].1| > |grouped[k].1| || (|grouped[best].1| == |grouped[k].1| && best < k)
  {
    best := order[0];
    for i := 1 to |order|
      invariant best in grouped
      invariant forall j :: 0 <= j < i && order[j] != best ==>
        |grouped[best].1| > |grouped[order[j]].1| || (|grouped[best].1| == |grouped[order[j]].1| && best < order[j])
    {
      var k := order[i];
      if |grouped[k].1| > |grouped[best].1| || (|grouped[k].1| == |grouped[best].1| && k < best) {
        best := k;
      }
    }
  }

  /** Groups the items by profile key, takes the smallest key among the largest groups, and leaves
      the other items, in order, to the fallback. */
  method PartitionTemplateWork(key: Profile -> nat, items: seq<WorkItem>) returns (s: Split)
    requires Injective(key)
    ensures SplitOf(key, items, s)
  {
    hide PlainEvidence, PlainExtra, PlainMissing, Group, Others, WithIds;
    var grouped, order, ineligible := GroupByProfile(key, items);
    if order == [] {
      NoGroups(key, items, grouped);
      return Split(None, [], items);
    }
    var best := ChooseKey(grouped, order);
    var ids := set k, x | k in grouped && k != best && x in grouped[k].1 :: x.id;
    ids := ids + set x | x in ineligible :: x.id;
    FallbackIds(key, items, grouped, ineligible, best, ids);
    return Split(Some(grouped[best].0), grouped[best].1, WithIds(items, ids));
  }

  lemma NoGroups(key: Profile -> nat, items: seq<WorkItem>, grouped: map<nat, (Profile, seq<WorkItem>)>)
    requires Groups(key, items, grouped) && forall k :: k !in grouped
    ensures forall x :: x in items ==> ProfileOf(x).None?
  {
    forall x | x in items ensures ProfileOf(x).None? {
      GroupIsFound(key, items, x);
    }
  }

  lemma GroupIsFound(key: Profile -> nat, items: seq<WorkItem>, x: WorkItem)
    requires x in items
    ensures ProfileOf(x).Some? ==> Group(key, items, key(ProfileOf(x).value)) != []
  {
  }

  lemma FallbackIds(key: Profile -> nat, items: seq<WorkItem>, grouped: map<nat, (Profile, seq<WorkItem>)>,
                    ineligible: seq<WorkItem>, best: nat, ids: set<nat>)
    requires Groups(key, items, grouped)
    requires forall x :: x in ineligible <==> x in items && ProfileOf(x).None?
    requires ids == (set k, x | k in grouped && k != best && x in grouped[k].1 :: x.id) + (set x | x in ineligible :: x.id)
    ensures ids == IdsOutside(key, items, best)
  {
    forall x | x in items && !HasKey(key, x, best) ensures x.id in ids {
      if ProfileOf(x).Some? {
        var k := key(ProfileOf(x).value);
        assert x in Group(key, items, k);
        assert k in grouped && x in grouped[k].1;
      }
    }
  }

  lemma {:induction false} FilterIsExact(key: Profile -> nat, items: seq<WorkItem>, k: nat)
    ensures multiset(Group(key, items, k)) + multiset(Others(key, items, k)) == multiset(items)
  {
    hide HasKey;
    if items != [] {
      var n := |items| - 1;
      FilterIsExact(key, items[..n], k);
      assert items == items[..n] + [items[n]];
    }
  }

  /** When identifiers are unique, the template group and the fallback split the batch exactly:
      together they hold every item as often as the batch does, none is in both, and both keep
      the order of the batch. */
  lemma {:induction false} SplitIsExact(key: Profile -> nat, items: seq<WorkItem>, s: Split)
    requires SplitOf(key, items, s) && UniqueIds(items)
    ensures multiset(s.chosen) + multiset(s.fallback) == multiset(items)
    ensures forall x :: x in s.chosen ==> x !in s.fallback
    ensures Subsequence(s.chosen, items) && Subsequence(s.fallback, items)
  {
    if s.profile.Some? {
      var k := key(s.profile.value);
      FallbackById(key, items, items, k);
      hide WithIds, HasKey;
      FilterIsExact(key, items, k);
      SplitKeepsOrder(key, items, k);
    } else {
      EmptySubsequence(items);
      SelfSubsequence(items);
    }
  }

  /** The two parts are disjoint if and only if no item of the group shares its identifier with
      an item outside it. */
  lemma SplitIsDisjointIff(key: Profile -> nat, items: seq<WorkItem>, s: Split)
    requires SplitOf(key, items, s) && s.profile.Some?
    ensures (forall x :: x in s.chosen ==> x !in s.fallback) <==>
      (forall x, y :: x in s.chosen && y in items && !HasKey(key, y, key(s.profile.value)) ==> x.id != y.id)
  {
  }

  /** `s` arises from `items` by leaving out members. */
  ghost predicate Subsequence(s: seq<WorkItem>, items: seq<WorkItem>)
    decreases |items|, 1
  {
    s == [] || (items != [] && (Subsequence(s, items[..|items|-1]) || EndsSubsequence(s, items)))
  }

  ghost predicate EndsSubsequence(s: seq<WorkItem>, items: seq<WorkItem>)
    requires s != [] && items != []
    decreases |items|, 0
  {
    s[|s|-1] == items[|items|-1] && Subsequence(s[..|s|-1], items[..|items|-1])
  }

  lemma SubsequenceGrows(s: seq<WorkItem>, items: seq<WorkItem>, x: WorkItem)
    requires Subsequence(s, items)
    ensures Subsequence(s, items + [x]) && Subsequence(s + [x], items + [x])
  {
  }

  /** The split keeps the order of the batch. */
  lemma {:induction false} SplitKeepsOrder(key: Profile -> nat, items: seq<WorkItem>, k: nat)
    ensures Subsequence(Group(key, items, k), items) && Subsequence(Others(key, items, k), items)
  {
    hide Subsequence, HasKey;
    if items == [] {
      EmptySubsequence(items);
    } else {
      var n := |items| - 1;
      SplitKeepsOrder(key, items[..n], k);
      SubsequenceGrows(Group(key, items[..n], k), items[..n], items[n]);
      SubsequenceGrows(Others(key, items[..n], k), items[..n], items[n]);
      assert items == items[..n] + [items[n]];
      if HasKey(key, items[n], k) {
        assert Others(key, items, k) == Others(key, items[..n], k);
      } else {
        assert Group(key, items, k) == Group(key, items[..n], k);
      }
    }
  }

  lemma EmptySubsequence(items: seq<WorkItem>)
    ensures Subsequence([], items)
  {
  }

  lemma {:induction false} SelfSubsequence(items: seq<WorkItem>)
    ensures Subsequence(items, items)
  {
    if items != [] {
      var n := |items| - 1;
      SelfSubsequence(items[..n]);
      SubsequenceGrows(items[..n], items[..n], items[n]);
      assert items == items[..n] + [items[n]];
    }
  }

  lemma {:induction false} GroupCounts(key: Profile -> nat, items: seq<WorkItem>, k: nat)
    ensures forall x :: multiset(Group(key, items, k))[x] == if HasKey(key, x, k) then multiset(items)[x] else 0
  {
    hide ProfileOf;
    if items != [] {
      var n := |items| - 1;
      GroupCounts(key, items[..n], k);
      assert items == items[..n] + [items[n]];
    }
  }

  lemma GroupSizePermutes(key: Profile -> nat, s: seq<WorkItem>, t: seq<WorkItem>, k: nat)
    requires multiset(s) == multiset(t)
    ensures |Group(key, s, k)| == |Group(key, t, k)|
  {
    hide ProfileOf, Group;
    GroupCounts(key, s, k);
    GroupCounts(key, t, k);
    assert multiset(Group(key, s, k)) == multiset(Group(key, t, k));
    assert |multiset(Group(key, s, k))| == |Group(key, s, k)| && |multiset(Group(key, t, k))| == |Group(key, t, k)|;
  }

  /** There is a template group exactly when some item has a profile. */
  lemma SplitHasProfile(key: Profile -> nat, items: seq<WorkItem>, s: Split)
    requires SplitOf(key, items, s)
    ensures s.profile.Some? <==> exists x :: x in items && ProfileOf(x).Some?
  {
    hide PlainEvidence, PlainExtra, PlainMissing;
    if s.profile.Some? {
      var x := s.chosen[0];
      assert x in s.chosen && x in items && ProfileOf(x).Some?;
    }
  }

  /** The choice does not depend on the order of the batch: two orders of the same items lead to
      the same profile. */
  lemma ChoiceIgnoresOrder(key: Profile -> nat, items: seq<WorkItem>, again: seq<WorkItem>, s: Split, t: Split)
    requires Injective(key) && multiset(items) == multiset(again)
    requires SplitOf(key, items, s) && SplitOf(key, again, t)
    ensures s.profile == t.profile
  {
    forall x ensures x in items <==> x in again {
      assert x in multiset(items) <==> x in multiset(again);
    }
    SplitHasProfile(key, items, s);
    SplitHasProfile(key, again, t);
    if s.profile.Some? && t.profile.Some? {
      var a, b := key(s.profile.value), key(t.profile.value);
      GroupSizePermutes(key, items, again, a);
      GroupSizePermutes(key, items, again, b);
    }
  }

  // ----- Payloads -----

  datatype Finding = Finding(
    id: nat, workItem: nat, disposition: Kind, operation: Operation, evidence: seq<nat>, risk: Risk,
    text: nat, dependencies: seq<nat>)

  datatype Solution = Solution(finding: nat, operation: Operation, risk: Risk, text: nat, dependencies: seq<nat>)

  datatype Payload = Payload(
    workItem: nat, kind: Kind, text: nat, evidence: seq<nat>, operation: Operation, risk: Risk,
    solutionText: nat, dependencies: seq<nat>)

  datatype Code =
    | NotActionableInput | FindingIdDuplicate | WorkItemDuplicate | WorkItemMissing | WorkItemUnexpected
    | DispositionMismatch(at: nat) | EvidenceMissing(at: nat) | EvidenceOutsideManifest(at: nat)
    | SolutionDuplicate | SolutionMissing | SolutionUnexpected
    | SolutionOperationMismatch(at: nat) | OperationInvalid(at: nat)

  function FindingIds(findings: seq<Finding>): (r: seq<nat>)
    ensures |r| == |findings| && forall i :: 0 <= i < |r| ==> r[i] == findings[i].id
  {
    seq(|findings|, i requires 0 <= i < |findings| => findings[i].id)
  }

  function WorkItems(findings: seq<Finding>): (r: seq<nat>)
    ensures |r| == |findings| && forall i :: 0 <= i < |r| ==> r[i] == findings[i].workItem
  {
    seq(|findings|, i requires 0 <= i < |findings| => findings[i].workItem)
  }

  function SolutionIds(solutions: seq<Solution>): (r: seq<nat>)
    ensures |r| == |solutions| && forall i :: 0 <= i < |r| ==> r[i] == solutions[i].finding
  {
    seq(|solutions|, i requires 0 <= i < |solutions| => solutions[i].finding)
  }

  predicate Supported(f: Finding, expected: map<nat, Kind>, manifest: set<nat>) {
    f.workItem in expected && f.disposition == expected[f.workItem] && f.evidence != [] && ToSet(f.evidence) <= manifest
  }

  /** When a batch of findings answers exactly the expected work items. */
  ghost predicate Covers(expected: map<nat, Kind>, manifest: set<nat>, findings: seq<Finding>) {
    && Distinct(FindingIds(findings)) && Distinct(WorkItems(findings))
    && ToSet(WorkItems(findings)) == expected.Keys
    && forall i :: 0 <= i < |findings| ==> Supported(findings[i], expected, manifest)
  }

  ghost predicate Actionable(expected: map<nat, Kind>) {
    expected != map[] && forall id :: id in expected ==> expected[id] != NotActionable
  }

  ghost predicate Answers(solutions: seq<Solution>, findings: seq<Finding>) {
    Distinct(SolutionIds(solutions)) && ToSet(SolutionIds(solutions)) == ToSet(FindingIds(findings))
  }

  /** The solution that names a finding. */
  function SolutionFor(solutions: seq<Solution>, id: nat): (r: Option<Solution>)
    ensures r.Some? ==> r.value in solutions && r.value.finding == id
    ensures r.None? ==> forall s :: s in solutions ==> s.finding != id
  {
    if solutions == [] then None
    else if solutions[|solutions|-1].finding == id then Some(solutions[|solutions|-1])
    else SolutionFor(solutions[..|solutions|-1], id)
  }

  predicate Settles(f: Finding, solutions: seq<Solution>) {
    var s := SolutionFor(solutions, f.id);
    s.Some? && s.value.operation == f.operation && OperationAllowed(f.disposition, s.value.operation)
  }

  function PayloadOf(f: Finding, s: Solution): Payload {
    Payload(f.workItem, f.disposition, f.text, f.evidence, s.operation, s.risk, s.text, s.dependencies)
  }

  predicate Translates(p: Payload, f: Finding, solutions: seq<Solution>) {
    var s := SolutionFor(solutions, f.id);
    s.Some? && p == PayloadOf(f, s.value)
  }

  ghost predicate SupportedBefore(i: nat, expected: map<nat, Kind>, manifest: set<nat>, findings: seq<Finding>) {
    i < |findings| && findings[i].workItem in expected &&
    forall j :: 0 <= j < i ==> Supported(findings[j], expected, manifest)
  }

  /** What each membership error says is wrong. */
  ghost predicate Blames(c: Code, expected: map<nat, Kind>, manifest: set<nat>, findings: seq<Finding>) {
    match c
    case FindingIdDuplicate => !Distinct(FindingIds(findings))
    case WorkItemDuplicate => !Distinct(WorkItems(findings))
    case WorkItemMissing => exists id :: id in expected && id !in WorkItems(findings)
    case WorkItemUnexpected => exists id :: id in WorkItems(findings) && id !in expected
    case DispositionMismatch(i) =>
      SupportedBefore(i, expected, manifest, findings) && findings[i].disposition != expected[findings[i].workItem]
    case EvidenceMissing(i) => SupportedBefore(i, expected, manifest, findings) && findings[i].evidence == []
    case EvidenceOutsideManifest(i) =>
      SupportedBefore(i, expected, manifest, findings) && exists e :: e in findings[i].evidence && e !in manifest
    case _ => false
  }

  /** What each error about the named findings of the solutions says is wrong. */
  ghost predicate NamesWrong(c: Code, findings: seq<Finding>, solutions: seq<Solution>) {
    match c
    case SolutionDuplicate => !Distinct(SolutionIds(solutions))
    case SolutionMissing => exists id :: id in FindingIds(findings) && id !in SolutionIds(solutions)
    case SolutionUnexpected => exists id :: id in SolutionIds(solutions) && id !in FindingIds(findings)
    case _ => false
  }

  /** What each error about operations says is wrong: the first finding whose solution proposes
      another operation, or one that its kind does not allow. */
  ghost predicate OperationWrong(c: Code, findings: seq<Finding>, solutions: seq<Solution>) {
    match c
    case SolutionOperationMismatch(i) => FirstUnsettled(i, findings, solutions) && !SameOperation(findings[i], solutions)
    case OperationInvalid(i) => FirstUnsettled(i, findings, solutions) && SameOperation(findings[i], solutions)
    case _ => false
  }

  ghost predicate FirstUnsettled(i: nat, findings: seq<Finding>, solutions: seq<Solution>) {
    i < |findings| && !Settles(findings[i], solutions) && forall j :: 0 <= j < i ==> Settles(findings[j], solutions)
  }

  predicate SameOperation(f: Finding, solutions: seq<Solution>) {
    var s := SolutionFor(solutions, f.id);
    s.Some? && s.value.operation == f.operation
  }

  method ValidateMembership(expected: map<nat, Kind>, manifest: set<nat>, findings: seq<Finding>)
      returns (r: Result<(), Code>)
    ensures r.Ok? <==> Covers(expected, manifest, findings)
    ensures r.Err? ==> Blames(r.error, expected, manifest, findings)
  {
    CountsDistinct(FindingIds(findings));
    CountsDistinct(WorkItems(findings));
    var ids := ToSet(WorkItems(findings));
    if |ToSet(FindingIds(findings))| != |findings| {
      return Err(FindingIdDuplicate);
    }
    if |ids| != |findings| {
      return Err(WorkItemDuplicate);
    }
    if expected.Keys - ids != {} {
      return Err(WorkItemMissing);
    }
    if ids - expected.Keys != {} {
      return Err(WorkItemUnexpected);
    }
    for i := 0 to |findings|
      invariant forall j :: 0 <= j < i ==> Supported(findings[j], expected, manifest)
    {
      assert WorkItems(findings)[i] in ids;
      if findings[i].disposition != expected[findings[i].workItem] {
        return Err(DispositionMismatch(i));
      }
      if findings[i].evidence == [] {
        return Err(EvidenceMissing(i));
      }
      if !(ToSet(findings[i].evidence) <= manifest) {
        return Err(EvidenceOutsideManifest(i));
      }
    }
    return Ok(());
  }

  method ValidateSolutions(findings: seq<Finding>, solutions: seq<Solution>) returns (r: Result<(), Code>)
    ensures r.Ok? <==> Answers(solutions, findings)
    ensures r.Err? ==> NamesWrong(r.error, findings, solutions)
  {
    CountsDistinct(SolutionIds(solutions));
    var named, known := ToSet(SolutionIds(solutions)), ToSet(FindingIds(findings));
    if |named| != |solutions| {
      return Err(SolutionDuplicate);
    }
    if known - named != {} {
      return Err(SolutionMissing);
    }
    if named - known != {} {
      return Err(SolutionUnexpected);
    }
    return Ok(());
  }

  lemma AnswerExists(findings: seq<Finding>, solutions: seq<Solution>, i: nat)
    requires Answers(solutions, findings) && i < |findings|
    ensures SolutionFor(solutions, findings[i].id).Some?
  {
    assert FindingIds(findings)[i] in ToSet(FindingIds(findings));
    var q :| 0 <= q < |solutions| && SolutionIds(solutions)[q] == findings[i].id;
    assert solutions[q] in solutions;
  }

  method TranslateAll(findings: seq<Finding>, solutions: seq<Solution>) returns (r: Result<seq<Payload>, Code>)
    requires Answers(solutions, findings)
    ensures r.Ok? <==> forall i :: 0 <= i < |findings| ==> Settles(findings[i], solutions)
    ensures r.Ok? ==> |r.value| == |findings|
    ensures r.Ok? ==> forall i :: 0 <= i < |findings| ==> Translates(r.value[i], findings[i], solutions)
    ensures r.Err? ==> OperationWrong(r.error, findings, solutions)
  {
    hide Answers, OperationAllowed, PayloadOf;
    var payloads: seq<Payload> := [];
    for i := 0 to |findings|
      invariant |payloads| == i
      invariant forall j :: 0 <= j < i ==> Settles(findings[j], solutions)
      invariant forall j :: 0 <= j < i ==> Translates(payloads[j], findings[j], solutions)
    {
      AnswerExists(findings, solutions, i);
      var s := SolutionFor(solutions, findings[i].id).value;
      if s.operation != findings[i].operation {
        return Err(SolutionOperationMismatch(i));
      }
      if !OperationAllowed(findings[i].disposition, s.operation) {
        return Err(OperationInvalid(i));
      }
      payloads := payloads + [PayloadOf(findings[i], s)];
    }
    return Ok(payloads);
  }

  /** Payloads for a batch of findings and their solutions, in the order of the findings. */
  method CompilePayloads(expected: map<nat, Kind>, manifest: set<nat>, findings: seq<Finding>, solutions: seq<Solution>)
      returns (r: Result<seq<Payload>, Code>)
    ensures r.Ok? <==> (
      && Actionable(expected) && Covers(expected, manifest, findings) && Answers(solutions, findings)
      && forall i :: 0 <= i < |findings| ==> Settles(findings[i], solutions))
    ensures r.Ok? ==> |r.value| == |findings|
    ensures r.Ok? ==> forall i :: 0 <= i < |findings| ==> Translates(r.value[i], findings[i], solutions)
    ensures r.Err? ==>
      || (r.error == NotActionableInput && !Actionable(expected))
      || Blames(r.error, expected, manifest, findings)
      || (Covers(expected, manifest, findings) &&
          (NamesWrong(r.error, findings, solutions) || OperationWrong(r.error, findings, solutions)))
  {
    if expected == map[] || exists id :: id in expected && expected[id] == NotActionable {
      return Err(NotActionableInput);
    }
    hide Covers, Blames, NamesWrong, OperationWrong, Answers, Settles, Translates;
    var membership := ValidateMembership(expected, manifest, findings);
    if membership.Err? {
      return Err(membership.error);
    }
    var names := ValidateSolutions(findings, solutions);
    if names.Err? {
      return Err(names.error);
    }
    r := TranslateAll(findings, solutions);
  }

  /** The solution a finding carries with it. */
  function OwnSolution(f: Finding): Solution {
    Solution(f.id, f.operation, f.risk, f.text, f.dependencies)
  }

  function OwnSolutions(findings: seq<Finding>): (r: seq<Solution>)
    ensures |r| == |findings| && forall i :: 0 <= i < |r| ==> r[i] == OwnSolution(findings[i])
  {
    seq(|findings|, i requires 0 <= i < |findings| => OwnSolution(findings[i]))
  }

  /** The payload says what the finding says, in every part. */
  predicate CarriesOwn(p: Payload, f: Finding) {
    && p.workItem == f.workItem && p.kind == f.disposition && p.text == f.text && p.evidence == f.evidence
    && p.operation == f.operation && p.risk == f.risk && p.solutionText == f.text && p.dependencies == f.dependencies
  }

  predicate AboutSolutions(c: Code) {
    c.SolutionDuplicate? || c.SolutionMissing? || c.SolutionUnexpected? || c.SolutionOperationMismatch?
  }

  /** The combined compiler: findings that carry their own solutions.  It succeeds exactly when the
      batch is covered and every operation is allowed, no solution error is possible, and each
      payload is the direct translation of its finding. */
  method CompileCombined(expected: map<nat, Kind>, manifest: set<nat>, findings: seq<Finding>)
      returns (r: Result<seq<Payload>, Code>)
    ensures r.Ok? <==> (
      && Actionable(expected) && Covers(expected, manifest, findings)
      && forall i :: 0 <= i < |findings| ==> OperationAllowed(findings[i].disposition, findings[i].operation))
    ensures r.Ok? ==> |r.value| == |findings|
    ensures r.Ok? ==> forall i :: 0 <= i < |findings| ==> r.value[i] == PayloadOf(findings[i], OwnSolution(findings[i]))
    ensures r.Ok? ==> forall i :: 0 <= i < |findings| ==> CarriesOwn(r.value[i], findings[i])
    ensures r.Err? ==> !AboutSolutions(r.error)
  {
    hide Covers, Actionable, Blames, NamesWrong, OperationWrong, Answers, Settles, Translates;
    r := CompilePayloads(expected, manifest, findings, OwnSolutions(findings));
    if Covers(expected, manifest, findings) {
      CoveredIdsDistinct(expected, manifest, findings);
      OwnSolutionsSettle(findings);
    }
    if r.Err? {
      MembershipCodes(r.error, expected, manifest, findings);
    }
    if r.Ok? {
      forall i | 0 <= i < |findings| ensures r.value[i] == PayloadOf(findings[i], OwnSolution(findings[i])) {
        OwnTranslation(r.value[i], findings, i);
      }
    }
  }

  lemma CoveredIdsDistinct(expected: map<nat, Kind>, manifest: set<nat>, findings: seq<Finding>)
    requires Covers(expected, manifest, findings)
    ensures Distinct(FindingIds(findings))
  {
  }

  /** Membership errors are not about solutions. */
  lemma MembershipCodes(c: Code, expected: map<nat, Kind>, manifest: set<nat>, findings: seq<Finding>)
    ensures Blames(c, expected, manifest, findings) ==> !AboutSolutions(c)
    ensures c == NotActionableInput ==> !AboutSolutions(c)
  {
  }

  /** Findings that carry their own solutions are settled as far as their operations are allowed. */
  lemma OwnSolutionsSettle(findings: seq<Finding>)
    requires Distinct(FindingIds(findings))
    ensures Answers(OwnSolutions(findings), findings)
    ensures forall i :: 0 <= i < |findings| ==>
      (Settles(findings[i], OwnSolutions(findings)) <==> OperationAllowed(findings[i].disposition, findings[i].operation))
    ensures forall c :: NamesWrong(c, findings, OwnSolutions(findings)) ==> !AboutSolutions(c)
    ensures forall c :: OperationWrong(c, findings, OwnSolutions(findings)) ==> !AboutSolutions(c)
  {
  }

  lemma OwnTranslation(p: Payload, findings: seq<Finding>, i: nat)
    requires Distinct(FindingIds(findings)) && i < |findings| && Translates(p, findings[i], OwnSolutions(findings))
    ensures p == PayloadOf(findings[i], OwnSolution(findings[i]))
  {
  }

  // ----- Templates -----

  /** A template the model derived for a profile; `leaks` says that its texts contain a value of
      the representative item. */
  datatype Template = Template(profile: Profile, operation: Operation, risk: Risk, text: nat, leaks: bool)

  datatype TemplateError = ProfileMismatch | TemplateOperationInvalid | LeaksRepresentative | RiskInvalid | OutsideManifest

  /** The risk policy for operations without changed fields. */
  function PolicyRisk(op: Operation): Risk {
    if op == Delete then High else if op == Retain || op == Skip then Low else Medium
  }

  predicate InManifest(item: WorkItem, manifest: set<nat>) {
    item.evidence.refs != [] && ToSet(item.evidence.refs) <= manifest
  }

  function TemplatePayload(p: Profile, t: Template, item: WorkItem): Payload {
    Payload(item.id, p.disposition, t.text, item.evidence.refs, t.operation, PolicyRisk(t.operation), t.text, [])
  }

  /** The payload repeats the template for the item, on the item's own evidence; deletions are of high
      risk, changes of medium and anything that leaves the target alone of low risk. */
  predicate FitsTemplate(p: Payload, t: Template, item: WorkItem) {
    && p.workItem == item.id && p.evidence == item.evidence.refs && p.evidence != [] && p.kind == t.profile.disposition
    && p.text == t.text && p.solutionText == t.text && p.operation == t.operation && p.dependencies == []
    && (p.risk == High <==> t.operation == Delete)
    && (p.risk == Medium <==> t.operation == Create || t.operation == Update)
    && (p.risk == Low <==> t.operation == Retain || t.operation == Skip)
  }

  method InstantiateTemplate(profile: Profile, items: seq<WorkItem>, t: Template, manifest: set<nat>)
      returns (r: Result<seq<Payload>, TemplateError>)
    ensures r.Ok? <==> (
      && t.profile == profile && OperationAllowed(profile.disposition, t.operation) && !t.leaks
      && t.risk == PolicyRisk(t.operation) && forall x :: x in items ==> InManifest(x, manifest))
    ensures (forall x :: x in items ==> InManifest(x, manifest)) <==>
      forall x :: x in items ==> |x.evidence.refs| > 0 && forall e :: e in x.evidence.refs ==> e in manifest
    ensures r.Ok? ==> |r.value| == |items|
    ensures r.Ok? ==> forall i :: 0 <= i < |items| ==> r.value[i] == TemplatePayload(profile, t, items[i])
    ensures r.Ok? ==> forall i :: 0 <= i < |items| ==> FitsTemplate(r.value[i], t, items[i])
  {
    forall x ensures InManifest(x, manifest) <==> |x.evidence.refs| > 0 && forall e :: e in x.evidence.refs ==> e in manifest {
    }
    if t.profile != profile {
      return Err(ProfileMismatch);
    }
    if !OperationAllowed(profile.disposition, t.operation) {
      return Err(TemplateOperationInvalid);
    }
    if t.leaks {
      return Err(LeaksRepresentative);
    }
    if t.risk != PolicyRisk(t.operation) {
      return Err(RiskInvalid);
    }
    var payloads: seq<Payload> := [];
    for i := 0 to |items|
      invariant |payloads| == i
      invariant forall j :: 0 <= j < i ==> InManifest(items[j], manifest)
      invariant forall j :: 0 <= j < i ==> payloads[j] == TemplatePayload(profile, t, items[j])
    {
      if !InManifest(items[i], manifest) {
        assert items[i] in items;
        return Err(OutsideManifest);
      }
      payloads := payloads + [TemplatePayload(profile, t, items[i])];
    }
    return Ok(payloads);
  }

  // ----- A whole batch -----

  function PayloadIds(payloads: seq<Payload>): (r: seq<nat>)
    ensures |r| == |payloads| && forall i :: 0 <= i < |r| ==> r[i] == payloads[i].workItem
  {
    seq(|payloads|, i requires 0 <= i < |payloads| => payloads[i].workItem)
  }

  function ItemIds(items: seq<WorkItem>): (r: seq<nat>)
    ensures |r| == |items| && forall i :: 0 <= i < |r| ==> r[i] == items[i].id
  {
    seq(|items|, i requires 0 <= i < |items| => items[i].id)
  }

  predicate Sound(p: Payload, kinds: map<nat, Kind>, manifest: set<nat>) {
    && p.workItem in kinds && p.kind == kinds[p.workItem]
    && OperationAllowed(p.kind, p.operation) && p.evidence != [] && ToSet(p.evidence) <= manifest
  }

  /** The payload is about a known item of an actionable kind and rests on evidence of the manifest. */
  predicate IsSupported(p: Payload, kinds: map<nat, Kind>, manifest: set<nat>) {
    && p.workItem in kinds && kinds[p.workItem] == p.kind && p.kind != NotActionable
    && |p.evidence| > 0 && forall e :: e in p.evidence ==> e in manifest
  }

  lemma SoundIsSupported(p: Payload, kinds: map<nat, Kind>, manifest: set<nat>)
    requires Sound(p, kinds, manifest)
    ensures IsSupported(p, kinds, manifest)
  {
  }

  /** The kinds of the work items, by identifier. */
  predicate KindsOf(kinds: map<nat, Kind>, items: seq<WorkItem>) {
    kinds.Keys == ToSet(ItemIds(items)) && forall x :: x in items ==> x.id in kinds && kinds[x.id] == x.evidence.kind
  }

  datatype BatchError = Unfit(template: TemplateError) | Invalid(code: Code)

  lemma TemplateIsSound(key: Profile -> nat, items: seq<WorkItem>, s: Split, kinds: map<nat, Kind>, t: Template,
                        manifest: set<nat>, payloads: seq<Payload>)
    requires SplitOf(key, items, s) && s.profile.Some? && KindsOf(kinds, items) && |payloads| == |s.chosen|
    requires OperationAllowed(s.profile.value.disposition, t.operation)
    requires forall x :: x in s.chosen ==> InManifest(x, manifest)
    requires forall i :: 0 <= i < |payloads| ==> payloads[i] == TemplatePayload(s.profile.value, t, s.chosen[i])
    ensures PayloadIds(payloads) == ItemIds(s.chosen)
    ensures forall p :: p in payloads ==> Sound(p, kinds, manifest)
  {
  }

  lemma FindingsAreSound(rest: map<nat, Kind>, kinds: map<nat, Kind>, narrow: set<nat>, manifest: set<nat>,
                         findings: seq<Finding>, payloads: seq<Payload>)
    requires forall id :: id in rest ==> id in kinds && kinds[id] == rest[id]
    requires narrow <= manifest && Covers(rest, narrow, findings) && |payloads| == |findings|
    requires forall i :: 0 <= i < |findings| ==> OperationAllowed(findings[i].disposition, findings[i].operation)
    requires forall i :: 0 <= i < |findings| ==> payloads[i] == PayloadOf(findings[i], OwnSolution(findings[i]))
    ensures Distinct(PayloadIds(payloads)) && ToSet(PayloadIds(payloads)) == rest.Keys
    ensures forall p :: p in payloads ==> Sound(p, kinds, manifest)
  {
  }

  lemma ItemsShareNoIds(items: seq<WorkItem>, chosen: seq<WorkItem>, fallback: seq<WorkItem>)
    requires UniqueIds(items) && multiset(chosen) + multiset(fallback) == multiset(items)
    requires forall x :: x in chosen ==> x !in fallback
    ensures ToSet(ItemIds(chosen)) !! ToSet(ItemIds(fallback))
    ensures ToSet(ItemIds(chosen)) + ToSet(ItemIds(fallback)) == ToSet(ItemIds(items))
    ensures Distinct(ItemIds(chosen))
  {
    forall x ensures x in items <==> x in chosen || x in fallback {
      assert x in multiset(items) <==> x in multiset(chosen) || x in multiset(fallback);
    }
    IdsAre(items);
    IdsAre(chosen);
    IdsAre(fallback);
    forall x, y | x in chosen && y in fallback ensures x.id != y.id {
      if x.id == y.id {
        SameId(items, x, y);
      }
    }
    forall i, j | 0 <= i < j < |chosen| ensures ItemIds(chosen)[i] != ItemIds(chosen)[j] {
      if chosen[i].id == chosen[j].id {
        SameId(items, chosen[i], chosen[j]);
        RepeatsInMultiset(chosen, i, j);
        UniqueInMultiset(items, chosen[i]);
      }
    }
  }

  lemma RepeatsInMultiset(s: seq<WorkItem>, i: nat, j: nat)
    requires i < j < |s| && s[i] == s[j]
    ensures multiset(s)[s[i]] >= 2
  {
    assert s == s[..j] + [s[j]] + s[j+1..];
    assert s[i] in s[..j];
  }

  lemma {:induction false} UniqueInMultiset(items: seq<WorkItem>, x: WorkItem)
    requires UniqueIds(items)
    ensures multiset(items)[x] <= 1
  {
    if items != [] {
      var n := |items| - 1;
      UniqueInMultiset(items[..n], x);
      assert items == items[..n] + [items[n]];
      assert items[n] !in items[..n];
    }
  }

  lemma IdsAre(items: seq<WorkItem>)
    ensures forall id :: id in ToSet(ItemIds(items)) <==> exists x :: x in items && x.id == id
  {
  }

  lemma JoinCovers(a: seq<Payload>, b: seq<Payload>, left: set<nat>, right: set<nat>)
    requires Distinct(PayloadIds(a)) && ToSet(PayloadIds(a)) == left
    requires Distinct(PayloadIds(b)) && ToSet(PayloadIds(b)) == right && left !! right
    ensures Distinct(PayloadIds(a + b)) && ToSet(PayloadIds(a + b)) == left + right
  {
    assert PayloadIds(a + b) == PayloadIds(a) + PayloadIds(b);
    var ids := PayloadIds(a) + PayloadIds(b);
    forall i, j | 0 <= i < j < |ids| ensures ids[i] != ids[j] {
      if i < |a| <= j {
        assert ids[i] in ToSet(PayloadIds(a)) && ids[j] in ToSet(PayloadIds(b));
      }
    }
  }

  /** Analyses a batch as the executor does: the template for the chosen group, if there is one,
      and the model's findings, under their own narrower manifest, for everything else.  Whatever
      the model answers, a successful result holds exactly one payload per work item, of the
      expected kind, with an allowed operation and evidence inside the manifest. */
  method AnalyzeBatch(key: Profile -> nat, items: seq<WorkItem>, kinds: map<nat, Kind>, t: Template,
                      findings: seq<Finding>, narrow: set<nat>, manifest: set<nat>)
      returns (r: Result<seq<Payload>, BatchError>)
    requires Injective(key) && UniqueIds(items) && KindsOf(kinds, items) && narrow <= manifest
    ensures r.Ok? ==> Distinct(PayloadIds(r.value)) && ToSet(PayloadIds(r.value)) == ToSet(ItemIds(items))
    ensures r.Ok? ==> forall p :: p in r.value ==> Sound(p, kinds, manifest) && IsSupported(p, kinds, manifest)
  {
    hide SplitOf, Sound, Covers, Actionable, KindsOf, InManifest, OperationAllowed, PolicyRisk;
    var s := PartitionTemplateWork(key, items);
    SplitIsExact(key, items, s);
    ItemsShareNoIds(items, s.chosen, s.fallback);
    var payloads: seq<Payload> := [];
    if s.profile.Some? {
      var instantiated := InstantiateTemplate(s.profile.value, s.chosen, t, manifest);
      if instantiated.Err? {
        return Err(Unfit(instantiated.error));
      }
      payloads := instantiated.value;
      TemplateIsSound(key, items, s, kinds, t, manifest, payloads);
    } else {
      NoTemplate(key, items, s);
    }
    if s.profile.None? || s.fallback != [] {
      var ids := ToSet(ItemIds(s.fallback));
      KindsKnown(items, kinds);
      var rest := map id | id in ids :: kinds[id];
      var compiled := CompileCombined(rest, if s.profile.Some? then narrow else manifest, findings);
      if compiled.Err? {
        return Err(Invalid(compiled.error));
      }
      FindingsAreSound(rest, kinds, if s.profile.Some? then narrow else manifest, manifest, findings, compiled.value);
      JoinCovers(payloads, compiled.value, ToSet(ItemIds(s.chosen)), ids);
      payloads := payloads + compiled.value;
    }
    forall p | p in payloads ensures IsSupported(p, kinds, manifest) {
      SoundIsSupported(p, kinds, manifest);
    }
    return Ok(payloads);
  }

  lemma NoTemplate(key: Profile -> nat, items: seq<WorkItem>, s: Split)
    requires SplitOf(key, items, s) && s.profile.None?
    ensures s.chosen == []
  {
  }

  lemma KindsKnown(items: seq<WorkItem>, kinds: map<nat, Kind>)
    requires KindsOf(kinds, items)
    ensures kinds.Keys == ToSet(ItemIds(items))
  {
  }
}
