/** `aggregate_mix_data` (mixbaba/mixbaba_utils.py): folding the monthly
    buckets of a funnel response into one insertion-ordered dictionary
    group -> step label -> {'count': n}, summing the counts of every month.

    The response is a dictionary date -> (group -> list of step entries);
    dictionaries are modelled as sequences of pairs in their iteration
    order.  The result, an OrderedDict of OrderedDicts, is an OrderedMap:
    the keys in insertion order beside the key-value map. */
module Aggregation {

  /** One element of a group's list in a monthly bucket.  The response
      carries more fields per step; the aggregation reads only these two. */
  datatype Entry = Entry(stepLabel: string, count: nat)

  /** A group of a monthly bucket and its list of step entries. */
  datatype GroupSteps = GroupSteps(group: string, content: seq<Entry>)

  /** One monthly bucket of the response: its date and its groups. */
  datatype DateBucket = DateBucket(date: string, data: seq<GroupSteps>)

  /** A step of the aggregated result: a dictionary holding only 'count'. */
  datatype StepRecord = StepRecord(count: nat)

  /** An insertion-ordered dictionary with string keys. */
  datatype OrderedMap<V> = OrderedMap(keys: seq<string>, items: map<string, V>) {
    /** Every key once, in keys exactly when in items. */
    ghost predicate Valid() {
      Distinct(keys) && (forall x :: x in items <==> x in keys)
    }
  }

  /** The aggregated data: group -> step label -> StepRecord. */
  type Aggregated = OrderedMap<OrderedMap<StepRecord>>

  ghost predicate Distinct(s: seq<string>) {
    forall i, j :: 0 <= i < j < |s| ==> s[i] != s[j]
  }

  // ---------------------------------------------------------------------
  // The reference description of the result.

  /** One step entry seen by the fold, tagged with its group. */
  datatype Record = Record(group: string, stepLabel: string, count: nat)

  /** The entries of one group's list, in list order. */
  function FlattenGroup(group: string, content: seq<Entry>): seq<Record> {
    if content == [] then []
    else
      var last := content[|content| - 1];
      FlattenGroup(group, content[..|content| - 1]) + [Record(group, last.stepLabel, last.count)]
  }

  /** The entries of one bucket, group after group. */
  function FlattenDate(data: seq<GroupSteps>): seq<Record> {
    if data == [] then []
    else
      var last := data[|data| - 1];
      FlattenDate(data[..|data| - 1]) + FlattenGroup(last.group, last.content)
  }

  /** The entries of the whole response, in the order the loops visit them. */
  function Flatten(answer: seq<DateBucket>): seq<Record> {
    if answer == [] then []
    else Flatten(answer[..|answer| - 1]) + FlattenDate(answer[|answer| - 1].data)
  }

  /** The group of every entry, in order. */
  ghost function GroupsOf(rs: seq<Record>): seq<string> {
    if rs == [] then []
    else GroupsOf(rs[..|rs| - 1]) + [rs[|rs| - 1].group]
  }

  /** The step labels of the entries of group g, in order. */
  ghost function LabelsOf(rs: seq<Record>, g: string): seq<string> {
    if rs == [] then []
    else
      var last := rs[|rs| - 1];
      LabelsOf(rs[..|rs| - 1], g) + (if last.group == g then [last.stepLabel] else [])
  }

  /** The sum of the counts of the entries with group g and label l. */
  ghost function TotalCount(rs: seq<Record>, g: string, l: string): nat {
    if rs == [] then 0
    else
      var last := rs[|rs| - 1];
      TotalCount(rs[..|rs| - 1], g, l) + (if last.group == g && last.stepLabel == l then last.count else 0)
  }

  /** The distinct elements of s in the order of their first occurrence. */
  ghost function Dedup(s: seq<string>): seq<string> {
    if s == [] then []
    else
      var prefix := s[..|s| - 1];
      if s[|s| - 1] in prefix then Dedup(prefix) else Dedup(prefix) + [s[|s| - 1]]
  }

  /** The position of the first occurrence of x in s. */
  ghost function FirstIndex(s: seq<string>, x: string): nat
    requires x in s
  {
    if s[0] == x then 0 else 1 + FirstIndex(s[1..], x)
  }

  /** agg is the aggregation of the entries rs: its groups are those of rs in
      first-occurrence order, each group's labels are its entries' labels in
      first-occurrence order, and each count is the total of its entries. */
  ghost predicate Summarizes(agg: Aggregated, rs: seq<Record>) {
    && agg.keys == Dedup(GroupsOf(rs))
    && (forall g :: g in agg.items <==> g in agg.keys)
    && (forall g :: g in agg.items ==> StepsSummarize(agg.items[g], rs, g))
  }

  ghost predicate StepsSummarize(steps: OrderedMap<StepRecord>, rs: seq<Record>, g: string) {
    && steps.keys == Dedup(LabelsOf(rs, g))
    && (forall l :: l in steps.items <==> l in steps.keys)
    && (forall l :: l in steps.items ==> steps.items[l].count == TotalCount(rs, g, l))
  }

  /** The count aggregated for (g, l), or 0 when there is none. */
  function CountOf(agg: Aggregated, g: string, l: string): nat {
    if g in agg.items && l in agg.items[g].items then agg.items[g].items[l].count else 0
  }

  // ---------------------------------------------------------------------
  // The fold, as the source writes it.

  /** The body of the innermost loop (lines 80-89): a known group and
      label accumulate the count, a new label is appended to its group with
      the entry's count, a new group is appended with that single step. */
  function Insert(agg: Aggregated, r: Record): Aggregated {
    if r.group in agg.items then
      var steps := agg.items[r.group];
      if r.stepLabel in steps.items then
        var updated := StepRecord(steps.items[r.stepLabel].count + r.count);
        agg.(items := agg.items[r.group := steps.(items := steps.items[r.stepLabel := updated])])
      else
        var steps' := OrderedMap(steps.keys + [r.stepLabel], steps.items[r.stepLabel := StepRecord(r.count)]);
        agg.(items := agg.items[r.group := steps'])
    else
      var steps := OrderedMap([r.stepLabel], map[r.stepLabel := StepRecord(r.count)]);
      OrderedMap(agg.keys + [r.group], agg.items[r.group := steps])
  }

  /** `aggregate_mix_data`: three nested loops over dates, groups and
      entries; the two inner levels are AggregateDate and AggregateGroup.
      The input is a value, so it is left as it was; the result is the
      aggregation of every entry of the response, in visiting order. */
  method AggregateMixData(answer: seq<DateBucket>) returns (aggregated: Aggregated)
    ensures Summarizes(aggregated, Flatten(answer))
  {
    aggregated := OrderedMap([], map[]);
    assert Flatten(answer[..0]) == [];
    for i := 0 to |answer|
      invariant Summarizes(aggregated, Flatten(answer[..i]))
    {
      var data := answer[i].data;
      FlattenStep(answer, i);
      if data != [] {
        aggregated := AggregateDate(aggregated, data, Flatten(answer[..i]));
      }
    }
    assert answer[..|answer|] == answer;
  }

  /** The loop over the groups of one monthly bucket (lines 78-89). */
  method AggregateDate(agg: Aggregated, data: seq<GroupSteps>, ghost seen: seq<Record>) returns (aggregated: Aggregated)
    requires Summarizes(agg, seen)
    ensures Summarizes(aggregated, seen + FlattenDate(data))
  {
    aggregated := agg;
    assert seen + FlattenDate(data[..0]) == seen;
    for j := 0 to |data|
      invariant Summarizes(aggregated, seen + FlattenDate(data[..j]))
    {
      SeenDateStep(seen, data, j);
      aggregated := AggregateGroup(aggregated, data[j].group, data[j].content, seen + FlattenDate(data[..j]));
    }
    assert data[..|data|] == data;
  }

  /** The loop over the step entries of one group (lines 79-89). */
  method AggregateGroup(agg: Aggregated, group: string, content: seq<Entry>, ghost seen: seq<Record>)
    returns (aggregated: Aggregated)
    requires Summarizes(agg, seen)
    ensures Summarizes(aggregated, seen + FlattenGroup(group, content))
  {
    aggregated := agg;
    assert seen + FlattenGroup(group, content[..0]) == seen;
    for m := 0 to |content|
      invariant Summarizes(aggregated, seen + FlattenGroup(group, content[..m]))
    {
      var r := Record(group, content[m].stepLabel, content[m].count);
      InsertEntry(aggregated, seen, group, content, m);
      aggregated := Insert(aggregated, r);
    }
    assert content[..|content|] == content;
  }

  /** One turn of the entry loop: inserting entry m extends the summary of
      the entries before it to the entries up to and including it. */
  lemma InsertEntry(agg: Aggregated, seen: seq<Record>, group: string, content: seq<Entry>, m: nat)
    requires m < |content|
    requires Summarizes(agg, seen + FlattenGroup(group, content[..m]))
    ensures Summarizes(Insert(agg, Record(group, content[m].stepLabel, content[m].count)),
                       seen + FlattenGroup(group, content[..m + 1]))
  {
    var r := Record(group, content[m].stepLabel, content[m].count);
    var before, after := seen + FlattenGroup(group, content[..m]), seen + FlattenGroup(group, content[..m + 1]);
    FlattenGroupStep(group, content, m);
    assert after == before + [r];
    InsertSummarizes(agg, before, r);
  }

  /** One turn of the group loop, on the entries seen. */
  lemma SeenDateStep(seen: seq<Record>, data: seq<GroupSteps>, j: nat)
    requires j < |data|
    ensures seen + FlattenDate(data[..j + 1]) == seen + FlattenDate(data[..j]) + FlattenGroup(data[j].group, data[j].content)
  {
    FlattenDateStep(data, j);
  }

  lemma FlattenGroupStep(group: string, content: seq<Entry>, m: nat)
    requires m < |content|
    ensures FlattenGroup(group, content[..m + 1]) ==
            FlattenGroup(group, content[..m]) + [Record(group, content[m].stepLabel, content[m].count)]
  {
    assert content[..m + 1][..m] == content[..m];
  }

  lemma FlattenDateStep(data: seq<GroupSteps>, j: nat)
    requires j < |data|
    ensures FlattenDate(data[..j + 1]) == FlattenDate(data[..j]) + FlattenGroup(data[j].group, data[j].content)
  {
    assert data[..j + 1][..j] == data[..j];
  }

  lemma FlattenStep(answer: seq<DateBucket>, i: nat)
    requires i < |answer|
    ensures Flatten(answer[..i + 1]) == Flatten(answer[..i]) + FlattenDate(answer[i].data)
    ensures answer[i].data == [] ==> Flatten(answer[..i + 1]) == Flatten(answer[..i])
  {
    assert answer[..i + 1][..i] == answer[..i];
  }

  // ---------------------------------------------------------------------
  // Lemmas.

  /** How the reference functions grow by one entry. */
  lemma SnocGroups(rs: seq<Record>, r: Record)
    ensures GroupsOf(rs + [r]) == GroupsOf(rs) + [r.group]
  {
    assert (rs + [r])[..|rs|] == rs;
  }

  lemma SnocLabels(rs: seq<Record>, r: Record, g: string)
    ensures LabelsOf(rs + [r], g) == LabelsOf(rs, g) + (if r.group == g then [r.stepLabel] else [])
  {
    assert (rs + [r])[..|rs|] == rs;
  }

  lemma SnocCount(rs: seq<Record>, r: Record, g: string, l: string)
    ensures TotalCount(rs + [r], g, l) ==
            TotalCount(rs, g, l) + (if r.group == g && r.stepLabel == l then r.count else 0)
  {
    assert (rs + [r])[..|rs|] == rs;
  }

  lemma {:induction false} DedupMembership(s: seq<string>)
    ensures forall x :: x in Dedup(s) <==> x in s
  {
    if s != [] {
      var prefix := s[..|s| - 1];
      DedupMembership(prefix);
      assert s == prefix + [s[|s| - 1]];
    }
  }

  /** Dedup keeps each element once. */
  lemma {:induction false} DedupDistinct(s: seq<string>)
    ensures Distinct(Dedup(s))
  {
    if s != [] {
      var prefix := s[..|s| - 1];
      DedupDistinct(prefix);
      DedupMembership(prefix);
    }
  }

  lemma {:induction false} FirstIndexPrefix(s: seq<string>, x: string, y: string)
    requires x in s
    ensures x in s + [y] && FirstIndex(s + [y], x) == FirstIndex(s, x) < |s|
  {
    if s[0] != x {
      assert (s + [y])[1..] == s[1..] + [y];
      FirstIndexPrefix(s[1..], x, y);
    }
  }

  lemma {:induction false} FirstIndexNew(s: seq<string>, y: string)
    requires y !in s
    ensures y in s + [y] && FirstIndex(s + [y], y) == |s|
  {
    if s != [] {
      assert (s + [y])[1..] == s[1..] + [y];
      FirstIndexNew(s[1..], y);
    }
  }

  /** Dedup lists the elements of s in the order of their first occurrence. */
  lemma {:induction false} DedupFirstOccurrenceOrder(s: seq<string>)
    ensures forall x :: x in Dedup(s) <==> x in s
    ensures forall i, j :: 0 <= i < j < |Dedup(s)| ==>
      FirstIndex(s, Dedup(s)[i]) < FirstIndex(s, Dedup(s)[j])
  {
    DedupMembership(s);
    if s != [] {
      var prefix, y := s[..|s| - 1], s[|s| - 1];
      assert s == prefix + [y];
      DedupFirstOccurrenceOrder(prefix);
      var d := Dedup(s);
      forall i, j | 0 <= i < j < |d|
        ensures FirstIndex(s, d[i]) < FirstIndex(s, d[j])
      {
        FirstIndexPrefix(prefix, d[i], y);
        if j < |Dedup(prefix)| {
          FirstIndexPrefix(prefix, d[j], y);
        } else {
          FirstIndexNew(prefix, y);
        }
      }
    }
  }

  lemma {:induction false} NoGroupNoLabels(rs: seq<Record>, g: string)
    requires g !in GroupsOf(rs)
    ensures LabelsOf(rs, g) == []
  {
    if rs != [] {
      var prefix := rs[..|rs| - 1];
      assert rs == prefix + [rs[|rs| - 1]];
      SnocLabels(prefix, rs[|rs| - 1], g);
      SnocGroups(prefix, rs[|rs| - 1]);
      NoGroupNoLabels(prefix, g);
    }
  }

  lemma {:induction false} NoLabelNoCount(rs: seq<Record>, g: string, l: string)
    requires l !in LabelsOf(rs, g)
    ensures TotalCount(rs, g, l) == 0
  {
    if rs != [] {
      var prefix := rs[..|rs| - 1];
      assert rs == prefix + [rs[|rs| - 1]];
      SnocLabels(prefix, rs[|rs| - 1], g);
      SnocCount(prefix, rs[|rs| - 1], g, l);
      NoLabelNoCount(prefix, g, l);
    }
  }

  /** A group is among GroupsOf(rs) exactly when some entry has it. */
  lemma {:induction false} GroupsOfMembership(rs: seq<Record>, g: string)
    ensures g in GroupsOf(rs) <==> exists i :: 0 <= i < |rs| && rs[i].group == g
  {
    if rs != [] {
      var prefix := rs[..|rs| - 1];
      assert rs == prefix + [rs[|rs| - 1]];
      SnocGroups(prefix, rs[|rs| - 1]);
      GroupsOfMembership(prefix, g);
    }
  }

  /** A label is among LabelsOf(rs, g) exactly when some entry has group g and that label. */
  lemma {:induction false} LabelsOfMembership(rs: seq<Record>, g: string, l: string)
    ensures l in LabelsOf(rs, g) <==> exists i :: 0 <= i < |rs| && rs[i].group == g && rs[i].stepLabel == l
  {
    if rs != [] {
      var prefix := rs[..|rs| - 1];
      assert rs == prefix + [rs[|rs| - 1]];
      SnocLabels(prefix, rs[|rs| - 1], g);
      LabelsOfMembership(prefix, g, l);
    }
  }

  /** A group the new entry does not belong to keeps its summary. */
  lemma OtherGroupUnchanged(steps: OrderedMap<StepRecord>, rs: seq<Record>, r: Record, h: string)
    requires h != r.group
    requires StepsSummarize(steps, rs, h)
    ensures StepsSummarize(steps, rs + [r], h)
  {
    SnocLabels(rs, r, h);
    assert LabelsOf(rs + [r], h) == LabelsOf(rs, h);
    forall l | l in steps.items
      ensures steps.items[l].count == TotalCount(rs + [r], h, l)
    {
      SnocCount(rs, r, h, l);
    }
  }

  /** The entry's group and label are known: only that count grows. */
  lemma AddToExistingStep(steps: OrderedMap<StepRecord>, rs: seq<Record>, r: Record)
    requires StepsSummarize(steps, rs, r.group)
    requires r.stepLabel in steps.items
    ensures StepsSummarize(steps.(items := steps.items[r.stepLabel := StepRecord(steps.items[r.stepLabel].count + r.count)]),
                           rs + [r], r.group)
  {
    var g, l := r.group, r.stepLabel;
    var s' := steps.(items := steps.items[l := StepRecord(steps.items[l].count + r.count)]);
    SnocLabels(rs, r, g);
    DedupMembership(LabelsOf(rs, g));
    assert LabelsOf(rs + [r], g)[..|LabelsOf(rs, g)|] == LabelsOf(rs, g);
    forall l' | l' in s'.items
      ensures s'.items[l'].count == TotalCount(rs + [r], g, l')
    {
      SnocCount(rs, r, g, l');
    }
  }

  /** The entry's group is known but its label is new: the label is
      appended with the entry's count. */
  lemma AddNewStep(steps: OrderedMap<StepRecord>, rs: seq<Record>, r: Record)
    requires StepsSummarize(steps, rs, r.group)
    requires r.stepLabel !in steps.items
    ensures StepsSummarize(OrderedMap(steps.keys + [r.stepLabel], steps.items[r.stepLabel := StepRecord(r.count)]),
                           rs + [r], r.group)
  {
    var g, l := r.group, r.stepLabel;
    var s' := OrderedMap(steps.keys + [l], steps.items[l := StepRecord(r.count)]);
    SnocLabels(rs, r, g);
    DedupMembership(LabelsOf(rs, g));
    NoLabelNoCount(rs, g, l);
    assert LabelsOf(rs + [r], g)[..|LabelsOf(rs, g)|] == LabelsOf(rs, g);
    forall l' | l' in s'.items
      ensures s'.items[l'].count == TotalCount(rs + [r], g, l')
    {
      SnocCount(rs, r, g, l');
    }
  }

  /** The entry's group is new: it gets one step, the entry's. */
  lemma AddNewGroup(rs: seq<Record>, r: Record)
    requires r.group !in GroupsOf(rs)
    ensures StepsSummarize(OrderedMap([r.stepLabel], map[r.stepLabel := StepRecord(r.count)]), rs + [r], r.group)
  {
    var g, l := r.group, r.stepLabel;
    NoGroupNoLabels(rs, g);
    SnocLabels(rs, r, g);
    assert LabelsOf(rs + [r], g) == [l];
    assert Dedup([l]) == [l] by {
      assert [l][..0] == [];
    }
    NoLabelNoCount(rs, g, l);
    SnocCount(rs, r, g, l);
    assert TotalCount(rs + [r], g, l) == r.count;
  }

  /** The step of the fold keeps the group order the first-occurrence order:
      a known group stays where it is, a new one is appended. */
  lemma InsertKeys(agg: Aggregated, rs: seq<Record>, r: Record)
    requires Summarizes(agg, rs)
    ensures Insert(agg, r).keys == Dedup(GroupsOf(rs + [r]))
  {
    SnocGroups(rs, r);
    DedupMembership(GroupsOf(rs));
    assert GroupsOf(rs + [r])[..|GroupsOf(rs)|] == GroupsOf(rs);
  }

  /** After the step the groups present are exactly the keys listed. */
  lemma InsertKeySet(agg: Aggregated, rs: seq<Record>, r: Record)
    requires Summarizes(agg, rs)
    ensures forall h :: h in Insert(agg, r).items <==> h in Insert(agg, r).keys
  {
    InsertKeys(agg, rs, r);
    SnocGroups(rs, r);
    DedupMembership(GroupsOf(rs));
    DedupMembership(GroupsOf(rs + [r]));
  }

  /** The step of the fold keeps the entry's own group a summary: its
      count grows, its label is appended, or the group is created. */
  lemma InsertOwnGroup(agg: Aggregated, rs: seq<Record>, r: Record)
    requires Summarizes(agg, rs)
    ensures r.group in Insert(agg, r).items
    ensures StepsSummarize(Insert(agg, r).items[r.group], rs + [r], r.group)
  {
    if r.group in agg.items {
      var steps := agg.items[r.group];
      if r.stepLabel in steps.items {
        AddToExistingStep(steps, rs, r);
      } else {
        AddNewStep(steps, rs, r);
      }
    } else {
      DedupMembership(GroupsOf(rs));
      AddNewGroup(rs, r);
    }
  }

  /** The step of the fold leaves every other group as it was. */
  lemma InsertOtherGroups(agg: Aggregated, rs: seq<Record>, r: Record)
    requires Summarizes(agg, rs)
    ensures forall h :: h in Insert(agg, r).items && h != r.group ==>
      h in agg.items && Insert(agg, r).items[h] == agg.items[h] &&
      StepsSummarize(agg.items[h], rs + [r], h)
  {
    var items' := Insert(agg, r).items;
    assert forall h :: h in items' && h != r.group ==> h in agg.items && items'[h] == agg.items[h];
    forall h | h in items' && h != r.group
      ensures StepsSummarize(agg.items[h], rs + [r], h)
    {
      OtherGroupUnchanged(agg.items[h], rs, r, h);
    }
  }

  /** The step of the fold keeps the aggregate a summary of the entries seen. */
  lemma InsertSummarizes(agg: Aggregated, rs: seq<Record>, r: Record)
    requires Summarizes(agg, rs)
    ensures Summarizes(Insert(agg, r), rs + [r])
  {
    InsertKeys(agg, rs, r);
    InsertKeySet(agg, rs, r);
    InsertOwnGroup(agg, rs, r);
    InsertOtherGroups(agg, rs, r);
  }

  /** The result is a well-formed ordered dictionary of well-formed ordered
      dictionaries; a group is a key exactly when at least one entry has
      it, and the groups come in first-occurrence order. */
  lemma AggregatedGroups(agg: Aggregated, rs: seq<Record>)
    requires Summarizes(agg, rs)
    ensures agg.Valid()
    ensures forall g :: g in agg.items ==> agg.items[g].Valid()
    ensures forall g :: g in agg.items <==> exists i :: 0 <= i < |rs| && rs[i].group == g
    ensures forall g :: g in agg.keys <==> g in GroupsOf(rs)
    ensures forall i, j :: 0 <= i < j < |agg.keys| ==>
      FirstIndex(GroupsOf(rs), agg.keys[i]) < FirstIndex(GroupsOf(rs), agg.keys[j])
  {
    DedupDistinct(GroupsOf(rs));
    DedupFirstOccurrenceOrder(GroupsOf(rs));
    forall g | g in agg.items
      ensures agg.items[g].Valid()
    {
      DedupDistinct(LabelsOf(rs, g));
    }
    forall g
      ensures g in agg.items <==> exists i :: 0 <= i < |rs| && rs[i].group == g
    {
      GroupsOfMembership(rs, g);
    }
  }

  /** A (group, label) pair is present exactly when some entry has both, and
      its count is the sum of the counts of those entries (0 when absent). */
  lemma AggregatedCounts(agg: Aggregated, rs: seq<Record>, g: string, l: string)
    requires Summarizes(agg, rs)
    ensures (g in agg.items && l in agg.items[g].items) <==>
      exists i :: 0 <= i < |rs| && rs[i].group == g && rs[i].stepLabel == l
    ensures CountOf(agg, g, l) == TotalCount(rs, g, l)
  {
    LabelsOfMembership(rs, g, l);
    GroupsOfMembership(rs, g);
    DedupMembership(GroupsOf(rs));
    if g in agg.items {
      DedupMembership(LabelsOf(rs, g));
      if l !in agg.items[g].items {
        NoLabelNoCount(rs, g, l);
      }
    } else {
      NoGroupNoLabels(rs, g);
      NoLabelNoCount(rs, g, l);
    }
  }

  /** Two summaries of the same entries are equal, so the postcondition of
      AggregateMixData fixes the result entirely, order included. */
  lemma SummaryIsUnique(a1: Aggregated, a2: Aggregated, rs: seq<Record>)
    requires Summarizes(a1, rs) && Summarizes(a2, rs)
    ensures a1 == a2
  {
    forall g | g in a1.items
      ensures a1.items[g] == a2.items[g]
    {
      var s1, s2 := a1.items[g], a2.items[g];
      assert s1.items.Keys == s2.items.Keys;
      assert forall l :: l in s1.items ==> s1.items[l] == s2.items[l];
      assert s1.items == s2.items;
    }
    assert a1.items.Keys == a2.items.Keys;
    assert a1.items == a2.items;
  }

  lemma {:induction false} FlattenAppend(x: seq<DateBucket>, y: seq<DateBucket>)
    ensures Flatten(x + y) == Flatten(x) + Flatten(y)
    decreases |y|
  {
    if y == [] {
      assert x + y == x;
    } else {
      var init, last := y[..|y| - 1], y[|y| - 1];
      assert (x + y)[..|x + y| - 1] == x + init;
      assert (x + y)[|x + y| - 1] == last;
      assert Flatten(x + y) == Flatten(x + init) + FlattenDate(last.data);
      FlattenAppend(x, init);
      assert Flatten(y) == Flatten(init) + FlattenDate(last.data);
    }
  }

  /** A month whose data is empty contributes nothing: removing it leaves
      the flattened entries, hence the aggregation, unchanged. */
  lemma EmptyDateContributesNothing(answer: seq<DateBucket>, i: nat)
    requires i < |answer| && answer[i].data == []
    ensures Flatten(answer[..i] + answer[i + 1..]) == Flatten(answer)
  {
    var before, after := answer[..i], answer[i + 1..];
    var upTo := before + [answer[i]];
    assert answer == upTo + after;
    assert upTo[..|upTo| - 1] == before;
    assert Flatten(upTo) == Flatten(before);
    FlattenAppend(upTo, after);
    FlattenAppend(before, after);
  }
}
