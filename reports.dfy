/** The three reports of `src/backend/routes/reports.js`: the chart data with the donor
    ranking, the summary and the CSV export. None of them is authenticated and none
    writes anything. The donor grouping is the route's `forEach` over the event's pledges,
    building an insertion-ordered map from a lower-cased email to a running total. */
module Reports {
  import opened Common
  import opened EventModel
  import opened Sorting
  import EventRoutes

  /** A 404 'Event not found' or the report. */
  datatype ReportReply<T> = ReportNotFound | Report(body: T)

  // ---------------------------------------------------------------- GET /:id/visuals

  /** A pie slice; `name` is the source's `label`. */
  datatype Slice = Slice(name: string, value: int)

  /** `[{ label: 'Raised', value: total }, { label: 'Remaining', value: max(0, goal - total) }]`:
      the remainder is never negative, and the two slices make up the goal exactly while
      it is not yet reached. */
  function PieChart(goal: int, total: int): (r: seq<Slice>)
    ensures |r| == 2 && r[0].name == "Raised" && r[1].name == "Remaining"
    ensures r[0].value == total && r[1].value >= 0
    ensures total <= goal ==> r[0].value + r[1].value == goal
    ensures total >= goal ==> r[1].value == 0
  {
    [Slice("Raised", total), Slice("Remaining", Max(0, goal - total))]
  }

  /** `String.prototype.toLowerCase` on the ASCII letters. */
  function LowerChar(c: char): (d: char)
    ensures 'A' <= c <= 'Z' ==> d as int == c as int + 32
    ensures !('A' <= c <= 'Z') ==> d == c
    ensures !('A' <= d <= 'Z')
  {
    if 'A' <= c <= 'Z' then (c as int + 32) as char else c
  }

  function Lower(s: string): (r: string)
    ensures |r| == |s| && forall i :: 0 <= i < |s| ==> r[i] == LowerChar(s[i])
  {
    seq(|s|, i requires 0 <= i < |s| => LowerChar(s[i]))
  }

  /** Lower-casing is idempotent, so a grouping key is its own key. */
  lemma LowerIdempotent(s: string)
    ensures Lower(Lower(s)) == Lower(s)
  {
  }

  /** `(p.donorEmail || '').toLowerCase()`: a missing email is the empty string. */
  function DonorKey(p: Pledge): string
  {
    Lower(p.donorEmail)
  }

  /** `p.donorName || 'Anonymous'`. */
  function DonorName(p: Pledge): (n: string)
    ensures n != ""
    ensures p.donorName != "" ==> n == p.donorName
  {
    if p.donorName == "" then "Anonymous" else p.donorName
  }

  datatype DonorGroup = DonorGroup(name: string, email: string, amount: int)

  function GroupAmount(g: DonorGroup): int
  {
    g.amount
  }

  predicate DistinctEmails(groups: seq<DonorGroup>)
  {
    forall i, j :: 0 <= i < j < |groups| ==> groups[i].email != groups[j].email
  }

  /** `donorMap.get(email)`: the group of a key. */
  function FindGroup(groups: seq<DonorGroup>, key: string): (r: Option<nat>)
    ensures r.None? <==> forall i :: 0 <= i < |groups| ==> groups[i].email != key
    ensures r.Some? ==> r.value < |groups| && groups[r.value].email == key
  {
    FirstIndex(groups, (g: DonorGroup) => g.email == key)
  }

  /** One step of the `forEach`: open a group for a new key, named after this pledge, then
      add the amount to the key's group. */
  function AddDonation(groups: seq<DonorGroup>, p: Pledge): (r: seq<DonorGroup>)
    ensures DistinctEmails(groups) ==> DistinctEmails(r)
  {
    var key := DonorKey(p);
    match FindGroup(groups, key)
    case None => groups + [DonorGroup(DonorName(p), key, p.amount)]
    case Some(i) => groups[i := groups[i].(amount := groups[i].amount + p.amount)]
  }

  /** `donorMap.values()` after the `forEach` over `pledges`, in insertion order. */
  function Grouped(pledges: seq<Pledge>): (r: seq<DonorGroup>)
    ensures DistinctEmails(r)
    decreases |pledges|
  {
    if |pledges| == 0 then []
    else AddDonation(Grouped(pledges[..|pledges| - 1]), pledges[|pledges| - 1])
  }

  /** The pledges whose grouping key is `key`. */
  function FromDonor(pledges: seq<Pledge>, key: string): seq<Pledge>
  {
    Filter(pledges, (p: Pledge) => DonorKey(p) == key)
  }

  /** The first pledge with grouping key `key`. */
  function FirstFromDonor(pledges: seq<Pledge>, key: string): Option<nat>
  {
    FirstIndex(pledges, (p: Pledge) => DonorKey(p) == key)
  }

  /** What a pledge appended to the stream does to a key's pledges and to its first one. */
  lemma FromDonorAppend(pledges: seq<Pledge>, p: Pledge, key: string)
    ensures FromDonor(pledges + [p], key) == FromDonor(pledges, key) + (if DonorKey(p) == key then [p] else [])
    ensures FirstFromDonor(pledges + [p], key)
            == if FirstFromDonor(pledges, key).Some? then FirstFromDonor(pledges, key)
               else if DonorKey(p) == key then Some(|pledges|) else None
  {
    FilterAppend(pledges, p, (q: Pledge) => DonorKey(q) == key);
    FirstIndexAppend(pledges, p, (q: Pledge) => DonorKey(q) == key);
  }

  /** A key has pledges exactly when it has a first one. */
  lemma FromDonorEmpty(pledges: seq<Pledge>, key: string)
    ensures |FromDonor(pledges, key)| == 0 <==> FirstFromDonor(pledges, key).None?
  {
    var f := FromDonor(pledges, key);
    var j := FirstFromDonor(pledges, key);
    if j.Some? {
      assert multiset(f)[pledges[j.value]] == multiset(pledges)[pledges[j.value]];
      assert pledges[j.value] in multiset(pledges);
    }
    if |f| > 0 {
      assert f[0] in pledges;
    }
  }

  /** There is a group for every key that occurs in the pledges, and no other. */
  lemma {:induction false} GroupedKeys(pledges: seq<Pledge>)
    ensures forall key :: FindGroup(Grouped(pledges), key).Some? <==> FirstFromDonor(pledges, key).Some?
    decreases |pledges|
  {
    if |pledges| > 0 {
      var n := |pledges| - 1;
      var prefix := pledges[..n];
      var p := pledges[n];
      assert pledges == prefix + [p];
      GroupedKeys(prefix);
      var g := Grouped(prefix);
      var r := Grouped(pledges);
      forall key ensures FindGroup(r, key).Some? <==> FirstFromDonor(pledges, key).Some? {
        FromDonorAppend(prefix, p, key);
        AddDonationKeys(g, p, key);
      }
    }
  }

  lemma AddDonationKeys(g: seq<DonorGroup>, p: Pledge, key: string)
    ensures FindGroup(AddDonation(g, p), key).Some? <==> FindGroup(g, key).Some? || DonorKey(p) == key
  {
    var r := AddDonation(g, p);
    if FindGroup(g, key).Some? {
      assert r[FindGroup(g, key).value].email == key;
    }
    if DonorKey(p) == key {
      match FindGroup(g, key)
      case None => assert r[|g|].email == key;
      case Some(i) => assert r[i].email == key;
    }
  }

  /** The sum of the amounts of the pledges whose grouping key is `key`. */
  function DonatedBy(pledges: seq<Pledge>, key: string): int
  {
    if |pledges| == 0 then 0
    else
      var p := pledges[|pledges| - 1];
      DonatedBy(pledges[..|pledges| - 1], key) + (if DonorKey(p) == key then p.amount else 0)
  }

  /** `DonatedBy` is the total of the key's own pledges. */
  lemma {:induction false} DonatedByIsTotalFromDonor(pledges: seq<Pledge>, key: string)
    ensures DonatedBy(pledges, key) == TotalPledged(FromDonor(pledges, key))
    decreases |pledges|
  {
    if |pledges| > 0 {
      var n := |pledges| - 1;
      var p := pledges[n];
      assert pledges == pledges[..n] + [p];
      DonatedByIsTotalFromDonor(pledges[..n], key);
      FromDonorAppend(pledges[..n], p, key);
      if DonorKey(p) == key {
        TotalPledgedAppend(FromDonor(pledges[..n], key), p);
      } else {
        assert FromDonor(pledges, key) == FromDonor(pledges[..n], key);
      }
    }
  }

  /** A key without a first pledge has donated nothing. */
  lemma {:induction false} DonatedByAbsent(pledges: seq<Pledge>, key: string)
    requires FirstFromDonor(pledges, key).None?
    ensures DonatedBy(pledges, key) == 0
    decreases |pledges|
  {
    if |pledges| > 0 {
      var n := |pledges| - 1;
      var prefix := pledges[..n];
      assert pledges == prefix + [pledges[n]];
      FirstIndexAppend(prefix, pledges[n], (q: Pledge) => DonorKey(q) == key);
      assert FirstFromDonor(prefix, key).None? && DonorKey(pledges[n]) != key;
      DonatedByAbsent(prefix, key);
    }
  }

  /** Each group holds the sum of the amounts of exactly the pledges with its key. */
  lemma {:induction false} GroupedAmounts(pledges: seq<Pledge>)
    ensures var r := Grouped(pledges);
            forall i :: 0 <= i < |r| ==> r[i].amount == DonatedBy(pledges, r[i].email)
    decreases |pledges|
  {
    if |pledges| > 0 {
      var n := |pledges| - 1;
      var prefix := pledges[..n];
      var p := pledges[n];
      assert pledges == prefix + [p];
      GroupedAmounts(prefix);
      GroupedKeys(prefix);
      var g := Grouped(prefix);
      var key := DonorKey(p);
      if FindGroup(g, key).None? {
        DonatedByAbsent(prefix, key);
      }
      forall i | 0 <= i < |g| ensures g[i].amount == DonatedBy(prefix, g[i].email) {
        assert Grouped(prefix)[i].amount == DonatedBy(prefix, Grouped(prefix)[i].email);
      }
      AddDonationAmounts(g, prefix, p);
    }
  }

  lemma AddDonationAmounts(g: seq<DonorGroup>, prefix: seq<Pledge>, p: Pledge)
    requires DistinctEmails(g)
    requires forall i :: 0 <= i < |g| ==> g[i].amount == DonatedBy(prefix, g[i].email)
    requires FindGroup(g, DonorKey(p)).None? ==> DonatedBy(prefix, DonorKey(p)) == 0
    ensures var r := AddDonation(g, p);
            forall i :: 0 <= i < |r| ==> r[i].amount == DonatedBy(prefix + [p], r[i].email)
  {
    var r := AddDonation(g, p);
    var ps := prefix + [p];
    assert ps[..|ps| - 1] == prefix && ps[|ps| - 1] == p;
    forall i | 0 <= i < |r| ensures r[i].amount == DonatedBy(ps, r[i].email) {
      if r[i].email != DonorKey(p) {
        AddDonationElsewhere(g, p, i);
      }
    }
  }

  lemma AddDonationElsewhere(g: seq<DonorGroup>, p: Pledge, i: nat)
    requires i < |AddDonation(g, p)|
    requires AddDonation(g, p)[i].email != DonorKey(p)
    ensures i < |g| && AddDonation(g, p)[i] == g[i]
  {
  }

  /** `p.donorName || 'Anonymous'` of the first pledge whose grouping key is `key`. */
  function FirstName(pledges: seq<Pledge>, key: string): Option<string>
  {
    if |pledges| == 0 then None
    else
      var p := pledges[|pledges| - 1];
      var earlier := FirstName(pledges[..|pledges| - 1], key);
      if earlier.Some? then earlier else if DonorKey(p) == key then Some(DonorName(p)) else None
  }

  /** `FirstName` is the name of the pledge `FirstFromDonor` finds. */
  lemma {:induction false} FirstNameIsFirstDonor(pledges: seq<Pledge>, key: string)
    ensures FirstName(pledges, key).Some? <==> FirstFromDonor(pledges, key).Some?
    ensures FirstName(pledges, key).Some? ==>
              FirstName(pledges, key).value == DonorName(pledges[FirstFromDonor(pledges, key).value])
    decreases |pledges|
  {
    if |pledges| > 0 {
      var n := |pledges| - 1;
      FirstNameIsFirstDonor(pledges[..n], key);
      FromDonorAppend(pledges[..n], pledges[n], key);
      assert pledges == pledges[..n] + [pledges[n]];
      if FirstFromDonor(pledges[..n], key).Some? {
        var j := FirstFromDonor(pledges[..n], key).value;
        assert pledges[j] == pledges[..n][j];
      }
    }
  }

  /** Each group is named after the first pledge with its key. */
  lemma {:induction false} GroupedNames(pledges: seq<Pledge>)
    ensures var r := Grouped(pledges);
            forall i :: 0 <= i < |r| ==> FirstName(pledges, r[i].email) == Some(r[i].name)
    decreases |pledges|
  {
    if |pledges| > 0 {
      var n := |pledges| - 1;
      var prefix := pledges[..n];
      var p := pledges[n];
      assert pledges == prefix + [p];
      GroupedNames(prefix);
      GroupedKeys(prefix);
      var g := Grouped(prefix);
      forall i | 0 <= i < |g| ensures FirstName(prefix, g[i].email) == Some(g[i].name) {
        assert FirstName(prefix, Grouped(prefix)[i].email) == Some(Grouped(prefix)[i].name);
      }
      if FindGroup(g, DonorKey(p)).None? {
        FirstNameIsFirstDonor(prefix, DonorKey(p));
      }
      AddDonationNames(g, prefix, p);
    }
  }

  lemma AddDonationNames(g: seq<DonorGroup>, prefix: seq<Pledge>, p: Pledge)
    requires forall i :: 0 <= i < |g| ==> FirstName(prefix, g[i].email) == Some(g[i].name)
    requires FindGroup(g, DonorKey(p)).None? ==> FirstName(prefix, DonorKey(p)).None?
    ensures var r := AddDonation(g, p);
            forall i :: 0 <= i < |r| ==> FirstName(prefix + [p], r[i].email) == Some(r[i].name)
  {
    var r := AddDonation(g, p);
    var ps := prefix + [p];
    assert ps[..|ps| - 1] == prefix && ps[|ps| - 1] == p;
    forall i | 0 <= i < |r| ensures FirstName(ps, r[i].email) == Some(r[i].name) {
      if i < |g| {
        assert r[i].name == g[i].name && r[i].email == g[i].email;
      }
    }
  }

  /** The group totals add up to the event's total, so the ranking neither loses nor
      double-counts an amount. */
  lemma {:induction false} GroupedPreservesTotal(pledges: seq<Pledge>)
    ensures SumOf(Grouped(pledges), GroupAmount) == TotalPledged(pledges)
    decreases |pledges|
  {
    if |pledges| > 0 {
      var n := |pledges| - 1;
      var p := pledges[n];
      var g := Grouped(pledges[..n]);
      GroupedPreservesTotal(pledges[..n]);
      assert TotalPledged(pledges) == TotalPledged(pledges[..n]) + p.amount;
      AddDonationAddsAmount(g, p);
    }
  }

  lemma AddDonationAddsAmount(g: seq<DonorGroup>, p: Pledge)
    ensures SumOf(AddDonation(g, p), GroupAmount) == SumOf(g, GroupAmount) + p.amount
  {
    match FindGroup(g, DonorKey(p))
    case None =>
      var x := DonorGroup(DonorName(p), DonorKey(p), p.amount);
      assert (g + [x])[..|g|] == g;
    case Some(i) =>
      SumOfUpdate(g, i, g[i].(amount := g[i].amount + p.amount), GroupAmount);
  }

  /** The `forEach` of the route. `index` is `donorMap` with each entry's position in the
      insertion order in place of the entry itself. */
  method GroupDonors(pledges: seq<Pledge>) returns (groups: seq<DonorGroup>)
    ensures groups == Grouped(pledges)
  {
    var index: map<string, nat> := map[];
    groups := [];
    var k := 0;
    while k < |pledges|
      invariant 0 <= k <= |pledges|
      invariant groups == Grouped(pledges[..k])
      invariant Indexes(index, groups)
    {
      index, groups := CountDonation(index, groups, pledges[k]);
      GroupedStep(pledges, k);
      k := k + 1;
    }
    assert pledges[..k] == pledges;
  }

  /** The `forEach` callback on one pledge: open the key's group with amount 0 when the
      key is new, then add the pledge's amount to it. */
  method CountDonation(index: map<string, nat>, groups: seq<DonorGroup>, p: Pledge)
    returns (index': map<string, nat>, groups': seq<DonorGroup>)
    requires Indexes(index, groups)
    ensures groups' == AddDonation(groups, p)
    ensures Indexes(index', groups')
  {
    var email := Lower(p.donorEmail);
    index', groups' := index, groups;
    if email !in index' {
      OpenStep(index', groups', DonorGroup(DonorName(p), email, 0));
      index' := index'[email := |groups'|];
      groups' := groups' + [DonorGroup(DonorName(p), email, 0)];
    }
    var i := index'[email];
    ghost var mid := groups';
    AddStep(index', groups', i, groups'[i].(amount := groups'[i].amount + p.amount));
    groups' := groups'[i := groups'[i].(amount := groups'[i].amount + p.amount)];
    DonationStep(groups, p, mid, i);
  }

  /** `index` maps each key with a group to that group's position, and has no other key. */
  ghost predicate Indexes(index: map<string, nat>, groups: seq<DonorGroup>)
  {
    && (forall key :: key in index <==> FindGroup(groups, key).Some?)
    && (forall key :: key in index ==> index[key] == FindGroup(groups, key).value)
  }

  lemma OpenStep(index: map<string, nat>, groups: seq<DonorGroup>, x: DonorGroup)
    requires Indexes(index, groups) && x.email !in index
    ensures Indexes(index[x.email := |groups|], groups + [x])
  {
    OpenGroup(groups, x);
  }

  lemma AddStep(index: map<string, nat>, groups: seq<DonorGroup>, i: nat, x: DonorGroup)
    requires Indexes(index, groups) && i < |groups| && x.email == groups[i].email
    ensures Indexes(index, groups[i := x])
  {
    AddToGroup(groups, i, x);
  }

  /** One turn of the loop: open the key's group with amount 0 when it is new, then add
      the amount at the group's position; together that is one `AddDonation`. */
  lemma DonationStep(before: seq<DonorGroup>, p: Pledge, mid: seq<DonorGroup>, i: nat)
    requires FindGroup(before, DonorKey(p)).None? ==>
               mid == before + [DonorGroup(DonorName(p), DonorKey(p), 0)] && i == |before|
    requires FindGroup(before, DonorKey(p)).Some? ==> mid == before && i == FindGroup(before, DonorKey(p)).value
    ensures i < |mid| && mid[i := mid[i].(amount := mid[i].amount + p.amount)] == AddDonation(before, p)
  {
  }

  lemma GroupedStep(pledges: seq<Pledge>, k: nat)
    requires k < |pledges|
    ensures Grouped(pledges[..k + 1]) == AddDonation(Grouped(pledges[..k]), pledges[k])
  {
    assert pledges[..k + 1][..k] == pledges[..k];
  }

  /** Opening a group for a new key finds it at the end and moves no other key. */
  lemma OpenGroup(groups: seq<DonorGroup>, x: DonorGroup)
    requires FindGroup(groups, x.email).None?
    ensures forall key :: FindGroup(groups + [x], key) == if key == x.email then Some(|groups|) else FindGroup(groups, key)
  {
    forall key ensures FindGroup(groups + [x], key) == if key == x.email then Some(|groups|) else FindGroup(groups, key) {
      FirstIndexAppend(groups, x, (g: DonorGroup) => g.email == key);
    }
  }

  /** Adding to a group's amount moves no key. */
  lemma AddToGroup(groups: seq<DonorGroup>, i: nat, x: DonorGroup)
    requires i < |groups| && x.email == groups[i].email
    ensures forall key :: FindGroup(groups[i := x], key) == FindGroup(groups, key)
  {
    forall key ensures FindGroup(groups[i := x], key) == FindGroup(groups, key) {
      GroupsSameKeys(groups, groups[i := x], key);
    }
  }

  lemma GroupsSameKeys(s: seq<DonorGroup>, t: seq<DonorGroup>, key: string)
    requires |s| == |t| && forall k :: 0 <= k < |s| ==> s[k].email == t[k].email
    ensures FindGroup(s, key) == FindGroup(t, key)
  {
  }

  /** `.sort((a, b) => b.amount - a.amount).slice(0, 5)`. */
  function TopDonors(groups: seq<DonorGroup>): (r: seq<DonorGroup>)
    ensures |r| == if |groups| < 5 then |groups| else 5
    ensures SortedDesc(r, GroupAmount)
  {
    Take(SortDesc(groups, GroupAmount), 5)
  }

  /** The ranking holds groups only, and no group left out has more than one ranked. */
  lemma TopDonorsAreTheLargest(groups: seq<DonorGroup>)
    ensures var r := TopDonors(groups);
            && (forall i :: 0 <= i < |r| ==> r[i] in groups)
            && (forall g :: g in groups && g !in r ==> forall i :: 0 <= i < |r| ==> g.amount <= r[i].amount)
  {
    var sorted := SortDesc(groups, GroupAmount);
    var r := TopDonors(groups);
    assert r == sorted[..|r|];
    forall i | 0 <= i < |r| ensures r[i] in groups {
      assert r[i] == sorted[i];
      assert sorted[i] in multiset(sorted);
    }
    forall g | g in groups && g !in r
      ensures forall i :: 0 <= i < |r| ==> g.amount <= r[i].amount
    {
      assert g in multiset(sorted);
      var j :| 0 <= j < |sorted| && sorted[j] == g;
      assert j >= |r|;
      forall i | 0 <= i < |r| ensures g.amount <= r[i].amount {
        assert r[i] == sorted[i];
        assert GroupAmount(sorted[i]) >= GroupAmount(sorted[j]);
      }
    }
  }

  /** Distinct emails stay distinct in the ranking. */
  lemma TopDonorsDistinct(groups: seq<DonorGroup>)
    requires DistinctEmails(groups)
    ensures DistinctEmails(TopDonors(groups))
  {
    var sorted := SortDesc(groups, GroupAmount);
    var r := TopDonors(groups);
    forall i, j | 0 <= i < j < |r| ensures r[i].email != r[j].email {
      assert r[i] == sorted[i] && r[j] == sorted[j];
      PermutationKeepsDistinctEmails(groups, sorted, i, j);
    }
  }

  lemma PermutationKeepsDistinctEmails(s: seq<DonorGroup>, t: seq<DonorGroup>, i: nat, j: nat)
    requires DistinctEmails(s) && multiset(s) == multiset(t)
    requires i < j < |t|
    ensures t[i].email != t[j].email
  {
    if t[i] == t[j] {
      assert t == t[..i] + [t[i]] + t[i + 1..j] + [t[j]] + t[j + 1..];
      assert multiset(t)[t[i]] >= 2;
      AtMostOnce(s, t[i]);
    } else {
      assert t[i] in multiset(s) && t[j] in multiset(s);
      var a :| 0 <= a < |s| && s[a] == t[i];
      var b :| 0 <= b < |s| && s[b] == t[j];
    }
  }

  lemma {:induction false} AtMostOnce(s: seq<DonorGroup>, x: DonorGroup)
    requires DistinctEmails(s)
    ensures multiset(s)[x] <= 1
    decreases |s|
  {
    if |s| > 0 {
      var n := |s| - 1;
      assert s == s[..n] + [s[n]];
      AtMostOnce(s[..n], x);
      if s[n] == x {
        assert x !in s[..n];
      }
    }
  }

  datatype Visuals = Visuals(pieChartData: seq<Slice>, topDonors: seq<DonorGroup>)

  /** `GET /:id/visuals`. */
  method ChartData(events: seq<Event>, pledges: seq<Pledge>, id: EventId) returns (r: ReportReply<Visuals>)
    ensures r == ReportNotFound <==> FindEvent(events, id).None?
    ensures r.Report? ==>
              var ps := PledgesOf(pledges, id);
              && r.body.pieChartData == PieChart(events[FindEvent(events, id).value].targetGoal, TotalPledged(ps))
              && r.body.topDonors == TopDonors(Grouped(ps))
  {
    var found := FindEvent(events, id);
    if found.None? {
      return ReportNotFound;
    }
    var event := events[found.value];
    var ps := PledgesOf(pledges, id);
    var total := TotalPledged(ps);
    var pie := PieChart(event.targetGoal, total);
    var groups := GroupDonors(ps);
    r := Report(Visuals(pie, TopDonors(groups)));
  }

  // ---------------------------------------------------------------- GET /:id/summary

  datatype Summary = Summary(title: string, description: string, status: string, targetGoal: int,
                             totalPledged: int, pledgeCount: nat, progress: real)

  /** `event.targetGoal > 0 ? (total / event.targetGoal) * 100 : 0`. */
  function SummaryProgress(total: int, goal: int): (p: real)
    ensures goal <= 0 ==> p == 0.0
    ensures goal > 0 ==> p * (goal as real) == (total as real) * 100.0
  {
    if goal > 0 then (total as real / goal as real) * 100.0 else 0.0
  }

  function EventSummary(events: seq<Event>, pledges: seq<Pledge>, id: EventId): (r: ReportReply<Summary>)
    ensures r == ReportNotFound <==> FindEvent(events, id).None?
    ensures r.Report? ==>
              var e := events[FindEvent(events, id).value];
              && r.body.title == e.title && r.body.description == e.description
              && r.body.status == StatusName(e.status) && r.body.targetGoal == e.targetGoal
              && r.body.pledgeCount == |PledgesOf(pledges, id)|
              && r.body.totalPledged == TotalPledged(PledgesOf(pledges, id))
              && r.body.progress == SummaryProgress(r.body.totalPledged, e.targetGoal)
  {
    match FindEvent(events, id)
    case None => ReportNotFound
    case Some(i) =>
      var e := events[i];
      var ps := PledgesOf(pledges, id);
      var total := TotalPledged(ps);
      Report(Summary(e.title, e.description, StatusName(e.status), e.targetGoal, total, |ps|,
                     SummaryProgress(total, e.targetGoal)))
  }

  /** The summary and the event page agree on the total, the count and, for a positive
      goal, the progress; for a negative goal the page's truthiness guard computes a ratio
      where the summary reports 0. */
  lemma SummaryMatchesEventPage(events: seq<Event>, pledges: seq<Pledge>, id: EventId)
    requires FindEvent(events, id).Some?
    ensures var s := EventSummary(events, pledges, id).body;
            var d := EventRoutes.SingleEvent(events, pledges, id);
            && s.totalPledged == d.totalPledged && s.pledgeCount == d.pledgeCount
            && (d.event.targetGoal > 0 ==> s.progress == d.progress)
            && (d.event.targetGoal < 0 && d.totalPledged != 0 ==> s.progress == 0.0 && d.progress != 0.0)
  {
  }

  // ---------------------------------------------------------------- GET /:id/csv

  datatype CsvRow = CsvRow(donorName: string, donorEmail: string, amount: int, date: int)

  /** 404 'No pledges found for this event.' or the rows; the event itself is never looked
      up, so the pledges of a deleted event still export. */
  datatype CsvReply = NoPledges | Csv(rows: seq<CsvRow>)

  function CsvExport(pledges: seq<Pledge>, id: EventId): (r: CsvReply)
    ensures r == NoPledges <==> |PledgesOf(pledges, id)| == 0
    ensures r.Csv? ==>
              var ps := PledgesOf(pledges, id);
              && |r.rows| == |ps|
              && forall i :: 0 <= i < |ps| ==>
                   r.rows[i] == CsvRow(ps[i].donorName, ps[i].donorEmail, ps[i].amount, ps[i].date)
  {
    var ps := PledgesOf(pledges, id);
    if |ps| == 0 then NoPledges
    else Csv(seq(|ps|, i requires 0 <= i < |ps| => CsvRow(ps[i].donorName, ps[i].donorEmail, ps[i].amount, ps[i].date)))
  }
}
