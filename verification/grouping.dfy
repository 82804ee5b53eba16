/** The `reduce` that groups a list into a record keyed by a string, as
    get_all_events does by visibility and by event type and get_all_event_guests
    and get_event_summary do by approval status; `Object.entries` then lists the
    groups in the order their keys were first added. */
module Grouping {
  import opened LumaTypes
  import opened EventDisplay

  predicate Distinct(ks: seq<string>) {
    forall i, j :: 0 <= i < j < |ks| ==> ks[i] != ks[j]
  }

  /** The keys in the order of their first occurrence, each once. */
  function FirstOccurrences(ks: seq<string>): (r: seq<string>)
    ensures forall k :: k in r <==> k in ks
    ensures Distinct(r)
  {
    if ks == [] then []
    else
      var pre := FirstOccurrences(ks[..|ks| - 1]);
      var last := ks[|ks| - 1];
      assert forall k :: k in ks <==> k in ks[..|ks| - 1] || k == last by {
        assert ks == ks[..|ks| - 1] + [last];
      }
      if last in pre then pre else pre + [last]
  }

  /** The first position of a key. */
  function IndexOf(ks: seq<string>, k: string): (i: nat)
    requires k in ks
    ensures i < |ks| && ks[i] == k && k !in ks[..i]
  {
    if ks[0] == k then 0
    else
      var i := IndexOf(ks[1..], k) + 1;
      assert ks[..i] == [ks[0]] + ks[1..][..i - 1];
      i
  }

  /** The elements whose key is `k`, in their original order. */
  function Members<T>(xs: seq<T>, key: T -> string, k: string): (r: seq<T>)
    ensures |r| <= |xs|
    ensures forall i :: 0 <= i < |r| ==> key(r[i]) == k
  {
    if xs == [] then []
    else Members(xs[..|xs| - 1], key, k) + (if key(xs[|xs| - 1]) == k then [xs[|xs| - 1]] else [])
  }

  /** The sum of the group sizes over some keys. */
  function Total<T>(order: seq<string>, xs: seq<T>, key: T -> string): nat {
    if order == [] then 0 else |Members(xs, key, order[0])| + Total(order[1..], xs, key)
  }

  /** `acc[key] = acc[key] || []; acc[key].push(x)` over the whole list. The
      record is the map together with the order in which its keys were added. */
  method GroupBy<T>(xs: seq<T>, key: T -> string) returns (order: seq<string>, groups: map<string, seq<T>>)
    ensures order == FirstOccurrences(Map(xs, key))
    ensures forall k :: k in groups <==> k in order
    ensures forall k :: k in groups ==> groups[k] == Members(xs, key, k)
  {
    order := [];
    groups := map[];
    for i := 0 to |xs|
      invariant GroupedUpTo(xs, i, key, order, groups)
    {
      var k := key(xs[i]);
      ghost var order0, groups0 := order, groups;
      if k !in groups {
        order := order + [k];
        groups := groups[k := []];
      }
      ghost var added := groups;
      groups := groups[k := groups[k] + [xs[i]]];
      GroupByStep(xs, i, key, order0, groups0, order, added, groups);
    }
    assert xs[..|xs|] == xs;
  }

  /** The loop invariant of `GroupBy`: the keys and groups of the first `i`
      elements. */
  ghost predicate GroupedUpTo<T>(xs: seq<T>, i: nat, key: T -> string, order: seq<string>, groups: map<string, seq<T>>)
    requires i <= |xs|
  {
    && order == FirstOccurrences(Map(xs[..i], key))
    && (forall k :: k in groups <==> k in order)
    && (forall k :: k in groups ==> groups[k] == Members(xs[..i], key, k))
  }

  /** One turn of the `GroupBy` loop keeps its invariant. */
  lemma GroupByStep<T>(xs: seq<T>, i: nat, key: T -> string, order: seq<string>, groups: map<string, seq<T>>,
                       order': seq<string>, added: map<string, seq<T>>, groups': map<string, seq<T>>)
    requires i < |xs| && GroupedUpTo(xs, i, key, order, groups)
    requires var k := key(xs[i]);
      && order' == (if k in groups then order else order + [k])
      && added == (if k in groups then groups else groups[k := []])
      && groups' == added[k := added[k] + [xs[i]]]
    ensures GroupedUpTo(xs, i + 1, key, order', groups')
  {
    GroupStep(xs, i, key);
    forall other | other in groups'
      ensures groups'[other] == Members(xs[..i + 1], key, other)
    {
      GroupOfStep(xs, i, key, groups, added, groups', other);
    }
  }

  /** The group of one key after one turn of the `GroupBy` loop. */
  lemma GroupOfStep<T>(xs: seq<T>, i: nat, key: T -> string, groups: map<string, seq<T>>,
                       added: map<string, seq<T>>, groups': map<string, seq<T>>, other: string)
    requires i < |xs|
    requires forall k :: k in groups ==> groups[k] == Members(xs[..i], key, k)
    requires forall k :: k in Map(xs[..i], key) ==> k in groups
    requires var k := key(xs[i]);
      && added == (if k in groups then groups else groups[k := []])
      && groups' == added[k := added[k] + [xs[i]]]
    requires other in groups'
    ensures groups'[other] == Members(xs[..i + 1], key, other)
  {
    var k := key(xs[i]);
    assert Members(xs[..i + 1], key, other) == Members(xs[..i], key, other) + (if k == other then [xs[i]] else []) by {
      GroupStep(xs, i, key);
    }
    if other == k && k !in groups {
      MembersOfAbsentKey(xs[..i], key, k);
    }
  }

  /** What one more element adds to the keys and to the groups. */
  lemma GroupStep<T>(xs: seq<T>, i: nat, key: T -> string)
    requires i < |xs|
    ensures var pre := FirstOccurrences(Map(xs[..i], key));
      FirstOccurrences(Map(xs[..i + 1], key)) == if key(xs[i]) in pre then pre else pre + [key(xs[i])]
    ensures forall k ::
      Members(xs[..i + 1], key, k) == Members(xs[..i], key, k) + (if key(xs[i]) == k then [xs[i]] else [])
  {
    assert Map(xs[..i + 1], key) == Map(xs[..i], key) + [key(xs[i])];
    assert xs[..i + 1][..i] == xs[..i];
  }

  /** The size of a group is the number of elements with that key. */
  lemma {:induction false} MembersCount<T>(xs: seq<T>, key: T -> string, k: string)
    ensures |Members(xs, key, k)| == multiset(Map(xs, key))[k]
  {
    if xs != [] {
      var init := xs[..|xs| - 1];
      MembersCount(init, key, k);
      assert Map(xs, key) == Map(init, key) + [key(xs[|xs| - 1])];
    }
  }

  /** Adding one element adds one to the group of its key and nothing to the
      others. */
  lemma {:induction false} TotalSnoc<T>(order: seq<string>, xs: seq<T>, x: T, key: T -> string)
    requires Distinct(order)
    ensures Total(order, xs + [x], key) == Total(order, xs, key) + (if key(x) in order then 1 else 0)
  {
    if order != [] {
      assert (xs + [x])[..|xs + [x]| - 1] == xs;
      assert Distinct(order[1..]) by {
        forall i, j | 0 <= i < j < |order[1..]|
          ensures order[1..][i] != order[1..][j]
        {
          assert order[1..][i] == order[i + 1] && order[1..][j] == order[j + 1];
        }
      }
      TotalSnoc(order[1..], xs, x, key);
      assert key(x) in order <==> key(x) == order[0] || key(x) in order[1..] by {
        assert order == [order[0]] + order[1..];
      }
      if key(x) == order[0] {
        assert key(x) !in order[1..] by {
          forall j | 0 <= j < |order[1..]|
            ensures order[1..][j] != key(x)
          {
            assert order[1..][j] == order[j + 1];
          }
        }
      }
    }
  }

  /** A key appended at the end adds its group. */
  lemma {:induction false} TotalAppend<T>(order: seq<string>, k: string, xs: seq<T>, key: T -> string)
    ensures Total(order + [k], xs, key) == Total(order, xs, key) + |Members(xs, key, k)|
  {
    if order != [] {
      assert (order + [k])[1..] == order[1..] + [k];
      TotalAppend(order[1..], k, xs, key);
    }
  }

  /** No element has a key that does not occur among the keys. */
  lemma {:induction false} MembersOfAbsentKey<T>(xs: seq<T>, key: T -> string, k: string)
    requires k !in Map(xs, key)
    ensures Members(xs, key, k) == []
  {
    if xs != [] {
      var init := xs[..|xs| - 1];
      assert Map(xs, key) == Map(init, key) + [key(xs[|xs| - 1])];
      MembersOfAbsentKey(init, key, k);
    }
  }

  /** The groups partition the list: their sizes add up to its length. */
  lemma {:induction false} GroupsPartition<T>(xs: seq<T>, key: T -> string)
    ensures Total(FirstOccurrences(Map(xs, key)), xs, key) == |xs|
  {
    if xs != [] {
      var init := xs[..|xs| - 1];
      var x := xs[|xs| - 1];
      assert xs == init + [x];
      assert Map(xs, key) == Map(init, key) + [key(x)];
      var pre := FirstOccurrences(Map(init, key));
      GroupsPartition(init, key);
      TotalSnoc(pre, init, x, key);
      if key(x) !in pre {
        TotalAppend(pre, key(x), xs, key);
        TotalSnoc(pre, init, x, key);
        MembersOfAbsentKey(init, key, key(x));
        assert Members(xs, key, key(x)) == [x];
      }
    }
  }

  /** The keys are listed in the order of their first occurrence. */
  lemma {:induction false} FirstOccurrencesOrder(ks: seq<string>, i: nat, j: nat)
    requires i < j < |FirstOccurrences(ks)|
    ensures FirstOccurrences(ks)[i] in ks && FirstOccurrences(ks)[j] in ks
    ensures IndexOf(ks, FirstOccurrences(ks)[i]) < IndexOf(ks, FirstOccurrences(ks)[j])
  {
    var init := ks[..|ks| - 1];
    var pre := FirstOccurrences(init);
    var r := FirstOccurrences(ks);
    assert ks == init + [ks[|ks| - 1]];
    assert forall k :: k in init ==> IndexOf(ks, k) == IndexOf(init, k) by {
      forall k | k in init
        ensures IndexOf(ks, k) == IndexOf(init, k)
      {
        var a := IndexOf(init, k);
        assert ks[a] == k;
        assert ks[..a] == init[..a];
        IndexOfUnique(ks, k, a);
      }
    }
    if j < |pre| {
      FirstOccurrencesOrder(init, i, j);
    } else {
      assert r[j] == ks[|ks| - 1] && r[j] !in init;
      assert IndexOf(ks, r[j]) == |ks| - 1 by {
        IndexOfUnique(ks, r[j], |ks| - 1);
      }
      assert r[i] == pre[i] && r[i] in init;
    }
  }

  /** The first position is the only one before which the key does not occur. */
  lemma IndexOfUnique(ks: seq<string>, k: string, a: nat)
    requires a < |ks| && ks[a] == k && k !in ks[..a]
    ensures IndexOf(ks, k) == a
  {
  }

  // ---------------------------------------------------------------------------
  // The keys the tools group by

  /** `eventEntry.event.visibility || "public"` */
  function VisibilityKey(entry: EventSummary): (k: string)
    ensures k == "public" <==> !Truthy(entry.event.visibility) || entry.event.visibility.value == "public"
    ensures Truthy(entry.event.visibility) ==> k == entry.event.visibility.value
  {
    Or(entry.event.visibility, "public")
  }

  /** The event type of a listed event. */
  function TypeKey(entry: EventSummary): (k: string)
    ensures ParseTypeName(k) == Some(EventTypeOf(entry.event))
  {
    TypeNameRoundTrip(EventTypeOf(entry.event));
    TypeName(EventTypeOf(entry.event))
  }

  /** `Object.entries(groups).map(([key, xs]) => [key, xs.length])` */
  function Counts<T>(order: seq<string>, groups: map<string, seq<T>>): (r: seq<(string, nat)>)
    requires forall k :: k in order ==> k in groups
    ensures |r| == |order|
    ensures forall i :: 0 <= i < |order| ==> r[i] == (order[i], |groups[order[i]]|)
  {
    seq(|order|, i requires 0 <= i < |order| => (order[i], |groups[order[i]]|))
  }

  /** The sum of the figures of a summary. */
  function SumOfCounts(cs: seq<(string, nat)>): nat {
    if cs == [] then 0 else cs[0].1 + SumOfCounts(cs[1..])
  }

  /** Counting groups that hold the members of their keys adds up their sizes. */
  lemma {:induction false} SumOfCountsTotal<T>(order: seq<string>, groups: map<string, seq<T>>, xs: seq<T>, key: T -> string)
    requires forall k :: k in order ==> k in groups && groups[k] == Members(xs, key, k)
    ensures SumOfCounts(Counts(order, groups)) == Total(order, xs, key)
  {
    if order != [] {
      assert Counts(order, groups)[1..] == Counts(order[1..], groups);
      SumOfCountsTotal(order[1..], groups, xs, key);
    }
  }

  /** The figures of a grouped summary: group the list, then count each group.
      There is one figure per key in the order the keys first occur, each the
      number of elements with that key, none of them zero, and together they
      add up to the length of the list. */
  method CountGroups<T>(xs: seq<T>, key: T -> string) returns (counts: seq<(string, nat)>)
    ensures Map(counts, (c: (string, nat)) => c.0) == FirstOccurrences(Map(xs, key))
    ensures forall i :: 0 <= i < |counts| ==> counts[i].1 == multiset(Map(xs, key))[counts[i].0] > 0
    ensures SumOfCounts(counts) == |xs|
  {
    var order, groups := GroupBy(xs, key);
    counts := Counts(order, groups);
    forall i | 0 <= i < |counts|
      ensures counts[i].1 == multiset(Map(xs, key))[counts[i].0] > 0
    {
      MembersCount(xs, key, order[i]);
    }
    SumOfCountsTotal(order, groups, xs, key);
    GroupsPartition(xs, key);
  }

  /** Every count is the number of elements with that key, every key with an
      element gets a count, and the counts add up to the length of the list. */
  lemma CountsOfGroupBy<T>(xs: seq<T>, key: T -> string, k: string)
    ensures Total(FirstOccurrences(Map(xs, key)), xs, key) == |xs|
    ensures k in FirstOccurrences(Map(xs, key)) <==> multiset(Map(xs, key))[k] > 0
    ensures |Members(xs, key, k)| == multiset(Map(xs, key))[k]
  {
    GroupsPartition(xs, key);
    MembersCount(xs, key, k);
  }
}
