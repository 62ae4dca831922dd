/** The day grouping of the displayed feed (pages/AnalyticsPage.tsx, `groupedActivities`
    and the `Object.entries` that renders it). Each item gets a day label from its
    timestamp ("Today", "Yesterday" or a locale date); the reduce pushes the item onto
    the list under that label, creating the list the first time the label appears.
    The labelling depends on the clock and the locale, so it is a parameter `day`. */
module DayGrouping {
  import opened Sorting
  import opened ActivityFeed

  /** The day label of an item. */
  function LabelOf(day: int -> string, a: ActivityItem): string
  {
    day(a.timestamp)
  }

  /** The labels in order of first appearance (the key order of the accumulator object). */
  function Keys(items: seq<ActivityItem>, day: int -> string): seq<string>
  {
    if items == [] then []
    else
      var keys := Keys(items[..|items| - 1], day);
      var k := LabelOf(day, items[|items| - 1]);
      if k in keys then keys else keys + [k]
  }

  /** The items labelled `k`, in their order in `items` (the list under key `k`). */
  function Members(items: seq<ActivityItem>, day: int -> string, k: string): seq<ActivityItem>
  {
    if items == [] then []
    else
      Members(items[..|items| - 1], day, k) +
      (if LabelOf(day, items[|items| - 1]) == k then [items[|items| - 1]] else [])
  }

  /** One rendered group: its label and its items. */
  datatype Group = Group(dayLabel: string, items: seq<ActivityItem>)

  function GroupsFor(keys: seq<string>, items: seq<ActivityItem>, day: int -> string): (r: seq<Group>)
    ensures |r| == |keys|
    ensures forall j :: 0 <= j < |keys| ==> r[j] == Group(keys[j], Members(items, day, keys[j]))
  {
    if keys == [] then [] else [Group(keys[0], Members(items, day, keys[0]))] + GroupsFor(keys[1..], items, day)
  }

  /** `Object.entries(groupedActivities)`: the groups in order of first appearance. */
  function Grouped(items: seq<ActivityItem>, day: int -> string): seq<Group>
  {
    GroupsFor(Keys(items, day), items, day)
  }

  /** The reduce over the displayed items, then `Object.entries`. The accumulator is a
      map from label to list plus the order in which labels were added. */
  method GroupByDay(items: seq<ActivityItem>, day: int -> string) returns (groups: seq<Group>)
    ensures groups == Grouped(items, day)
  {
    var keys: seq<string> := [];
    var acc: map<string, seq<ActivityItem>> := map[];
    for i := 0 to |items|
      invariant keys == Keys(items[..i], day)
      invariant forall k :: k in acc <==> k in keys
      invariant forall k :: k in acc ==> acc[k] == Members(items[..i], day, k)
    {
      var key := LabelOf(day, items[i]);
      if key !in acc {
        MembersOfAbsent(items[..i], day, key);
        acc := acc[key := []];
        keys := keys + [key];
      }
      acc := acc[key := acc[key] + [items[i]]];
      PrefixSnoc(items, i, day);
    }
    assert items[..|items|] == items;
    groups := Entries(keys, acc, items, day);
  }

  lemma PrefixSnoc(items: seq<ActivityItem>, i: nat, day: int -> string)
    requires i < |items|
    ensures Keys(items[..i + 1], day) ==
            if LabelOf(day, items[i]) in Keys(items[..i], day) then Keys(items[..i], day)
            else Keys(items[..i], day) + [LabelOf(day, items[i])]
    ensures forall k :: Members(items[..i + 1], day, k) ==
                        Members(items[..i], day, k) + (if k == LabelOf(day, items[i]) then [items[i]] else [])
  {
    assert items[..i + 1][..i] == items[..i];
  }

  /** `Object.entries` of the accumulator: its lists in key insertion order. */
  method Entries(keys: seq<string>, acc: map<string, seq<ActivityItem>>, items: seq<ActivityItem>, day: int -> string)
    returns (groups: seq<Group>)
    requires forall k :: k in keys ==> k in acc && acc[k] == Members(items, day, k)
    ensures groups == GroupsFor(keys, items, day)
  {
    groups := [];
    for j := 0 to |keys|
      invariant groups == GroupsFor(keys[..j], items, day)
    {
      groups := groups + [Group(keys[j], acc[keys[j]])];
      GroupsForSnoc(keys[..j], keys[j], items, day);
      assert keys[..j + 1] == keys[..j] + [keys[j]];
    }
    assert keys[..|keys|] == keys;
  }

  lemma GroupsForSnoc(keys: seq<string>, k: string, items: seq<ActivityItem>, day: int -> string)
    ensures GroupsFor(keys + [k], items, day) == GroupsFor(keys, items, day) + [Group(k, Members(items, day, k))]
  {
  }

  /** Every item of a group carries the group's label. */
  lemma {:induction false} MembersLabelled(items: seq<ActivityItem>, day: int -> string, k: string)
    ensures forall x :: x in Members(items, day, k) ==> LabelOf(day, x) == k
  {
    if items != [] {
      MembersLabelled(items[..|items| - 1], day, k);
    }
  }

  /** The group of an item's own label holds it as often as the displayed list does. */
  lemma {:induction false} MembersCount(items: seq<ActivityItem>, day: int -> string, y: ActivityItem)
    ensures multiset(Members(items, day, LabelOf(day, y)))[y] == multiset(items)[y]
  {
    if items != [] {
      var init := items[..|items| - 1];
      MembersCount(init, day, y);
      assert items == init + [items[|items| - 1]];
    }
  }

  /** A group holds only items of its label, in their relative order: it is the filter of
      the displayed list by label. */
  lemma {:induction false} MembersLength(items: seq<ActivityItem>, day: int -> string, k: string)
    ensures |Members(items, day, k)| <= |items|
    ensures (exists i :: 0 <= i < |items| && LabelOf(day, items[i]) == k) ==> |Members(items, day, k)| > 0
  {
    if items != [] {
      var init := items[..|items| - 1];
      MembersLength(init, day, k);
      if exists i :: 0 <= i < |items| && LabelOf(day, items[i]) == k {
        var i :| 0 <= i < |items| && LabelOf(day, items[i]) == k;
        if i < |init| {
          assert init[i] == items[i];
        }
      }
    }
  }

  /** The labels are exactly the labels of the items, each once. */
  lemma {:induction false} KeysExact(items: seq<ActivityItem>, day: int -> string)
    ensures forall j1, j2 :: 0 <= j1 < j2 < |Keys(items, day)| ==> Keys(items, day)[j1] != Keys(items, day)[j2]
    ensures forall k :: k in Keys(items, day) <==> exists i :: 0 <= i < |items| && LabelOf(day, items[i]) == k
    ensures Keys(items, day) == [] <==> items == []
  {
    if items != [] {
      var init := items[..|items| - 1];
      KeysExact(init, day);
      forall k ensures k in Keys(items, day) <==> exists i :: 0 <= i < |items| && LabelOf(day, items[i]) == k {
        if exists i :: 0 <= i < |init| && LabelOf(day, init[i]) == k {
          var i :| 0 <= i < |init| && LabelOf(day, init[i]) == k;
          assert items[i] == init[i];
        }
        if exists i :: 0 <= i < |items| && LabelOf(day, items[i]) == k {
          var i :| 0 <= i < |items| && LabelOf(day, items[i]) == k;
          if i < |init| {
            assert init[i] == items[i];
          }
        }
      }
    }
  }

  /** The index of the first item labelled `k`, or `|items|` when there is none. */
  function FirstIndex(items: seq<ActivityItem>, day: int -> string, k: string): (r: nat)
    ensures r <= |items|
    ensures forall i :: 0 <= i < r ==> LabelOf(day, items[i]) != k
    ensures r < |items| ==> LabelOf(day, items[r]) == k
  {
    if items == [] then 0
    else if LabelOf(day, items[0]) == k then 0
    else 1 + FirstIndex(items[1..], day, k)
  }

  /** First appearance is not changed by appending an item. */
  lemma FirstIndexSnoc(items: seq<ActivityItem>, x: ActivityItem, day: int -> string, k: string)
    requires FirstIndex(items, day, k) < |items|
    ensures FirstIndex(items + [x], day, k) == FirstIndex(items, day, k)
  {
    var s := items + [x];
    var f := FirstIndex(items, day, k);
    var g := FirstIndex(s, day, k);
    assert s[f] == items[f];
    assert forall i :: 0 <= i < f ==> s[i] == items[i];
  }

  /** A label that is not a key labels no item. */
  lemma NotKeyNoLabel(items: seq<ActivityItem>, day: int -> string, k: string)
    requires k !in Keys(items, day)
    ensures forall i :: 0 <= i < |items| ==> LabelOf(day, items[i]) != k
  {
    KeysExact(items, day);
  }

  /** Every label of `keys` labels some item, and `keys` lists the labels in the order in
      which they first appear in `items`. */
  predicate ByFirstAppearance(items: seq<ActivityItem>, day: int -> string, keys: seq<string>)
  {
    && (forall j :: 0 <= j < |keys| ==> FirstIndex(items, day, keys[j]) < |items|)
    && (forall j1, j2 :: 0 <= j1 < j2 < |keys| ==>
          FirstIndex(items, day, keys[j1]) < FirstIndex(items, day, keys[j2]))
  }

  /** The groups come in the order in which their labels first appear in the list. */
  lemma {:induction false} KeysByFirstAppearance(items: seq<ActivityItem>, day: int -> string)
    ensures ByFirstAppearance(items, day, Keys(items, day))
  {
    if items != [] {
      var init := items[..|items| - 1];
      var x := items[|items| - 1];
      assert items == init + [x];
      KeysByFirstAppearance(init, day);
      var keys := Keys(init, day);
      forall j | 0 <= j < |keys| ensures FirstIndex(items, day, keys[j]) == FirstIndex(init, day, keys[j]) {
        FirstIndexSnoc(init, x, day, keys[j]);
      }
      var k := LabelOf(day, x);
      var all := Keys(items, day);
      if k !in keys {
        NotKeyNoLabel(init, day, k);
        assert forall i :: 0 <= i < |init| ==> LabelOf(day, items[i]) != k by {
          forall i | 0 <= i < |init| ensures LabelOf(day, items[i]) != k {
            assert items[i] == init[i];
          }
        }
        assert FirstIndex(items, day, k) == |init|;
        assert all == keys + [k];
        forall j1, j2 | 0 <= j1 < j2 < |all|
          ensures FirstIndex(items, day, all[j1]) < FirstIndex(items, day, all[j2])
        {
          assert all[j1] == keys[j1];
          if j2 < |keys| {
            assert all[j2] == keys[j2];
          }
        }
      } else {
        assert all == keys;
      }
    }
  }

  /** A list sorted newest first stays so inside every group. */
  lemma {:induction false} MembersSorted(items: seq<ActivityItem>, day: int -> string, k: string)
    requires SortedDescBy(items, ItemTime)
    ensures SortedDescBy(Members(items, day, k), ItemTime)
  {
    if items != [] {
      var init := items[..|items| - 1];
      var x := items[|items| - 1];
      MembersSorted(init, day, k);
      MembersSubset(init, day, k);
      var m := Members(init, day, k);
      forall i | 0 <= i < |m| ensures ExtLe(ItemTime(x), ItemTime(m[i])) {
        assert m[i] in init;
        var p :| 0 <= p < |init| && init[p] == m[i];
        assert items[p] == init[p];
      }
      var r := Members(items, day, k);
      if LabelOf(day, x) == k {
        assert r == m + [x];
        forall a, b | 0 <= a < b < |r| ensures ExtLe(ItemTime(r[b]), ItemTime(r[a])) {
          assert r[a] == m[a];
          if b < |m| {
            assert r[b] == m[b];
          }
        }
      }
    }
  }

  lemma {:induction false} MembersSubset(items: seq<ActivityItem>, day: int -> string, k: string)
    ensures forall x :: x in Members(items, day, k) ==> x in items
  {
    if items != [] {
      var init := items[..|items| - 1];
      MembersSubset(init, day, k);
      assert forall x :: x in init ==> x in items;
    }
  }

  /** A label no item carries has no items. */
  lemma {:induction false} MembersOfAbsent(items: seq<ActivityItem>, day: int -> string, k: string)
    requires k !in Keys(items, day)
    ensures Members(items, day, k) == []
  {
    if items != [] {
      MembersOfAbsent(items[..|items| - 1], day, k);
    }
  }

  /** The groups carry distinct labels, ordered by first appearance, and there are none
      exactly when nothing is displayed. */
  lemma GroupedLabels(items: seq<ActivityItem>, day: int -> string)
    ensures Grouped(items, day) == [] <==> items == []
    ensures forall j1, j2 :: 0 <= j1 < j2 < |Grouped(items, day)| ==>
              Grouped(items, day)[j1].dayLabel != Grouped(items, day)[j2].dayLabel &&
              FirstIndex(items, day, Grouped(items, day)[j1].dayLabel) <
              FirstIndex(items, day, Grouped(items, day)[j2].dayLabel)
  {
    KeysExact(items, day);
    KeysByFirstAppearance(items, day);
  }

  /** A displayed item is in the group of its label, as often as it is displayed. */
  lemma GroupedCovers(items: seq<ActivityItem>, day: int -> string, y: ActivityItem)
    requires y in items
    ensures exists j :: 0 <= j < |Grouped(items, day)| && Grouped(items, day)[j].dayLabel == LabelOf(day, y) &&
                        multiset(Grouped(items, day)[j].items)[y] == multiset(items)[y]
  {
    var keys := Keys(items, day);
    KeysExact(items, day);
    var i :| 0 <= i < |items| && items[i] == y;
    assert LabelOf(day, y) in keys;
    var j :| 0 <= j < |keys| && keys[j] == LabelOf(day, y);
    MembersCount(items, day, y);
    assert Grouped(items, day)[j] == Group(keys[j], Members(items, day, keys[j]));
  }

  /** A group is non-empty, holds only items of its label and keeps the newest-first order. */
  lemma GroupedGroup(items: seq<ActivityItem>, day: int -> string, j: nat)
    requires SortedDescBy(items, ItemTime)
    requires j < |Grouped(items, day)|
    ensures |Grouped(items, day)[j].items| > 0
    ensures forall x :: x in Grouped(items, day)[j].items ==> LabelOf(day, x) == Grouped(items, day)[j].dayLabel
    ensures SortedDescBy(Grouped(items, day)[j].items, ItemTime)
  {
    var keys := Keys(items, day);
    KeysExact(items, day);
    assert keys[j] in keys;
    MembersLabelled(items, day, keys[j]);
    MembersLength(items, day, keys[j]);
    MembersSorted(items, day, keys[j]);
  }

  /** Day grouping puts every displayed item into exactly one group (the one of its label,
      as often as it is displayed, and into no other), keeps the newest-first order inside
      each group, orders the groups by first appearance and makes no empty group. */
  lemma GroupingFacts(items: seq<ActivityItem>, day: int -> string)
    requires SortedDescBy(items, ItemTime)
    ensures Grouped(items, day) == [] <==> items == []
    ensures forall j1, j2 :: 0 <= j1 < j2 < |Grouped(items, day)| ==>
              Grouped(items, day)[j1].dayLabel != Grouped(items, day)[j2].dayLabel &&
              FirstIndex(items, day, Grouped(items, day)[j1].dayLabel) <
              FirstIndex(items, day, Grouped(items, day)[j2].dayLabel)
    ensures forall y: ActivityItem :: y in items ==>
              exists j :: 0 <= j < |Grouped(items, day)| && Grouped(items, day)[j].dayLabel == LabelOf(day, y) &&
                          multiset(Grouped(items, day)[j].items)[y] == multiset(items)[y]
    ensures forall j :: 0 <= j < |Grouped(items, day)| ==>
              |Grouped(items, day)[j].items| > 0 && SortedDescBy(Grouped(items, day)[j].items, ItemTime) &&
              forall x :: x in Grouped(items, day)[j].items ==> LabelOf(day, x) == Grouped(items, day)[j].dayLabel
  {
    GroupedLabels(items, day);
    forall y: ActivityItem | y in items
      ensures exists j :: 0 <= j < |Grouped(items, day)| && Grouped(items, day)[j].dayLabel == LabelOf(day, y) &&
                          multiset(Grouped(items, day)[j].items)[y] == multiset(items)[y]
    {
      GroupedCovers(items, day, y);
    }
    forall j | 0 <= j < |Grouped(items, day)|
      ensures |Grouped(items, day)[j].items| > 0 && SortedDescBy(Grouped(items, day)[j].items, ItemTime) &&
              forall x :: x in Grouped(items, day)[j].items ==> LabelOf(day, x) == Grouped(items, day)[j].dayLabel
    {
      GroupedGroup(items, day, j);
    }
  }
}
