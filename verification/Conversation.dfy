/**
 * The passes over the items of a conversation: the repeated final message is promoted, adjacent
 * agent output merged, and progress grouped
 * (apps/web/src/lib/session-conversation.ts, lines 26 to 56 and 218 to 265).
 */
module Conversation {
  import opened Common

  datatype Role = Assistant | User
  datatype ItemKind = Message | Progress
  datatype Tone = Default | Error

  datatype Item = Item(
    id: string, role: Role, kind: ItemKind, text: string, tone: Tone, createdAt: int, attachments: nat, selections: nat)

  // ---- Merging adjacent agent output

  predicate Mergeable(previous: Item, item: Item) {
    && item.kind == Message && previous.kind == Message && previous.role == Assistant && item.role == Assistant
    && previous.tone == item.tone && previous.attachments == 0 && item.attachments == 0
  }

  /** The previous item with the text of another under its own. */
  function Longer(previous: Item, item: Item): Item {
    previous.(text := previous.text + "\n" + item.text)
  }

  function AddMerged(merged: seq<Item>, item: Item): seq<Item> {
    if merged != [] && Mergeable(merged[|merged| - 1], item)
    then merged[|merged| - 1 := Longer(merged[|merged| - 1], item)]
    else merged + [item]
  }

  function Merge(items: seq<Item>): seq<Item> {
    if items == [] then [] else AddMerged(Merge(items[..|items| - 1]), items[|items| - 1])
  }

  method MergeAdjacentAgentOutput(items: seq<Item>) returns (merged: seq<Item>)
    ensures merged == Merge(items)
  {
    merged := [];
    for n := 0 to |items|
      invariant merged == Merge(items[..n])
    {
      assert items[..n + 1][..n] == items[..n];
      var item := items[n];
      if merged != [] && Mergeable(merged[|merged| - 1], item) {
        var previous := merged[|merged| - 1];
        merged := merged[|merged| - 1 := previous.(text := previous.text + "\n" + item.text)];
        continue;
      }
      merged := merged + [item];
    }
    assert items[..|items|] == items;
  }

  /** All texts, one per line. */
  function Joined(items: seq<Item>): string {
    if items == [] then ""
    else if |items| == 1 then items[0].text
    else Joined(items[..|items| - 1]) + "\n" + items[|items| - 1].text
  }

  lemma JoinedSnoc(items: seq<Item>, item: Item)
    ensures Joined(items + [item]) == if items == [] then item.text else Joined(items) + "\n" + item.text
  {
    assert (items + [item])[..|items|] == items;
  }

  lemma JoinedLonger(merged: seq<Item>, item: Item)
    requires merged != []
    ensures Joined(merged[|merged| - 1 := Longer(merged[|merged| - 1], item)]) == Joined(merged) + "\n" + item.text
  {
    var init, last := merged[..|merged| - 1], merged[|merged| - 1];
    var longer := Longer(last, item);
    SplitLast(merged);
    ReplaceLast(merged, longer);
    JoinedSnoc(init, last);
    JoinedSnoc(init, longer);
    hide Joined;
    Regroup(Joined(init), "\n", last.text, item.text);
  }

  lemma Regroup(a: string, b: string, c: string, d: string)
    ensures a + b + c + b + d == a + b + (c + b + d)
  {
  }

  lemma AddMergedText(merged: seq<Item>, item: Item)
    ensures Joined(AddMerged(merged, item)) == Joined(merged + [item])
    ensures AddMerged(merged, item) != []
  {
    JoinedSnoc(merged, item);
    if merged != [] {
      JoinedLonger(merged, item);
    }
    hide Joined;
  }

  lemma MergeSnoc(items: seq<Item>, item: Item)
    ensures Merge(items + [item]) == AddMerged(Merge(items), item)
  {
    assert (items + [item])[..|items|] == items;
  }

  /** Merging conserves the text. */
  lemma {:induction false} MergeConservesText(items: seq<Item>)
    ensures Joined(Merge(items)) == Joined(items)
    ensures Merge(items) == [] <==> items == []
  {
    if items != [] {
      var init, last := items[..|items| - 1], items[|items| - 1];
      assert items == init + [last];
      MergeConservesText(init);
      MergeSnoc(init, last);
      AddMergedText(Merge(init), last);
      JoinedSnoc(init, last);
      JoinedSnoc(Merge(init), last);
    }
  }

  predicate NoNeighbours(items: seq<Item>) {
    forall i :: 0 <= i < |items| - 1 ==> !Mergeable(items[i], items[i + 1])
  }

  lemma AddMergedApart(merged: seq<Item>, item: Item)
    requires NoNeighbours(merged)
    ensures NoNeighbours(AddMerged(merged, item))
  {
    if merged != [] && Mergeable(merged[|merged| - 1], item) {
      var after := AddMerged(merged, item);
      forall i | 0 <= i < |after| - 1
        ensures !Mergeable(after[i], after[i + 1])
      {
        assert !Mergeable(merged[i], merged[i + 1]);
        assert after[i + 1] == merged[i + 1].(text := after[i + 1].text);
      }
    }
  }

  lemma {:induction false} ApartIsMerged(items: seq<Item>)
    requires NoNeighbours(items)
    ensures Merge(items) == items
  {
    if items != [] {
      var init, last := items[..|items| - 1], items[|items| - 1];
      assert items == init + [last];
      forall i | 0 <= i < |init| - 1
        ensures !Mergeable(init[i], init[i + 1])
      {
        assert !Mergeable(items[i], items[i + 1]);
      }
      ApartIsMerged(init);
      assert init != [] ==> !Mergeable(items[|items| - 2], items[|items| - 2 + 1]);
    }
  }

  /** Merging leaves nothing to merge, so merging again changes nothing. */
  lemma {:induction false} MergeDone(items: seq<Item>)
    ensures NoNeighbours(Merge(items)) && Merge(Merge(items)) == Merge(items)
  {
    MergeApart(items);
    ApartIsMerged(Merge(items));
  }

  lemma {:induction false} MergeApart(items: seq<Item>)
    ensures NoNeighbours(Merge(items))
  {
    if items != [] {
      MergeApart(items[..|items| - 1]);
      AddMergedApart(Merge(items[..|items| - 1]), items[|items| - 1]);
    }
  }

  /** An item that never merges. */
  predicate Solid(item: Item) {
    item.kind != Message || item.role != Assistant || item.attachments != 0
  }

  lemma AddMergedIs(merged: seq<Item>, item: Item)
    requires merged != [] && Mergeable(merged[|merged| - 1], item)
    ensures AddMerged(merged, item) == merged[..|merged| - 1] + [Longer(merged[|merged| - 1], item)]
  {
    hide Mergeable;
    ReplaceLast(merged, Longer(merged[|merged| - 1], item));
  }

  lemma AddMergedSolid(merged: seq<Item>, item: Item)
    ensures Filter(Solid, AddMerged(merged, item)) == Filter(Solid, merged + [item])
  {
    FilterSnoc(Solid, merged, item);
    if merged != [] && Mergeable(merged[|merged| - 1], item) {
      var init, last := merged[..|merged| - 1], merged[|merged| - 1];
      AddMergedIs(merged, item);
      FilterSnoc(Solid, init, last);
      FilterSnoc(Solid, init, Longer(last, item));
      assert !Solid(last) && !Solid(Longer(last, item)) && !Solid(item);
      hide *;
      SplitLast(merged);
    }
  }

  /** Progress, the user's messages and messages with attachments stay as they are, in order. */
  lemma {:induction false} MergeKeepsOthers(items: seq<Item>)
    ensures Filter(Solid, Merge(items)) == Filter(Solid, items)
  {
    if items != [] {
      var init, last := items[..|items| - 1], items[|items| - 1];
      assert items == init + [last];
      MergeKeepsOthers(init);
      MergeSnoc(init, last);
      AddMergedSolid(Merge(init), last);
      FilterSnoc(Solid, init, last);
      FilterSnoc(Solid, Merge(init), last);
    }
  }

  /** Whether an item merges with a merged one depends on the item merged last into it. */
  lemma {:induction false} MergedLast(items: seq<Item>, item: Item)
    requires items != []
    ensures Merge(items) != []
    ensures Mergeable(Merge(items)[|Merge(items)| - 1], item) <==> Mergeable(items[|items| - 1], item)
  {
    if |items| > 1 {
      MergedLast(items[..|items| - 1], items[|items| - 1]);
    }
  }

  lemma AddMergedAfter(a: seq<Item>, b: seq<Item>, item: Item)
    requires b != [] || a == [] || !Mergeable(a[|a| - 1], item)
    ensures AddMerged(a + b, item) == a + AddMerged(b, item)
  {
    hide Mergeable;
    if b != [] {
      assert (a + b)[|a + b| - 1] == b[|b| - 1];
      var longer := Longer(b[|b| - 1], item);
      assert (a + b)[|a + b| - 1 := longer] == a + b[|b| - 1 := longer];
    } else {
      assert a + b == a;
    }
  }

  /** Where two lists meet in items that do not merge, they merge apart. */
  lemma {:induction false} MergeConcat(a: seq<Item>, b: seq<Item>)
    requires a == [] || b == [] || !Mergeable(a[|a| - 1], b[0])
    ensures Merge(a + b) == Merge(a) + Merge(b)
  {
    if b == [] {
      assert a + b == a;
    } else {
      var init, last := b[..|b| - 1], b[|b| - 1];
      assert b == init + [last];
      MergeConcat(a, init);
      Assoc(a, init, [last]);
      MergeSnoc(a + init, last);
      MergeSnoc(init, last);
      if init != [] {
        MergedLast(init, last);
      } else {
        assert Merge(init) == [];
        if a != [] {
          MergedLast(a, last);
        }
      }
      hide Merge, Mergeable;
      AddMergedAfter(Merge(a), Merge(init), last);
    }
  }

  // ---- Promoting the final message

  predicate IsFinal(item: Item) {
    item.kind == Message && item.role == Assistant && item.tone == Default
  }

  predicate Repeats(previous: Item, item: Item) {
    IsFinal(item) && previous.kind == Progress && previous.role == Assistant && previous.text == item.text
  }

  function AddPromoted(promoted: seq<Item>, item: Item): seq<Item> {
    if promoted != [] && Repeats(promoted[|promoted| - 1], item) then promoted[|promoted| - 1 := item]
    else promoted + [item]
  }

  function Promote(items: seq<Item>): seq<Item> {
    if items == [] then [] else AddPromoted(Promote(items[..|items| - 1]), items[|items| - 1])
  }

  method PromoteFinalAgentMessages(items: seq<Item>) returns (promoted: seq<Item>)
    ensures promoted == Promote(items)
  {
    promoted := [];
    for n := 0 to |items|
      invariant promoted == Promote(items[..n])
    {
      assert items[..n + 1][..n] == items[..n];
      var item := items[n];
      if promoted != [] && Repeats(promoted[|promoted| - 1], item) {
        promoted := promoted[|promoted| - 1 := item];
        continue;
      }
      promoted := promoted + [item];
    }
    assert items[..|items|] == items;
  }

  lemma PromoteSnoc(items: seq<Item>, item: Item)
    ensures Promote(items + [item]) == AddPromoted(Promote(items), item)
  {
    assert (items + [item])[..|items|] == items;
  }

  /** The items except each progress that the next item repeats as a final message. */
  function Kept(items: seq<Item>): seq<Item> {
    if items == [] then []
    else (if |items| > 1 && Repeats(items[0], items[1]) then [] else [items[0]]) + Kept(items[1..])
  }

  lemma {:induction false} KeptLast(items: seq<Item>)
    requires items != []
    ensures Kept(items) != [] && Kept(items)[|Kept(items)| - 1] == items[|items| - 1]
  {
    if |items| > 1 {
      KeptLast(items[1..]);
      assert items[1..][|items| - 2] == items[|items| - 1];
    }
  }

  lemma InitOfConcat(a: seq<Item>, b: seq<Item>)
    requires b != []
    ensures (a + b)[..|a + b| - 1] == a + b[..|b| - 1]
  {
  }

  lemma {:induction false} KeptSnoc(items: seq<Item>, item: Item)
    requires items != []
    ensures Kept(items) != []
    ensures Kept(items + [item])
            == (if Repeats(items[|items| - 1], item) then Kept(items)[..|Kept(items)| - 1] else Kept(items)) + [item]
  {
    hide Repeats;
    KeptLast(items);
    var tail := items[1..];
    assert (items + [item])[1..] == tail + [item];
    if |items| == 1 {
      assert Kept([item]) == [item];
    } else {
      KeptSnoc(tail, item);
      var head := if Repeats(items[0], items[1]) then [] else [items[0]];
      assert Kept(items) == head + Kept(tail);
      assert Kept(items + [item]) == head + Kept(tail + [item]);
      hide Kept;
      InitOfConcat(head, Kept(tail));
    }
  }

  lemma {:induction false} KeptConcat(a: seq<Item>, b: seq<Item>)
    requires a == [] || b == [] || !Repeats(a[|a| - 1], b[0])
    ensures Kept(a + b) == Kept(a) + Kept(b)
  {
    if a == [] {
      assert a + b == b;
    } else if b == [] {
      assert a + b == a;
    } else {
      assert (a + b)[0] == a[0] && (a + b)[1..] == a[1..] + b;
      KeptConcat(a[1..], b);
      assert |a| > 1 ==> (a + b)[1] == a[1];
      var head := if |a + b| > 1 && Repeats((a + b)[0], (a + b)[1]) then [] else [a[0]];
      assert Kept(a + b) == head + Kept(a[1..] + b);
      assert Kept(a) == head + Kept(a[1..]);
      hide Kept, Repeats;
      Assoc(head, Kept(a[1..]), Kept(b));
    }
  }

  /** Promotion drops exactly the progress items that the following item repeats as the final message. */
  lemma {:induction false} PromoteMeans(items: seq<Item>)
    ensures Promote(items) == Kept(items)
  {
    if items != [] {
      var init, last := items[..|items| - 1], items[|items| - 1];
      PromoteMeans(init);
      assert Promote(items) == AddPromoted(Promote(init), last);
      assert init == [] ==> Kept([last]) == [last];
      hide Promote, Kept, Repeats;
      SplitLast(items);
      if init != [] {
        KeptSnoc(init, last);
        KeptLast(init);
        ReplaceLast(Kept(init), last);
      } else {
        assert items == [last];
      }
    }
  }

  /** Where two lists meet in items of which the second does not repeat the first, they are promoted apart. */
  lemma PromoteConcat(a: seq<Item>, b: seq<Item>)
    requires a == [] || b == [] || !Repeats(a[|a| - 1], b[0])
    ensures Promote(a + b) == Promote(a) + Promote(b)
  {
    KeptConcat(a, b);
    PromoteMeans(a);
    PromoteMeans(b);
    PromoteMeans(a + b);
  }

  lemma {:induction false} PromoteEnds(items: seq<Item>)
    requires items != []
    ensures Promote(items) != [] && Promote(items)[|Promote(items)| - 1] == items[|items| - 1]
  {
    PromoteMeans(items);
    KeptLast(items);
  }

  /** Without final messages there is nothing to promote. */
  lemma {:induction false} PromoteNothing(items: seq<Item>)
    requires forall i :: 0 <= i < |items| ==> !IsFinal(items[i])
    ensures Promote(items) == items
  {
    if items != [] {
      assert items == items[..|items| - 1] + [items[|items| - 1]];
      PromoteNothing(items[..|items| - 1]);
    }
  }

  // ---- Grouping progress

  datatype Row = Single(item: Item) | Group(id: string, items: seq<Item>)

  predicate IsStep(item: Item) {
    item.role == Assistant && item.kind == Progress && item.tone != Error
  }

  datatype Grouping = Grouping(rows: seq<Row>, pending: seq<Item>)

  function GroupOf(pending: seq<Item>): seq<Row> {
    if pending == [] then [] else [Group("progress:" + pending[0].id, pending)]
  }

  function AddGrouped(g: Grouping, item: Item): Grouping {
    if IsStep(item) then g.(pending := g.pending + [item])
    else Grouping(g.rows + GroupOf(g.pending) + [Single(item)], [])
  }

  function GroupItems(items: seq<Item>): Grouping {
    if items == [] then Grouping([], []) else AddGrouped(GroupItems(items[..|items| - 1]), items[|items| - 1])
  }

  function Rows(items: seq<Item>, isWorking: bool): seq<Row> {
    var g := GroupItems(items);
    if isWorking && g.pending != []
    then g.rows + GroupOf(g.pending[..|g.pending| - 1]) + [Single(g.pending[|g.pending| - 1])]
    else g.rows + GroupOf(g.pending)
  }

  method GroupConversationProgress(items: seq<Item>, isWorking: bool) returns (rows: seq<Row>)
    ensures rows == Rows(items, isWorking)
  {
    hide IsStep;
    rows := [];
    var pending: seq<Item> := [];
    for n := 0 to |items|
      invariant Grouping(rows, pending) == GroupItems(items[..n])
    {
      assert items[..n + 1][..n] == items[..n];
      if IsStep(items[n]) {
        pending := pending + [items[n]];
      } else {
        rows := rows + GroupOf(pending);
        pending := [];
        rows := rows + [Single(items[n])];
      }
    }
    assert items[..|items|] == items;
    var current := None;
    if isWorking && pending != [] {
      current := Some(pending[|pending| - 1]);
      pending := pending[..|pending| - 1];
    }
    rows := rows + GroupOf(pending);
    if current.Some? {
      rows := rows + [Single(current.value)];
    }
  }

  function ItemsOf(row: Row): seq<Item> {
    if row.Single? then [row.item] else row.items
  }

  function Flat(rows: seq<Row>): seq<Item> {
    FlatMap(ItemsOf, rows)
  }

  lemma FlatSnoc(rows: seq<Row>, row: Row)
    ensures Flat(rows + [row]) == Flat(rows) + ItemsOf(row)
  {
    FlatMapSnoc(ItemsOf, rows, row);
  }

  lemma FlatGroup(rows: seq<Row>, pending: seq<Item>)
    ensures Flat(rows + GroupOf(pending)) == Flat(rows) + pending
  {
    if pending == [] {
      assert rows + [] == rows;
    } else {
      FlatSnoc(rows, GroupOf(pending)[0]);
    }
  }

  lemma {:induction false} GroupItemsFlat(items: seq<Item>)
    ensures var g := GroupItems(items); Flat(g.rows) + g.pending == items
  {
    if items != [] {
      var init, last := items[..|items| - 1], items[|items| - 1];
      GroupItemsFlat(init);
      var g := GroupItems(init);
      assert items == init + [last];
      FlatGroup(g.rows, g.pending);
      FlatSnoc(g.rows + GroupOf(g.pending), Single(last));
      hide GroupOf, Flat, IsStep;
    }
  }

  /** Grouping conserves the items: the rows flatten back to them. */
  lemma RowsFlat(items: seq<Item>, isWorking: bool)
    ensures Flat(Rows(items, isWorking)) == items
  {
    GroupItemsFlat(items);
    var g := GroupItems(items);
    FlatGroup(g.rows, g.pending);
    if isWorking && g.pending != [] {
      var rest, last := g.pending[..|g.pending| - 1], g.pending[|g.pending| - 1];
      FlatGroup(g.rows, rest);
      FlatSnoc(g.rows + GroupOf(rest), Single(last));
      assert g.pending == rest + [last];
    }
    hide GroupOf, Flat, GroupItems;
  }

  predicate ProperRow(row: Row) {
    match row
    case Single(item) => !IsStep(item)
    case Group(id, items) =>
      items != [] && id == "progress:" + items[0].id && forall i :: 0 <= i < |items| ==> IsStep(items[i])
  }

  /** Every step is in a group, and groups are maximal. */
  predicate Proper(rows: seq<Row>) {
    && (forall i :: 0 <= i < |rows| ==> ProperRow(rows[i]))
    && (forall i, j :: 0 <= i && j == i + 1 < |rows| ==> !(rows[i].Group? && rows[j].Group?))
  }

  predicate ProperGrouping(g: Grouping) {
    && Proper(g.rows) && (forall i :: 0 <= i < |g.pending| ==> IsStep(g.pending[i]))
    && (g.rows != [] ==> g.rows[|g.rows| - 1].Single?)
  }

  lemma ProperGroup(g: Grouping)
    requires ProperGrouping(g)
    ensures Proper(g.rows + GroupOf(g.pending))
  {
    hide IsStep;
    assert g.pending != [] ==> ProperRow(GroupOf(g.pending)[0]);
    hide ProperRow;
  }

  lemma ProperSingle(rows: seq<Row>, item: Item)
    requires Proper(rows) && !IsStep(item)
    ensures Proper(rows + [Single(item)])
  {
    hide IsStep;
    assert ProperRow(Single(item));
    hide ProperRow;
  }

  lemma AddGroupedProper(g: Grouping, item: Item)
    requires ProperGrouping(g)
    ensures ProperGrouping(AddGrouped(g, item))
  {
    if !IsStep(item) {
      ProperGroup(g);
      ProperSingle(g.rows + GroupOf(g.pending), item);
    }
    hide Proper, IsStep, GroupOf;
  }

  /** At every point of the loop. */
  lemma {:induction false} GroupItemsProper(items: seq<Item>)
    ensures forall n :: 0 <= n <= |items| ==> ProperGrouping(GroupItems(items[..n]))
  {
    if items != [] {
      var init, last := items[..|items| - 1], items[|items| - 1];
      var g := GroupItems(init);
      GroupItemsProper(init);
      assert init[..|init|] == init && items[..|items|] == items;
      AddGroupedProper(g, last);
      hide ProperGrouping, AddGrouped;
      assert GroupItems(items) == AddGrouped(g, last);
      hide GroupItems;
      assert forall n :: 0 <= n <= |init| ==> items[..n] == init[..n];
    }
  }

  /** In an idle session every progress item of the agent is in a maximal group, which is named after its first. */
  lemma RowsProper(items: seq<Item>)
    ensures Proper(Rows(items, false))
    ensures forall row :: row in Rows(items, false) ==>
              match row
              case Single(item) => !(item.role == Assistant && item.kind == Progress && item.tone == Default)
              case Group(id, steps) =>
                && steps != [] && id == "progress:" + steps[0].id
                && forall step :: step in steps ==>
                     step.role == Assistant && step.kind == Progress && step.tone == Default
  {
    GroupItemsProper(items);
    assert items[..|items|] == items;
    ProperGroup(GroupItems(items));
    var rows := Rows(items, false);
    hide Rows, GroupItems, ProperGrouping;
    forall row | row in rows
      ensures ProperRow(row)
    {
      var i :| 0 <= i < |rows| && rows[i] == row;
    }
  }

  /** While the agent works, its latest step stands alone after the rows of the items before it. */
  lemma RowsWorking(items: seq<Item>)
    ensures Rows(items, true) ==
            if items != [] && IsStep(items[|items| - 1])
            then Rows(items[..|items| - 1], false) + [Single(items[|items| - 1])]
            else Rows(items, false)
  {
    hide IsStep, GroupOf;
  }

  lemma ProperInit(rows: seq<Row>)
    requires Proper(rows) && rows != []
    ensures Proper(rows[..|rows| - 1])
    ensures rows[|rows| - 1].Group? && |rows| > 1 ==> rows[|rows| - 2].Single? && !IsStep(rows[|rows| - 2].item)
  {
    hide IsStep;
    assert ProperRow(rows[|rows| - 1]);
    assert |rows| > 1 ==> ProperRow(rows[|rows| - 2]);
  }

  lemma LastOfFlat(rows: seq<Row>)
    requires Proper(rows)
    ensures rows == [] <==> Flat(rows) == []
    ensures rows != [] ==> (rows[|rows| - 1].Group? <==> IsStep(Flat(rows)[|Flat(rows)| - 1]))
    ensures rows != [] ==> Flat(rows) == Flat(rows[..|rows| - 1]) + ItemsOf(rows[|rows| - 1])
  {
    if rows != [] {
      var init, last := rows[..|rows| - 1], rows[|rows| - 1];
      assert rows == init + [last];
      FlatSnoc(init, last);
      assert ProperRow(last);
      hide IsStep, Flat;
    }
  }

  lemma StepsReach(initA: seq<Item>, a: seq<Item>, initB: seq<Item>, b: seq<Item>)
    requires initA + a == initB + b && |a| > |b| && forall i :: 0 <= i < |a| ==> IsStep(a[i])
    ensures initB != [] && IsStep(initB[|initB| - 1])
  {
    hide IsStep;
    assert (initA + a)[|initB| - 1] == a[|a| - |b| - 1];
  }

  /** Steps at the end reach back at most to the last item that is none. */
  lemma StepsAtEnd(initA: seq<Item>, a: seq<Item>, initB: seq<Item>, b: seq<Item>)
    requires initA + a == initB + b && forall i :: 0 <= i < |a| ==> IsStep(a[i])
    requires initB != [] ==> !IsStep(initB[|initB| - 1])
    ensures |a| <= |b|
  {
    if |a| > |b| {
      StepsReach(initA, a, initB, b);
    }
  }

  lemma LastGroupsEqual(a: seq<Row>, b: seq<Row>)
    requires Proper(a) && Proper(b) && Flat(a) == Flat(b) && a != [] && b != []
    requires a[|a| - 1].Group? && b[|b| - 1].Group?
    ensures |a[|a| - 1].items| <= |b[|b| - 1].items|
  {
    LastOfFlat(a);
    LastOfFlat(b);
    ProperInit(b);
    LastOfFlat(b[..|b| - 1]);
    assert ProperRow(a[|a| - 1]);
    assert |b| > 1 ==> b[..|b| - 1][|b| - 2] == b[|b| - 2];
    hide Flat, IsStep, Proper;
    StepsAtEnd(Flat(a[..|a| - 1]), a[|a| - 1].items, Flat(b[..|b| - 1]), b[|b| - 1].items);
  }

  /** A row is determined by its items. */
  lemma RowOfItems(r: Row, t: Row)
    requires ProperRow(r) && ProperRow(t) && ItemsOf(r) == ItemsOf(t) && (r.Group? <==> t.Group?)
    ensures r == t
  {
    hide IsStep;
  }

  /** The last rows of two groupings of the same items hold equally many of them. */
  lemma LastRowsEqual(a: seq<Row>, b: seq<Row>)
    requires Proper(a) && Proper(b) && Flat(a) == Flat(b) && a != [] && b != []
    ensures ProperRow(a[|a| - 1]) && ProperRow(b[|b| - 1])
    ensures a[|a| - 1].Group? <==> b[|b| - 1].Group?
    ensures |ItemsOf(a[|a| - 1])| == |ItemsOf(b[|b| - 1])|
  {
    assert ProperRow(a[|a| - 1]) && ProperRow(b[|b| - 1]);
    hide Proper, ProperRow, Flat, IsStep;
    LastOfFlat(a);
    LastOfFlat(b);
    if a[|a| - 1].Group? {
      LastGroupsEqual(a, b);
      LastGroupsEqual(b, a);
    }
  }

  /** There is no other way to group: the rows are determined by their items. */
  lemma {:induction false} ProperUnique(a: seq<Row>, b: seq<Row>)
    requires Proper(a) && Proper(b) && Flat(a) == Flat(b)
    ensures a == b
    decreases a
  {
    hide Proper, ProperRow, Flat, ItemsOf;
    LastOfFlat(a);
    LastOfFlat(b);
    if a != [] {
      var la, lb := a[|a| - 1], b[|b| - 1];
      LastRowsEqual(a, b);
      ConcatInjective(Flat(a[..|a| - 1]), ItemsOf(la), Flat(b[..|b| - 1]), ItemsOf(lb));
      RowOfItems(la, lb);
      ProperInit(a);
      ProperInit(b);
      ProperUnique(a[..|a| - 1], b[..|b| - 1]);
      SplitLast(a);
      SplitLast(b);
    }
  }

  // ---- What promotes and merges

  /** A final message of the agent repeats the agent's progress of the same text. */
  lemma RepeatsMeans(previous: Item, item: Item)
    ensures Repeats(previous, item) <==>
            && previous.role == Assistant && previous.kind == Progress && previous.text == item.text
            && item.role == Assistant && item.kind == Message && item.tone == Default
  {
  }

  /** Two messages of the agent of one tone and without attachments merge. */
  lemma MergeableMeans(previous: Item, item: Item)
    ensures Mergeable(previous, item) <==>
            && previous.role == Assistant && previous.kind == Message && previous.attachments == 0
            && item.role == Assistant && item.kind == Message && item.attachments == 0
            && previous.tone == item.tone
  {
  }
}
