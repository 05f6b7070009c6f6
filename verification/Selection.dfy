// Greedy selection under a token budget with deduplication, the independent check of the
// trace it leaves, and the grouping of what was selected.
module Selection {
  import opened Domain
  import opened Ranking

  datatype TraceRow = TraceRow(
    memoryId: string,
    versionId: string,
    conflictGroup: string,
    selected: bool,
    duplicateOf: string,
    tokens: int,
    trust: real)

  datatype Item = Item(memoryId: string, versionId: string, conflictGroup: string, tokens: int)

  datatype Group = Group(id: string, conflict: bool, items: seq<Item>)

  function EstimateTokens(text: string): (tokens: nat)
    ensures tokens >= 1
    ensures 4 * (tokens - 1) < |text| <= 4 * tokens || (text == "" && tokens == 1)
  {
    if |text| == 0 then 1 else (|text| + 3) / 4
  }

  /** Function and normalized text, or the version id when there is no text. */
  type Key = (MemoryFunction, string)

  function DedupeKey(c: Candidate): Key {
    (c.memoryFunction, if c.normalized == "" then c.versionId else c.normalized)
  }

  // ----- What selection computes -----

  /** The version id of the first candidate under a key; an empty id does not hold a key. */
  function Holder(ranked: seq<Ranked>, key: Key): (v: string)
    ensures v == "" <==> forall r :: r in ranked && DedupeKey(r.stored) == key ==> r.stored.versionId == ""
    ensures v != "" ==> exists i :: 0 <= i < |ranked| && HoldsFirst(ranked, i, key, v)
  {
    if ranked == [] then
      ""
    else
      var front, last := ranked[..|ranked| - 1], ranked[|ranked| - 1];
      var earlier := Holder(front, key);
      assert ranked == front + [last];
      assert forall i :: 0 <= i < |front| ==> front[i] == ranked[i];
      assert forall i :: 0 <= i < |front| && HoldsFirst(front, i, key, earlier) ==> HoldsFirst(ranked, i, key, earlier);
      assert earlier == "" && DedupeKey(last.stored) == key && last.stored.versionId != "" ==>
        HoldsFirst(ranked, |front|, key, last.stored.versionId);
      if earlier != "" then earlier
      else if DedupeKey(last.stored) == key then last.stored.versionId
      else ""
  }

  predicate HoldsFirst(ranked: seq<Ranked>, i: nat, key: Key, v: string) {
    && i < |ranked|
    && DedupeKey(ranked[i].stored) == key
    && ranked[i].stored.versionId == v
    && forall j :: 0 <= j < i && DedupeKey(ranked[j].stored) == key ==> ranked[j].stored.versionId == ""
  }

  function SelectedTokens(trace: seq<TraceRow>): int {
    if trace == [] then
      0
    else
      var last := trace[|trace| - 1];
      SelectedTokens(trace[..|trace| - 1]) + (if last.selected then last.tokens else 0)
  }

  function SelectedItems(trace: seq<TraceRow>): seq<Item> {
    if trace == [] then
      []
    else
      var last := trace[|trace| - 1];
      SelectedItems(trace[..|trace| - 1]) +
      (if last.selected then [Item(last.memoryId, last.versionId, last.conflictGroup, last.tokens)] else [])
  }

  /** Row i records candidate i, the holder of its key before it, and the greedy choice. */
  ghost predicate RowExplains(ranked: seq<Ranked>, trace: seq<TraceRow>, i: nat, budget: int)
    requires i < |ranked| && i < |trace|
  {
    var c, row := ranked[i].stored, trace[i];
    && row.memoryId == c.memoryId && row.versionId == c.versionId && row.conflictGroup == c.conflictGroup
    && row.trust == ranked[i].trust
    && row.tokens == EstimateTokens(c.text)
    && row.duplicateOf == Holder(ranked[..i], DedupeKey(c))
    && (row.selected <==> row.duplicateOf == "" && SelectedTokens(trace[..i]) + row.tokens <= budget)
  }

  ghost predicate Explains(ranked: seq<Ranked>, trace: seq<TraceRow>, budget: int) {
    |trace| <= |ranked| && forall i :: 0 <= i < |trace| ==> RowExplains(ranked, trace, i, budget)
  }

  /** The keys seen so far, as the algorithm keeps them: no entry and an empty entry are alike. */
  ghost predicate SeenKeys(seen: map<Key, string>, ranked: seq<Ranked>) {
    forall key :: Holder(ranked, key) == if key in seen then seen[key] else ""
  }

  lemma RowStillExplains(ranked: seq<Ranked>, trace: seq<TraceRow>, row: TraceRow, i: nat, budget: int)
    requires i < |trace| && i < |ranked| && RowExplains(ranked, trace, i, budget)
    ensures RowExplains(ranked, trace + [row], i, budget)
  {
    assert (trace + [row])[..i] == trace[..i];
  }

  lemma ExplainsOneMore(ranked: seq<Ranked>, trace: seq<TraceRow>, row: TraceRow, budget: int)
    requires Explains(ranked, trace, budget) && |trace| < |ranked|
    requires RowExplains(ranked, trace + [row], |trace|, budget)
    ensures Explains(ranked, trace + [row], budget)
  {
    forall i | 0 <= i < |trace| + 1 ensures RowExplains(ranked, trace + [row], i, budget) {
      if i < |trace| {
        RowStillExplains(ranked, trace, row, i, budget);
      }
    }
  }

  lemma SumsOneMore(trace: seq<TraceRow>, row: TraceRow)
    ensures SelectedTokens(trace + [row]) == SelectedTokens(trace) + (if row.selected then row.tokens else 0)
    ensures SelectedItems(trace + [row]) == SelectedItems(trace) +
      (if row.selected then [Item(row.memoryId, row.versionId, row.conflictGroup, row.tokens)] else [])
  {
    assert (trace + [row])[..|trace|] == trace;
  }

  lemma SeenOneMore(seen: map<Key, string>, ranked: seq<Ranked>, i: nat)
    requires i < |ranked| && SeenKeys(seen, ranked[..i])
    ensures var c := ranked[i].stored; var key := DedupeKey(c);
      SeenKeys(if key in seen && seen[key] != "" then seen else seen[key := c.versionId], ranked[..i + 1])
  {
    assert ranked[..i + 1][..i] == ranked[..i];
  }

  method SelectCandidates(ranked: seq<Ranked>, budget: int) returns (items: seq<Item>, trace: seq<TraceRow>, used: int)
    ensures |trace| == |ranked| && Explains(ranked, trace, budget)
    ensures items == SelectedItems(trace) && used == SelectedTokens(trace)
    ensures 0 <= used && (used <= budget || used == 0)
  {
    items, trace, used := [], [], 0;
    var seen: map<Key, string> := map[];
    for i := 0 to |ranked|
      invariant |trace| == i && Explains(ranked, trace, budget)
      invariant items == SelectedItems(trace) && used == SelectedTokens(trace)
      invariant 0 <= used && (used <= budget || used == 0)
      invariant SeenKeys(seen, ranked[..i])
    {
      var c := ranked[i].stored;
      var estimated := EstimateTokens(c.text);
      var key := DedupeKey(c);
      var duplicate := if key in seen then seen[key] else "";
      SeenOneMore(seen, ranked, i);
      if duplicate == "" {
        seen := seen[key := c.versionId];
      }
      var selected := duplicate == "" && used + estimated <= budget;
      var row := TraceRow(c.memoryId, c.versionId, c.conflictGroup, selected, duplicate, estimated, ranked[i].trust);
      assert (trace + [row])[..i] == trace;
      ExplainsOneMore(ranked, trace, row, budget);
      SumsOneMore(trace, row);
      trace := trace + [row];
      if selected {
        used := used + estimated;
        items := items + [Item(c.memoryId, c.versionId, c.conflictGroup, estimated)];
      }
    }
  }

  // ----- What that means -----

  lemma {:induction false} TokensGrow(ranked: seq<Ranked>, trace: seq<TraceRow>, budget: int, i: nat)
    requires Explains(ranked, trace, budget) && i <= |trace|
    ensures 0 <= SelectedTokens(trace[..i]) <= SelectedTokens(trace)
    decreases |trace| - i, i
  {
    if i < |trace| {
      TokensGrow(ranked, trace, budget, i + 1);
      assert trace[..i + 1][..i] == trace[..i];
      assert RowExplains(ranked, trace, i, budget);
      TokensNonNegative(ranked, trace, budget, i);
    } else {
      assert trace[..i] == trace;
      TokensNonNegative(ranked, trace, budget, i);
    }
  }

  lemma {:induction false} TokensNonNegative(ranked: seq<Ranked>, trace: seq<TraceRow>, budget: int, i: nat)
    requires Explains(ranked, trace, budget) && i <= |trace|
    ensures SelectedTokens(trace[..i]) >= 0
  {
    if i > 0 {
      TokensNonNegative(ranked, trace, budget, i - 1);
      assert trace[..i][..i - 1] == trace[..i - 1];
      assert RowExplains(ranked, trace, i - 1, budget);
    }
  }

  /** A candidate that was left out is a duplicate, or would overflow the budget that is left at the end. */
  lemma LeftOutForAReason(ranked: seq<Ranked>, trace: seq<TraceRow>, budget: int, i: nat)
    requires |trace| == |ranked| && Explains(ranked, trace, budget)
    requires i < |trace| && !trace[i].selected
    ensures trace[i].duplicateOf != "" || SelectedTokens(trace) + trace[i].tokens > budget
  {
    assert RowExplains(ranked, trace, i, budget);
    TokensGrow(ranked, trace, budget, i);
  }

  /** A duplicate names the first candidate of its key, which stands earlier. */
  lemma DuplicateNamesFirst(ranked: seq<Ranked>, trace: seq<TraceRow>, budget: int, i: nat) returns (first: nat)
    requires |trace| == |ranked| && Explains(ranked, trace, budget)
    requires forall r :: r in ranked ==> r.stored.versionId != ""
    requires i < |trace| && trace[i].duplicateOf != ""
    ensures first < i && trace[i].duplicateOf == ranked[first].stored.versionId
    ensures DedupeKey(ranked[first].stored) == DedupeKey(ranked[i].stored)
    ensures forall j :: 0 <= j < first ==> DedupeKey(ranked[j].stored) != DedupeKey(ranked[i].stored)
    ensures !trace[i].selected
  {
    assert RowExplains(ranked, trace, i, budget);
    var key := DedupeKey(ranked[i].stored);
    first :| 0 <= first < i && HoldsFirst(ranked[..i], first, key, trace[i].duplicateOf);
    forall j | 0 <= j < first ensures DedupeKey(ranked[j].stored) != key {
      assert ranked[..i][j] == ranked[j] && ranked[j] in ranked;
    }
  }

  /** No two selected candidates share a dedupe key. */
  lemma SelectedKeysDistinct(ranked: seq<Ranked>, trace: seq<TraceRow>, budget: int, i: nat, j: nat)
    requires |trace| == |ranked| && Explains(ranked, trace, budget)
    requires forall r :: r in ranked ==> r.stored.versionId != ""
    requires i < j < |trace| && trace[i].selected && trace[j].selected
    ensures DedupeKey(ranked[i].stored) != DedupeKey(ranked[j].stored)
  {
    assert RowExplains(ranked, trace, j, budget);
    assert ranked[..j][i] == ranked[i] && ranked[i] in ranked[..j] && ranked[i] in ranked;
  }

  /** Texts that normalize alike are duplicates within one function; without text, only the same version is. */
  lemma KeysAgree(c: Candidate, d: Candidate)
    requires (c.normalized == "") == (d.normalized == "")
    ensures DedupeKey(c) == DedupeKey(d) <==>
      c.memoryFunction == d.memoryFunction
      && (if c.normalized != "" then c.normalized == d.normalized else c.versionId == d.versionId)
  {
  }

  /** The items are the selected rows, in order, each with its row's ids and tokens. */
  lemma {:induction false} ItemsAreSelectedRows(trace: seq<TraceRow>) returns (from: seq<nat>)
    ensures |from| == |SelectedItems(trace)|
    ensures forall n :: 0 <= n < |from| ==> from[n] < |trace| && trace[from[n]].selected
    ensures forall n, o :: 0 <= n < o < |from| ==> from[n] < from[o]
    ensures forall i :: 0 <= i < |trace| && trace[i].selected ==> i in from
    ensures forall n :: 0 <= n < |from| ==>
      var (item, row) := (SelectedItems(trace)[n], trace[from[n]]);
      && item.memoryId == row.memoryId && item.versionId == row.versionId
      && item.conflictGroup == row.conflictGroup && item.tokens == row.tokens
  {
    from := [];
    if trace != [] {
      var front, last := trace[..|trace| - 1], trace[|trace| - 1];
      assert trace == front + [last];
      from := ItemsAreSelectedRows(front);
      if last.selected {
        from := from + [|front|];
      }
    }
  }

  function TokensOf(items: seq<Item>): int {
    if items == [] then 0 else TokensOf(items[..|items| - 1]) + items[|items| - 1].tokens
  }

  lemma TokensOneMore(items: seq<Item>, item: Item)
    ensures TokensOf(items + [item]) == TokensOf(items) + item.tokens
  {
    assert (items + [item])[..|items|] == items;
  }

  /** The tokens reported as used are those of the items returned. */
  lemma {:induction false} UsedIsSumOfItems(trace: seq<TraceRow>)
    ensures SelectedTokens(trace) == TokensOf(SelectedItems(trace))
  {
    if trace != [] {
      var front, last := trace[..|trace| - 1], trace[|trace| - 1];
      assert trace == front + [last];
      SumsOneMore(front, last);
      UsedIsSumOfItems(front);
      if last.selected {
        TokensOneMore(SelectedItems(front), Item(last.memoryId, last.versionId, last.conflictGroup, last.tokens));
      } else {
        assert SelectedItems(front) + [] == SelectedItems(front);
      }
    }
  }

  // ----- The validator's own walk over the trace -----

  predicate TraceValid(trace: seq<TraceRow>, budget: int, used: int) {
    && 0 <= used <= budget
    && (forall row :: row in trace ==>
         && row.memoryId != "" && row.versionId != ""
         && row.tokens >= 0
         && !(row.selected && row.duplicateOf != "")
         && 0.0 <= row.trust <= 1.0)
    && SelectedTokens(trace) == used
  }

  method ValidateTrace(trace: seq<TraceRow>, budget: int, used: int) returns (ok: bool)
    ensures ok <==> TraceValid(trace, budget, used)
  {
    if budget < 0 || used < 0 || used > budget {
      return false;
    }
    var selectedTokens := 0;
    for i := 0 to |trace|
      invariant selectedTokens == SelectedTokens(trace[..i])
      invariant forall k :: 0 <= k < i ==>
        && trace[k].memoryId != "" && trace[k].versionId != "" && trace[k].tokens >= 0
        && !(trace[k].selected && trace[k].duplicateOf != "") && 0.0 <= trace[k].trust <= 1.0
    {
      var row := trace[i];
      assert row in trace;
      if row.memoryId == "" || row.versionId == "" {
        return false;
      }
      if row.tokens < 0 || (row.selected && row.duplicateOf != "") {
        return false;
      }
      if row.trust < 0.0 || row.trust > 1.0 {
        return false;
      }
      assert trace[..i + 1][..i] == trace[..i];
      if row.selected {
        selectedTokens := selectedTokens + row.tokens;
      }
    }
    assert trace[..|trace|] == trace;
    return selectedTokens == used;
  }

  /** What selection leaves passes the validator, for candidates a store can return. */
  lemma SelectionPassesValidator(ranked: seq<Ranked>, trace: seq<TraceRow>, budget: int)
    requires budget >= 0 && |trace| == |ranked| && Explains(ranked, trace, budget)
    requires forall r :: r in ranked ==>
      && r.stored.memoryId != "" && r.stored.versionId != ""
      && r.trust == Trust(r.stored) && PayloadFits(r.stored.payload, r.stored.memoryFunction)
    ensures TraceValid(trace, budget, SelectedTokens(trace))
  {
    forall row | row in trace
      ensures row.memoryId != "" && row.versionId != "" && row.tokens >= 0
              && !(row.selected && row.duplicateOf != "") && 0.0 <= row.trust <= 1.0
    {
      var i :| 0 <= i < |trace| && trace[i] == row;
      assert RowExplains(ranked, trace, i, budget) && ranked[i] in ranked;
      TrustInRange(ranked[i].stored, ranked[i].stored.memoryFunction);
    }
    TokensGrow(ranked, trace, budget, |trace|);
    WithinBudget(ranked, trace, budget, |trace|);
    assert trace[..|trace|] == trace;
  }

  lemma {:induction false} WithinBudget(ranked: seq<Ranked>, trace: seq<TraceRow>, budget: int, i: nat)
    requires budget >= 0 && Explains(ranked, trace, budget) && i <= |trace|
    ensures SelectedTokens(trace[..i]) <= budget
  {
    if i > 0 {
      WithinBudget(ranked, trace, budget, i - 1);
      assert trace[..i][..i - 1] == trace[..i - 1];
      assert RowExplains(ranked, trace, i - 1, budget);
    }
  }

  // ----- Groups -----

  function GroupId(item: Item): string {
    if item.conflictGroup != "" then "conflict:" + item.conflictGroup else "memory:" + item.memoryId
  }

  /** Two items share a group exactly when they share a conflict group, or a memory outside any. */
  lemma GroupIdsAgree(a: Item, b: Item)
    ensures GroupId(a) == GroupId(b) <==>
      if a.conflictGroup != "" || b.conflictGroup != "" then a.conflictGroup == b.conflictGroup else a.memoryId == b.memoryId
  {
    Unprefixed("conflict:", a.conflictGroup, b.conflictGroup);
    Unprefixed("memory:", a.memoryId, b.memoryId);
    assert GroupId(a)[0] == (if a.conflictGroup != "" then 'c' else 'm');
    assert GroupId(b)[0] == (if b.conflictGroup != "" then 'c' else 'm');
  }

  lemma Unprefixed(prefix: string, x: string, y: string)
    ensures prefix + x == prefix + y <==> x == y
  {
    assert (prefix + x)[|prefix|..] == x && (prefix + y)[|prefix|..] == y;
  }

  /** The items of one group, in their order. */
  function ItemsOf(items: seq<Item>, id: string): seq<Item> {
    if items == [] then
      []
    else
      var last := items[|items| - 1];
      ItemsOf(items[..|items| - 1], id) + (if GroupId(last) == id then [last] else [])
  }

  /** The group ids, in order of their first items. */
  function GroupOrder(items: seq<Item>): (ids: seq<string>)
    ensures forall g, h :: 0 <= g < h < |ids| ==> ids[g] != ids[h]
    ensures forall item :: item in items ==> GroupId(item) in ids
  {
    if items == [] then
      []
    else
      var front, last := items[..|items| - 1], items[|items| - 1];
      assert items == front + [last];
      var ids := GroupOrder(front);
      if GroupId(last) in ids then ids else ids + [GroupId(last)]
  }

  ghost predicate GroupOk(items: seq<Item>, g: Group) {
    && g.items == ItemsOf(items, g.id)
    && g.items != []
    && (g.conflict <==> g.items[0].conflictGroup != "")
  }

  /** One group for each id in order, holding that id's items in order. */
  ghost predicate Grouped(items: seq<Item>, groups: seq<Group>) {
    && |groups| == |GroupOrder(items)|
    && forall g :: 0 <= g < |groups| ==> groups[g].id == GroupOrder(items)[g] && GroupOk(items, groups[g])
  }

  ghost predicate Indexes(indexes: map<string, nat>, ids: seq<string>) {
    && (forall id :: id in indexes <==> id in ids)
    && forall g :: 0 <= g < |ids| ==> ids[g] in indexes && indexes[ids[g]] == g
  }

  lemma OneMoreItem(items: seq<Item>, item: Item, id: string)
    ensures ItemsOf(items + [item], id) == ItemsOf(items, id) + (if GroupId(item) == id then [item] else [])
    ensures GroupOrder(items + [item]) ==
      if GroupId(item) in GroupOrder(items) then GroupOrder(items) else GroupOrder(items) + [GroupId(item)]
  {
    assert (items + [item])[..|items|] == items;
  }

  lemma {:induction false} ItemsOfMembers(items: seq<Item>, id: string)
    ensures forall item :: item in ItemsOf(items, id) <==> item in items && GroupId(item) == id
  {
    if items != [] {
      var front, last := items[..|items| - 1], items[|items| - 1];
      assert items == front + [last];
      ItemsOfMembers(front, id);
    }
  }

  lemma {:induction false} NoItems(items: seq<Item>, id: string)
    requires id !in GroupOrder(items)
    ensures ItemsOf(items, id) == []
  {
    if items != [] {
      var front, last := items[..|items| - 1], items[|items| - 1];
      assert items == front + [last];
      NoItems(front, id);
    }
  }

  function WithItem(g: Group, item: Item): Group {
    g.(items := g.items + [item])
  }

  lemma GroupOneMore(items: seq<Item>, item: Item, g: Group)
    requires GroupOk(items, g)
    ensures GroupOk(items + [item], if g.id == GroupId(item) then WithItem(g, item) else g)
  {
    OneMoreItem(items, item, g.id);
  }

  lemma AddedToGroup(items: seq<Item>, item: Item, groups: seq<Group>, index: nat)
    requires Grouped(items, groups) && index < |groups| && groups[index].id == GroupId(item)
    ensures Grouped(items + [item], groups[index := WithItem(groups[index], item)])
  {
    var after := groups[index := WithItem(groups[index], item)];
    OneMoreItem(items, item, GroupId(item));
    forall g | 0 <= g < |after| ensures after[g].id == GroupOrder(items + [item])[g] && GroupOk(items + [item], after[g]) {
      assert groups[g].id == GroupOrder(items)[g];
      GroupOneMore(items, item, groups[g]);
    }
  }

  lemma OpenedGroup(items: seq<Item>, item: Item, groups: seq<Group>)
    requires Grouped(items, groups) && GroupId(item) !in GroupOrder(items)
    ensures Grouped(items + [item], groups + [Group(GroupId(item), item.conflictGroup != "", [item])])
  {
    var after := groups + [Group(GroupId(item), item.conflictGroup != "", [item])];
    OneMoreItem(items, item, GroupId(item));
    NoItems(items, GroupId(item));
    forall g | 0 <= g < |after| ensures after[g].id == GroupOrder(items + [item])[g] && GroupOk(items + [item], after[g]) {
      if g < |groups| {
        assert groups[g].id == GroupOrder(items)[g];
        GroupOneMore(items, item, groups[g]);
      }
    }
  }

  lemma IndexesGrow(indexes: map<string, nat>, ids: seq<string>, id: string)
    requires Indexes(indexes, ids) && id !in ids
    ensures Indexes(indexes[id := |ids|], ids + [id])
  {
  }

  method GroupRecallItems(items: seq<Item>) returns (groups: seq<Group>)
    ensures Grouped(items, groups)
  {
    groups := [];
    var indexes: map<string, nat> := map[];
    for i := 0 to |items|
      invariant Grouped(items[..i], groups) && Indexes(indexes, GroupOrder(items[..i]))
    {
      var item := items[i];
      var id := GroupId(item);
      assert items[..i + 1] == items[..i] + [item];
      OneMoreItem(items[..i], item, id);
      if id in indexes {
        var index := indexes[id];
        AddedToGroup(items[..i], item, groups, index);
        groups := groups[index := WithItem(groups[index], item)];
      } else {
        IndexesGrow(indexes, GroupOrder(items[..i]), id);
        indexes := indexes[id := |groups|];
        OpenedGroup(items[..i], item, groups);
        groups := groups + [Group(id, item.conflictGroup != "", [item])];
      }
    }
    assert items[..|items|] == items;
  }

  /**
   * The groups partition the items: each item is in one group only, with exactly the items
   * that share its conflict group, or its memory when it has none; and groups say which.
   */
  lemma GroupsPartition(items: seq<Item>, groups: seq<Group>, item: Item)
    requires Grouped(items, groups) && item in items
    ensures exists g :: 0 <= g < |groups| && item in groups[g].items
    ensures forall g, h :: 0 <= g < |groups| && 0 <= h < |groups| && item in groups[g].items && item in groups[h].items ==> g == h
    ensures forall g, other :: 0 <= g < |groups| && item in groups[g].items ==>
      (other in groups[g].items <==> other in items && GroupId(other) == GroupId(item))
    ensures forall g :: 0 <= g < |groups| && item in groups[g].items ==> (groups[g].conflict <==> item.conflictGroup != "")
  {
    forall g | 0 <= g < |groups| ensures GroupOk(items, groups[g])
      ensures forall x :: x in groups[g].items <==> x in items && GroupId(x) == groups[g].id
    {
      ItemsOfMembers(items, groups[g].id);
    }
    var at :| 0 <= at < |GroupOrder(items)| && GroupOrder(items)[at] == GroupId(item);
    assert item in groups[at].items;
    GroupIdsAgree(groups[at].items[0], item);
    assert groups[at].items[0] in groups[at].items;
  }

  /** picked holds the items at these places, in order. */
  predicate Picks(items: seq<Item>, from: seq<nat>, picked: seq<Item>) {
    && |from| == |picked|
    && (forall n :: 0 <= n < |from| ==> from[n] < |items| && items[from[n]] == picked[n])
    && forall n, o :: 0 <= n < o < |from| ==> from[n] < from[o]
  }

  lemma PicksOneMore(items: seq<Item>, item: Item, from: seq<nat>, picked: seq<Item>)
    requires Picks(items, from, picked)
    ensures Picks(items + [item], from, picked) && Picks(items + [item], from + [|items|], picked + [item])
  {
  }

  /** The items of a group are those of its id, in the order they came in. */
  lemma {:induction false} GroupKeepsOrder(items: seq<Item>, id: string) returns (from: seq<nat>)
    ensures Picks(items, from, ItemsOf(items, id))
    ensures forall i :: 0 <= i < |items| ==> (i in from <==> GroupId(items[i]) == id)
  {
    from := [];
    if items != [] {
      var front, last := items[..|items| - 1], items[|items| - 1];
      assert items == front + [last];
      var before := GroupKeepsOrder(front, id);
      PicksOneMore(front, last, before, ItemsOf(front, id));
      from := if GroupId(last) == id then before + [|front|] else before;
      assert ItemsOf(items, id) == if GroupId(last) == id then ItemsOf(front, id) + [last] else ItemsOf(front, id) + [];
      assert ItemsOf(front, id) + [] == ItemsOf(front, id);
    }
  }

  /** i is the first item of this group. */
  predicate First(items: seq<Item>, i: nat, id: string) {
    i < |items| && GroupId(items[i]) == id && forall j :: 0 <= j < i ==> GroupId(items[j]) != id
  }

  lemma FirstStays(items: seq<Item>, item: Item, i: nat, id: string)
    requires First(items, i, id)
    ensures First(items + [item], i, id)
  {
  }

  lemma FirstOfNew(items: seq<Item>, item: Item)
    requires GroupId(item) !in GroupOrder(items)
    ensures First(items + [item], |items|, GroupId(item))
  {
    assert forall j :: 0 <= j < |items| ==> items[j] in items;
  }

  ghost predicate FirstItems(items: seq<Item>, firsts: seq<nat>, ids: seq<string>) {
    && |firsts| == |ids|
    && (forall g :: 0 <= g < |firsts| ==> First(items, firsts[g], ids[g]))
    && forall g, h :: 0 <= g < h < |firsts| ==> firsts[g] < firsts[h]
  }

  /** The groups come in the order of their first items, and each has one. */
  lemma {:induction false} GroupsByFirstItem(items: seq<Item>) returns (firsts: seq<nat>)
    ensures FirstItems(items, firsts, GroupOrder(items))
  {
    firsts := [];
    if items != [] {
      var front, last := items[..|items| - 1], items[|items| - 1];
      assert items == front + [last];
      OneMoreItem(front, last, "");
      firsts := GroupsByFirstItem(front);
      forall g | 0 <= g < |firsts| ensures First(items, firsts[g], GroupOrder(front)[g]) {
        FirstStays(front, last, firsts[g], GroupOrder(front)[g]);
      }
      if GroupId(last) !in GroupOrder(front) {
        FirstOfNew(front, last);
        firsts := firsts + [|front|];
      }
    }
  }
}
