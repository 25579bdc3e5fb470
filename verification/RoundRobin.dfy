/** Sampling messages for the model comparison: one from each chat pair in turn, so that no busy
    chat becomes the whole benchmark. */
module RoundRobin {
  datatype Row = Row(pair: nat, id: nat)

  /** The rows of one pair, in order. */
  function Of(rows: seq<Row>, pair: nat): seq<Row> {
    if rows == [] then []
    else Of(rows[..|rows| - 1], pair) + if rows[|rows| - 1].pair == pair then [rows[|rows| - 1]] else []
  }

  lemma OfAppend(rows: seq<Row>, row: Row, pair: nat)
    ensures Of(rows + [row], pair) == Of(rows, pair) + if row.pair == pair then [row] else []
  {
    assert (rows + [row])[..|rows|] == rows;
  }

  /** The last `n` rows, the way n pops give them. */
  function Popped(rows: seq<Row>, n: nat): seq<Row>
    requires n <= |rows|
  {
    if n == 0 then [] else Popped(rows, n - 1) + [rows[|rows| - n]]
  }

  lemma {:induction false} PoppedLength(rows: seq<Row>, n: nat)
    requires n <= |rows|
    ensures |Popped(rows, n)| == n
  {
    if n > 0 { PoppedLength(rows, n - 1); }
  }

  /** A dictionary of lists, its keys in insertion order. */
  datatype Table = Table(order: seq<nat>, lists: map<nat, seq<Row>>)

  predicate WellFormed(t: Table) {
    && (forall i, j :: 0 <= i < j < |t.order| ==> t.order[i] != t.order[j])
    && (forall i :: 0 <= i < |t.order| ==> t.order[i] in t.lists)
  }

  function Size(order: seq<nat>, lists: map<nat, seq<Row>>): nat
    requires forall i :: 0 <= i < |order| ==> order[i] in lists
  {
    if order == [] then 0 else Size(order[..|order| - 1], lists) + |lists[order[|order| - 1]]|
  }

  lemma {:induction false} SizeElsewhere(order: seq<nat>, lists: map<nat, seq<Row>>, pair: nat, rows: seq<Row>)
    requires forall i :: 0 <= i < |order| ==> order[i] in lists && order[i] != pair
    ensures Size(order, lists[pair := rows]) == Size(order, lists)
  {
    if order != [] { SizeElsewhere(order[..|order| - 1], lists, pair, rows); }
  }

  lemma {:induction false} SizeUpdate(order: seq<nat>, lists: map<nat, seq<Row>>, i: nat, rows: seq<Row>)
    requires WellFormed(Table(order, lists)) && i < |order|
    ensures Size(order, lists[order[i] := rows]) == Size(order, lists) - |lists[order[i]]| + |rows|
  {
    var init := order[..|order| - 1];
    if i == |order| - 1 {
      SizeElsewhere(init, lists, order[i], rows);
    } else {
      SizeUpdate(init, lists, i, rows);
    }
  }

  lemma {:induction false} SizeZero(order: seq<nat>, lists: map<nat, seq<Row>>)
    requires forall i :: 0 <= i < |order| ==> order[i] in lists && lists[order[i]] == []
    ensures Size(order, lists) == 0
  {
    if order != [] { SizeZero(order[..|order| - 1], lists); }
  }

  function ListAt(lists: map<nat, seq<Row>>, pair: nat): seq<Row> {
    if pair in lists then lists[pair] else []
  }

  ghost predicate ListsOf(lists: map<nat, seq<Row>>, rows: seq<Row>) {
    forall pair :: ListAt(lists, pair) == Of(rows, pair)
  }

  predicate AllListed(t: Table) {
    forall pair :: pair in t.lists ==> pair in t.order
  }

  /** Every pair's list holds its rows. */
  ghost predicate Groups(t: Table, rows: seq<Row>) {
    WellFormed(t) && AllListed(t) && ListsOf(t.lists, rows) && Size(t.order, t.lists) == |rows|
  }

  lemma {:induction false} OfMembers(rows: seq<Row>, pair: nat)
    ensures forall row :: row in Of(rows, pair) ==> row.pair == pair
  {
    if rows != [] { OfMembers(rows[..|rows| - 1], pair); }
  }

  method ByPair(rows: seq<Row>) returns (t: Table)
    ensures Groups(t, rows)
  {
    t := Table([], map[]);
    var i := 0;
    while i < |rows|
      invariant i <= |rows|
      invariant Groups(t, rows[..i])
    {
      GroupsGrow(t, rows, i);
      t := Added(t, rows[i]);
      i := i + 1;
    }
    assert rows[..i] == rows;
  }

  /** setdefault(pair, []).append(row) */
  function Added(t: Table, row: Row): Table {
    if row.pair in t.lists then t.(lists := t.lists[row.pair := t.lists[row.pair] + [row]])
    else Table(t.order + [row.pair], t.lists[row.pair := [row]])
  }

  lemma ListsGrow(t: Table, rows: seq<Row>, row: Row)
    requires ListsOf(t.lists, rows)
    ensures ListsOf(Added(t, row).lists, rows + [row])
  {
    var next := Added(t, row);
    forall pair ensures ListAt(next.lists, pair) == Of(rows + [row], pair) {
      OfAppend(rows, row, pair);
      assert ListAt(t.lists, pair) == Of(rows, pair);
    }
  }

  lemma SizeGrows(t: Table, row: Row)
    requires WellFormed(t) && AllListed(t)
    ensures WellFormed(Added(t, row)) && AllListed(Added(t, row))
    ensures Size(Added(t, row).order, Added(t, row).lists) == Size(t.order, t.lists) + 1
  {
    if row.pair in t.lists {
      var i: nat :| i < |t.order| && t.order[i] == row.pair;
      SizeUpdate(t.order, t.lists, i, t.lists[row.pair] + [row]);
    } else {
      SizeElsewhere(t.order, t.lists, row.pair, [row]);
      assert (t.order + [row.pair])[..|t.order|] == t.order;
    }
  }

  lemma GroupsGrow(t: Table, rows: seq<Row>, i: nat)
    requires i < |rows| && Groups(t, rows[..i])
    ensures Groups(Added(t, rows[i]), rows[..i + 1])
  {
    assert rows[..i + 1] == rows[..i] + [rows[i]];
    ListsGrow(t, rows[..i], rows[i]);
    SizeGrows(t, rows[i]);
  }

  function Min(a: nat, b: nat): nat { if a < b then a else b }

  /** How many rows of the `i`-th list are out when `round` rounds are complete and the next one
      has passed the lists before `done`. */
  function Share(round: nat, done: nat, i: nat, size: nat): nat {
    Min(if i < done then round + 1 else round, size)
  }

  /** List `i` has lost its share from the end, and that is what was picked of it. */
  predicate DealtAt(t: Table, lists: map<nat, seq<Row>>, picked: seq<Row>, round: nat, done: nat, i: nat)
    requires WellFormed(t) && lists.Keys == t.lists.Keys && i < |t.order|
  {
    var rows := t.lists[t.order[i]];
    var n := Share(round, done, i, |rows|);
    lists[t.order[i]] == rows[..|rows| - n] && Of(picked, t.order[i]) == Popped(rows, n)
  }

  predicate Dealt(t: Table, lists: map<nat, seq<Row>>, picked: seq<Row>, round: nat, done: nat)
    requires WellFormed(t)
  {
    lists.Keys == t.lists.Keys && forall i :: 0 <= i < |t.order| ==> DealtAt(t, lists, picked, round, done, i)
  }

  predicate Tagged(t: Table) {
    forall pair :: pair in t.lists ==> forall row :: row in t.lists[pair] ==> row.pair == pair
  }

  predicate OnlyPairs(t: Table, picked: seq<Row>) {
    forall row :: row in picked ==> row.pair in t.order
  }

  lemma DealtPop(t: Table, lists: map<nat, seq<Row>>, picked: seq<Row>, round: nat, j: nat)
    requires WellFormed(t) && Tagged(t) && Dealt(t, lists, picked, round, j)
    requires j < |t.order| && lists[t.order[j]] != []
    ensures var rows := lists[t.order[j]];
            Dealt(t, lists[t.order[j] := rows[..|rows| - 1]], picked + [rows[|rows| - 1]], round, j + 1)
    ensures lists[t.order[j]][|lists[t.order[j]]| - 1].pair == t.order[j]
  {
    var all, rows := t.lists[t.order[j]], lists[t.order[j]];
    var row := rows[|rows| - 1];
    assert DealtAt(t, lists, picked, round, j, j);
    assert row in all;
    forall pair ensures Of(picked + [row], pair) == Of(picked, pair) + if row.pair == pair then [row] else [] {
      OfAppend(picked, row, pair);
    }
    var left, more, next := lists[t.order[j] := rows[..|rows| - 1]], picked + [row], j + 1;
    forall i | 0 <= i < |t.order| ensures DealtAt(t, left, more, round, next, i) {
      assert DealtAt(t, lists, picked, round, j, i);
    }
  }

  /** The lists before `j` have run out. */
  predicate EmptyBefore(t: Table, lists: map<nat, seq<Row>>, j: nat) {
    j <= |t.order| && forall i :: 0 <= i < j ==> ListAt(lists, t.order[i]) == []
  }

  /** What a round keeps. */
  predicate Dealing(t: Table, lists: map<nat, seq<Row>>, picked: seq<Row>, round: nat, done: nat, total: nat) {
    && WellFormed(t) && Dealt(t, lists, picked, round, done) && OnlyPairs(t, picked)
    && |picked| + Size(t.order, lists) == total
  }

  lemma DealingPop(t: Table, lists: map<nat, seq<Row>>, picked: seq<Row>, round: nat, j: nat, total: nat)
    requires Tagged(t) && Dealing(t, lists, picked, round, j, total)
    requires j < |t.order| && lists[t.order[j]] != []
    ensures var rows := lists[t.order[j]];
            Dealing(t, lists[t.order[j] := rows[..|rows| - 1]], picked + [rows[|rows| - 1]], round, j + 1, total)
  {
    var rows := lists[t.order[j]];
    DealtPop(t, lists, picked, round, j);
    SizeUpdate(t.order, lists, j, rows[..|rows| - 1]);
  }

  lemma DealingPass(t: Table, lists: map<nat, seq<Row>>, picked: seq<Row>, round: nat, j: nat, total: nat)
    requires Dealing(t, lists, picked, round, j, total)
    requires j < |t.order| && lists[t.order[j]] == []
    ensures Dealing(t, lists, picked, round, j + 1, total)
  {
    var next := j + 1;
    forall i | 0 <= i < |t.order| ensures DealtAt(t, lists, picked, round, next, i) {
      assert DealtAt(t, lists, picked, round, j, i);
    }
  }

  lemma NextRound(t: Table, lists: map<nat, seq<Row>>, picked: seq<Row>, round: nat, total: nat)
    requires Dealing(t, lists, picked, round, |t.order|, total)
    ensures Dealing(t, lists, picked, round + 1, 0, total)
  {
    var next := round + 1;
    forall i | 0 <= i < |t.order| ensures DealtAt(t, lists, picked, next, 0, i) {
      assert DealtAt(t, lists, picked, round, |t.order|, i);
    }
  }

  /** One round: a row from every list that has one left, while there is room. */
  method Round(t: Table, lists: map<nat, seq<Row>>, picked: seq<Row>, limit: nat, ghost round: nat, ghost total: nat)
    returns (left: map<nat, seq<Row>>, more: seq<Row>, ghost done: nat)
    requires Tagged(t) && Dealing(t, lists, picked, round, 0, total)
    requires |picked| < limit && !EmptyBefore(t, lists, |t.order|)
    ensures done <= |t.order| && Dealing(t, left, more, round, done, total)
    ensures |picked| < |more| <= limit && (done == |t.order| || |more| == limit)
  {
    left, more, done := lists, picked, 0;
    for j := 0 to |t.order|
      invariant done <= j && (done == j || |more| == limit)
      invariant Dealing(t, left, more, round, done, total)
      invariant |picked| <= |more| <= limit
      invariant |more| == |picked| ==> left == lists && EmptyBefore(t, lists, j)
    {
      if |more| < limit {
        left, more := Turn(t, left, more, round, j, total);
        done := j + 1;
      }
    }
  }

  /** The turn of list `j`. */
  method Turn(t: Table, lists: map<nat, seq<Row>>, picked: seq<Row>, ghost round: nat, j: nat, ghost total: nat)
    returns (left: map<nat, seq<Row>>, more: seq<Row>)
    requires j < |t.order| && Tagged(t) && Dealing(t, lists, picked, round, j, total)
    ensures Dealing(t, left, more, round, j + 1, total)
    ensures if ListAt(lists, t.order[j]) == [] then left == lists && more == picked else |more| == |picked| + 1
  {
    var rows := lists[t.order[j]];
    if rows == [] {
      DealingPass(t, lists, picked, round, j, total);
      return lists, picked;
    }
    DealingPop(t, lists, picked, round, j, total);
    left, more := lists[t.order[j] := rows[..|rows| - 1]], picked + [rows[|rows| - 1]];
  }

  /** The pairs' shares differ by at most one unless a pair has run out. */
  lemma SharesAreEven(round: nat, done: nat, i: nat, m: nat, j: nat, n: nat)
    ensures Share(round, done, i, m) >= Share(round, done, j, n) + 2 ==> Share(round, done, j, n) == n
  {
  }

  lemma {:induction false} OfOthers(picked: seq<Row>, pair: nat)
    requires forall row :: row in picked ==> row.pair != pair
    ensures Of(picked, pair) == []
  {
    if picked != [] {
      assert picked[|picked| - 1] in picked;
      OfOthers(picked[..|picked| - 1], pair);
    }
  }

  lemma PairShare(t: Table, rows: seq<Row>, lists: map<nat, seq<Row>>, picked: seq<Row>, round: nat, done: nat, pair: nat) returns (i: nat)
    requires Groups(t, rows) && Dealt(t, lists, picked, round, done) && OnlyPairs(t, picked)
    ensures |Of(picked, pair)| == Share(round, done, i, |Of(rows, pair)|)
    ensures Of(picked, pair) == Popped(Of(rows, pair), |Of(picked, pair)|)
  {
    i := 0;
    assert ListAt(t.lists, pair) == Of(rows, pair);
    if pair in t.order {
      i :| i < |t.order| && t.order[i] == pair;
      assert DealtAt(t, lists, picked, round, done, i);
      PoppedLength(t.lists[pair], Share(round, done, i, |t.lists[pair]|));
    } else {
      OfOthers(picked, pair);
    }
  }

  lemma SharedOut(t: Table, rows: seq<Row>, lists: map<nat, seq<Row>>, picked: seq<Row>, round: nat, done: nat)
    requires Groups(t, rows) && Dealt(t, lists, picked, round, done) && OnlyPairs(t, picked)
    ensures forall pair :: |Of(picked, pair)| <= |Of(rows, pair)| && Of(picked, pair) == Popped(Of(rows, pair), |Of(picked, pair)|)
    ensures forall p, q :: |Of(picked, p)| >= |Of(picked, q)| + 2 ==> |Of(picked, q)| == |Of(rows, q)|
  {
    forall pair ensures |Of(picked, pair)| <= |Of(rows, pair)| && Of(picked, pair) == Popped(Of(rows, pair), |Of(picked, pair)|) {
      var i := PairShare(t, rows, lists, picked, round, done, pair);
    }
    forall p, q ensures |Of(picked, p)| >= |Of(picked, q)| + 2 ==> |Of(picked, q)| == |Of(rows, q)| {
      var i := PairShare(t, rows, lists, picked, round, done, p);
      var j := PairShare(t, rows, lists, picked, round, done, q);
      SharesAreEven(round, done, i, |Of(rows, p)|, j, |Of(rows, q)|);
    }
  }

  /** As many rows as asked for, or all there are; of each pair its last rows, none twice; and no
      pair is two ahead of another that still has rows. */
  method LoadMessages(rows: seq<Row>, limit: nat) returns (picked: seq<Row>)
    ensures |picked| == Min(limit, |rows|)
    ensures forall pair :: |Of(picked, pair)| <= |Of(rows, pair)| && Of(picked, pair) == Popped(Of(rows, pair), |Of(picked, pair)|)
    ensures forall p, q :: |Of(picked, p)| >= |Of(picked, q)| + 2 ==> |Of(picked, q)| == |Of(rows, q)|
  {
    var t := ByPair(rows);
    StartDealing(t, rows);
    var lists := t.lists;
    picked := [];
    ghost var round, done := 0, 0;
    while |picked| < limit && !EmptyBefore(t, lists, |t.order|)
      invariant Dealing(t, lists, picked, round, done, |rows|)
      invariant |picked| <= limit && (|picked| < limit ==> done == 0)
      decreases limit - |picked|
    {
      lists, picked, done := Round(t, lists, picked, limit, round, |rows|);
      if done == |t.order| {
        NextRound(t, lists, picked, round, |rows|);
        round, done := round + 1, 0;
      }
    }
    SharedOut(t, rows, lists, picked, round, done);
    if |picked| < limit { SizeZero(t.order, lists); }
  }

  lemma StartDealing(t: Table, rows: seq<Row>)
    requires Groups(t, rows)
    ensures Tagged(t) && Dealing(t, t.lists, [], 0, 0, |rows|)
  {
    forall pair | pair in t.lists ensures forall row :: row in t.lists[pair] ==> row.pair == pair {
      OfMembers(rows, pair);
      assert ListAt(t.lists, pair) == Of(rows, pair);
    }
  }
}
