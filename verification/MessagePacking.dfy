/** Fitting texts into Telegram messages: raw text cut at its breaks, and formatted blocks joined
    into as few messages as fit. */
module MessagePacking {
  import opened Wrappers

  // Packing blocks.

  function JoinAll(groups: seq<seq<string>>, sep: string): seq<string> {
    if groups == [] then [] else JoinAll(groups[..|groups| - 1], sep) + [Join(groups[|groups| - 1], sep)]
  }

  function Flat(groups: seq<seq<string>>): seq<string> {
    if groups == [] then [] else Flat(groups[..|groups| - 1]) + groups[|groups| - 1]
  }

  /** A group makes a message that fits; a block too long for any message stands alone. */
  predicate Fits(group: seq<string>, sep: string, limit: nat) {
    group != [] && (|group| == 1 || |Join(group, sep)| <= limit)
  }

  /** An order-preserving split of the blocks into groups that fit. */
  predicate IsGrouping(groups: seq<seq<string>>, blocks: seq<string>, sep: string, limit: nat) {
    Flat(groups) == blocks && forall g :: 0 <= g < |groups| ==> Fits(groups[g], sep, limit)
  }

  predicate AllSolid(blocks: seq<string>) {
    forall b :: b in blocks ==> b != ""
  }

  /** What is still sent when `current` is open and `blocks` are to come. */
  function Packed(blocks: seq<string>, current: string, sep: string, limit: nat): seq<string> {
    if blocks == [] then (if current == "" then [] else [current])
    else
      var candidate := if current == "" then blocks[0] else current + sep + blocks[0];
      if |candidate| <= limit || current == "" then Packed(blocks[1..], candidate, sep, limit)
      else [current] + Packed(blocks[1..], blocks[0], sep, limit)
  }

  method PackMessages(blocks: seq<string>, sep: string, limit: nat) returns (messages: seq<string>)
    ensures messages == Packed(blocks, "", sep, limit)
  {
    messages := [];
    var current := "";
    var i := 0;
    while i < |blocks|
      invariant i <= |blocks|
      invariant messages + Packed(blocks[i..], current, sep, limit) == Packed(blocks, "", sep, limit)
    {
      var block := blocks[i];
      PackedStep(blocks, i, current, messages, sep, limit);
      var candidate := if current == "" then block else current + sep + block;
      if |candidate| <= limit || current == "" {
        current := candidate;
      } else {
        messages := messages + [current];
        current := block;
      }
      i := i + 1;
    }
    if current != "" {
      messages := messages + [current];
    }
  }

  lemma PackedStep(blocks: seq<string>, i: nat, current: string, messages: seq<string>, sep: string, limit: nat)
    requires i < |blocks|
    ensures var candidate := if current == "" then blocks[i] else current + sep + blocks[i];
            messages + Packed(blocks[i..], current, sep, limit)
            == if |candidate| <= limit || current == "" then messages + Packed(blocks[i + 1..], candidate, sep, limit)
               else (messages + [current]) + Packed(blocks[i + 1..], blocks[i], sep, limit)
  {
    assert blocks[i..][1..] == blocks[i + 1..];
    var rest := Packed(blocks[i + 1..], blocks[i], sep, limit);
    assert messages + ([current] + rest) == (messages + [current]) + rest;
  }

  /** Joining the joined groups joins all the blocks. */
  lemma {:induction false} JoinOfJoins(groups: seq<seq<string>>, sep: string)
    requires forall g :: 0 <= g < |groups| ==> groups[g] != []
    ensures Join(JoinAll(groups, sep), sep) == Join(Flat(groups), sep)
    ensures |JoinAll(groups, sep)| == |groups| && (Flat(groups) == [] <==> groups == [])
  {
    if groups != [] {
      var init, last := groups[..|groups| - 1], groups[|groups| - 1];
      JoinOfJoins(init, sep);
      if init == [] {
        assert Flat(groups) == last && JoinAll(groups, sep) == [Join(last, sep)];
      } else {
        JoinConcat(JoinAll(init, sep), [Join(last, sep)], sep);
        JoinConcat(Flat(init), last, sep);
      }
    }
  }

  /** Every grouping needs `n` groups, and with exactly `n` its last one has `last` blocks or more. */
  ghost predicate AtLeast(blocks: seq<string>, sep: string, limit: nat, n: nat, last: nat) {
    forall groups :: IsGrouping(groups, blocks, sep, limit) ==>
      |groups| > n || (|groups| == n && (n > 0 ==> |groups[n - 1]| >= last))
  }

  /** Taking the last block off a grouping leaves a grouping of the rest. */
  lemma Shorten(groups: seq<seq<string>>, blocks: seq<string>, sep: string, limit: nat) returns (shorter: seq<seq<string>>)
    requires blocks != [] && IsGrouping(groups, blocks, sep, limit)
    ensures IsGrouping(shorter, blocks[..|blocks| - 1], sep, limit)
    ensures groups != []
    ensures var last := groups[|groups| - 1];
            if |last| == 1 then |shorter| == |groups| - 1
            else |shorter| == |groups| && |shorter[|shorter| - 1]| == |last| - 1
  {
    var n := |groups|;
    var last := groups[n - 1];
    assert Fits(last, sep, limit);
    assert blocks == Flat(groups[..n - 1]) + last;
    if |last| == 1 {
      shorter := groups[..n - 1];
      assert blocks[..|blocks| - 1] == Flat(shorter);
    } else {
      var cut := last[..|last| - 1];
      assert last == cut + [last[|last| - 1]];
      JoinConcat(cut, [last[|last| - 1]], sep);
      shorter := groups[..n - 1] + [cut];
      assert shorter[..n - 1] == groups[..n - 1];
      assert blocks[..|blocks| - 1] == Flat(groups[..n - 1]) + cut;
    }
  }

  /** The blocks of the open message are a suffix of any last group at least as long. */
  lemma SuffixIsShorter(group: seq<string>, part: seq<string>, sep: string)
    requires part != [] && |part| <= |group| && group[|group| - |part|..] == part
    ensures |Join(part, sep)| <= |Join(group, sep)|
  {
    var front := group[..|group| - |part|];
    assert group == front + part;
    if front != [] { JoinConcat(front, part, sep); } else { assert group == part; }
  }

  lemma LastGroupEndsBlocks(groups: seq<seq<string>>, blocks: seq<string>, sep: string, limit: nat, n: nat)
    requires groups != [] && IsGrouping(groups, blocks, sep, limit) && n <= |groups[|groups| - 1]|
    ensures n <= |blocks| && groups[|groups| - 1][|groups[|groups| - 1]| - n..] == blocks[|blocks| - n..]
  {
    assert blocks == Flat(groups[..|groups| - 1]) + groups[|groups| - 1];
  }

  /** The greedy step keeps the bound: the open message `cur` either takes the next block, or is
      too full for it in every grouping. */
  lemma AtLeastStep(blocks: seq<string>, cur: seq<string>, block: string, sep: string, limit: nat, n: nat)
    requires cur != [] && |cur| <= |blocks| && blocks[|blocks| - |cur|..] == cur
    requires AtLeast(blocks, sep, limit, n, |cur|)
    ensures |Join(cur + [block], sep)| <= limit ==> AtLeast(blocks + [block], sep, limit, n, |cur| + 1)
    ensures |Join(cur + [block], sep)| > limit ==> AtLeast(blocks + [block], sep, limit, n + 1, 1)
  {
    var all, open := blocks + [block], cur + [block];
    assert all[..|all| - 1] == blocks;
    assert all[|all| - |open|..] == open;
    forall groups | IsGrouping(groups, all, sep, limit)
      ensures |Join(open, sep)| <= limit ==> |groups| > n || (|groups| == n && (n > 0 ==> |groups[n - 1]| >= |cur| + 1))
      ensures |Join(open, sep)| > limit ==> |groups| > n + 1 || (|groups| == n + 1 && |groups[n]| >= 1)
    {
      var shorter := Shorten(groups, all, sep, limit);
      var last := groups[|groups| - 1];
      assert Fits(last, sep, limit);
      if |groups| == n && |last| >= |open| {
        LastGroupEndsBlocks(groups, all, sep, limit, |open|);
        SuffixIsShorter(last, open, sep);
      }
    }
  }

  /** The greedy run from the state where `groups` are sent and `cur` is open. */
  lemma {:induction false} PackedGroups(
    groups: seq<seq<string>>, cur: seq<string>, rest: seq<string>, sep: string, limit: nat) returns (all: seq<seq<string>>)
    requires cur != [] && AllSolid(cur + rest) && Fits(cur, sep, limit)
    requires forall g :: 0 <= g < |groups| ==> Fits(groups[g], sep, limit)
    requires AtLeast(Flat(groups) + cur, sep, limit, |groups| + 1, |cur|)
    ensures IsGrouping(all, Flat(groups) + cur + rest, sep, limit)
    ensures JoinAll(all, sep) == JoinAll(groups, sep) + Packed(rest, Join(cur, sep), sep, limit)
    ensures AtLeast(Flat(groups) + cur + rest, sep, limit, |all|, 0)
    decreases |rest|
  {
    var sent := groups + [cur];
    PushGroup(groups, cur, sep);
    assert forall b :: b in cur ==> b in cur + rest;
    JoinIsSolid(cur, sep);
    var before := Flat(groups) + cur;
    if rest == [] {
      all := sent;
      assert before + rest == before;
    } else {
      var block := rest[0];
      var open := cur + [block];
      assert before[|before| - |cur|..] == cur;
      AtLeastStep(before, cur, block, sep, limit, |groups| + 1);
      TakeBlock(Flat(groups), cur, rest);
      PackedNext(cur, rest, sep, limit);
      if |Join(open, sep)| <= limit {
        all := PackedGroups(groups, open, rest[1..], sep, limit);
      } else {
        assert Flat(sent) + [block] == before + [block];
        all := PackedGroups(sent, [block], rest[1..], sep, limit);
        Associates(JoinAll(groups, sep), [Join(cur, sep)], Packed(rest[1..], Join([block], sep), sep, limit));
      }
    }
  }

  lemma PackedNext(cur: seq<string>, rest: seq<string>, sep: string, limit: nat)
    requires cur != [] && rest != [] && Join(cur, sep) != ""
    ensures var open := Join(cur + [rest[0]], sep);
            Packed(rest, Join(cur, sep), sep, limit)
            == if |open| <= limit then Packed(rest[1..], open, sep, limit)
               else [Join(cur, sep)] + Packed(rest[1..], Join([rest[0]], sep), sep, limit)
  {
    JoinConcat(cur, [rest[0]], sep);
  }

  /** The first block to come joins the open group or starts one. */
  lemma TakeBlock(sent: seq<string>, cur: seq<string>, rest: seq<string>)
    requires rest != []
    ensures sent + cur + [rest[0]] == sent + (cur + [rest[0]])
    ensures sent + cur + rest == sent + (cur + [rest[0]]) + rest[1..] == sent + cur + [rest[0]] + rest[1..]
    ensures forall b :: b in cur + [rest[0]] + rest[1..] || b in [rest[0]] + rest[1..] ==> b in cur + rest
  {
  }

  lemma PushGroup(groups: seq<seq<string>>, cur: seq<string>, sep: string)
    ensures Flat(groups + [cur]) == Flat(groups) + cur && JoinAll(groups + [cur], sep) == JoinAll(groups, sep) + [Join(cur, sep)]
  {
    assert (groups + [cur])[..|groups|] == groups;
  }

  lemma JoinIsSolid(parts: seq<string>, sep: string)
    requires parts != [] && AllSolid(parts)
    ensures Join(parts, sep) != ""
  {
    assert parts[0] in parts;
  }

  lemma OneGroup(block: string, sep: string, limit: nat)
    ensures AtLeast([block], sep, limit, 1, 1)
  {
    forall groups | IsGrouping(groups, [block], sep, limit)
      ensures |groups| > 1 || (|groups| == 1 && |groups[0]| >= 1)
    {
      assert groups != [] && Fits(groups[0], sep, limit);
    }
  }

  /** Blocks that are not empty are all sent, in order and whole; each message is within the limit
      or is one block over it; and no other way to do so takes fewer messages. */
  lemma PackingIsOptimal(blocks: seq<string>, sep: string, limit: nat)
    requires AllSolid(blocks)
    ensures var messages := Packed(blocks, "", sep, limit);
            && Join(messages, sep) == Join(blocks, sep)
            && (exists groups :: IsGrouping(groups, blocks, sep, limit) && messages == JoinAll(groups, sep))
            && (forall groups :: IsGrouping(groups, blocks, sep, limit) ==> |messages| <= |groups|)
  {
    var all := PackingGroups(blocks, sep, limit);
    FittingGroupsHaveBlocks(all, sep, limit);
    JoinOfJoins(all, sep);
  }

  lemma FittingGroupsHaveBlocks(groups: seq<seq<string>>, sep: string, limit: nat)
    requires forall g :: 0 <= g < |groups| ==> Fits(groups[g], sep, limit)
    ensures forall g :: 0 <= g < |groups| ==> groups[g] != []
  {
    forall g | 0 <= g < |groups| ensures groups[g] != [] { assert Fits(groups[g], sep, limit); }
  }

  lemma PackingGroups(blocks: seq<string>, sep: string, limit: nat) returns (all: seq<seq<string>>)
    requires AllSolid(blocks)
    ensures IsGrouping(all, blocks, sep, limit) && Packed(blocks, "", sep, limit) == JoinAll(all, sep)
    ensures AtLeast(blocks, sep, limit, |all|, 0)
  {
    if blocks == [] {
      all := [];
    } else {
      OneGroup(blocks[0], sep, limit);
      assert [blocks[0]] + blocks[1..] == blocks;
      assert Flat([]) + [blocks[0]] == [blocks[0]];
      assert Join([blocks[0]], sep) == blocks[0];
      all := PackedGroups([], [blocks[0]], blocks[1..], sep, limit);
    }
  }

  /** Whatever the blocks, a message is never empty, and only a single block is ever over the limit. */
  lemma MessagesFit(blocks: seq<string>, sep: string, limit: nat)
    ensures forall m :: m in Packed(blocks, "", sep, limit) ==> m != "" && (|m| <= limit || m in blocks)
  {
    FitsLater(blocks, "", sep, limit);
  }

  lemma {:induction false} FitsLater(blocks: seq<string>, current: string, sep: string, limit: nat)
    ensures forall m :: m in Packed(blocks, current, sep, limit) ==> m != "" && (|m| <= limit || m in blocks || m == current)
  {
    if blocks != [] {
      var candidate := if current == "" then blocks[0] else current + sep + blocks[0];
      FitsLater(blocks[1..], if |candidate| <= limit || current == "" then candidate else blocks[0], sep, limit);
    }
  }

  /** No empty block is dropped: none arrives while no message is open, or where the open message
      has no room left for the separator. */
  predicate DropsNone(blocks: seq<string>, current: string, sep: string, limit: nat) {
    blocks == []
    || (var candidate := if current == "" then blocks[0] else current + sep + blocks[0];
        var fits := |candidate| <= limit || current == "";
        (blocks[0] == "" ==> current != "" && fits)
        && DropsNone(blocks[1..], if fits then candidate else blocks[0], sep, limit))
  }

  /** What is open and what is to come, joined. */
  function Pending(current: string, blocks: seq<string>): seq<string> {
    (if current == "" then [] else [current]) + blocks
  }

  lemma JoinFirst(part: string, rest: seq<string>, sep: string)
    requires rest != []
    ensures Join([part] + rest, sep) == part + sep + Join(rest, sep)
  {
    JoinConcat([part], rest, sep);
  }

  lemma JoinMerge(a: string, b: string, rest: seq<string>, sep: string)
    ensures Join([a + sep + b] + rest, sep) == Join([a, b] + rest, sep)
  {
    assert [a, b] + rest == [a] + ([b] + rest);
    JoinFirst(a, [b] + rest, sep);
    if rest == [] {
      assert [a + sep + b] + rest == [a + sep + b] && [b] + rest == [b];
    } else {
      JoinFirst(a + sep + b, rest, sep);
      JoinFirst(b, rest, sep);
    }
  }

  /** From any point on, when nothing is dropped the messages join to what was pending. */
  lemma {:induction false} KeepsJoin(blocks: seq<string>, current: string, sep: string, limit: nat)
    requires DropsNone(blocks, current, sep, limit)
    ensures Join(Packed(blocks, current, sep, limit), sep) == Join(Pending(current, blocks), sep)
    ensures Pending(current, blocks) != [] ==> Packed(blocks, current, sep, limit) != []
    decreases |blocks|
  {
    if blocks == [] {
      assert Pending(current, blocks) == Packed(blocks, current, sep, limit);
    } else {
      var b, rest := blocks[0], blocks[1..];
      assert blocks == [b] + rest;
      if current == "" {
        KeepsJoin(rest, b, sep, limit);
        assert Pending(b, rest) == Pending(current, blocks);
      } else if |current + sep + b| <= limit {
        KeepsJoin(rest, current + sep + b, sep, limit);
        JoinMerge(current, b, rest, sep);
        assert Pending(current, blocks) == [current, b] + rest;
      } else {
        KeepsJoin(rest, b, sep, limit);
        assert Pending(b, rest) == blocks && Pending(current, blocks) == [current] + blocks;
        JoinBehind(current, Packed(rest, b, sep, limit), blocks, sep);
      }
    }
  }

  lemma JoinBehind(current: string, out: seq<string>, blocks: seq<string>, sep: string)
    requires out != [] && blocks != [] && Join(out, sep) == Join(blocks, sep)
    ensures Join([current] + out, sep) == Join([current] + blocks, sep)
  {
    JoinFirst(current, out, sep);
    JoinFirst(current, blocks, sep);
  }

  /** In any case they are no longer, and shorter once a block is dropped that is not alone. */
  lemma {:induction false} DroppingShortens(blocks: seq<string>, current: string, sep: string, limit: nat)
    ensures var out, all := Join(Packed(blocks, current, sep, limit), sep), Join(Pending(current, blocks), sep);
            && |out| <= |all|
            && (!DropsNone(blocks, current, sep, limit) && sep != "" && Pending(current, blocks) != [""] ==> |out| < |all|)
    ensures current != "" ==> Packed(blocks, current, sep, limit) != []
    decreases |blocks|
  {
    if blocks != [] {
      var b, rest := blocks[0], blocks[1..];
      assert blocks == [b] + rest;
      if current == "" {
        DroppingShortens(rest, b, sep, limit);
        DropFirst(b, rest, sep);
        assert Pending(current, blocks) == blocks;
        if b == "" && rest == [] { assert Packed(rest, b, sep, limit) == []; }
      } else if |current + sep + b| <= limit {
        DroppingShortens(rest, current + sep + b, sep, limit);
        JoinMerge(current, b, rest, sep);
        assert Pending(current, blocks) == [current, b] + rest;
      } else {
        DroppingShortens(rest, b, sep, limit);
        DropFirst(b, rest, sep);
        PushShortens(current, blocks, Packed(rest, b, sep, limit), sep);
        assert Packed(blocks, current, sep, limit) == [current] + Packed(rest, b, sep, limit);
        assert Pending(current, blocks) == [current] + blocks;
      }
    } else {
      assert Pending(current, blocks) == Packed(blocks, current, sep, limit);
    }
  }

  /** An empty block lost at the start of a message takes a separator with it. */
  lemma DropFirst(b: string, rest: seq<string>, sep: string)
    ensures b != "" ==> Pending(b, rest) == [b] + rest
    ensures b == "" ==> Pending(b, rest) == rest
    ensures b == "" && rest != [] ==> |Join([b] + rest, sep)| == |sep| + |Join(rest, sep)|
  {
    if b == "" && rest != [] { JoinFirst(b, rest, sep); }
  }

  lemma PushShortens(current: string, blocks: seq<string>, out: seq<string>, sep: string)
    requires blocks != []
    ensures |Join([current] + blocks, sep)| == |current| + |sep| + |Join(blocks, sep)|
    ensures out != [] ==> |Join([current] + out, sep)| == |current| + |sep| + |Join(out, sep)|
    ensures out == [] ==> Join([current] + out, sep) == current
  {
    JoinFirst(current, blocks, sep);
    if out != [] { JoinFirst(current, out, sep); } else { assert [current] + out == [current]; }
  }

  /** Joining the messages gives back the joined blocks exactly when no empty block is dropped
      (or one empty block is all there is, or the separator is empty and takes nothing with it). */
  lemma RejoinsIff(blocks: seq<string>, sep: string, limit: nat)
    ensures Join(Packed(blocks, "", sep, limit), sep) == Join(blocks, sep) <==>
            sep == "" || blocks == [""] || DropsNone(blocks, "", sep, limit)
  {
    assert Pending("", blocks) == blocks;
    DroppingShortens(blocks, "", sep, limit);
    if DropsNone(blocks, "", sep, limit) { KeepsJoin(blocks, "", sep, limit); }
    if sep == "" { EmptySeparatorKeeps(blocks, "", limit); }
    if blocks == [""] { assert blocks[1..] == []; }
  }

  lemma {:induction false} EmptySeparatorKeeps(blocks: seq<string>, current: string, limit: nat)
    ensures Join(Packed(blocks, current, "", limit), "") == current + Join(blocks, "")
    decreases |blocks|
  {
    if blocks != [] {
      var b, rest := blocks[0], blocks[1..];
      var candidate := if current == "" then b else current + "" + b;
      assert candidate == current + b;
      ConcatFirst(b, rest);
      assert [b] + rest == blocks;
      if |candidate| <= limit || current == "" {
        EmptySeparatorKeeps(rest, candidate, limit);
        Associates(current, b, Join(rest, ""));
      } else {
        EmptySeparatorKeeps(rest, b, limit);
        ConcatFirst(current, Packed(rest, b, "", limit));
      }
    }
  }

  lemma ConcatFirst(part: string, rest: seq<string>)
    ensures Join([part] + rest, "") == part + Join(rest, "")
  {
    if rest == [] { assert [part] + rest == [part]; } else { JoinFirst(part, rest, ""); }
  }

  /** An empty block at the start of a message leaves no trace, so joining does not give it back. */
  lemma EmptyBlockIsDropped()
    ensures Packed(["", "a"], "", "-", 10) == ["a"] && Join(["", "a"], "-") == "-a"
  {
    var blocks := ["", "a"];
    assert blocks[1..] == ["a"] && ["a"][1..] == [];
    assert Packed(["a"], "", "-", 10) == Packed([], "a", "-", 10);
    assert Join(["a"], "-") == "a";
  }

  // Cutting raw text.

  const BREAKS: seq<string> := ["\n\n", "\n", " "]

  /** `sep` stands at a cut of a text that leaves a non-empty piece within the limit. */
  predicate IsBreak(text: string, sep: string, cut: nat, limit: nat) {
    0 < cut && StandsAt(text, sep, cut, limit + 1)
  }

  predicate NoBreak(text: string, sep: string, above: nat, limit: nat) {
    forall cut: nat :: above < cut < |text| ==> !IsBreak(text, sep, cut, limit)
  }

  predicate StandsAt(text: string, sep: string, i: nat, end: nat) {
    i + |sep| <= end && i + |sep| <= |text| && text[i..i + |sep|] == sep
  }

  /** rfind(sep, 0, end) at or below `from`; -1 when there is none. */
  function RFind(text: string, sep: string, end: nat, from: int): (i: int)
    requires -1 <= from < |text|
    ensures -1 <= i <= from
    decreases from + 1
  {
    if from < 0 then -1
    else if StandsAt(text, sep, from, end) then from
    else RFind(text, sep, end, from - 1)
  }

  lemma {:induction false} RFindIsLast(text: string, sep: string, end: nat, from: int)
    requires -1 <= from < |text|
    ensures var i := RFind(text, sep, end, from);
            && (i >= 0 ==> StandsAt(text, sep, i, end))
            && (forall j: nat :: i < j <= from ==> !StandsAt(text, sep, j, end))
    decreases from + 1
  {
    if from >= 0 { RFindIsLast(text, sep, end, from - 1); }
  }

  datatype Cut = Cut(at: nat, sep: string)

  /** The first kind of break, from `k` on, that can be cut at: its last place. */
  function CutFrom(text: string, limit: nat, k: nat): Cut
    requires |text| > limit && k <= |BREAKS|
    decreases |BREAKS| - k
  {
    if k == |BREAKS| then Cut(limit, "")
    else
      var at := RFind(text, BREAKS[k], limit + 1, |text| - 1);
      if at > 0 then Cut(at, BREAKS[k]) else CutFrom(text, limit, k + 1)
  }

  /** The cut of a text over the limit: at the last paragraph break, else the last line break,
      else the last space, and in the middle of a word only when there is none of them. */
  predicate IsBestCut(text: string, limit: nat, cut: Cut) {
    if cut.sep == "" then
      cut.at == limit && NoBreak(text, "\n\n", 0, limit) && NoBreak(text, "\n", 0, limit) && NoBreak(text, " ", 0, limit)
    else
      && IsBreak(text, cut.sep, cut.at, limit) && NoBreak(text, cut.sep, cut.at, limit)
      && (cut.sep == "\n\n"
          || (cut.sep == "\n" && NoBreak(text, "\n\n", 0, limit))
          || (cut.sep == " " && NoBreak(text, "\n\n", 0, limit) && NoBreak(text, "\n", 0, limit)))
  }

  lemma FoundBreak(text: string, sep: string, limit: nat)
    requires |text| > limit
    ensures var at := RFind(text, sep, limit + 1, |text| - 1);
            if at > 0 then IsBreak(text, sep, at, limit) && NoBreak(text, sep, at, limit) else NoBreak(text, sep, 0, limit)
  {
    RFindIsLast(text, sep, limit + 1, |text| - 1);
  }

  lemma CutIsBest(text: string, limit: nat)
    requires |text| > limit
    ensures IsBestCut(text, limit, CutFrom(text, limit, 0))
  {
    FoundBreak(text, "\n\n", limit);
    FoundBreak(text, "\n", limit);
    FoundBreak(text, " ", limit);
    assert CutFrom(text, limit, 3) == Cut(limit, "");
  }

  lemma {:induction false} CutBounds(text: string, limit: nat, k: nat)
    requires |text| > limit >= 1 && k <= |BREAKS|
    ensures var cut := CutFrom(text, limit, k);
            && 0 < cut.at <= limit && cut.at + |cut.sep| <= |text|
            && text[cut.at..cut.at + |cut.sep|] == cut.sep && (cut.sep == "" || cut.sep in BREAKS)
    decreases |BREAKS| - k
  {
    if k < |BREAKS| {
      RFindIsLast(text, BREAKS[k], limit + 1, |text| - 1);
      CutBounds(text, limit, k + 1);
    }
  }

  /** The pieces of a text, and what was cut out after each. */
  function Cuts(text: string, limit: nat): seq<(string, string)>
    requires limit >= 1
    decreases |text|
  {
    if |text| <= limit then [(text, "")]
    else
      CutBounds(text, limit, 0);
      var cut := CutFrom(text, limit, 0);
      [(text[..cut.at], cut.sep)] + Cuts(text[cut.at + |cut.sep|..], limit)
  }

  function Pieces(cuts: seq<(string, string)>): seq<string> {
    if cuts == [] then [] else [cuts[0].0] + Pieces(cuts[1..])
  }

  function Rebuilt(cuts: seq<(string, string)>): string {
    if cuts == [] then "" else cuts[0].0 + cuts[0].1 + Rebuilt(cuts[1..])
  }

  lemma CutsStep(text: string, limit: nat) returns (rest: string)
    requires |text| > limit >= 1
    ensures var cut := CutFrom(text, limit, 0);
            && 0 < cut.at <= limit && (cut.sep == "" || cut.sep in BREAKS) && |rest| < |text|
            && text == text[..cut.at] + cut.sep + rest
            && Cuts(text, limit) == [(text[..cut.at], cut.sep)] + Cuts(rest, limit)
            && Cuts(text, limit)[1..] == Cuts(rest, limit)
  {
    CutBounds(text, limit, 0);
    var cut := CutFrom(text, limit, 0);
    rest := text[cut.at + |cut.sep|..];
  }

  /** The text is its pieces with, at each cut, the one break put back that was taken out there. */
  lemma {:induction false} SplitRebuilds(text: string, limit: nat)
    requires limit >= 1
    ensures Rebuilt(Cuts(text, limit)) == text
    decreases |text|
  {
    var cuts := Cuts(text, limit);
    if |text| <= limit {
      assert cuts[1..] == [];
    } else {
      var rest := CutsStep(text, limit);
      SplitRebuilds(rest, limit);
    }
  }

  lemma {:induction false} PiecesFit(text: string, limit: nat)
    requires limit >= 1
    ensures forall c :: c in Cuts(text, limit) ==> |c.0| <= limit && (c.1 == "" || c.1 in BREAKS)
    ensures var cuts := Cuts(text, limit); cuts != [] && cuts[|cuts| - 1].1 == ""
    decreases |text|
  {
    if |text| > limit {
      var rest := CutsStep(text, limit);
      PiecesFit(rest, limit);
    }
  }

  /** At every cut, of the text still left there, the best cut is taken. */
  lemma {:induction false} EveryCutIsBest(text: string, limit: nat, c: nat)
    requires limit >= 1 && c < |Cuts(text, limit)| - 1
    ensures var cuts := Cuts(text, limit);
            |Rebuilt(cuts[c..])| > limit && IsBestCut(Rebuilt(cuts[c..]), limit, Cut(|cuts[c].0|, cuts[c].1))
    decreases |text|
  {
    var cuts := Cuts(text, limit);
    if |text| > limit {
      var rest := CutsStep(text, limit);
      if c == 0 {
        SplitRebuilds(text, limit);
        CutIsBest(text, limit);
        assert cuts[0..] == cuts;
      } else {
        EveryCutIsBest(rest, limit, c - 1);
        assert cuts[c..] == cuts[1..][c - 1..] && cuts[c] == cuts[1..][c - 1];
      }
    }
  }

  predicate Gap(c: char) {
    c == ' ' || c == '\n'
  }

  /** More than `limit` characters of one word at the start. */
  predicate StartsLongWord(text: string, limit: nat) {
    |text| > limit && forall i :: 0 <= i <= limit ==> !Gap(text[i])
  }

  /** A cut is hard exactly when no space or line break stands at positions 1 to `limit`. */
  lemma HardCutIff(text: string, limit: nat)
    requires |text| > limit
    ensures CutFrom(text, limit, 0).sep == "" <==> forall i :: 1 <= i <= limit ==> !Gap(text[i])
  {
    var cut := CutFrom(text, limit, 0);
    CutIsBest(text, limit);
    if cut.sep == "" {
      forall i | 1 <= i <= limit ensures !Gap(text[i]) {
        assert !IsBreak(text, "\n", i, limit) && !IsBreak(text, " ", i, limit);
        assert text[i..i + 1] == [text[i]];
      }
    } else {
      assert IsBreak(text, cut.sep, cut.at, limit);
      assert text[cut.at..cut.at + |cut.sep|][0] == text[cut.at];
    }
  }

  /** The documented claim, that a hard cut is made only inside a single word longer than the limit,
      holds of a cut exactly when what is left there does not begin with a space or a line break. */
  lemma HardCutsAreInWords(text: string, limit: nat, c: nat)
    requires limit >= 1 && c < |Cuts(text, limit)| - 1 && Cuts(text, limit)[c].1 == ""
    ensures var rest := Rebuilt(Cuts(text, limit)[c..]);
            && |rest| > limit && (forall i :: 1 <= i <= limit ==> !Gap(rest[i]))
            && (StartsLongWord(rest, limit) <==> !Gap(rest[0]))
  {
    EveryCutIsBest(text, limit, c);
    CutIsCutFrom(text, limit, c);
    HardCutIff(Rebuilt(Cuts(text, limit)[c..]), limit);
  }

  lemma {:induction false} CutIsCutFrom(text: string, limit: nat, c: nat)
    requires limit >= 1 && c < |Cuts(text, limit)| - 1
    ensures var cuts := Cuts(text, limit);
            var rest := Rebuilt(cuts[c..]);
            |rest| > limit && CutFrom(rest, limit, 0).sep == cuts[c].1
    decreases |text|
  {
    var cuts := Cuts(text, limit);
    if |text| > limit {
      var rest := CutsStep(text, limit);
      if c == 0 {
        SplitRebuilds(text, limit);
        assert cuts[0..] == cuts;
      } else {
        CutIsCutFrom(rest, limit, c - 1);
        assert cuts[c..] == cuts[1..][c - 1..] && cuts[c] == cuts[1..][c - 1];
      }
    }
  }

  /** It fails on a text that begins with a space: a word of three is cut at limit three. */
  lemma ShortWordIsCut()
    ensures var cuts := Cuts(" abc", 3); cuts == [(" ab", ""), ("c", "")]
  {
    HardCutIff(" abc", 3);
    assert CutFrom(" abc", 3, 0) == Cut(3, "") by { CutIsBest(" abc", 3); }
    assert " abc"[..3] == " ab" && " abc"[3..] == "c";
    assert Cuts("c", 3) == [("c", "")];
  }

  /** `limit` 0 would cut nothing off for ever; every caller passes a positive one. */
  method SplitText(text: string, limit: nat) returns (pieces: seq<string>)
    requires limit >= 1
    ensures pieces == Pieces(Cuts(text, limit))
  {
    pieces := [];
    var rest := text;
    while |rest| > limit
      invariant pieces + Pieces(Cuts(rest, limit)) == Pieces(Cuts(text, limit))
      decreases |rest|
    {
      PiecesStep(pieces, rest, limit);
      var cut := FindCut(rest, limit);
      pieces := pieces + [rest[..cut.at]];
      rest := rest[cut.at + |cut.sep|..];
    }
    LastPiece(rest, limit);
    pieces := pieces + [rest];
  }

  lemma PiecesStep(pieces: seq<string>, text: string, limit: nat)
    requires |text| > limit >= 1
    ensures var cut := CutFrom(text, limit, 0);
            && 0 < cut.at && cut.at + |cut.sep| <= |text|
            && pieces + Pieces(Cuts(text, limit))
               == (pieces + [text[..cut.at]]) + Pieces(Cuts(text[cut.at + |cut.sep|..], limit))
  {
    CutBounds(text, limit, 0);
    var cut := CutFrom(text, limit, 0);
    FirstPiece(text[..cut.at], cut.sep, Cuts(text[cut.at + |cut.sep|..], limit));
    Associates(pieces, [text[..cut.at]], Pieces(Cuts(text[cut.at + |cut.sep|..], limit)));
  }

  lemma FirstPiece(piece: string, sep: string, rest: seq<(string, string)>)
    ensures Pieces([(piece, sep)] + rest) == [piece] + Pieces(rest)
  {
    assert ([(piece, sep)] + rest)[1..] == rest;
  }

  lemma LastPiece(text: string, limit: nat)
    requires |text| <= limit && limit >= 1
    ensures Pieces(Cuts(text, limit)) == [text]
  {
    assert Cuts(text, limit)[1..] == [];
  }

  /** The kinds of break tried in turn, with a hard cut when none is found. */
  method FindCut(text: string, limit: nat) returns (cut: Cut)
    requires |text| > limit
    ensures cut == CutFrom(text, limit, 0) && IsBestCut(text, limit, cut)
  {
    CutIsBest(text, limit);
    for k := 0 to |BREAKS|
      invariant CutFrom(text, limit, k) == CutFrom(text, limit, 0)
    {
      var at := RFind(text, BREAKS[k], limit + 1, |text| - 1);
      if at > 0 { return Cut(at, BREAKS[k]); }
    }
    cut := Cut(limit, "");
  }
}
