/** The review message's buttons: entry ids and the batch travel in callback data of at most 64
    bytes, and in the last line of the question an edit asks; everything is read back from there. */
module ReviewCallbacks {
  import opened Wrappers

  const BATCH := 10
  const CALLBACK_BYTES := 64
  const DIGITS := "0123456789abcdefghijklmnopqrstuvwxyz"

  // Numbers in a base.

  lemma Division(n: nat, base: nat)
    requires base >= 2
    ensures 0 <= n % base < base && n == n / base * base + n % base && (n > 0 ==> n / base < n)
    ensures n < base ==> n % base == n
  {
    var q := n / base;
    assert q * base == q * 2 + q * (base - 2);
  }

  function Numeral(n: nat, base: nat): string
    requires 2 <= base <= 36
    decreases n
  {
    Division(n, base);
    (if n < base then "" else Numeral(n / base, base)) + [DIGITS[n % base]]
  }

  function DigitValue(c: char): Option<nat> {
    if '0' <= c <= '9' then Some((c - '0') as nat)
    else if 'a' <= c <= 'z' then Some(10 + (c - 'a') as nat)
    else None
  }

  /** int(s, base); None for its ValueError. */
  function Value(s: string, base: nat): Option<nat> {
    if s == "" then None
    else
      match DigitValue(s[|s| - 1])
      case None => None
      case Some(d) =>
        if d >= base then None
        else if |s| == 1 then Some(d)
        else match Value(s[..|s| - 1], base)
          case None => None
          case Some(v) => Some(v * base + d)
  }

  lemma DigitsHaveValues(d: nat)
    requires d < 36
    ensures DigitValue(DIGITS[d]) == Some(d)
  {
  }

  /** Reading back what was written gives the number. */
  lemma {:induction false} ValueOfNumeral(n: nat, base: nat)
    requires 2 <= base <= 36
    ensures Value(Numeral(n, base), base) == Some(n) && Numeral(n, base) != ""
    decreases n
  {
    Division(n, base);
    var q, r := n / base, n % base;
    if n < base {
      assert Numeral(n, base) == "" + [DIGITS[r]];
      ValueAppends("", r, base);
    } else {
      ValueOfNumeral(q, base);
      assert Numeral(n, base) == Numeral(q, base) + [DIGITS[r]];
      ValueAppends(Numeral(q, base), r, base);
      assert Value(Numeral(n, base), base) == Some(q * base + r);
    }
  }

  lemma ValueAppends(high: string, d: nat, base: nat)
    requires d < base <= 36
    ensures high == "" ==> Value(high + [DIGITS[d]], base) == Some(d)
    ensures high != "" && Value(high, base).Some? ==> Value(high + [DIGITS[d]], base) == Some(Value(high, base).value * base + d)
  {
    DigitsHaveValues(d);
    assert (high + [DIGITS[d]])[..|high|] == high;
  }

  predicate Plain(s: string) {
    forall c :: c in s ==> DigitValue(c).Some?
  }

  lemma {:induction false} NumeralIsPlain(n: nat, base: nat)
    requires 2 <= base <= 36
    ensures Plain(Numeral(n, base))
  {
    Division(n, base);
    DigitsHaveValues(n % base);
    if n >= base { NumeralIsPlain(n / base, base); }
  }

  method To36(n: nat) returns (out: string)
    ensures out == Numeral(n, 36)
  {
    out := "";
    var rest := n;
    while true
      invariant Numeral(rest, 36) + out == Numeral(n, 36)
      decreases rest
    {
      var r := rest % 36;
      assert Numeral(rest, 36) == (if rest < 36 then "" else Numeral(rest / 36, 36)) + [DIGITS[r]];
      out := [DIGITS[r]] + out;
      rest := rest / 36;
      if rest == 0 { return; }
    }
  }

  // Joining and splitting.

  function Split(s: string, sep: char): (parts: seq<string>)
    ensures parts != []
  {
    if s == "" then [""]
    else
      var rest := Split(s[1..], sep);
      if s[0] == sep then [""] + rest else [[s[0]] + rest[0]] + rest[1..]
  }

  lemma {:induction false} SplitFirst(part: string, rest: string, sep: char)
    requires sep !in part
    ensures Split(part + [sep] + rest, sep) == [part] + Split(rest, sep)
    ensures Split(part, sep) == [part]
  {
    if part == "" {
      assert part + [sep] + rest == [sep] + rest && ([sep] + rest)[1..] == rest;
    } else {
      SplitFirst(part[1..], rest, sep);
      assert (part + [sep] + rest)[1..] == part[1..] + [sep] + rest;
      assert [part[0]] + part[1..] == part && (part + [sep] + rest)[0] == part[0];
    }
  }

  lemma {:induction false} SplitOfJoin(parts: seq<string>, sep: char)
    requires parts != [] && forall p :: p in parts ==> sep !in p
    ensures Split(Join(parts, [sep]), sep) == parts
  {
    assert parts[0] in parts;
    if |parts| == 1 {
      SplitFirst(parts[0], "", sep);
    } else {
      SplitOfJoin(parts[1..], sep);
      SplitFirst(parts[0], Join(parts[1..], [sep]), sep);
    }
  }

  function Numerals(ids: seq<nat>): seq<string> {
    if ids == [] then [] else [Numeral(ids[0], 36)] + Numerals(ids[1..])
  }

  /** Every non-empty part as a number; None when one is not a number. */
  function Values(parts: seq<string>): Option<seq<nat>> {
    if parts == [] then Some([])
    else if parts[0] == "" then Values(parts[1..])
    else match (Value(parts[0], 36), Values(parts[1..]))
      case (Some(v), Some(vs)) => Some([v] + vs)
      case _ => None
  }

  lemma {:induction false} ValuesOfNumerals(ids: seq<nat>)
    ensures Values(Numerals(ids)) == Some(ids)
    ensures |Numerals(ids)| == |ids| && forall p :: p in Numerals(ids) ==> Plain(p) && p != ""
  {
    if ids != [] {
      ValueOfNumeral(ids[0], 36);
      NumeralIsPlain(ids[0], 36);
      ValuesOfNumerals(ids[1..]);
      assert Numerals(ids)[1..] == Numerals(ids[1..]);
      assert [ids[0]] + ids[1..] == ids;
    }
  }

  /** A list of ids written with a separator reads back, an empty one included. */
  lemma IdsRoundTrip(ids: seq<nat>, sep: char)
    requires DigitValue(sep).None?
    ensures Values(Split(Join(Numerals(ids), [sep]), sep)) == Some(ids)
  {
    ValuesOfNumerals(ids);
    if ids != [] {
      SplitOfJoin(Numerals(ids), sep);
    } else {
      assert Split("", sep) == [""] && [""][1..] == [];
    }
  }

  // The keyboard.

  datatype Row = Row(id: nat, proposed: bool)

  const MORE := "gl:more:"

  function Ids(rows: seq<Row>): seq<nat> {
    if rows == [] then [] else Ids(rows[..|rows| - 1]) + [rows[|rows| - 1].id]
  }

  function Buttons(id: nat): seq<string> {
    ["gl:ok:" + Numeral(id, 36), "gl:ed:" + Numeral(id, 36), "gl:no:" + Numeral(id, 36)]
  }

  /** The callback data of a review message, keyboard row by keyboard row, read in order. */
  function RowButtons(rows: seq<Row>): seq<string> {
    if rows == [] then []
    else RowButtons(rows[..|rows| - 1]) + if rows[|rows| - 1].proposed then Buttons(rows[|rows| - 1].id) else []
  }

  function CallbackDatas(rows: seq<Row>): seq<string> {
    RowButtons(rows) + [MORE + Join(Numerals(Ids(rows)), ",")]
  }

  method Build(rows: seq<Row>) returns (datas: seq<string>)
    ensures datas == CallbackDatas(rows)
  {
    datas := [];
    for n := 0 to |rows|
      invariant datas == RowButtons(rows[..n])
    {
      assert rows[..n + 1][..n] == rows[..n];
      if rows[n].proposed {
        var rid := To36(rows[n].id);
        datas := datas + ["gl:ok:" + rid, "gl:ed:" + rid, "gl:no:" + rid];
      }
    }
    assert rows[..|rows|] == rows;
    var ids := [];
    for n := 0 to |rows|
      invariant ids == Numerals(Ids(rows[..n]))
    {
      assert rows[..n + 1][..n] == rows[..n];
      NumeralsAppend(Ids(rows[..n]), rows[n].id);
      var id := To36(rows[n].id);
      ids := ids + [id];
    }
    datas := datas + [MORE + Join(ids, ",")];
  }

  lemma {:induction false} NumeralsAppend(ids: seq<nat>, id: nat)
    ensures Numerals(ids + [id]) == Numerals(ids) + [Numeral(id, 36)]
  {
    if ids == [] {
      assert [] + [id] == [id] && [id][1..] == [];
    } else {
      assert (ids + [id])[1..] == ids[1..] + [id];
      NumeralsAppend(ids[1..], id);
    }
  }

  predicate IsMore(data: string) {
    MORE <= data
  }

  /** The batch of a message, from whichever button first carries it; None for a ValueError. */
  function BatchIds(datas: seq<string>): Option<seq<nat>> {
    if datas == [] then Some([])
    else if IsMore(datas[0]) then Values(Split(datas[0][|MORE|..], ','))
    else BatchIds(datas[1..])
  }

  lemma {:induction false} BatchIdsSkips(before: seq<string>, data: string)
    requires IsMore(data) && forall d :: d in before ==> !IsMore(d)
    ensures BatchIds(before + [data]) == Values(Split(data[|MORE|..], ','))
  {
    if before != [] {
      assert before[0] in before && (before + [data])[1..] == before[1..] + [data];
      BatchIdsSkips(before[1..], data);
    }
  }

  lemma {:induction false} ButtonsAreNotMore(rows: seq<Row>)
    ensures forall d :: d in RowButtons(rows) ==> !IsMore(d)
  {
    if rows != [] {
      ButtonsAreNotMore(rows[..|rows| - 1]);
      var id := rows[|rows| - 1].id;
      forall d | d in Buttons(id) ensures !IsMore(d) {
        assert d[3] != MORE[3];
      }
    }
  }

  /** A review message gives back its whole batch, decided rows included, in its order. */
  lemma BatchRoundTrip(rows: seq<Row>)
    ensures BatchIds(CallbackDatas(rows)) == Some(Ids(rows))
  {
    var data := MORE + Join(Numerals(Ids(rows)), ",");
    ButtonsAreNotMore(rows);
    BatchIdsSkips(RowButtons(rows), data);
    assert data[|MORE|..] == Join(Numerals(Ids(rows)), ",");
    IdsRoundTrip(Ids(rows), ',');
  }

  /** The three things an admin can do to a proposed row. */
  const ACTIONS := {"ok", "ed", "no"}

  lemma ButtonsAre(id: nat, data: string)
    ensures data in Buttons(id) <==> exists action :: action in ACTIONS && data == "gl:" + action + ":" + Numeral(id, 36)
  {
    var n := Numeral(id, 36);
    assert "gl:" + "ok" + ":" + n == "gl:ok:" + n && "gl:" + "ed" + ":" + n == "gl:ed:" + n && "gl:" + "no" + ":" + n == "gl:no:" + n;
    if data in Buttons(id) {
      var action := if data == "gl:ok:" + n then "ok" else if data == "gl:ed:" + n then "ed" else "no";
      assert action in ACTIONS && data == "gl:" + action + ":" + n;
    }
  }

  lemma {:induction false} RowButtonsOf(rows: seq<Row>, data: string)
    ensures data in RowButtons(rows) <==> exists row :: row in rows && row.proposed && data in Buttons(row.id)
  {
    if rows != [] {
      RowButtonsOf(rows[..|rows| - 1], data);
      var last := rows[|rows| - 1];
      assert forall row :: row in rows <==> row in rows[..|rows| - 1] || row == last;
    }
  }

  /** Every proposed row has a button for each action, its callback data carrying the row's own id, which
      reads back; and there are no other buttons but the one for the batch. */
  lemma ButtonsIff(rows: seq<Row>, data: string)
    ensures data in RowButtons(rows) <==>
            exists row, action :: row in rows && row.proposed && action in ACTIONS && data == "gl:" + action + ":" + Numeral(row.id, 36)
    ensures forall row :: row in rows ==> Value(Numeral(row.id, 36), 36) == Some(row.id)
  {
    RowButtonsOf(rows, data);
    forall row | row in rows ensures Value(Numeral(row.id, 36), 36) == Some(row.id) { ValueOfNumeral(row.id, 36); }
    if row :| row in rows && row.proposed && data in Buttons(row.id) {
      ButtonsAre(row.id, data);
    }
    if row, action :| row in rows && row.proposed && action in ACTIONS && data == "gl:" + action + ":" + Numeral(row.id, 36) {
      ButtonsAre(row.id, data);
    }
  }

  // The 64-byte limit.

  function Power36(k: nat): nat {
    if k == 0 then 1 else 36 * Power36(k - 1)
  }

  /** A numeral has at most `k` digits exactly when the number is below 36 to the k. */
  lemma {:induction false} NumeralLength(n: nat, k: nat)
    requires k >= 1
    ensures |Numeral(n, 36)| <= k <==> n < Power36(k)
  {
    if n >= 36 {
      if k > 1 { NumeralLength(n / 36, k - 1); } else { ValueOfNumeral(n / 36, 36); }
    } else {
      assert 36 <= Power36(k) by { PowerGrows(k); }
    }
  }

  lemma {:induction false} PowerGrows(k: nat)
    requires k >= 1
    ensures Power36(k) >= 36
  {
    if k > 1 { PowerGrows(k - 1); }
  }

  function TotalLength(parts: seq<string>): nat {
    if parts == [] then 0 else |parts[0]| + TotalLength(parts[1..])
  }

  lemma {:induction false} JoinLength(parts: seq<string>, sep: char)
    requires parts != []
    ensures |Join(parts, [sep])| == TotalLength(parts) + |parts| - 1
  {
    if |parts| == 1 { assert parts[1..] == []; } else { JoinLength(parts[1..], sep); }
  }

  lemma {:induction false} NumeralsLength(ids: seq<nat>)
    ensures |Numerals(ids)| == |ids|
    ensures (forall id :: id in ids ==> id < Power36(4)) ==> TotalLength(Numerals(ids)) <= 4 * |ids|
    ensures (forall id :: id in ids ==> id >= Power36(4)) ==> TotalLength(Numerals(ids)) >= 5 * |ids|
  {
    if ids != [] {
      assert ids[0] in ids && forall id :: id in ids[1..] ==> id in ids;
      NumeralLength(ids[0], 4);
      NumeralsLength(ids[1..]);
      assert Numerals(ids)[1..] == Numerals(ids[1..]);
    }
  }

  lemma {:induction false} IdsOfRows(rows: seq<Row>)
    ensures |Ids(rows)| == |rows| && forall i :: 0 <= i < |rows| ==> Ids(rows)[i] == rows[i].id
  {
    if rows != [] { IdsOfRows(rows[..|rows| - 1]); }
  }

  lemma {:induction false} OneLength(ids: seq<nat>, i: nat)
    requires i < |ids|
    ensures |Numeral(ids[i], 36)| <= TotalLength(Numerals(ids))
  {
    assert Numerals(ids)[1..] == Numerals(ids[1..]);
    if i > 0 { OneLength(ids[1..], i - 1); }
  }

  lemma {:induction false} ButtonLengths(rows: seq<Row>, most: nat)
    requires forall i :: 0 <= i < |rows| ==> |Numeral(rows[i].id, 36)| <= most
    ensures forall d :: d in RowButtons(rows) ==> |d| <= 6 + most
  {
    if rows != [] {
      ButtonLengths(rows[..|rows| - 1], most);
    }
  }

  /** Exactly when a review message fits: its ids' digits and the commas between them are within
      the 56 characters the last button has for them. */
  lemma CallbacksFitIff(rows: seq<Row>)
    requires rows != []
    ensures (forall d :: d in CallbackDatas(rows) ==> |d| <= CALLBACK_BYTES) <==>
            TotalLength(Numerals(Ids(rows))) + |rows| - 1 <= CALLBACK_BYTES - |MORE|
  {
    var ids, datas := Ids(rows), CallbackDatas(rows);
    IdsOfRows(rows);
    NumeralsLength(ids);
    JoinLength(Numerals(ids), ',');
    assert datas[|datas| - 1] in datas;
    forall i | 0 <= i < |rows| ensures |Numeral(rows[i].id, 36)| <= TotalLength(Numerals(ids)) {
      OneLength(ids, i);
      assert ids[i] == rows[i].id;
    }
    ButtonLengths(rows, TotalLength(Numerals(ids)));
  }

  lemma NoRowsFit()
    ensures forall d :: d in CallbackDatas([]) ==> |d| <= CALLBACK_BYTES
  {
  }

  /** So a batch whose ids are all below 36^4 = 1679616 fits ... */
  lemma CallbacksFit(rows: seq<Row>)
    requires |rows| <= BATCH && forall i :: 0 <= i < |rows| ==> rows[i].id < Power36(4)
    ensures forall d :: d in CallbackDatas(rows) ==> |d| <= CALLBACK_BYTES
  {
    if rows == [] {
      NoRowsFit();
    } else {
      CallbacksFitIff(rows);
      IdsOfRows(rows);
      NumeralsLength(Ids(rows));
    }
  }

  /** ... and a full batch whose ids are all from there up does not. */
  lemma LargerIdsDoNotFit(rows: seq<Row>)
    requires |rows| == BATCH && forall i :: 0 <= i < |rows| ==> rows[i].id >= Power36(4)
    ensures exists d :: d in CallbackDatas(rows) && |d| > CALLBACK_BYTES
  {
    CallbacksFitIff(rows);
    IdsOfRows(rows);
    NumeralsLength(Ids(rows));
  }

  // The question an edit asks.

  const REF := "ref g:"

  function RefLine(id: nat, message: nat, ids: seq<nat>): string {
    REF + Join([Numeral(id, 36), Numeral(message, 10), Join(Numerals(ids), ".")], ":")
  }

  function ParseRefLine(line: string): Option<(nat, nat, seq<nat>)>
    requires REF <= line
  {
    var parts := Split(line[|REF|..], ':');
    if |parts| != 3 then None
    else match (Value(parts[0], 36), Value(parts[1], 10), Values(Split(parts[2], '.')))
      case (Some(id), Some(message), Some(ids)) => Some((id, message, ids))
      case _ => None
  }

  /** The last line that looks like a reference decides, even when it is malformed. */
  function ParseRef(lines: seq<string>): Option<(nat, nat, seq<nat>)> {
    if lines == [] then None
    else if REF <= lines[|lines| - 1] then ParseRefLine(lines[|lines| - 1])
    else ParseRef(lines[..|lines| - 1])
  }

  lemma {:induction false} JoinIsPlain(parts: seq<string>, sep: char, c: char)
    requires (forall p :: p in parts ==> Plain(p)) && c != sep && DigitValue(c).None?
    ensures c !in Join(parts, [sep])
  {
    if parts != [] {
      assert parts[0] in parts;
      if |parts| > 1 { JoinIsPlain(parts[1..], sep, c); }
    }
  }

  /** An edit question gives back the entry, the message and the batch, whatever its text above. */
  lemma RefRoundTrip(text: seq<string>, id: nat, message: nat, ids: seq<nat>)
    ensures ParseRef(text + [RefLine(id, message, ids)]) == Some((id, message, ids))
  {
    var list := Join(Numerals(ids), ".");
    var parts := [Numeral(id, 36), Numeral(message, 10), list];
    ValueOfNumeral(id, 36);
    ValueOfNumeral(message, 10);
    NumeralIsPlain(id, 36);
    NumeralIsPlain(message, 10);
    ValuesOfNumerals(ids);
    JoinIsPlain(Numerals(ids), '.', ':');
    SplitOfJoin(parts, ':');
    IdsRoundTrip(ids, '.');
    var line := RefLine(id, message, ids);
    assert line[|REF|..] == Join(parts, ":");
    var lines := text + [line];
    assert lines[|lines| - 1] == line;
  }
}
