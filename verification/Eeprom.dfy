/** parse_eeprom_cmds of src/apctest.c: the commands that a UPS accepts for its EEPROM, read from one string. */
module Eeprom {
  import opened Options
  import opened Framing
  import opened CString

  // The table cmd[] and the room for the values of one command
  const MAX_COMMANDS := 15
  const MAX_VALUES := 50

  const ZERO: byte := 48
  const HASH: byte := 35
  const ANY_LOCALE: byte := 52

  /** A row of the table: `values` are the first num * size bytes of cmdvals. */
  datatype Entry = Entry(cmd: byte, size: int, num: int, values: seq<byte>)

  /** strncpy of exactly |s| bytes: the text and then NULs. */
  function StrnCopy(s: seq<byte>): seq<byte> {
    Text(s) + seq(if |Text(s)| <= |s| then |s| - |Text(s)| else 0, _ => 0)
  }

  /** A digit's value: the character less '0', as a plain char of eight bits, which some platforms take as
      `signed`. */
  function Digit(b: byte, signed: bool): int {
    var d := (b as int - ZERO as int + 256) % 256;
    if signed && d >= 128 then d - 256 else d
  }

  /** Parsing from position `p`, with the rows `kept` so far. None: the parser would leave the string, move
      backwards in it or write outside the table. */
  function Parsing(eprom: seq<byte>, p: nat, locale: byte, signed: bool, kept: seq<Entry>): Option<seq<Entry>>
    decreases |eprom| - p
  {
    if p >= |eprom| then None
    else if eprom[p] == 0 then Some(kept)
    else if eprom[p] == HASH then Parsing(eprom, p + 1, locale, signed, kept)
    else if p + 4 > |eprom| then None
    else
      var l, n, s := eprom[p + 1], Digit(eprom[p + 2], signed), Digit(eprom[p + 3], signed);
      if n * s < 0 || p + 4 + n * s > |eprom| then None
      else
        var next := p + 4 + n * s;
        if l != ANY_LOCALE && l != locale then Parsing(eprom, next, locale, signed, kept)
        else if |kept| >= MAX_COMMANDS || n * s > MAX_VALUES then None
        else Parsing(eprom, next, locale, signed, kept + [Entry(eprom[p], s, n, StrnCopy(eprom[p + 4..next]))])
  }

  /** The file-scope table. */
  class Table {
    const cmd: array<Entry>
    var ncmd: nat

    constructor ()
      ensures cmd.Length == MAX_COMMANDS && fresh(cmd) && ncmd == 0
    {
      cmd := new Entry[MAX_COMMANDS](_ => Entry(0, 0, 0, []));
      ncmd := 0;
    }

    method ParseEepromCmds(eprom: seq<byte>, locale: byte, signed: bool)
      requires cmd.Length == MAX_COMMANDS && Parsing(eprom, 0, locale, signed, []).Some?
      modifies `ncmd, cmd
      ensures ncmd <= MAX_COMMANDS && Parsing(eprom, 0, locale, signed, []) == Some(cmd[..ncmd])
    {
      hide StrnCopy;
      var p := 0;
      ncmd := 0;
      while true
        invariant ncmd <= MAX_COMMANDS
        invariant Parsing(eprom, 0, locale, signed, []) == Parsing(eprom, p, locale, signed, cmd[..ncmd])
        invariant p <= |eprom|
        decreases |eprom| - p
      {
        var c := eprom[p];
        p := p + 1;
        if c == 0 { break; }
        if c == HASH { continue; }
        var l := eprom[p];
        var n := Digit(eprom[p + 1], signed);
        var s := Digit(eprom[p + 2], signed);
        p := p + 3;
        if l != ANY_LOCALE && l != locale {
          p := p + n * s;
          continue;
        }
        Keep(Entry(c, s, n, StrnCopy(eprom[p..p + n * s])));
        p := p + n * s;
      }
    }

    method Keep(e: Entry)
      requires ncmd < cmd.Length
      modifies `ncmd, cmd
      ensures ncmd == old(ncmd) + 1 && cmd[..ncmd] == old(cmd[..ncmd]) + [e]
    {
      cmd[ncmd] := e;
      ncmd := ncmd + 1;
      assert cmd[..ncmd - 1] == old(cmd[..ncmd]);
    }
  }

  /** What a UPS may say: one command for one locale ('4' stands for any), with `num` values of `size` characters,
      or the mark '#' between commands. The numbers are single digits. */
  datatype Item = Hash | Command(cmd: byte, locale: byte, num: nat, size: nat, values: seq<byte>)

  predicate Printable(i: Item) {
    i.Command? ==>
      && i.cmd != 0 && i.cmd != 35 && i.num <= 9 && i.size <= 9
      && |i.values| == i.num * i.size && 0 !in i.values
  }

  function PrintItem(i: Item): seq<byte>
    requires Printable(i)
  {
    match i
    case Hash => [35]
    case Command(cmd, locale, num, size, values) => [cmd, locale, 48 + num as byte, 48 + size as byte] + values
  }

  function Print(items: seq<Item>): seq<byte>
    requires forall i :: i in items ==> Printable(i)
  {
    if items == [] then [] else PrintItem(items[0]) + Print(items[1..])
  }

  predicate Wanted(i: Item, locale: byte) { i.Command? && (i.locale == 52 || i.locale == locale) }

  /** The rows for the commands of the locale, in order. */
  function Rows(items: seq<Item>, locale: byte): seq<Entry> {
    if items == [] then []
    else if Wanted(items[0], locale) then
      [Entry(items[0].cmd, items[0].size, items[0].num, items[0].values)] + Rows(items[1..], locale)
    else Rows(items[1..], locale)
  }

  predicate Fit(rows: seq<Entry>, before: nat) {
    before + |rows| <= 15 && forall e :: e in rows ==> |e.values| <= 50
  }

  /** Reading one printed item. */
  lemma {:induction false} ParsesItem(eprom: seq<byte>, p: nat, i: Item, locale: byte, signed: bool, kept: seq<Entry>)
    requires Printable(i) && |kept| <= MAX_COMMANDS
    requires p + |PrintItem(i)| <= |eprom| && eprom[p..p + |PrintItem(i)|] == PrintItem(i)
    ensures Parsing(eprom, p, locale, signed, kept) ==
            if Wanted(i, locale) then
              if |kept| >= MAX_COMMANDS || |i.values| > MAX_VALUES then None
              else Parsing(eprom, p + |PrintItem(i)|, locale, signed, kept + [Entry(i.cmd, i.size, i.num, i.values)])
            else Parsing(eprom, p + |PrintItem(i)|, locale, signed, kept)
  {
    hide StrnCopy;
    var n := |PrintItem(i)|;
    var text := eprom[p..p + n];
    match i
    case Hash => assert eprom[p] == text[0];
    case Command(cmd, l, num, size, values) =>
      assert eprom[p] == text[0] == cmd && eprom[p + 1] == text[1] == l;
      assert eprom[p + 2] == text[2] == ZERO + num as byte && eprom[p + 3] == text[3] == ZERO + size as byte;
      assert eprom[p + 4..p + n] == text[4..] == values;
      CopiesText(values);
      ReadsCommand(eprom, p, num, size, locale, signed, kept);
  }

  lemma CopiesText(values: seq<byte>)
    requires 0 !in values
    ensures StrnCopy(values) == values
  {
    TextOfParts(values, []);
  }

  /** One command, once its head is known. */
  lemma {:induction false} ReadsCommand(eprom: seq<byte>, p: nat, num: nat, size: nat, locale: byte, signed: bool,
                                        kept: seq<Entry>)
    requires num <= 9 && size <= 9 && p + 4 + num * size <= |eprom| && |kept| <= MAX_COMMANDS
    requires eprom[p] != 0 && eprom[p] != HASH
    requires eprom[p + 2] == ZERO + num as byte && eprom[p + 3] == ZERO + size as byte
    ensures var l, next := eprom[p + 1], p + 4 + num * size;
            Parsing(eprom, p, locale, signed, kept) ==
            if l != ANY_LOCALE && l != locale then Parsing(eprom, next, locale, signed, kept)
            else if |kept| >= MAX_COMMANDS || num * size > MAX_VALUES then None
            else Parsing(eprom, next, locale, signed, kept + [Entry(eprom[p], size, num, StrnCopy(eprom[p + 4..next]))])
  {
    hide StrnCopy;
  }

  lemma FitMore(e: Entry, rows: seq<Entry>, before: nat)
    ensures Fit([e] + rows, before) <==> before < MAX_COMMANDS && |e.values| <= MAX_VALUES && Fit(rows, before + 1)
  {
    assert ([e] + rows)[0] == e && ([e] + rows)[1..] == rows;
    assert forall x :: x in rows ==> x in [e] + rows;
  }

  lemma RowsMore(items: seq<Item>, locale: byte)
    requires items != []
    ensures Rows(items, locale) == if Wanted(items[0], locale)
            then [Entry(items[0].cmd, items[0].size, items[0].num, items[0].values)] + Rows(items[1..], locale)
            else Rows(items[1..], locale)
  {
  }

  /** The string from `p` on is the print of `i` and what follows it. */
  lemma {:induction false} ItemAt(eprom: seq<byte>, p: nat, i: Item, more: seq<byte>)
    requires Printable(i) && p <= |eprom| && eprom[p..] == PrintItem(i) + more
    ensures p + |PrintItem(i)| <= |eprom| && eprom[p..p + |PrintItem(i)|] == PrintItem(i)
    ensures eprom[p + |PrintItem(i)|..] == more
  {
    hide PrintItem;
    var n := |PrintItem(i)|;
    assert eprom[p..p + n] == eprom[p..][..n];
    assert eprom[p + n..] == eprom[p..][n..];
  }

  lemma {:induction false} ParsesPrinted(eprom: seq<byte>, p: nat, items: seq<Item>, rest: seq<byte>,
                                         locale: byte, signed: bool, kept: seq<Entry>)
    requires (forall i :: i in items ==> Printable(i)) && |kept| <= MAX_COMMANDS
    requires p <= |eprom| && eprom[p..] == Print(items) + [0] + rest
    ensures Parsing(eprom, p, locale, signed, kept) ==
            if Fit(Rows(items, locale), |kept|) then Some(kept + Rows(items, locale)) else None
    decreases |items|
  {
    hide PrintItem, Fit, Parsing, Printable, Rows;
    if items == [] {
      NothingPrinted(eprom, p, rest, locale, signed, kept);
      NoRows(locale);
    } else {
      var i := items[0];
      RowsMore(items, locale);
      assert i in items && forall x :: x in items[1..] ==> x in items;
      ItemAt(eprom, p, i, Print(items[1..]) + [0] + rest);
      ParsesItem(eprom, p, i, locale, signed, kept);
      var next := p + |PrintItem(i)|;
      if Wanted(i, locale) {
        var e := Entry(i.cmd, i.size, i.num, i.values);
        FitMore(e, Rows(items[1..], locale), |kept|);
        if |kept| < MAX_COMMANDS && |i.values| <= MAX_VALUES {
          ParsesPrinted(eprom, next, items[1..], rest, locale, signed, kept + [e]);
          assert (kept + [e]) + Rows(items[1..], locale) == kept + Rows(items, locale);
        }
      } else {
        ParsesPrinted(eprom, next, items[1..], rest, locale, signed, kept);
      }
    }
  }

  lemma NoRows(locale: byte)
    ensures Rows([], locale) == []
  {
  }

  lemma NothingPrinted(eprom: seq<byte>, p: nat, rest: seq<byte>, locale: byte, signed: bool, kept: seq<Entry>)
    requires p <= |eprom| && eprom[p..] == [0] + rest && |kept| <= MAX_COMMANDS
    ensures Parsing(eprom, p, locale, signed, kept) == Some(kept + []) && Fit([], |kept|)
  {
    assert eprom[p] == eprom[p..][0] == 0;
    assert kept + [] == kept;
  }

  /** Parsing inverts printing: the table holds exactly the commands for any locale or the requested one, in
      order, if and only if these are no more than it has rows, each with values that fit. */
  lemma {:induction false} ParseInvertsPrint(items: seq<Item>, rest: seq<byte>, locale: byte, signed: bool)
    requires forall i :: i in items ==> Printable(i)
    ensures Parsing(Print(items) + [0] + rest, 0, locale, signed, []) ==
            if Fit(Rows(items, locale), 0) then Some(Rows(items, locale)) else None
  {
    var eprom := Print(items) + [0] + rest;
    assert eprom[0..] == eprom;
    ParsesPrinted(eprom, 0, items, rest, locale, signed, []);
    assert [] + Rows(items, locale) == Rows(items, locale);
  }
}
