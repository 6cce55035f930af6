/**
  The manifest printer of scripts/explain_manifest/main.py, and a parser that inverts it. The
  printed text is what is compared with the golden file, so it must tell records apart.
*/
module Manifest {
  import opened Wrappers
  import opened Separators
  import Seqs

  datatype Content = Scalar(text: string) | Items(items: seq<string>)
  datatype Entry = Entry(key: string, value: Content)
  type Record = seq<Entry>

  // ----- Printing -----

  function Spaces(n: nat): string {
    seq(n, _ => ' ')
  }

  /** `%-10s` */
  function Pad(s: string): string {
    if |s| < 10 then s + Spaces(10 - |s|) else s
  }

  const INDENT := 2

  function ContentText(v: Content): string {
    match v
    case Scalar(text) => " " + text
    case Items(items) => Join("\n" + Spaces(INDENT) + "- ", [""] + items)
  }

  function EntryText(e: Entry, first: bool): string {
    (if first then "-" + Spaces(INDENT - 1) else Spaces(INDENT)) + Pad(e.key) + ":" + ContentText(e.value) + "\n"
  }

  function EntriesText(r: Record, first: bool): string {
    if r == [] then "" else EntryText(r[0], first) + EntriesText(r[1..], false)
  }

  function Print(records: seq<Record>): string {
    if records == [] then "" else EntriesText(records[0], true) + "\n" + Print(records[1..])
  }

  // ----- Parsing -----

  function IndexOf(s: string, c: char): (i: nat)
    ensures i <= |s| && (i < |s| ==> s[i] == c) && c !in s[..i]
  {
    if s == "" || s[0] == c then 0 else 1 + IndexOf(s[1..], c)
  }

  function Lines(text: string): seq<string>
    decreases |text|
  {
    if text == "" then []
    else
      var i := IndexOf(text, '\n');
      [text[..i]] + if i == |text| then [] else Lines(text[i + 1..])
  }

  function TrimEnd(s: string): string {
    if s != "" && s[|s| - 1] == ' ' then TrimEnd(s[..|s| - 1]) else s
  }

  predicate StartsWith(s: string, t: string) {
    |t| <= |s| && s[..|t|] == t
  }

  function ParseKeyLine(line: string, first: bool): Option<(string, string)> {
    if !StartsWith(line, if first then "- " else "  ") then None
    else
      var body := line[2..];
      var i := IndexOf(body, ':');
      if i == |body| || body[..i] != Pad(TrimEnd(body[..i])) then None else Some((TrimEnd(body[..i]), body[i + 1..]))
  }

  function ParseItems(lines: seq<string>): (items: seq<string>)
    ensures |items| <= |lines|
  {
    if lines == [] || !StartsWith(lines[0], "  - ") then []
    else [lines[0][4..]] + ParseItems(lines[1..])
  }

  /** Entries up to a blank line, and the lines after it. */
  function ParseRecord(lines: seq<string>, first: bool): (p: Option<(Record, seq<string>)>)
    ensures p.Some? ==> |p.value.1| < |lines|
    decreases |lines|
  {
    if lines == [] then None
    else if lines[0] == "" then Some(([], lines[1..]))
    else
      match ParseKeyLine(lines[0], first)
      case None => None
      case Some((key, tail)) =>
        if tail != "" && tail[0] != ' ' then None
        else
          var value := if tail == "" then Items(ParseItems(lines[1..])) else Scalar(tail[1..]);
          var rest := if tail == "" then lines[1..][|value.items|..] else lines[1..];
          match ParseRecord(rest, false)
          case None => None
          case Some((entries, after)) => Some(([Entry(key, value)] + entries, after))
  }

  function ParseRecords(lines: seq<string>): Option<seq<Record>>
    decreases |lines|
  {
    if lines == [] then Some([])
    else
      match ParseRecord(lines, true)
      case None => None
      case Some((r, rest)) =>
        match ParseRecords(rest)
        case None => None
        case Some(rs) => Some([r] + rs)
  }

  function Parse(text: string): Option<seq<Record>> {
    ParseRecords(Lines(text))
  }

  // ----- What can be printed without loss -----

  predicate OneLine(s: string) {
    '\n' !in s
  }

  predicate PrintableKey(k: string) {
    OneLine(k) && ':' !in k && (k != "" ==> k[|k| - 1] != ' ')
  }

  predicate Printable(e: Entry) {
    PrintableKey(e.key) &&
    match e.value
    case Scalar(text) => OneLine(text)
    case Items(items) => forall s | s in items :: OneLine(s)
  }

  predicate AllPrintable(r: Record) {
    forall e | e in r :: Printable(e)
  }

  /** A key whose line looks like one more item, if it comes after a list. */
  predicate LooksLikeItem(k: string) {
    StartsWith(Pad(k), "- ")
  }

  /** No list is followed by an entry whose line looks like one more item. */
  predicate ListsEnd(r: Record) {
    forall i | 0 < i < |r| :: r[i - 1].value.Items? ==> !LooksLikeItem(r[i].key)
  }

  predicate RoundTrips(records: seq<Record>) {
    forall r | r in records :: AllPrintable(r) && ListsEnd(r)
  }

  // ----- The text as lines -----

  function ItemLines(items: seq<string>): seq<string> {
    if items == [] then [] else ["  - " + items[0]] + ItemLines(items[1..])
  }

  function KeyLine(e: Entry, first: bool): string {
    (if first then "- " else "  ") + Pad(e.key) + ":" + if e.value.Scalar? then " " + e.value.text else ""
  }

  function EntryLines(e: Entry, first: bool): seq<string> {
    [KeyLine(e, first)] + if e.value.Items? then ItemLines(e.value.items) else []
  }

  function RecordLines(r: Record, first: bool): seq<string> {
    if r == [] then [] else EntryLines(r[0], first) + RecordLines(r[1..], false)
  }

  function AllLines(records: seq<Record>): seq<string> {
    if records == [] then [] else RecordLines(records[0], true) + [""] + AllLines(records[1..])
  }

  function Unlines(lines: seq<string>): string {
    if lines == [] then "" else lines[0] + "\n" + Unlines(lines[1..])
  }

  lemma {:induction false} UnlinesAppend(a: seq<string>, b: seq<string>)
    ensures Unlines(a + b) == Unlines(a) + Unlines(b)
  {
    if a == [] {
      Seqs.AppendEmpty(b);
    } else {
      UnlinesAppend(a[1..], b);
      Seqs.AppendTail(a, b);
      Seqs.Assoc(a[0] + "\n", Unlines(a[1..]), Unlines(b));
    }
  }

  function JoinTail(sep: string, parts: seq<string>): string {
    if parts == [] then "" else sep + parts[0] + JoinTail(sep, parts[1..])
  }

  lemma {:induction false} JoinIsTail(sep: string, head: string, parts: seq<string>)
    ensures Join(sep, [head] + parts) == head + JoinTail(sep, parts)
    decreases |parts|
  {
    assert ([head] + parts)[1..] == parts;
    if parts == [] {
      assert head + "" == head;
    } else {
      JoinIsTail(sep, parts[0], parts[1..]);
      assert parts == [parts[0]] + parts[1..];
      assert head + sep + (parts[0] + JoinTail(sep, parts[1..])) == head + (sep + parts[0] + JoinTail(sep, parts[1..]));
    }
  }

  lemma {:induction false} ItemsAsLines(items: seq<string>)
    ensures JoinTail("\n  - ", items) + "\n" == "\n" + Unlines(ItemLines(items))
  {
    if items != [] {
      ItemsAsLines(items[1..]);
      var item, tail, lines := items[0], JoinTail("\n  - ", items[1..]), Unlines(ItemLines(items[1..]));
      assert ItemLines(items)[1..] == ItemLines(items[1..]);
      assert Unlines(ItemLines(items)) == "  - " + item + "\n" + lines;
      assert "\n  - " + item + tail + "\n" == "\n  - " + item + (tail + "\n");
      assert "\n  - " + item + ("\n" + lines) == "\n" + ("  - " + item + "\n" + lines);
    }
  }

  lemma HeadAndItems(head: string, items: seq<string>)
    ensures head + Join("\n" + Spaces(INDENT) + "- ", [""] + items) + "\n" == Unlines([head] + ItemLines(items))
  {
    var sep := "\n" + Spaces(INDENT) + "- ";
    assert sep == "\n  - ";
    JoinIsTail(sep, "", items);
    ItemsAsLines(items);
    var tail, rest := JoinTail(sep, items), Unlines(ItemLines(items));
    assert "" + tail == tail && ([head] + ItemLines(items))[1..] == ItemLines(items);
    assert head + tail + "\n" == head + (tail + "\n");
    assert head + ("\n" + rest) == head + "\n" + rest;
  }

  lemma EntryAsLines(e: Entry, first: bool)
    ensures EntryText(e, first) == Unlines(EntryLines(e, first))
  {
    assert Spaces(2) == "  " && "-" + Spaces(1) == "- ";
    var head := KeyLine(e, first);
    match e.value {
      case Scalar(text) =>
        assert EntryLines(e, first) == [head] && Unlines([head]) == head + "\n" + "";
      case Items(items) =>
        var start := (if first then "- " else "  ") + Pad(e.key) + ":";
        assert start + "" == start;
        HeadAndItems(start, items);
    }
  }

  lemma {:induction false} RecordAsLines(r: Record, first: bool)
    ensures EntriesText(r, first) == Unlines(RecordLines(r, first))
  {
    if r != [] {
      EntryAsLines(r[0], first);
      RecordAsLines(r[1..], false);
      UnlinesAppend(EntryLines(r[0], first), RecordLines(r[1..], false));
    }
  }

  lemma {:induction false} PrintAsLines(records: seq<Record>)
    ensures Print(records) == Unlines(AllLines(records))
  {
    if records != [] {
      var r, rest := records[0], records[1..];
      RecordAsLines(r, true);
      PrintAsLines(rest);
      UnlinesAppend(RecordLines(r, true) + [""], AllLines(rest));
      UnlinesAppend(RecordLines(r, true), [""]);
      assert Unlines([""]) == "\n";
    }
  }

  lemma {:induction false} LinesOfUnlines(lines: seq<string>)
    requires forall l | l in lines :: OneLine(l)
    ensures Lines(Unlines(lines)) == lines
  {
    if lines != [] {
      LinesOfUnlines(lines[1..]);
      var text, l := Unlines(lines), lines[0];
      assert l in lines;
      IndexAfter(l, '\n', Unlines(lines[1..]));
      assert text == l + "\n" + Unlines(lines[1..]);
      assert text[..|l|] == l && text[|l| + 1..] == Unlines(lines[1..]);
    }
  }

  lemma {:induction false} IndexAfter(s: string, c: char, t: string)
    requires c !in s
    ensures IndexOf(s + [c] + t, c) == |s|
  {
    var i := IndexOf(s + [c] + t, c);
    var whole := s + [c] + t;
    assert whole[|s|] == c;
  }

  // ----- The round trip -----

  lemma {:induction false} TrimEndPad(s: string, n: nat)
    requires s != "" ==> s[|s| - 1] != ' '
    ensures TrimEnd(s + Spaces(n)) == s
  {
    if n == 0 {
      assert s + Spaces(0) == s;
    } else {
      assert (s + Spaces(n))[..|s| + n - 1] == s + Spaces(n - 1);
      TrimEndPad(s, n - 1);
    }
  }

  lemma BodyParses(line: string, first: bool, key: string, tail: string)
    requires StartsWith(line, if first then "- " else "  ") && line[2..] == Pad(key) + [':'] + tail && PrintableKey(key)
    ensures ParseKeyLine(line, first) == Some((key, tail))
  {
    var padded := Pad(key);
    IndexAfter(padded, ':', tail);
    Seqs.DropPrefix(padded + [':'], tail);
    Seqs.Assoc(padded, [':'], tail);
    Seqs.DropPrefix(padded, [':'] + tail);
    TrimEndPad(key, if |key| < 10 then 10 - |key| else 0);
    assert key + Spaces(0) == key;
  }

  function TailOf(v: Content): string {
    if v.Scalar? then " " + v.text else ""
  }

  lemma KeyLineParses(e: Entry, first: bool)
    requires Printable(e)
    ensures ParseKeyLine(KeyLine(e, first), first) == Some((e.key, TailOf(e.value)))
  {
    var start := if first then "- " else "  ";
    Seqs.Assoc(start, Pad(e.key), ":");
    Seqs.Assoc(start, Pad(e.key) + ":", TailOf(e.value));
    Seqs.DropPrefix(start, Pad(e.key) + ":" + TailOf(e.value));
    BodyParses(KeyLine(e, first), first, e.key, TailOf(e.value));
  }

  lemma {:induction false} ItemsParse(items: seq<string>, more: seq<string>)
    requires more == [] || !StartsWith(more[0], "  - ")
    ensures |ItemLines(items)| == |items| && ParseItems(ItemLines(items) + more) == items
  {
    if items == [] {
      Seqs.AppendEmpty(more);
    } else {
      ItemsParse(items[1..], more);
      Seqs.AppendTail(ItemLines(items), more);
      Seqs.AppendTail(["  - " + items[0]], ItemLines(items[1..]));
      Seqs.AppendEmpty(ItemLines(items[1..]));
      Seqs.DropPrefix("  - ", items[0]);
      Seqs.HeadTail(items);
    }
  }

  lemma KeyLineIsNoItem(e: Entry)
    requires !LooksLikeItem(e.key)
    ensures !StartsWith(KeyLine(e, false), "  - ")
  {
    var line, padded := KeyLine(e, false), Pad(e.key);
    assert line[2] == padded[0] && line[3] == padded[1] && padded[..2] == [padded[0], padded[1]];
  }

  lemma EntryParses(e: Entry, first: bool, more: seq<string>)
    requires Printable(e) && (e.value.Items? ==> more == [] || !StartsWith(more[0], "  - "))
    ensures ParseRecord(EntryLines(e, first) + more, first) ==
      match ParseRecord(more, false)
      case None => None
      case Some((entries, after)) => Some(([e] + entries, after))
  {
    KeyLineParses(e, first);
    Seqs.AppendTail(EntryLines(e, first), more);
    match e.value {
      case Scalar(text) =>
        assert EntryLines(e, first)[1..] == [];
        Seqs.AppendEmpty(more);
        Seqs.DropPrefix(" ", text);
      case Items(items) =>
        assert EntryLines(e, first)[1..] == ItemLines(items);
        ItemsParse(items, more);
        Seqs.DropPrefix(ItemLines(items), more);
    }
  }

  lemma NextLineIsNoItem(r: Record, rest: seq<string>)
    requires r != [] ==> !LooksLikeItem(r[0].key)
    ensures !StartsWith((RecordLines(r, false) + [""] + rest)[0], "  - ")
  {
    if r != [] {
      KeyLineIsNoItem(r[0]);
      assert (RecordLines(r, false) + [""] + rest)[0] == KeyLine(r[0], false);
    }
  }

  lemma TailListsEnd(r: Record)
    requires ListsEnd(r) && r != []
    ensures ListsEnd(r[1..])
    ensures r[0].value.Items? && r[1..] != [] ==> !LooksLikeItem(r[1..][0].key)
  {
    forall i | 0 < i < |r[1..]| ensures r[1..][i - 1].value.Items? ==> !LooksLikeItem(r[1..][i].key) {
      assert r[1..][i] == r[i + 1] && r[1..][i - 1] == r[i];
    }
  }

  lemma {:induction false} RecordParses(r: Record, first: bool, rest: seq<string>)
    requires AllPrintable(r) && ListsEnd(r)
    ensures ParseRecord(RecordLines(r, first) + [""] + rest, first) == Some((r, rest))
    decreases |r|
  {
    if r == [] {
      var lines := RecordLines(r, first) + [""] + rest;
      assert lines == [""] + rest && lines[1..] == rest;
    } else {
      var more := RecordLines(r[1..], false) + [""] + rest;
      assert AllPrintable(r[1..]) && Printable(r[0]);
      TailListsEnd(r);
      RecordParses(r[1..], false, rest);
      if r[0].value.Items? {
        NextLineIsNoItem(r[1..], rest);
      }
      EntryParses(r[0], first, more);
      Seqs.Assoc4(EntryLines(r[0], first), RecordLines(r[1..], false), [""], rest);
      assert r == [r[0]] + r[1..];
    }
  }

  lemma ParseOneMore(r: Record, rs: seq<Record>, lines: seq<string>, rest: seq<string>)
    requires ParseRecord(lines, true) == Some((r, rest)) && ParseRecords(rest) == Some(rs)
    ensures ParseRecords(lines) == Some([r] + rs)
  {
  }

  lemma {:induction false} RecordsParse(records: seq<Record>)
    requires RoundTrips(records)
    ensures ParseRecords(AllLines(records)) == Some(records)
  {
    if records != [] {
      var r, more := records[0], records[1..];
      assert r in records;
      RecordParses(r, true, AllLines(more));
      RecordsParse(more);
      ParseOneMore(r, more, AllLines(records), AllLines(more));
      Seqs.HeadTail(records);
    }
  }

  lemma {:induction false} RecordLinesOneLine(r: Record, first: bool)
    requires AllPrintable(r)
    ensures forall l | l in RecordLines(r, first) :: OneLine(l)
  {
    if r != [] {
      RecordLinesOneLine(r[1..], false);
      assert Printable(r[0]);
      if r[0].value.Items? {
        ItemLinesOneLine(r[0].value.items);
      }
    }
  }

  lemma {:induction false} ItemLinesOneLine(items: seq<string>)
    requires forall s | s in items :: OneLine(s)
    ensures forall l | l in ItemLines(items) :: OneLine(l)
  {
    if items != [] {
      ItemLinesOneLine(items[1..]);
      assert items[0] in items && forall l | l in ItemLines(items[1..]) :: OneLine(l);
    }
  }

  lemma {:induction false} AllLinesOneLine(records: seq<Record>)
    requires forall r | r in records :: AllPrintable(r)
    ensures forall l | l in AllLines(records) :: OneLine(l)
  {
    if records != [] {
      RecordLinesOneLine(records[0], true);
      AllLinesOneLine(records[1..]);
    }
  }

  // ----- What the parser accepts -----

  lemma {:induction false} LinesOneLine(text: string)
    ensures forall l | l in Lines(text) :: OneLine(l)
    decreases |text|
  {
    if text != "" {
      var i := IndexOf(text, '\n');
      if i < |text| {
        LinesOneLine(text[i + 1..]);
      }
    }
  }

  lemma {:induction false} TrimEndTrims(s: string)
    ensures var t := TrimEnd(s); t <= s && (t != "" ==> t[|t| - 1] != ' ')
  {
    if s != "" && s[|s| - 1] == ' ' {
      TrimEndTrims(s[..|s| - 1]);
    }
  }

  lemma KeyLineSound(line: string, first: bool)
    requires OneLine(line) && ParseKeyLine(line, first).Some?
    ensures var (key, tail) := ParseKeyLine(line, first).value;
      PrintableKey(key) && OneLine(tail) && |line| >= 4 && (LooksLikeItem(key) ==> line[2..4] == "- ")
  {
    var body := line[2..];
    var i := IndexOf(body, ':');
    TrimEndTrims(body[..i]);
    var key := TrimEnd(body[..i]);
    assert forall c | c in key :: c in body[..i];
    assert Pad(key) == body[..i];
    assert body[..i][..2] == line[2..4];
  }

  lemma {:induction false} ItemsSound(lines: seq<string>)
    requires forall l | l in lines :: OneLine(l)
    ensures var items := ParseItems(lines);
      (forall s | s in items :: OneLine(s)) && (|items| < |lines| ==> !StartsWith(lines[|items|], "  - "))
  {
    if lines != [] && StartsWith(lines[0], "  - ") {
      assert OneLine(lines[0]);
      ItemsSound(lines[1..]);
    }
  }

  /** The parser returns only records that round-trip. */
  lemma {:induction false} RecordSound(lines: seq<string>, first: bool)
    requires (forall l | l in lines :: OneLine(l)) && ParseRecord(lines, first).Some?
    ensures var (r, rest) := ParseRecord(lines, first).value;
      && AllPrintable(r) && ListsEnd(r) && (forall l | l in rest :: OneLine(l))
      && (!first && r != [] && !StartsWith(lines[0], "  - ") ==> !LooksLikeItem(r[0].key))
    decreases |lines|
  {
    if lines[0] != "" {
      var (key, tail) := ParseKeyLine(lines[0], first).value;
      assert OneLine(lines[0]);
      KeyLineSound(lines[0], first);
      var more := lines[1..];
      ItemsSound(more);
      var value := if tail == "" then Items(ParseItems(more)) else Content.Scalar(tail[1..]);
      var rest := if tail == "" then more[|value.items|..] else more;
      RecordSound(rest, false);
      var entries := ParseRecord(rest, false).value.0;
      FirstKeyNoItem(lines[0], first, key);
      ListsEndCons(Entry(key, value), entries);
    }
  }

  lemma FirstKeyNoItem(line: string, first: bool, key: string)
    requires StartsWith(line, if first then "- " else "  ") && |line| >= 4
      && (LooksLikeItem(key) ==> line[2..4] == "- ")
    ensures !first && !StartsWith(line, "  - ") ==> !LooksLikeItem(key)
  {
    assert line[..4] == line[..2] + line[2..4];
  }

  lemma ListsEndCons(e: Entry, r: Record)
    requires ListsEnd(r) && (e.value.Items? && r != [] ==> !LooksLikeItem(r[0].key))
    ensures ListsEnd([e] + r)
  {
  }

  lemma {:induction false} RecordsSound(lines: seq<string>)
    requires (forall l | l in lines :: OneLine(l)) && ParseRecords(lines).Some?
    ensures RoundTrips(ParseRecords(lines).value)
    decreases |lines|
  {
    if lines != [] {
      RecordSound(lines, true);
      RecordsSound(ParseRecord(lines, true).value.1);
    }
  }

  /** The parser recovers a record list from its text. */
  lemma ParsePrint(records: seq<Record>)
    requires RoundTrips(records)
    ensures Parse(Print(records)) == Some(records)
  {
    PrintAsLines(records);
    AllLinesOneLine(records);
    LinesOfUnlines(AllLines(records));
    RecordsParse(records);
  }

  /**
    Exactly which record lists are recovered: those with one-line keys and values, no colon and no
    trailing space in a key, and no key that looks like an item after a list.
  */
  lemma ParsePrintIff(records: seq<Record>)
    ensures Parse(Print(records)) == Some(records) <==> RoundTrips(records)
  {
    if RoundTrips(records) {
      ParsePrint(records);
    } else if Parse(Print(records)).Some? {
      LinesOneLine(Print(records));
      RecordsSound(Lines(Print(records)));
    }
  }

  /** So different records never print alike. */
  lemma PrintInjective(a: seq<Record>, b: seq<Record>)
    requires RoundTrips(a) && RoundTrips(b) && Print(a) == Print(b)
    ensures a == b
  {
    ParsePrint(a);
    ParsePrint(b);
  }

  // Outside that set, different records can print alike: one pair for each condition.

  lemma PrintOne(e: Entry)
    ensures Print([[e]]) == EntryText(e, true) + "\n"
  {
    assert [[e]][1..] == [] && [e][1..] == [];
    assert EntriesText([e], true) == EntryText(e, true) + "";
    assert EntryText(e, true) + "" == EntryText(e, true);
    assert Print([[e]]) == EntryText(e, true) + "\n" + "";
  }

  lemma PrintTwo(e: Entry, f: Entry)
    ensures Print([[e, f]]) == EntryText(e, true) + EntryText(f, false) + "\n"
  {
    var r: Record := [e, f];
    assert [r][1..] == [] && r[1..] == [f] && [f][1..] == [];
    assert EntriesText([f], false) == EntryText(f, false) + "";
    assert EntryText(f, false) + "" == EntryText(f, false);
    assert Print([r]) == EntryText(e, true) + EntryText(f, false) + "\n" + "";
  }

  /** A value that goes on with another entry's line prints like two entries, whatever they are and whatever follows. */
  lemma NewlineInValueCollides(key: string, text: string, next: Entry, rest: Record)
    ensures Print([[Entry(key, Scalar(text + "\n" + EntryLine(next)))] + rest])
         == Print([[Entry(key, Scalar(text)), next] + rest])
  {
    var e, f := Entry(key, Scalar(text + "\n" + EntryLine(next))), Entry(key, Scalar(text));
    assert ([e] + rest)[1..] == rest && ([f, next] + rest)[1..] == [next] + rest && ([next] + rest)[1..] == rest;
    var start, tail := "-" + Spaces(INDENT - 1) + Pad(key) + ":", EntriesText(rest, false);
    assert EntryText(e, true) == start + (" " + (text + "\n" + EntryLine(next))) + "\n";
    assert EntryText(f, true) == start + (" " + text) + "\n";
    assert EntryText(next, false) == EntryLine(next) + "\n";
    Move(start, " ", text, "\n", EntryLine(next));
    Seqs.Assoc(EntryText(f, true), EntryText(next, false), tail);
    PrintRecord([e] + rest);
    PrintRecord([f, next] + rest);
  }

  lemma PrintRecord(r: Record)
    ensures Print([r]) == EntriesText(r, true) + "\n"
  {
    assert [r][1..] == [];
    assert EntriesText(r, true) + "\n" + "" == EntriesText(r, true) + "\n";
  }

  /** A later entry's text without the newline at its end. */
  function EntryLine(e: Entry): string {
    Spaces(INDENT) + Pad(e.key) + ":" + ContentText(e.value)
  }

  lemma Move(a: string, b: string, c: string, d: string, e: string)
    ensures a + (b + (c + d + e)) + d == a + (b + c) + d + (e + d)
  {
  }

  lemma ColonInKeyCollides()
    ensures Print([[Entry("abcdefghij: x", Items([]))]]) == Print([[Entry("abcdefghij", Scalar("x:"))]])
  {
    PrintOne(Entry("abcdefghij: x", Items([])));
    PrintOne(Entry("abcdefghij", Scalar("x:")));
    assert [""] + [] == [""];
  }

  lemma DashKeyCollides()
    ensures Print([[Entry("a", Items(["b       : y"]))]]) == Print([[Entry("a", Items([])), Entry("- b", Scalar("y"))]])
  {
    var e, f, g := Entry("a", Items(["b       : y"])), Entry("a", Items([])), Entry("- b", Scalar("y"));
    PrintOne(e);
    PrintTwo(f, g);
    EntryAsLines(e, true);
    EntryAsLines(f, true);
    EntryAsLines(g, false);
    assert Pad("- b") == "- b       ";
    assert "  - " + "b       : y" == KeyLine(g, false) && ["b       : y"][1..] == [];
    assert ItemLines(["b       : y"]) == [KeyLine(g, false)];
    UnlinesAppend([KeyLine(f, true)], [KeyLine(g, false)]);
    assert EntryLines(e, true) == [KeyLine(f, true)] + [KeyLine(g, false)];
    assert EntryLines(f, true) == [KeyLine(f, true)] && EntryLines(g, false) == [KeyLine(g, false)];
  }

  lemma TrailingSpaceCollides()
    ensures Print([[Entry("a ", Scalar("x"))]]) == Print([[Entry("a", Scalar("x"))]])
  {
    PrintOne(Entry("a ", Scalar("x")));
    PrintOne(Entry("a", Scalar("x")));
    assert Pad("a ") == Pad("a");
  }
}
