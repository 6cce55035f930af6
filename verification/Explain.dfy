/**
  What scripts/explain_manifest prints for a file: the `explain` methods of explain.py feeding
  `write_manifest` of main.py.
*/
module Explain {
  import opened Wrappers
  import opened Manifest
  import opened Separators
  import Seqs
  import Sorting

  datatype Opts = Opts(owners: bool, mode: bool, size: bool, arch: bool, importedSymbols: bool,
                       exportedSymbols: bool, versionRequirement: bool)

  /** `link` is there for a symbolic link, `size` for anything else. */
  datatype Base = Base(relpath: string, link: Option<string>, directory: bool, uid: nat, gid: nat, mode: nat,
                       size: Option<nat>)

  /** An empty string stands for None too; the code treats both as absent. */
  datatype Elf = Elf(arch: string, needed: seq<string>, rpath: string, runpath: string,
                     exported: Option<seq<string>>, imported: Option<seq<string>>,
                     versions: seq<(string, seq<string>)>)

  datatype Nginx = Nginx(modules: seq<string>, openssl: Option<string>, dwarf: bool, requestDwarf: bool)

  /** `ngx` is None when the constructor returned before setting the nginx attributes. */
  datatype File =
    | PlainFile(base: Base)
    | ElfFile(base: Base, elf: Elf)
    | NginxFile(base: Base, elf: Elf, ngx: Option<Nginx>)

  // ----- Number formats -----

  function Digit(n: nat): char
    requires n < 10
  {
    (48 + n) as char
  }

  function Digits(n: nat, radix: nat): (s: string)
    requires radix == 8 || radix == 10
    ensures s != "" && forall c | c in s :: '0' <= c <= '9'
  {
    if n < radix then [Digit(n)] else Digits(n / radix, radix) + [Digit(n % radix)]
  }

  function Dec(n: nat): string {
    Digits(n, 10)
  }

  function Oct(n: nat): string {
    "0o" + Digits(n, 8)
  }

  function BoolText(b: bool): (s: string)
    ensures s == "True" <==> b
    ensures s == "False" <==> !b
  {
    if b then "True" else "False"
  }

  // ----- Entries -----

  function AddIf(lines: Record, b: bool, e: Entry): Record {
    if b then lines + [e] else lines
  }

  function Typed(b: Base): Record {
    var path: Record := [Entry("Path", Scalar(b.relpath))];
    if b.link.Some? then path + [Entry("Link", Scalar(b.link.value))] + [Entry("Type", Scalar("link"))]
    else AddIf(path, b.directory, Entry("Type", Scalar("directory")))
  }

  function Owned(b: Base, o: Opts): Record {
    AddIf(AddIf(Typed(b), o.owners, Entry("Uid,Gid", Scalar(Dec(b.uid) + ", " + Dec(b.gid)))),
          o.mode, Entry("Mode", Scalar(Oct(b.mode))))
  }

  /** None when the size of a link is asked for: it has no such attribute. */
  function BaseEntries(b: Base, o: Opts): Option<Record> {
    if !o.size then Some(Owned(b, o))
    else if b.size.None? then None
    else Some(Owned(b, o) + [Entry("Size", Scalar(Dec(b.size.value)))])
  }

  predicate ByKey(a: (string, seq<string>), b: (string, seq<string>)) {
    Sorting.Before(a.0, b.0)
  }

  function VersionLines(versions: seq<(string, seq<string>)>): seq<string> {
    seq(|versions|, i requires 0 <= i < |versions| => versions[i].0 + ": " + Join(", ", versions[i].1))
  }

  function Libraries(e: Elf, o: Opts): Record {
    AddIf(AddIf([], o.arch && e.arch != "", Entry("Arch", Scalar(e.arch))),
          e.needed != [], Entry("Needed", Items(e.needed)))
  }

  function Linkage(e: Elf, o: Opts): Record {
    AddIf(AddIf(Libraries(e, o), e.rpath != "", Entry("Rpath", Scalar(e.rpath))),
          e.runpath != "", Entry("Runpath", Scalar(e.runpath)))
  }

  function Symbols(l: Record, e: Elf, o: Opts): Record {
    AddIf(AddIf(l, o.exportedSymbols && e.exported.Some?, Entry("Exported", Items(e.exported.GetOr([])))),
          o.importedSymbols && e.imported.Some?, Entry("Imported", Items(e.imported.GetOr([]))))
  }

  function ElfEntries(e: Elf, o: Opts): Record {
    AddIf(Symbols(Linkage(e, o), e, o), o.versionRequirement && e.versions != [],
          Entry("Version Requirement", Items(VersionLines(Sorting.Sort(e.versions, ByKey)))))
  }

  const REQUEST_DWARF := "DWARF - " + "ngx_http_request_t" + " related DWARF DIEs"

  function NginxEntries(n: Nginx): seq<Entry> {
    [Entry("Modules", Items(n.modules)),
     Entry("OpenSSL", Scalar(n.openssl.GetOr("None"))),
     Entry("DWARF", Scalar(BoolText(n.dwarf))),
     Entry(REQUEST_DWARF, Scalar(BoolText(n.requestDwarf)))]
  }

  function Entries(f: File, o: Opts): Option<seq<Entry>> {
    match BaseEntries(f.base, o)
    case None => None
    case Some(base) =>
      match f
      case PlainFile(_) => Some(base)
      case ElfFile(_, elf) => Some(base + ElfEntries(elf, o))
      case NginxFile(_, elf, ngx) =>
        if ngx.None? then None else Some(base + ElfEntries(elf, o) + NginxEntries(ngx.value))
  }

  function Prepend(rs: seq<Record>, more: Option<seq<Record>>): Option<seq<Record>> {
    if more.None? then None else Some(rs + more.value)
  }

  /** The records of the selected files; None if one of them cannot be explained. */
  function Records(files: seq<File>, selects: string -> bool, o: Opts): Option<seq<Record>> {
    if files == [] then Some([])
    else if !selects(files[0].base.relpath) then Records(files[1..], selects, o)
    else if Entries(files[0], o).None? then None
    else Prepend([Entries(files[0], o).value], Records(files[1..], selects, o))
  }

  // ----- The code: lists appended to, and a text buffer written to -----

  method ExplainBase(b: Base, o: Opts) returns (lines: Option<seq<Entry>>)
    ensures lines == BaseEntries(b, o)
    ensures lines.None? <==> o.size && b.size.None?
    ensures lines.Some? ==> InPlace(lines.value, 0, 6)
    ensures lines.Some? ==> forall e :: e in lines.value <==> BaseAt(b, o, Place(e.key)) == Some(e.value)
  {
    if BaseEntries(b, o).Some? {
      BaseInPlace(b, o);
      forall e ensures e in BaseEntries(b, o).value <==> BaseAt(b, o, Place(e.key)) == Some(e.value) {
        BaseShown(b, o, e);
      }
    }
    var ls := [Entry("Path", Scalar(b.relpath))];
    if b.link.Some? {
      ls := ls + [Entry("Link", Scalar(b.link.value))];
      ls := ls + [Entry("Type", Scalar("link"))];
    } else if b.directory {
      ls := ls + [Entry("Type", Scalar("directory"))];
    }
    if o.owners {
      ls := ls + [Entry("Uid,Gid", Scalar(Dec(b.uid) + ", " + Dec(b.gid)))];
    }
    if o.mode {
      ls := ls + [Entry("Mode", Scalar(Oct(b.mode)))];
    }
    if o.size {
      if b.size.None? {
        return None;
      }
      ls := ls + [Entry("Size", Scalar(Dec(b.size.value)))];
    }
    return Some(ls);
  }

  /** One line for each requirement, in the order of the names. */
  method ExplainVersions(versions: seq<(string, seq<string>)>)
      returns (req: seq<string>, ghost sorted: seq<(string, seq<string>)>)
    ensures req == VersionLines(Sorting.Sort(versions, ByKey))
    ensures multiset(sorted) == multiset(versions)
    ensures forall i, j | 0 <= i < j < |sorted| :: !Sorting.Earlier(sorted[j].0, sorted[i].0)
    ensures |req| == |sorted|
    ensures forall i | 0 <= i < |req| :: req[i] == sorted[i].0 + ": " + Join(", ", sorted[i].1)
  {
    SortedByName(versions);
    sorted := Sorting.Sort(versions, ByKey);
    req := WriteVersions(Sorting.Sort(versions, ByKey));
  }

  method WriteVersions(sorted: seq<(string, seq<string>)>) returns (req: seq<string>)
    ensures req == VersionLines(sorted)
  {
    req := [];
    for i := 0 to |sorted|
      invariant req == VersionLines(sorted[..i])
    {
      req := req + [sorted[i].0 + ": " + Join(", ", sorted[i].1)];
    }
    assert sorted[..|sorted|] == sorted;
  }

  lemma SortedByName(versions: seq<(string, seq<string>)>)
    ensures var sorted := Sorting.Sort(versions, ByKey);
      multiset(sorted) == multiset(versions)
      && forall i, j | 0 <= i < j < |sorted| :: !Sorting.Earlier(sorted[j].0, sorted[i].0)
  {
    Sorting.BeforeIsWeakOrder();
    assert Sorting.WeakOrder(ByKey) by {
      forall x: (string, seq<string>), y: (string, seq<string>), z: (string, seq<string>) | !ByKey(x, y) && !ByKey(y, z)
        ensures !ByKey(x, z)
      {
        assert !Sorting.Before(x.0, y.0) && !Sorting.Before(y.0, z.0);
      }
      forall x: (string, seq<string>) ensures !ByKey(x, x) {
        assert !Sorting.Before(x.0, x.0);
      }
    }
    Sorting.SortSorts(versions, ByKey);
    var sorted := Sorting.Sort(versions, ByKey);
    forall i, j | 0 <= i < j < |sorted| ensures !Sorting.Earlier(sorted[j].0, sorted[i].0) {
      assert !ByKey(sorted[j], sorted[i]);
      Sorting.BeforeIff(sorted[j].0, sorted[i].0);
    }
  }

  method ExplainLinkage(e: Elf, o: Opts) returns (lines: seq<Entry>)
    ensures lines == Linkage(e, o)
    ensures InPlace(lines, 6, 10) && forall x :: x in lines <==> LinkageAt(e, o, Place(x.key)) == Some(x.value)
  {
    LinkageInPlace(e, o);
    forall x ensures x in Linkage(e, o) <==> LinkageAt(e, o, Place(x.key)) == Some(x.value) {
      LinkageShown(e, o, x);
    }
    lines := [];
    if o.arch && e.arch != "" {
      lines := lines + [Entry("Arch", Scalar(e.arch))];
    }
    if e.needed != [] {
      lines := lines + [Entry("Needed", Items(e.needed))];
    }
    if e.rpath != "" {
      lines := lines + [Entry("Rpath", Scalar(e.rpath))];
    }
    if e.runpath != "" {
      lines := lines + [Entry("Runpath", Scalar(e.runpath))];
    }
  }

  method ExplainElf(e: Elf, o: Opts) returns (lines: seq<Entry>)
    ensures lines == ElfEntries(e, o)
    ensures InPlace(lines, 6, 13) && forall x :: x in lines <==> ElfAt(e, o, Place(x.key)) == Some(x.value)
  {
    ElfInPlace(e, o);
    forall x ensures x in ElfEntries(e, o) <==> ElfAt(e, o, Place(x.key)) == Some(x.value) {
      ElfShown(e, o, x);
    }
    lines := ExplainLinkage(e, o);
    if o.exportedSymbols && e.exported.Some? {
      lines := lines + [Entry("Exported", Items(e.exported.value))];
    }
    if o.importedSymbols && e.imported.Some? {
      lines := lines + [Entry("Imported", Items(e.imported.value))];
    }
    if o.versionRequirement && e.versions != [] {
      var req, _ := ExplainVersions(e.versions);
      lines := lines + [Entry("Version Requirement", Items(req))];
    }
  }

  /** The list is also the only one with exactly the shown entries, each key in its place. */
  method ExplainFile(f: File, o: Opts) returns (lines: Option<seq<Entry>>)
    ensures lines == Entries(f, o)
    ensures lines.None? <==> (o.size && f.base.size.None?) || (f.NginxFile? && f.ngx.None?)
    ensures lines.Some? ==> InPlace(lines.value, 0, 17)
    ensures lines.Some? ==> forall e :: e in lines.value <==> ValueAt(f, o, Place(e.key)) == Some(e.value)
  {
    if Entries(f, o).Some? {
      EntriesInPlace(f, o);
      forall e ensures e in Entries(f, o).value <==> ValueAt(f, o, Place(e.key)) == Some(e.value) {
        EntriesShown(f, o, e);
      }
    }
    var base := ExplainBase(f.base, o);
    if base.None? || f.PlainFile? {
      return base;
    }
    var elf := ExplainElf(f.elf, o);
    var pline := base.value + elf;
    if f.ElfFile? {
      return Some(pline);
    }
    if f.ngx.None? {
      return None;
    }
    return Some(pline + NginxEntries(f.ngx.value));
  }

  lemma EntriesTextCons(e: Entry, r: Record, first: bool)
    ensures EntriesText([e] + r, first) == EntryText(e, first) + EntriesText(r, false)
  {
    Seqs.AppendTail([e], r);
    assert [e][1..] == [];
    Seqs.AppendEmpty(r);
  }

  lemma {:induction false} EntriesTextSnoc(r: Record, x: Entry, first: bool)
    ensures EntriesText(r + [x], first) == EntriesText(r, first) + EntryText(x, first && r == [])
  {
    if r == [] {
      EntriesTextCons(x, [], first);
      Seqs.AppendEmpty([x]);
      Seqs.AppendEmpty(EntryText(x, first));
    } else {
      var e, rest := r[0], r[1..];
      EntriesTextSnoc(rest, x, false);
      Seqs.HeadTail(r);
      Seqs.Assoc([e], rest, [x]);
      EntriesTextCons(e, rest, first);
      EntriesTextCons(e, rest + [x], first);
      Seqs.Assoc(EntryText(e, first), EntriesText(rest, false), EntryText(x, false));
    }
  }

  method WriteRecord(entries: Record) returns (out: string)
    ensures out == EntriesText(entries, true) + "\n"
  {
    out := "";
    var first := true;
    for i := 0 to |entries|
      invariant first == (i == 0) && out == EntriesText(entries[..i], true)
    {
      Seqs.TakeNext(entries, i);
      EntriesTextSnoc(entries[..i], entries[i], true);
      var v: string;
      match entries[i].value {
        case Items(items) => v := Join("\n" + Spaces(INDENT) + "- ", [""] + items);
        case Scalar(text) => v := " " + text;
      }
      var line := if first then "-" + Spaces(INDENT - 1) else Spaces(INDENT);
      first := false;
      line := line + Pad(entries[i].key) + ":" + v + "\n";
      assert line == EntryText(entries[i], i == 0);
      out := out + line;
    }
    assert entries[..|entries|] == entries;
    out := out + "\n";
  }

  function RecordText(r: Record): string {
    EntriesText(r, true) + "\n"
  }

  lemma PrintCons(r: Record, rs: seq<Record>)
    ensures Print([r] + rs) == RecordText(r) + Print(rs)
  {
    Seqs.AppendTail([r], rs);
    assert [r][1..] == [];
    Seqs.AppendEmpty(rs);
  }

  lemma {:induction false} PrintSnoc(rs: seq<Record>, r: Record)
    ensures Print(rs + [r]) == Print(rs) + RecordText(r)
  {
    Seqs.AppendEmpty(RecordText(r));
    if rs == [] {
      PrintCons(r, []);
      Seqs.AppendEmpty([r]);
    } else {
      var head, rest := rs[0], rs[1..];
      Seqs.HeadTail(rs);
      PrintSnoc(rest, r);
      PrintCons(head, rest);
      Seqs.Assoc([head], rest, [r]);
      PrintCons(head, rest + [r]);
      Seqs.Assoc(RecordText(head), Print(rest), RecordText(r));
    }
  }

  lemma PrependTwice(a: seq<Record>, b: seq<Record>, more: Option<seq<Record>>)
    ensures Prepend(a, Prepend(b, more)) == Prepend(a + b, more)
    ensures Prepend([], more) == more
  {
    if more.Some? {
      assert a + (b + more.value) == a + b + more.value;
      assert [] + more.value == more.value;
    }
  }

  /** The records that stand for the files at these places. */
  ghost predicate RecordsAt(files: seq<File>, o: Opts, chosen: seq<nat>, records: seq<Record>) {
    |records| == |chosen| && forall k | 0 <= k < |chosen| ::
      chosen[k] < |files| && Entries(files[chosen[k]], o).Some? && records[k] == Entries(files[chosen[k]], o).value
  }

  /** `chosen` are the places of the selected files, in order; every one of them can be explained. */
  ghost predicate Chosen(files: seq<File>, selects: string -> bool, o: Opts, n: nat, chosen: seq<nat>)
    requires n <= |files|
  {
    && (forall j: nat :: j in chosen <==> j < n && selects(files[j].base.relpath))
    && (forall k, l | 0 <= k < l < |chosen| :: chosen[k] < chosen[l])
    && (forall j: nat | j < n && selects(files[j].base.relpath) :: Entries(files[j], o).Some?)
  }

  lemma ChosenMore(files: seq<File>, selects: string -> bool, o: Opts, n: nat, chosen: seq<nat>, records: seq<Record>)
    requires n < |files| && Chosen(files, selects, o, n, chosen) && RecordsAt(files, o, chosen, records)
    requires selects(files[n].base.relpath) && Entries(files[n], o).Some?
    ensures Chosen(files, selects, o, n + 1, chosen + [n])
    ensures RecordsAt(files, o, chosen + [n], records + [Entries(files[n], o).value])
  {
    forall k | 0 <= k < |chosen| ensures chosen[k] < n {
      assert chosen[k] in chosen;
    }
  }

  lemma RestSelected(files: seq<File>, selects: string -> bool, o: Opts, n: nat, done: seq<Record>)
    requires n < |files| && Records(files, selects, o) == Prepend(done, Records(files[n..], selects, o))
    ensures !selects(files[n].base.relpath) ==>
      Records(files, selects, o) == Prepend(done, Records(files[n + 1..], selects, o))
    ensures selects(files[n].base.relpath) && Entries(files[n], o).Some? ==>
      Records(files, selects, o) == Prepend(done + [Entries(files[n], o).value], Records(files[n + 1..], selects, o))
    ensures selects(files[n].base.relpath) && Entries(files[n], o).None? ==> Records(files, selects, o) == None
  {
    assert files[n..][0] == files[n] && files[n..][1..] == files[n + 1..];
    if Entries(files[n], o).Some? {
      PrependTwice(done, [Entries(files[n], o).value], Records(files[n + 1..], selects, o));
    }
  }

  /**
    None stands for the exception that leaves `write_manifest`: some selected file cannot be explained.
    Otherwise the text is that of the records of the selected files, which are at the places `chosen`.
  */
  method WriteManifest(files: seq<File>, selects: string -> bool, o: Opts)
      returns (text: Option<string>, ghost chosen: seq<nat>, ghost records: seq<Record>)
    ensures text.None? <==> exists i: nat :: i < |files| && selects(files[i].base.relpath) && Entries(files[i], o).None?
    ensures text.Some? ==> text == Some(Print(records)) && RecordsAt(files, o, chosen, records)
    ensures text.Some? ==> forall i: nat :: i in chosen <==> i < |files| && selects(files[i].base.relpath)
    ensures text.Some? ==> forall k, l | 0 <= k < l < |chosen| :: chosen[k] < chosen[l]
    ensures Records(files, selects, o) == if text.Some? then Some(records) else None
  {
    var out := "";
    records, chosen := [], [];
    assert files[0..] == files;
    PrependTwice([], [], Records(files, selects, o));
    for i := 0 to |files|
      invariant out == Print(records) && RecordsAt(files, o, chosen, records)
      invariant Records(files, selects, o) == Prepend(records, Records(files[i..], selects, o))
      invariant Chosen(files, selects, o, i, chosen)
    {
      RestSelected(files, selects, o, i, records);
      if selects(files[i].base.relpath) {
        var entries := ExplainFile(files[i], o);
        if entries.None? {
          return None, chosen, records;
        }
        var record := WriteRecord(entries.value);
        PrintSnoc(records, entries.value);
        ChosenMore(files, selects, o, i, chosen, records);
        out := out + record;
        records, chosen := records + [entries.value], chosen + [i];
      }
    }
    assert files[|files|..] == [] && records + [] == records;
    return Some(out), chosen, records;
  }

  /** The place of a key in the order in which `explain` shows them; 0 for any other key. */
  function Place(key: string): nat {
    match key
    case "Path" => 1
    case "Link" => 2
    case "Type" => 3
    case "Uid,Gid" => 4
    case "Mode" => 5
    case "Size" => 6
    case "Arch" => 7
    case "Needed" => 8
    case "Rpath" => 9
    case "Runpath" => 10
    case "Exported" => 11
    case "Imported" => 12
    case "Version Requirement" => 13
    case "Modules" => 14
    case "OpenSSL" => 15
    case "DWARF" => 16
    case _ => if key == REQUEST_DWARF then 17 else 0
  }

  /** Known keys only, in their order, so none comes twice. */
  predicate InPlace(r: Record, lo: nat, hi: nat) {
    && (forall i | 0 <= i < |r| :: lo < Place(r[i].key) <= hi)
    && (forall i, j | 0 <= i < j < |r| :: Place(r[i].key) < Place(r[j].key))
  }

  /** Adding an entry whose place comes later, or two. */
  lemma AddedOne(r: Record, b: bool, x: Entry, lo: nat, hi: nat)
    requires InPlace(r, lo, hi) && lo <= hi < Place(x.key)
    ensures InPlace(AddIf(r, b, x), lo, Place(x.key))
  {
  }

  lemma Added(r: Record, b: bool, x: Entry, c: bool, y: Entry, lo: nat, hi: nat)
    requires InPlace(r, lo, hi) && lo <= hi < Place(x.key) < Place(y.key)
    ensures InPlace(AddIf(AddIf(r, b, x), c, y), lo, Place(y.key))
  {
    AddedOne(r, b, x, lo, hi);
    AddedOne(AddIf(r, b, x), c, y, lo, Place(x.key));
  }

  lemma ConcatInPlace(a: Record, b: Record, lo: nat, mid: nat, hi: nat)
    requires InPlace(a, lo, mid) && InPlace(b, mid, hi) && lo <= mid <= hi
    ensures InPlace(a + b, lo, hi)
  {
  }

  // ----- What is shown -----

  lemma BaseKeys(k: string)
    ensures Place(k) == 1 <==> k == "Path"
    ensures Place(k) == 2 <==> k == "Link"
    ensures Place(k) == 3 <==> k == "Type"
    ensures Place(k) == 4 <==> k == "Uid,Gid"
    ensures Place(k) == 5 <==> k == "Mode"
    ensures Place(k) == 6 <==> k == "Size"
  {
  }

  lemma LinkageKeys(k: string)
    ensures Place(k) == 7 <==> k == "Arch"
    ensures Place(k) == 8 <==> k == "Needed"
    ensures Place(k) == 9 <==> k == "Rpath"
    ensures Place(k) == 10 <==> k == "Runpath"
  {
  }

  lemma SymbolKeys(k: string)
    ensures Place(k) == 11 <==> k == "Exported"
    ensures Place(k) == 12 <==> k == "Imported"
    ensures Place(k) == 13 <==> k == "Version Requirement"
  {
  }

  lemma NginxKeys(k: string)
    ensures Place(k) == 14 <==> k == "Modules"
    ensures Place(k) == 15 <==> k == "OpenSSL"
    ensures Place(k) == 16 <==> k == "DWARF"
    ensures Place(k) == 17 <==> k == REQUEST_DWARF
  {
  }

  function If(b: bool, v: Content): Option<Content> {
    if b then Some(v) else None
  }

  /** What is shown of any file, place by place. */
  function BaseAt(b: Base, o: Opts, place: nat): Option<Content> {
    match place
    case 1 => Some(Scalar(b.relpath))
    case 2 => If(b.link.Some?, Scalar(b.link.GetOr("")))
    case 3 => If(b.link.Some? || b.directory, Scalar(if b.link.Some? then "link" else "directory"))
    case 4 => If(o.owners, Scalar(Dec(b.uid) + ", " + Dec(b.gid)))
    case 5 => If(o.mode, Scalar(Oct(b.mode)))
    case 6 => If(o.size && b.size.Some?, Scalar(Dec(b.size.GetOr(0))))
    case _ => None
  }

  function LinkageAt(elf: Elf, o: Opts, place: nat): Option<Content> {
    match place
    case 7 => If(o.arch && elf.arch != "", Scalar(elf.arch))
    case 8 => If(elf.needed != [], Items(elf.needed))
    case 9 => If(elf.rpath != "", Scalar(elf.rpath))
    case 10 => If(elf.runpath != "", Scalar(elf.runpath))
    case _ => None
  }

  /** ... of an ELF file. */
  function ElfAt(elf: Elf, o: Opts, place: nat): Option<Content> {
    match place
    case 11 => If(o.exportedSymbols && elf.exported.Some?, Items(elf.exported.GetOr([])))
    case 12 => If(o.importedSymbols && elf.imported.Some?, Items(elf.imported.GetOr([])))
    case 13 =>
      If(o.versionRequirement && elf.versions != [], Items(VersionLines(Sorting.Sort(elf.versions, ByKey))))
    case _ => LinkageAt(elf, o, place)
  }

  /** ... and of nginx. */
  function NginxAt(n: Nginx, place: nat): Option<Content> {
    match place
    case 14 => Some(Items(n.modules))
    case 15 => Some(Scalar(n.openssl.GetOr("None")))
    case 16 => Some(Scalar(BoolText(n.dwarf)))
    case 17 => Some(Scalar(BoolText(n.requestDwarf)))
    case _ => None
  }

  /** A plain file links and defines nothing. */
  function ElfOf(f: File): Elf {
    if f.PlainFile? then Elf("", [], "", "", None, None, []) else f.elf
  }

  function ValueAt(f: File, o: Opts, place: nat): Option<Content> {
    if place <= 6 then BaseAt(f.base, o, place)
    else if place <= 13 then ElfAt(ElfOf(f), o, place)
    else if f.NginxFile? && f.ngx.Some? then NginxAt(f.ngx.value, place)
    else None
  }

  lemma TypedShown(b: Base, e: Entry, o: Opts)
    requires Place(e.key) <= 3
    ensures e in Typed(b) <==> BaseAt(b, o, Place(e.key)) == Some(e.value)
  {
    BaseKeys(e.key);
  }

  lemma TypedPlaces(b: Base, e: Entry)
    requires e in Typed(b)
    ensures Place(e.key) <= 3
  {
    TypedInPlace(b);
  }

  lemma BaseShown(b: Base, o: Opts, e: Entry)
    requires BaseEntries(b, o).Some?
    ensures e in BaseEntries(b, o).value <==> BaseAt(b, o, Place(e.key)) == Some(e.value)
  {
    BaseKeys(e.key);
    if Place(e.key) <= 3 {
      TypedShown(b, e, o);
    } else if e in Typed(b) {
      TypedPlaces(b, e);
    }
  }

  lemma LinkageShown(elf: Elf, o: Opts, e: Entry)
    ensures e in Linkage(elf, o) <==> LinkageAt(elf, o, Place(e.key)) == Some(e.value)
  {
    LinkageKeys(e.key);
  }

  lemma ElfShown(elf: Elf, o: Opts, e: Entry)
    ensures e in ElfEntries(elf, o) <==> ElfAt(elf, o, Place(e.key)) == Some(e.value)
  {
    SymbolKeys(e.key);
    LinkageShown(elf, o, e);
    LinkageAtRange(elf, o, Place(e.key));
  }

  lemma LinkageAtRange(elf: Elf, o: Opts, place: nat)
    ensures LinkageAt(elf, o, place).Some? ==> 7 <= place <= 10
  {
  }

  lemma AtRange(f: File, o: Opts, place: nat)
    ensures BaseAt(f.base, o, place).Some? ==> 1 <= place <= 6
    ensures ElfAt(ElfOf(f), o, place).Some? ==> 7 <= place <= 13
    ensures f.NginxFile? && f.ngx.Some? && NginxAt(f.ngx.value, place).Some? ==> 14 <= place <= 17
    ensures f.PlainFile? ==> ElfAt(ElfOf(f), o, place).None?
  {
  }

  lemma NginxShown(n: Nginx, e: Entry)
    ensures e in NginxEntries(n) <==> NginxAt(n, Place(e.key)) == Some(e.value)
  {
    NginxKeys(e.key);
  }

  lemma TypedInPlace(b: Base)
    ensures InPlace(Typed(b), 0, 3)
  {
    assert Place("Path") == 1 && Place("Link") == 2 && Place("Type") == 3;
  }

  lemma BaseInPlace(b: Base, o: Opts)
    requires BaseEntries(b, o).Some?
    ensures InPlace(BaseEntries(b, o).value, 0, 6)
  {
    TypedInPlace(b);
    assert Place("Uid,Gid") == 4 && Place("Mode") == 5 && Place("Size") == 6;
    Added(Typed(b), o.owners, Entry("Uid,Gid", Scalar(Dec(b.uid) + ", " + Dec(b.gid))),
          o.mode, Entry("Mode", Scalar(Oct(b.mode))), 0, 3);
    assert InPlace(Owned(b, o), 0, 5);
  }

  lemma SymbolsInPlace(l: Record, elf: Elf, o: Opts)
    requires InPlace(l, 6, 10)
    ensures InPlace(Symbols(l, elf, o), 6, 12)
  {
    assert Place("Exported") == 11 && Place("Imported") == 12;
    Added(l, o.exportedSymbols && elf.exported.Some?, Entry("Exported", Items(elf.exported.GetOr([]))),
          o.importedSymbols && elf.imported.Some?, Entry("Imported", Items(elf.imported.GetOr([]))), 6, 10);
  }

  lemma ElfInPlace(elf: Elf, o: Opts)
    ensures InPlace(ElfEntries(elf, o), 6, 13)
  {
    LinkageInPlace(elf, o);
    SymbolsInPlace(Linkage(elf, o), elf, o);
    var x := Entry("Version Requirement", Items(VersionLines(Sorting.Sort(elf.versions, ByKey))));
    assert Place(x.key) == 13;
    AddedOne(Symbols(Linkage(elf, o), elf, o), o.versionRequirement && elf.versions != [], x, 6, 12);
  }

  lemma LinkageInPlace(elf: Elf, o: Opts)
    ensures InPlace(Linkage(elf, o), 6, 10)
  {
    assert Place("Arch") == 7 && Place("Needed") == 8 && Place("Rpath") == 9 && Place("Runpath") == 10;
    Added([], o.arch && elf.arch != "", Entry("Arch", Scalar(elf.arch)),
          elf.needed != [], Entry("Needed", Items(elf.needed)), 6, 6);
    Added(Libraries(elf, o), elf.rpath != "", Entry("Rpath", Scalar(elf.rpath)),
          elf.runpath != "", Entry("Runpath", Scalar(elf.runpath)), 6, 8);
  }

  lemma NginxInPlace(n: Nginx)
    ensures InPlace(NginxEntries(n), 13, 17)
  {
    assert Place("Modules") == 14 && Place("OpenSSL") == 15 && Place("DWARF") == 16 && Place(REQUEST_DWARF) == 17;
  }

  /** Each key once, and in its place. */
  lemma EntriesInPlace(f: File, o: Opts)
    requires Entries(f, o).Some?
    ensures InPlace(Entries(f, o).value, 0, 17)
  {
    var base := BaseEntries(f.base, o).value;
    BaseInPlace(f.base, o);
    if !f.PlainFile? {
      ElfInPlace(f.elf, o);
      ConcatInPlace(base, ElfEntries(f.elf, o), 0, 6, 13);
    }
    if f.NginxFile? {
      NginxInPlace(f.ngx.value);
      ConcatInPlace(base + ElfEntries(f.elf, o), NginxEntries(f.ngx.value), 0, 13, 17);
    }
  }

  /** Exactly what the table says; with the places this determines the list. */
  lemma EntriesShown(f: File, o: Opts, e: Entry)
    requires Entries(f, o).Some?
    ensures e in Entries(f, o).value <==> ValueAt(f, o, Place(e.key)) == Some(e.value)
  {
    AtRange(f, o, Place(e.key));
    BaseShown(f.base, o, e);
    if !f.PlainFile? {
      ElfShown(f.elf, o, e);
    }
    if f.NginxFile? {
      NginxShown(f.ngx.value, e);
    }
  }
}
