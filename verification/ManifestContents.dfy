/**
  What a manifest tells: from the text back to the entries, and from the entries back to the files.
*/
module ManifestContents {
  import opened Wrappers
  import opened Explain
  import opened Manifest
  import opened Separators
  import Seqs
  import Sorting

  // ----- The text determines what is shown -----

  predicate OneLiners(ss: seq<string>) {
    forall s | s in ss :: OneLine(s)
  }

  /** No newline in any name; then nothing else is needed. */
  predicate Clean(f: File) {
    && OneLine(f.base.relpath)
    && (f.base.link.Some? ==> OneLine(f.base.link.value))
    && (f.ElfFile? || f.NginxFile? ==>
          && OneLine(f.elf.arch) && OneLiners(f.elf.needed) && OneLine(f.elf.rpath) && OneLine(f.elf.runpath)
          && (f.elf.exported.Some? ==> OneLiners(f.elf.exported.value))
          && (f.elf.imported.Some? ==> OneLiners(f.elf.imported.value))
          && (forall v | v in f.elf.versions :: OneLine(v.0) && OneLiners(v.1)))
    && (f.NginxFile? && f.ngx.Some? ==>
          OneLiners(f.ngx.value.modules) && (f.ngx.value.openssl.Some? ==> OneLine(f.ngx.value.openssl.value)))
  }

  lemma {:induction false} JoinOneLine(sep: string, parts: seq<string>)
    requires OneLine(sep) && OneLiners(parts)
    ensures OneLine(Join(sep, parts))
  {
    if |parts| == 1 {
      assert parts[0] in parts;
    } else if parts != [] {
      assert parts[0] in parts;
      JoinOneLine(sep, parts[1..]);
    }
  }

  lemma VersionLinesOneLine(versions: seq<(string, seq<string>)>)
    requires forall v | v in versions :: OneLine(v.0) && OneLiners(v.1)
    ensures OneLiners(VersionLines(Sorting.Sort(versions, ByKey)))
  {
    var sorted := Sorting.Sort(versions, ByKey);
    SortItems(versions);
    forall i | 0 <= i < |sorted| ensures OneLine(VersionLines(sorted)[i]) {
      assert sorted[i] in multiset(sorted);
      assert sorted[i] in versions;
      JoinOneLine(", ", sorted[i].1);
    }
  }

  lemma {:induction false} SortItems(versions: seq<(string, seq<string>)>)
    ensures multiset(Sorting.Sort(versions, ByKey)) == multiset(versions)
  {
    if versions != [] {
      SortItems(versions[1..]);
      Sorting.InsertItems(versions[0], Sorting.Sort(versions[1..], ByKey), ByKey);
      assert versions == [versions[0]] + versions[1..];
    }
  }

  predicate OneLineValue(v: Content) {
    match v
    case Scalar(text) => OneLine(text)
    case Items(items) => OneLiners(items)
  }

  predicate OneLineValues(r: Record) {
    forall e | e in r :: OneLineValue(e.value)
  }

  lemma RequestKeyPrintable()
    ensures PrintableKey(REQUEST_DWARF)
  {
    assert OneLine("DWARF - ") && OneLine("ngx_http_request_t") && OneLine(" related DWARF DIEs");
    assert ':' !in "DWARF - " && ':' !in "ngx_http_request_t" && ':' !in " related DWARF DIEs";
  }

  lemma VersionKeyPrintable()
    ensures PrintableKey("Version Requirement")
  {
  }

  lemma BaseKeyPrintable(k: string)
    requires 0 < Place(k) <= 6
    ensures PrintableKey(k)
  {
  }

  lemma ElfKeyPrintable(k: string)
    requires 6 < Place(k) <= 12
    ensures PrintableKey(k)
  {
  }

  lemma NginxKeyPrintable(k: string)
    requires 13 < Place(k) <= 16
    ensures PrintableKey(k)
  {
  }

  lemma PlacedKeyPrintable(k: string)
    requires Place(k) > 0
    ensures PrintableKey(k)
  {
    if Place(k) <= 6 {
      BaseKeyPrintable(k);
    } else if Place(k) <= 12 {
      ElfKeyPrintable(k);
    } else if Place(k) == 13 {
      VersionKeyPrintable();
    } else if Place(k) <= 16 {
      NginxKeyPrintable(k);
    } else {
      RequestKeyPrintable();
    }
  }

  lemma PlacedKeyNoItem(k: string)
    requires Place(k) > 0
    ensures !LooksLikeItem(k)
  {
    assert k != "" && k[0] != '-';
    assert Pad(k)[0] == k[0] && "- "[0] == '-';
  }

  lemma RoundTripsIffOneLine(r: Record)
    requires InPlace(r, 0, 17)
    ensures AllPrintable(r) && ListsEnd(r) <==> OneLineValues(r)
  {
    forall i | 0 <= i < |r| ensures PrintableKey(r[i].key) && !LooksLikeItem(r[i].key) {
      PlacedKeyPrintable(r[i].key);
      PlacedKeyNoItem(r[i].key);
    }
  }

  lemma {:induction false} RecordsInPlace(files: seq<File>, selects: string -> bool, o: Opts)
    requires Records(files, selects, o).Some?
    ensures forall r | r in Records(files, selects, o).value :: InPlace(r, 0, 17)
  {
    if files != [] {
      RecordsInPlace(files[1..], selects, o);
      if selects(files[0].base.relpath) {
        EntriesInPlace(files[0], o);
      }
    }
  }

  /** Exactly when a manifest can be read back: iff no shown value has a newline. */
  lemma ManifestRoundTripsIff(files: seq<File>, selects: string -> bool, o: Opts)
    requires Records(files, selects, o).Some?
    ensures Parse(Print(Records(files, selects, o).value)) == Records(files, selects, o)
      <==> forall r | r in Records(files, selects, o).value :: OneLineValues(r)
  {
    RecordsInPlace(files, selects, o);
    forall r | r in Records(files, selects, o).value ensures AllPrintable(r) && ListsEnd(r) <==> OneLineValues(r) {
      RoundTripsIffOneLine(r);
    }
    ParsePrintIff(Records(files, selects, o).value);
  }

  /** A name that goes on with the line that a directory shows. */
  function OddName(path: string): string {
    path + "\n" + "  Type      : directory"
  }

  lemma TypeLine()
    ensures EntryLine(Entry("Type", Scalar("directory"))) == "  Type      : directory"
  {
    assert Pad("Type") == "Type      " && Spaces(INDENT) == "  ";
    assert "  " + "Type      " + ":" + (" " + "directory") == "  Type      : directory";
  }

  /** What comes after path and type. */
  function Rest(b: Base, o: Opts): Record {
    var rest := AddIf(AddIf([], o.owners, Entry("Uid,Gid", Scalar(Dec(b.uid) + ", " + Dec(b.gid)))),
                      o.mode, Entry("Mode", Scalar(Oct(b.mode))));
    AddIf(rest, o.size, Entry("Size", Scalar(Dec(b.size.GetOr(0)))))
  }

  lemma AddAfter(start: Record, lines: Record, b: bool, e: Entry)
    ensures AddIf(start + lines, b, e) == start + AddIf(lines, b, e)
  {
    Seqs.Assoc(start, lines, [e]);
  }

  lemma OwnedIsRest(b: Base, o: Opts)
    requires b.size.Some?
    ensures BaseEntries(b, o) == Some(Typed(b) + Rest(b, o))
  {
    var owner, mode := Entry("Uid,Gid", Scalar(Dec(b.uid) + ", " + Dec(b.gid))), Entry("Mode", Scalar(Oct(b.mode)));
    Seqs.AppendEmpty(Typed(b));
    AddAfter(Typed(b), [], o.owners, owner);
    AddAfter(Typed(b), AddIf([], o.owners, owner), o.mode, mode);
    AddAfter(Typed(b), AddIf(AddIf([], o.owners, owner), o.mode, mode),
             o.size, Entry("Size", Scalar(Dec(b.size.value))));
  }

  /**
    Whatever is shown: a file whose name goes on like a directory's second line prints like the
    directory, if owner, mode and size are the same.
  */
  lemma NewlineInPathCollides(path: string, uid: nat, gid: nat, mode: nat, size: nat, o: Opts)
    ensures var f := Entries(PlainFile(Base(OddName(path), None, false, uid, gid, mode, Some(size))), o);
      var d := Entries(PlainFile(Base(path, None, true, uid, gid, mode, Some(size))), o);
      f.Some? && d.Some? && f != d && Print([f.value]) == Print([d.value])
  {
    var file, dir := Base(OddName(path), None, false, uid, gid, mode, Some(size)),
                     Base(path, None, true, uid, gid, mode, Some(size));
    var kind, rest := Entry("Type", Scalar("directory")), Rest(dir, o);
    OwnedIsRest(file, o);
    OwnedIsRest(dir, o);
    TypeLine();
    assert [Entry("Path", Scalar(path))] + [kind] == [Entry("Path", Scalar(path)), kind];
    NewlineInValueCollides("Path", path, kind, rest);
    assert |Typed(file)| == 1 && |Typed(dir)| == 2;
  }

  lemma BaseOneLine(b: Base, o: Opts, place: nat)
    requires OneLine(b.relpath) && (b.link.Some? ==> OneLine(b.link.value)) && BaseAt(b, o, place).Some?
    ensures OneLineValue(BaseAt(b, o, place).value)
  {
  }

  lemma LinkageOneLine(elf: Elf, o: Opts, place: nat)
    requires OneLine(elf.arch) && OneLiners(elf.needed) && OneLine(elf.rpath) && OneLine(elf.runpath)
    requires LinkageAt(elf, o, place).Some?
    ensures OneLineValue(LinkageAt(elf, o, place).value)
  {
  }

  lemma NginxOneLine(n: Nginx, place: nat)
    requires OneLiners(n.modules) && (n.openssl.Some? ==> OneLine(n.openssl.value)) && NginxAt(n, place).Some?
    ensures OneLineValue(NginxAt(n, place).value)
  {
  }

  lemma CleanShowsOneLine(f: File, o: Opts, place: nat)
    requires Clean(f) && ValueAt(f, o, place).Some?
    ensures OneLineValue(ValueAt(f, o, place).value)
  {
    if place <= 6 {
      BaseOneLine(f.base, o, place);
    } else if place <= 10 {
      LinkageOneLine(ElfOf(f), o, place);
    } else if place == 13 {
      VersionLinesOneLine(ElfOf(f).versions);
    } else if place > 13 {
      NginxOneLine(f.ngx.value, place);
    }
  }

  lemma EntriesPrintable(f: File, o: Opts)
    requires Clean(f) && Entries(f, o).Some?
    ensures AllPrintable(Entries(f, o).value) && ListsEnd(Entries(f, o).value)
  {
    EntriesInPlace(f, o);
    forall e | e in Entries(f, o).value ensures OneLineValue(e.value) {
      EntriesShown(f, o, e);
      CleanShowsOneLine(f, o, Place(e.key));
    }
    RoundTripsIffOneLine(Entries(f, o).value);
  }

  lemma {:induction false} RecordsPrintable(files: seq<File>, selects: string -> bool, o: Opts)
    requires (forall f | f in files :: Clean(f)) && Records(files, selects, o).Some?
    ensures RoundTrips(Records(files, selects, o).value)
  {
    if files != [] {
      assert files[0] in files;
      RecordsPrintable(files[1..], selects, o);
      if selects(files[0].base.relpath) {
        EntriesPrintable(files[0], o);
      }
    }
  }

  /**
    Two runs over files with newline-free names print the same manifest only if they show the same
    entries for the same paths in the same order; and the parser recovers them.
  */
  lemma ManifestDeterminesRecords(a: seq<File>, b: seq<File>, selects: string -> bool, o: Opts)
    requires (forall f | f in a :: Clean(f)) && (forall f | f in b :: Clean(f))
    requires Records(a, selects, o).Some? && Records(b, selects, o).Some?
    ensures Parse(Print(Records(a, selects, o).value)) == Records(a, selects, o)
    ensures Print(Records(a, selects, o).value) == Print(Records(b, selects, o).value)
      <==> Records(a, selects, o) == Records(b, selects, o)
  {
    RecordsPrintable(a, selects, o);
    RecordsPrintable(b, selects, o);
    ParsePrint(Records(a, selects, o).value);
    ParsePrint(Records(b, selects, o).value);
  }

  // ----- The entries determine the file -----

  /** Reading digits back. */
  function Number(s: string, radix: nat): int {
    if s == "" then 0 else Number(s[..|s| - 1], radix) * radix + (s[|s| - 1] as int - 48)
  }

  lemma DivideAndRest(n: nat, radix: nat)
    requires radix == 8 || radix == 10
    ensures n / radix * radix + n % radix == n
    ensures n < radix ==> n % radix == n
    ensures n >= radix ==> n / radix < n
  {
    if radix == 8 {
      assert n / 8 * 8 + n % 8 == n;
    } else {
      assert n / 10 * 10 + n % 10 == n;
    }
  }

  lemma NumberSnoc(s: string, i: nat, radix: nat)
    requires i < 10
    ensures Number(s + [Digit(i)], radix) == Number(s, radix) * radix + i
  {
    assert (s + [Digit(i)])[..|s|] == s;
  }

  lemma {:induction false} NumberOfDigits(n: nat, radix: nat)
    requires radix == 8 || radix == 10
    ensures Number(Digits(n, radix), radix) == n
  {
    DivideAndRest(n, radix);
    if n < radix {
      NumberSnoc("", n, radix);
      assert "" + [Digit(n)] == [Digit(n)];
    } else {
      NumberOfDigits(n / radix, radix);
      NumberSnoc(Digits(n / radix, radix), n % radix, radix);
    }
  }

  /** Only digits below the radix, and no zero in front. */
  lemma {:induction false} DigitsExactly(n: nat, radix: nat)
    requires radix == 8 || radix == 10
    ensures Number(Digits(n, radix), radix) == n
    ensures forall c | c in Digits(n, radix) :: '0' <= c && c as nat < 48 + radix
    ensures n > 0 ==> Digits(n, radix)[0] != '0'
  {
    NumberOfDigits(n, radix);
    DivideAndRest(n, radix);
    if n >= radix {
      DigitsExactly(n / radix, radix);
      QuotientPositive(n, radix);
      Seqs.AppendTail(Digits(n / radix, radix), [Digit(n % radix)]);
    }
  }

  lemma QuotientPositive(n: nat, radix: nat)
    requires (radix == 8 || radix == 10) && n >= radix
    ensures n / radix > 0
  {
  }

  /** Owners and sizes are shown in decimal. */
  lemma DecExactly(n: nat)
    ensures Number(Dec(n), 10) == n && (forall c | c in Dec(n) :: '0' <= c <= '9') && (n > 0 ==> Dec(n)[0] != '0')
  {
    DigitsExactly(n, 10);
  }

  /** Modes in octal, after "0o". */
  lemma OctExactly(n: nat)
    ensures Oct(n)[..2] == "0o" && Number(Oct(n)[2..], 8) == n
    ensures (forall c | c in Oct(n)[2..] :: '0' <= c <= '7') && (n > 0 ==> Oct(n)[2] != '0')
  {
    DigitsExactly(n, 8);
    assert Oct(n)[2..] == Digits(n, 8);
  }

  lemma DigitsInjective(m: nat, n: nat, radix: nat)
    requires (radix == 8 || radix == 10) && Digits(m, radix) == Digits(n, radix)
    ensures m == n
  {
    NumberOfDigits(m, radix);
    NumberOfDigits(n, radix);
  }

  lemma OwnersInjective(u: nat, g: nat, v: nat, h: nat)
    requires Dec(u) + ", " + Dec(g) == Dec(v) + ", " + Dec(h)
    ensures u == v && g == h
  {
    var text := Dec(u) + ", " + Dec(g);
    assert text == Dec(u) + [','] + (" " + Dec(g)) && text == Dec(v) + [','] + (" " + Dec(h));
    IndexAfter(Dec(u), ',', " " + Dec(g));
    IndexAfter(Dec(v), ',', " " + Dec(h));
    assert text[..|Dec(u)|] == Dec(u) && text[..|Dec(v)|] == Dec(v);
    assert text[|Dec(u)| + 2..] == Dec(g) && text[|Dec(v)| + 2..] == Dec(h);
    DigitsInjective(u, v, 10);
    DigitsInjective(g, h, 10);
  }

  // Required versions, line by line.

  function ReadVersions(line: string): Option<(string, seq<string>)> {
    match Cut(line, ": ")
    case None => None
    case Some((name, versions)) => Some((name, Split(versions, ", ")))
  }

  function ReadAll(lines: seq<string>): seq<Option<(string, seq<string>)>> {
    seq(|lines|, i requires 0 <= i < |lines| => ReadVersions(lines[i]))
  }

  predicate ReadableVersions(r: (string, seq<string>)) {
    !Has(r.0, ": ") && r.1 != [] && forall v | v in r.1 :: !Has(v, ", ")
  }

  /** Exactly which requirements are read back from their line. */
  lemma ReadVersionsIff(r: (string, seq<string>))
    ensures ReadVersions(r.0 + ": " + Join(", ", r.1)) == Some(r) <==> ReadableVersions(r)
  {
    CutIff(r.0, ": ", Join(", ", r.1));
    SplitJoinIff(", ", r.1);
    if !Has(r.0, ": ") {
      assert Cut(r.0 + ": " + Join(", ", r.1), ": ") == Some((r.0, Join(", ", r.1)));
    }
  }

  /** Exactly which lists of requirements are. */
  lemma ReadAllIff(versions: seq<(string, seq<string>)>)
    ensures (forall i | 0 <= i < |versions| :: ReadAll(VersionLines(versions))[i] == Some(versions[i]))
      <==> forall r | r in versions :: ReadableVersions(r)
  {
    forall i | 0 <= i < |versions|
      ensures ReadAll(VersionLines(versions))[i] == Some(versions[i]) <==> ReadableVersions(versions[i])
    {
      ReadVersionsIff(versions[i]);
    }
  }

  /** Lines of readable requirements determine them. */
  lemma VersionLinesInjective(a: seq<(string, seq<string>)>, b: seq<(string, seq<string>)>)
    requires (forall r | r in a :: ReadableVersions(r)) && (forall r | r in b :: ReadableVersions(r))
    requires VersionLines(a) == VersionLines(b)
    ensures a == b
  {
    assert |VersionLines(a)| == |a| && |VersionLines(b)| == |b|;
    forall i | 0 <= i < |a| ensures a[i] == b[i] {
      ReadVersionsIff(a[i]);
      ReadVersionsIff(b[i]);
      assert VersionLines(a)[i] == VersionLines(b)[i];
    }
  }

  lemma SortedReadable(versions: seq<(string, seq<string>)>)
    requires forall r | r in versions :: ReadableVersions(r)
    ensures forall r | r in Sorting.Sort(versions, ByKey) :: ReadableVersions(r)
  {
    SortItems(versions);
    forall r | r in Sorting.Sort(versions, ByKey) ensures ReadableVersions(r) {
      assert r in multiset(Sorting.Sort(versions, ByKey));
      assert r in versions;
    }
  }

  /** A version with ", " in it shows like two. */
  lemma VersionsCollide(name: string, v: string, w: string)
    ensures VersionLines([(name, [v + ", " + w])]) == VersionLines([(name, [v, w])])
  {
    assert [v, w][1..] == [w];
    assert Join(", ", [v, w]) == v + ", " + w;
  }

  /** A name with ": " in it shows like the start of a version. */
  lemma NameCollides(name: string, more: string, v: string)
    ensures VersionLines([(name + ": " + more, [v])]) == VersionLines([(name, [more + ": " + v])])
  {
    assert name + ": " + more + ": " + v == name + ": " + (more + ": " + v);
  }

  // Place by place.

  function KeyAt(place: nat): string
    requires 1 <= place <= 17
  {
    match place
    case 1 => "Path"
    case 2 => "Link"
    case 3 => "Type"
    case 4 => "Uid,Gid"
    case 5 => "Mode"
    case 6 => "Size"
    case 7 => "Arch"
    case 8 => "Needed"
    case 9 => "Rpath"
    case 10 => "Runpath"
    case 11 => "Exported"
    case 12 => "Imported"
    case 13 => "Version Requirement"
    case 14 => "Modules"
    case 15 => "OpenSSL"
    case 16 => "DWARF"
    case _ => REQUEST_DWARF
  }

  lemma PlaceOfKey(place: nat)
    requires 1 <= place <= 17
    ensures Place(KeyAt(place)) == place
  {
    if place <= 6 {
      BaseKeys(KeyAt(place));
    } else if place <= 10 {
      LinkageKeys(KeyAt(place));
    } else if place <= 13 {
      SymbolKeys(KeyAt(place));
    } else {
      NginxKeys(KeyAt(place));
    }
  }

  ghost predicate SameEntries(f: File, g: File, o: Opts) {
    Entries(f, o).Some? && Entries(f, o) == Entries(g, o)
  }

  lemma SameAt(f: File, g: File, o: Opts, place: nat)
    requires SameEntries(f, g, o) && 1 <= place <= 17
    ensures ValueAt(f, o, place) == ValueAt(g, o, place)
  {
    PlaceOfKey(place);
    var v, w := ValueAt(f, o, place), ValueAt(g, o, place);
    EntriesShown(f, o, Entry(KeyAt(place), v.GetOr(Scalar(""))));
    EntriesShown(g, o, Entry(KeyAt(place), v.GetOr(Scalar(""))));
    EntriesShown(f, o, Entry(KeyAt(place), w.GetOr(Scalar(""))));
    EntriesShown(g, o, Entry(KeyAt(place), w.GetOr(Scalar(""))));
  }

  /** The same as far as the options show it. A link's directory flag never is. */
  predicate AgreeOnBase(a: Base, b: Base, o: Opts) {
    && a.relpath == b.relpath && a.link == b.link
    && (a.link.None? ==> a.directory == b.directory)
    && (o.owners ==> a.uid == b.uid && a.gid == b.gid)
    && (o.mode ==> a.mode == b.mode)
    && (o.size ==> a.size == b.size)
  }

  predicate AgreeOnLinkage(a: Elf, b: Elf, o: Opts) {
    a.needed == b.needed && a.rpath == b.rpath && a.runpath == b.runpath && (o.arch ==> a.arch == b.arch)
  }

  predicate AgreeOnSymbols(a: Elf, b: Elf, o: Opts) {
    (o.exportedSymbols ==> a.exported == b.exported) && (o.importedSymbols ==> a.imported == b.imported)
  }

  predicate AllReadable(versions: seq<(string, seq<string>)>) {
    forall r | r in versions :: ReadableVersions(r)
  }

  /** A version "None" is not told from a missing one. */
  predicate AgreeOnNginx(a: Nginx, b: Nginx) {
    a.modules == b.modules && a.openssl.GetOr("None") == b.openssl.GetOr("None") && a.dwarf == b.dwarf
    && a.requestDwarf == b.requestDwarf
  }

  lemma SameBase(f: File, g: File, o: Opts)
    requires SameEntries(f, g, o)
    ensures AgreeOnBase(f.base, g.base, o)
  {
    var a, b := f.base, g.base;
    SameAt(f, g, o, 1);
    SameAt(f, g, o, 2);
    SameAt(f, g, o, 3);
    SameAt(f, g, o, 4);
    SameAt(f, g, o, 5);
    SameAt(f, g, o, 6);
    if o.owners {
      OwnersInjective(a.uid, a.gid, b.uid, b.gid);
    }
    if o.mode {
      assert Oct(a.mode)[2..] == Digits(a.mode, 8) && Oct(b.mode)[2..] == Digits(b.mode, 8);
      DigitsInjective(a.mode, b.mode, 8);
    }
    if o.size {
      DigitsInjective(a.size.value, b.size.value, 10);
    }
  }

  lemma SameArchAndLibraries(f: File, g: File, o: Opts)
    requires SameEntries(f, g, o)
    ensures ElfOf(f).needed == ElfOf(g).needed && (o.arch ==> ElfOf(f).arch == ElfOf(g).arch)
  {
    SameAt(f, g, o, 7);
    SameAt(f, g, o, 8);
  }

  lemma SamePaths(f: File, g: File, o: Opts)
    requires SameEntries(f, g, o)
    ensures ElfOf(f).rpath == ElfOf(g).rpath && ElfOf(f).runpath == ElfOf(g).runpath
  {
    SameAt(f, g, o, 9);
    SameAt(f, g, o, 10);
  }

  lemma SameSymbols(f: File, g: File, o: Opts)
    requires SameEntries(f, g, o)
    ensures AgreeOnSymbols(ElfOf(f), ElfOf(g), o)
  {
    SameAt(f, g, o, 11);
    SameAt(f, g, o, 12);
  }

  lemma SameVersions(f: File, g: File, o: Opts)
    requires SameEntries(f, g, o) && o.versionRequirement
    requires AllReadable(ElfOf(f).versions) && AllReadable(ElfOf(g).versions)
    ensures Sorting.Sort(ElfOf(f).versions, ByKey) == Sorting.Sort(ElfOf(g).versions, ByKey)
  {
    var a, b := ElfOf(f).versions, ElfOf(g).versions;
    SameAt(f, g, o, 13);
    SortedReadable(a);
    SortedReadable(b);
    if a != [] && b != [] {
      VersionLinesInjective(Sorting.Sort(a, ByKey), Sorting.Sort(b, ByKey));
    }
  }

  lemma SameNginx(f: File, g: File, o: Opts)
    requires SameEntries(f, g, o)
    ensures f.NginxFile? == g.NginxFile?
    ensures f.NginxFile? ==> f.ngx.Some? && g.ngx.Some? && AgreeOnNginx(f.ngx.value, g.ngx.value)
  {
    SameAt(f, g, o, 14);
    SameAt(f, g, o, 15);
    SameAt(f, g, o, 16);
    SameAt(f, g, o, 17);
    assert |BoolText(true)| == 4 && |BoolText(false)| == 5;
  }

  /**
    Under any options, files that show the same entries are the same in everything that is shown;
    required versions are if their lines can be read back.
  */
  lemma SameEntriesSameFile(f: File, g: File, o: Opts)
    requires SameEntries(f, g, o)
    ensures AgreeOnBase(f.base, g.base, o)
    ensures AgreeOnLinkage(ElfOf(f), ElfOf(g), o) && AgreeOnSymbols(ElfOf(f), ElfOf(g), o)
    ensures o.versionRequirement && AllReadable(ElfOf(f).versions) && AllReadable(ElfOf(g).versions) ==>
      Sorting.Sort(ElfOf(f).versions, ByKey) == Sorting.Sort(ElfOf(g).versions, ByKey)
      && multiset(ElfOf(f).versions) == multiset(ElfOf(g).versions)
    ensures f.NginxFile? == g.NginxFile?
    ensures f.NginxFile? ==> f.ngx.Some? && g.ngx.Some? && AgreeOnNginx(f.ngx.value, g.ngx.value)
  {
    SameBase(f, g, o);
    SameArchAndLibraries(f, g, o);
    SamePaths(f, g, o);
    SameSymbols(f, g, o);
    SameNginx(f, g, o);
    if o.versionRequirement && AllReadable(ElfOf(f).versions) && AllReadable(ElfOf(g).versions) {
      SameVersions(f, g, o);
      SortItems(ElfOf(f).versions);
      SortItems(ElfOf(g).versions);
    }
  }
}
