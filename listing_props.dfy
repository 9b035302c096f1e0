/**
 * What the listing parser promises, stated against an independent picture of
 * the `v4l2-ctl --list-devices` output: a list of devices, each a header line
 * and its device nodes.
 */
module ListingProperties {
  import opened Common
  import opened DeviceListing

  /** One device as the listing prints it: a header line, then its device nodes. */
  datatype Device = Device(header: string, paths: seq<string>)

  /**
   * What the parser relies on: the header is not itself a `/dev/` line, the
   * device has a node, and every node after the first starts with `/dev/`.
   */
  predicate Listed(d: Device)
  {
    && !(DevPrefix <= d.header)
    && |d.paths| >= 1
    && forall i :: 1 <= i < |d.paths| ==> DevPrefix <= d.paths[i]
  }

  predicate AllListed(ds: seq<Device>)
  {
    forall i :: 0 <= i < |ds| ==> Listed(ds[i])
  }

  /** The cleaned lines of a listing: each header followed by its nodes. */
  function RenderLines(ds: seq<Device>): seq<string>
  {
    if ds == [] then [] else [ds[0].header] + ds[0].paths + RenderLines(ds[1..])
  }

  /** The dictionary the source builds: one assignment per device, in listing order. */
  function PutAll(acc: Dict, ds: seq<Device>): Dict
    requires AllListed(ds)
    decreases |ds|
  {
    if ds == [] then acc
    else PutAll(Put(acc, HeaderName(ds[0].header), ds[0].paths[0]), ds[1..])
  }

  /**
   * Reference meaning of "later blocks overwrite earlier ones": the first
   * node of the LAST device whose header names `name`.
   */
  function LastPath(ds: seq<Device>, name: string): (r: Option<string>)
    requires AllListed(ds)
    ensures r.None? <==> forall i :: 0 <= i < |ds| ==> HeaderName(ds[i].header) != name
  {
    if ds == [] then None
    else match LastPath(ds[1..], name)
      case Some(p) => Some(p)
      case None => if HeaderName(ds[0].header) == name then Some(ds[0].paths[0]) else None
  }

  // ---------------------------------------------------------------------------
  // The cursor loop over rendered lines
  // ---------------------------------------------------------------------------

  lemma {:induction false} SkipRun(lines: seq<string>, i: nat, j: nat)
    requires i <= j <= |lines|
    requires forall k :: i <= k < j ==> DevPrefix <= lines[k]
    requires j < |lines| ==> !(DevPrefix <= lines[j])
    ensures SkipDevicePaths(lines, i) == j
    decreases j - i
  {
    if i < j {
      SkipRun(lines, i + 1, j);
    }
  }

  lemma {:induction false} SkipShift(pre: seq<string>, rest: seq<string>, i: nat)
    requires i <= |rest|
    ensures SkipDevicePaths(pre + rest, |pre| + i) == |pre| + SkipDevicePaths(rest, i)
    decreases |rest| - i
  {
    var lines := pre + rest;
    if i < |rest| {
      assert lines[|pre| + i] == rest[i];
      if DevPrefix <= rest[i] {
        SkipShift(pre, rest, i + 1);
      }
    }
  }

  lemma {:induction false} ParseShift(pre: seq<string>, rest: seq<string>, i: nat, acc: Dict)
    requires i <= |rest|
    ensures ParseFrom(pre + rest, |pre| + i, acc) == ParseFrom(rest, i, acc)
    decreases |rest| - i
  {
    if i + 1 < |rest| {
      var j := SkipDevicePaths(rest, i + 2);
      ShiftedEntry(pre, rest, i);
      ParseAt(pre + rest, |pre| + i, acc, |pre| + j, rest[i], rest[i + 1]);
      ParseAt(rest, i, acc, j, rest[i], rest[i + 1]);
      ParseShift(pre, rest, j, Put(acc, HeaderName(rest[i]), rest[i + 1]));
    } else {
      assert |pre + rest| == |pre| + |rest|;
    }
  }

  /** The entry at `i` of `rest` sits at `|pre| + i` of `pre + rest`, and its skip shifts alike. */
  lemma ShiftedEntry(pre: seq<string>, rest: seq<string>, i: nat)
    requires i + 1 < |rest|
    ensures (pre + rest)[|pre| + i] == rest[i] && (pre + rest)[|pre| + i + 1] == rest[i + 1]
    ensures SkipDevicePaths(pre + rest, |pre| + i + 2) == |pre| + SkipDevicePaths(rest, i + 2)
  {
    SkipShift(pre, rest, i + 2);
  }

  /** One pass of the outer loop: the header and the next line make an entry, then the `/dev/` lines after them are skipped. */
  lemma ParseAt(lines: seq<string>, k: nat, acc: Dict, j: nat, header: string, path: string)
    requires k + 1 < |lines| && j == SkipDevicePaths(lines, k + 2)
    requires lines[k] == header && lines[k + 1] == path
    ensures ParseFrom(lines, k, acc) == ParseFrom(lines, j, Put(acc, HeaderName(header), path))
  {
  }

  /**
   * Parsing the lines of well-formed devices never fails and performs exactly
   * the source's dictionary assignments: name before the first colon, first
   * node as the path; the further nodes are skipped.
   */
  lemma {:induction false} ParseRendered(ds: seq<Device>, acc: Dict)
    requires AllListed(ds)
    ensures ParseFrom(RenderLines(ds), 0, acc) == Ok(PutAll(acc, ds))
    decreases |ds|
  {
    if ds != [] {
      var d := ds[0];
      var block := [d.header] + d.paths;
      var rest := RenderLines(ds[1..]);
      var lines := block + rest;
      assert RenderLines(ds) == lines;
      assert lines[0] == d.header && lines[1] == d.paths[0];
      forall k | 2 <= k < |block| ensures DevPrefix <= lines[k] {
        assert lines[k] == d.paths[k - 1];
      }
      if rest != [] {
        assert rest[0] == ds[1].header;
        assert lines[|block|] == rest[0];
      }
      SkipRun(lines, 2, |block|);
      var acc' := Put(acc, HeaderName(d.header), d.paths[0]);
      ParseShift(block, rest, 0, acc');
      ParseRendered(ds[1..], acc');
    }
  }

  /** The dictionary of a listing: each name maps to the last device of that name. */
  lemma {:induction false} PutAllLookup(acc: Dict, ds: seq<Device>, name: string)
    requires AllListed(ds)
    ensures Get(PutAll(acc, ds), name) == match LastPath(ds, name)
      case Some(p) => Some(p)
      case None => Get(acc, name)
    decreases |ds|
  {
    if ds != [] {
      PutLookup(acc, HeaderName(ds[0].header), ds[0].paths[0]);
      PutAllLookup(Put(acc, HeaderName(ds[0].header), ds[0].paths[0]), ds[1..], name);
    }
  }

  lemma {:induction false} PutAllKeysUnique(acc: Dict, ds: seq<Device>)
    requires AllListed(ds) && KeysUnique(acc)
    ensures KeysUnique(PutAll(acc, ds))
    decreases |ds|
  {
    if ds != [] {
      PutLookup(acc, HeaderName(ds[0].header), ds[0].paths[0]);
      PutAllKeysUnique(Put(acc, HeaderName(ds[0].header), ds[0].paths[0]), ds[1..]);
    }
  }

  lemma GetSomeIffKey(d: Dict, name: string)
    ensures Get(d, name).Some? <==> name in Keys(d)
  {
    if name in Keys(d) {
      var i :| 0 <= i < |Keys(d)| && Keys(d)[i] == name;
      assert d[i].0 == name;
    }
  }

  /**
   * The listing's lines parse to a dictionary with one key per distinct
   * device name, mapping it to the first node of the last device of that name.
   */
  lemma ListingLinesParse(ds: seq<Device>)
    requires AllListed(ds)
    ensures ParseFrom(RenderLines(ds), 0, []).Ok?
    ensures KeysUnique(ParseFrom(RenderLines(ds), 0, []).value)
    ensures forall name :: Get(ParseFrom(RenderLines(ds), 0, []).value, name) == LastPath(ds, name)
    ensures forall name :: (name in Keys(ParseFrom(RenderLines(ds), 0, []).value)
      <==> exists i :: 0 <= i < |ds| && HeaderName(ds[i].header) == name)
  {
    ParseRendered(ds, []);
    PutAllKeysUnique([], ds);
    var d := PutAll([], ds);
    forall name ensures Get(d, name) == LastPath(ds, name) {
      PutAllLookup([], ds, name);
    }
    forall name ensures name in Keys(d) <==> exists i :: 0 <= i < |ds| && HeaderName(ds[i].header) == name {
      GetSomeIffKey(d, name);
    }
  }

  /**
   * Two devices whose headers share the text before the first colon (two
   * identical webcams on different USB ports, whose headers differ only in
   * the bus information after it) end up as ONE entry holding the node of the
   * later one.
   */
  lemma SameNameBeforeColonCollide(name: string, bus1: string, bus2: string, p1: string, p2: string)
    requires ':' !in name && !(DevPrefix <= name + [':'] + bus1) && !(DevPrefix <= name + [':'] + bus2)
    ensures ParseFrom(RenderLines([Device(name + [':'] + bus1, [p1]), Device(name + [':'] + bus2, [p2])]), 0, [])
      == Ok([(name, p2)])
  {
    var ds := [Device(name + [':'] + bus1, [p1]), Device(name + [':'] + bus2, [p2])];
    HeaderNameOfColonLine(name, bus1);
    HeaderNameOfColonLine(name, bus2);
    ParseRendered(ds, []);
    var d1: Dict := Put([], name, p1);
    assert d1 == [(name, p1)];
    var d2 := Put(d1, name, p2);
    assert Find(d1, name) == Some(0);
    assert d2 == [(name, p2)];
    assert ds[1..] == [ds[1]] && ds[1..][1..] == [];
    assert PutAll([], ds) == PutAll(d1, ds[1..]) == PutAll(d2, []);
  }

  /** A header on the last line has no path line: the loop raises IndexError. */
  lemma TrailingHeaderRaises(ds: seq<Device>, header: string)
    requires AllListed(ds) && !(DevPrefix <= header)
    ensures ParseFrom(RenderLines(ds) + [header], 0, []) == Err(IndexError)
  {
    var lines := RenderLines(ds) + [header];
    TrailingHeaderFrom(ds, header, []);
  }

  lemma {:induction false} TrailingHeaderFrom(ds: seq<Device>, header: string, acc: Dict)
    requires AllListed(ds) && !(DevPrefix <= header)
    ensures ParseFrom(RenderLines(ds) + [header], 0, acc) == Err(IndexError)
    decreases |ds|
  {
    if ds == [] {
      assert RenderLines(ds) + [header] == [header];
    } else {
      var d := ds[0];
      var block := [d.header] + d.paths;
      var rest := RenderLines(ds[1..]) + [header];
      var lines := block + rest;
      assert RenderLines(ds) + [header] == lines;
      assert lines[0] == d.header && lines[1] == d.paths[0];
      forall k | 2 <= k < |block| ensures DevPrefix <= lines[k] {
        assert lines[k] == d.paths[k - 1];
      }
      assert lines[|block|] == rest[0];
      if ds[1..] != [] {
        assert rest[0] == ds[1].header;
      }
      SkipRun(lines, 2, |block|);
      var acc' := Put(acc, HeaderName(d.header), d.paths[0]);
      ParseShift(block, rest, 0, acc');
      TrailingHeaderFrom(ds[1..], header, acc');
    }
  }

  // ---------------------------------------------------------------------------
  // From the text the command prints to the cleaned lines
  // ---------------------------------------------------------------------------

  /** A line as the command prints it: visible first and last character, no tab, no newline. */
  predicate PrintedLine(l: string)
  {
    l != [] && !IsSpace(l[0]) && !IsSpace(l[|l| - 1]) && '\t' !in l && '\n' !in l
  }

  predicate Printable(d: Device)
  {
    PrintedLine(d.header) && forall i :: 0 <= i < |d.paths| ==> PrintedLine(d.paths[i])
  }

  predicate AllPrintable(ds: seq<Device>)
  {
    forall i :: 0 <= i < |ds| ==> Printable(ds[i])
  }

  /** The node lines of a device: each node indented by one tab. */
  function Indented(paths: seq<string>): (lines: seq<string>)
    ensures |lines| == |paths| && forall i :: 0 <= i < |paths| ==> lines[i] == "\t" + paths[i]
  {
    seq(|paths|, i requires 0 <= i < |paths| => "\t" + paths[i])
  }

  /** The lines `v4l2-ctl --list-devices` prints: each device's header and indented nodes, devices separated by an empty line. */
  function RawLines(ds: seq<Device>): seq<string>
    decreases |ds|
  {
    if ds == [] then []
    else if |ds| == 1 then [ds[0].header] + Indented(ds[0].paths)
    else [ds[0].header] + Indented(ds[0].paths) + [""] + RawLines(ds[1..])
  }

  /** The command's whole output: every line ended by a newline, and an empty line after the last device. */
  function RawListing(ds: seq<Device>): string
  {
    if ds == [] then "" else Join(RawLines(ds), '\n') + "\n\n"
  }

  predicate NoNewlines(lines: seq<string>)
  {
    forall i :: 0 <= i < |lines| ==> '\n' !in lines[i]
  }

  /** The line is not empty and its last character is visible. */
  predicate EndsVisibly(l: string)
  {
    l != [] && !IsSpace(l[|l| - 1])
  }

  lemma AllPrintableTail(ds: seq<Device>)
    requires ds != [] && AllPrintable(ds)
    ensures Printable(ds[0]) && AllPrintable(ds[1..])
  {
    forall i | 0 <= i < |ds[1..]| ensures Printable(ds[1..][i]) {
      assert ds[1..][i] == ds[i + 1];
    }
  }

  /** One device's printed lines hold no newline and end in a visible character. */
  lemma BlockShape(d: Device)
    requires Printable(d)
    ensures var block := [d.header] + Indented(d.paths);
      NoNewlines(block) && EndsVisibly(block[|block| - 1])
  {
    var block := [d.header] + Indented(d.paths);
    forall i | 0 <= i < |block| ensures '\n' !in block[i] {
      if i > 0 {
        assert block[i] == "\t" + d.paths[i - 1];
      }
    }
    if |d.paths| > 0 {
      var last := d.paths[|d.paths| - 1];
      assert block[|block| - 1] == "\t" + last;
      assert ("\t" + last)[|"\t" + last| - 1] == last[|last| - 1];
    }
  }

  lemma NoNewlinesConcat(a: seq<string>, b: seq<string>)
    requires NoNewlines(a) && NoNewlines(b)
    ensures NoNewlines(a + b)
  {
    forall i | 0 <= i < |a + b| ensures '\n' !in (a + b)[i] {
      if i < |a| {
        assert (a + b)[i] == a[i];
      } else {
        assert (a + b)[i] == b[i - |a|];
      }
    }
  }

  /** The printed lines start with the first header, end in a visible character and hold no newline. */
  lemma {:induction false} RawLinesShape(ds: seq<Device>)
    requires ds != [] && AllPrintable(ds)
    ensures var lines := RawLines(ds);
      && |lines| >= 1 && lines[0] == ds[0].header
      && EndsVisibly(lines[|lines| - 1]) && NoNewlines(lines)
    decreases |ds|
  {
    var d := ds[0];
    var block := [d.header] + Indented(d.paths);
    AllPrintableTail(ds);
    BlockShape(d);
    if |ds| > 1 {
      var rest := RawLines(ds[1..]);
      RawLinesShape(ds[1..]);
      assert NoNewlines([""]);
      NoNewlinesConcat(block, [""]);
      NoNewlinesConcat(block + [""], rest);
      assert RawLines(ds) == block + [""] + rest;
    }
  }

  /** A join of pieces starts with the first piece and ends with the last. */
  lemma JoinEnds(lines: seq<string>, sep: char)
    requires |lines| >= 1 && lines[0] != [] && EndsVisibly(lines[|lines| - 1])
    ensures var body := Join(lines, sep);
      body != [] && body[0] == lines[0][0] && EndsVisibly(body)
      && body[|body| - 1] == lines[|lines| - 1][|lines[|lines| - 1]| - 1]
  {
    var last := lines[|lines| - 1];
    JoinHead(lines, sep);
    if |lines| > 1 {
      JoinConcat(lines[..|lines| - 1], [last], sep);
      assert lines[..|lines| - 1] + [last] == lines;
    }
  }

  /** Stripping the command's output leaves the printed lines joined by newlines. */
  lemma StripRaw(ds: seq<Device>)
    requires ds != [] && AllPrintable(ds)
    ensures Strip(RawListing(ds)) == Join(RawLines(ds), '\n')
  {
    var lines := RawLines(ds);
    var body := Join(lines, '\n');
    RawLinesShape(ds);
    assert Printable(ds[0]);
    JoinEnds(lines, '\n');
    var text := body + "\n\n";
    assert StripLeading(text) == text;
    StripTrailingSpace(body, "\n\n");
  }

  /** Tab removal turns the indented nodes back into the nodes. */
  lemma IndentedClean(paths: seq<string>)
    requires forall i :: 0 <= i < |paths| ==> '\t' !in paths[i]
    ensures RemoveTabsAll(Indented(paths)) == paths
  {
    forall i | 0 <= i < |paths| ensures RemoveTabs("\t" + paths[i]) == paths[i] {
      RemoveTabsConcat("\t", paths[i]);
      RemoveTabsChar('\t');
    }
  }

  /** One device's printed lines clean to its header and nodes. */
  lemma CleanBlock(d: Device)
    requires Printable(d)
    ensures DropEmpty(RemoveTabsAll([d.header] + Indented(d.paths))) == [d.header] + d.paths
  {
    RemoveTabsAllConcat([d.header], Indented(d.paths));
    IndentedClean(d.paths);
    assert RemoveTabsAll([d.header]) == [d.header];
    DropEmptyConcat([d.header], d.paths);
    DropEmptyLine(d.header);
  }

  /** The empty line between two devices leaves nothing behind. */
  lemma CleanSeparated(a: seq<string>, b: seq<string>)
    ensures DropEmpty(RemoveTabsAll(a + [""] + b)) == DropEmpty(RemoveTabsAll(a)) + DropEmpty(RemoveTabsAll(b))
  {
    RemoveTabsAllConcat(a + [""], b);
    RemoveTabsAllConcat(a, [""]);
    assert RemoveTabsAll([""]) == [""];
    DropEmptyConcat(RemoveTabsAll(a) + [""], RemoveTabsAll(b));
    DropEmptyConcat(RemoveTabsAll(a), [""]);
    DropEmptyLine("");
  }

  /** Tab removal and the empty-line filter turn the printed lines into the cleaned lines. */
  lemma {:induction false} CleanRawLines(ds: seq<Device>)
    requires AllPrintable(ds)
    ensures DropEmpty(RemoveTabsAll(RawLines(ds))) == RenderLines(ds)
    decreases |ds|
  {
    if ds != [] {
      var d := ds[0];
      var head := [d.header] + Indented(d.paths);
      CleanBlock(d);
      if |ds| == 1 {
        assert RawLines(ds) == head;
        assert RenderLines(ds) == [d.header] + d.paths + RenderLines([]);
      } else {
        AllPrintableTail(ds);
        CleanRawLines(ds[1..]);
        assert RawLines(ds) == head + [""] + RawLines(ds[1..]);
        CleanSeparated(head, RawLines(ds[1..]));
      }
    }
  }

  /**
   * The text the command prints for well-printed devices cleans to exactly
   * their header and node lines: the final newlines are stripped, the tabs
   * before the nodes removed and the empty lines between devices dropped.
   */
  lemma RawListingClean(ds: seq<Device>)
    requires AllPrintable(ds)
    ensures CleanLines(RawListing(ds)) == RenderLines(ds)
  {
    if ds == [] {
      CleanEmpty();
    } else {
      StripRaw(ds);
      RawLinesShape(ds);
      SplitJoin(RawLines(ds), '\n');
      CleanRawLines(ds);
    }
  }

  /**
   * So the command's output for well-formed, well-printed devices parses,
   * in either copy, to a dictionary with one key per distinct device name,
   * mapping it to the first node of the last device of that name.
   */
  lemma RawListingParse(edition: Edition, ds: seq<Device>)
    requires AllListed(ds) && AllPrintable(ds)
    ensures CameraNamesAndPaths(edition, Completed(RawListing(ds))) == ParseFrom(RenderLines(ds), 0, [])
    ensures var r := CameraNamesAndPaths(edition, Completed(RawListing(ds)));
      && r.Ok? && KeysUnique(r.value)
      && forall name :: Get(r.value, name) == LastPath(ds, name)
  {
    RawListingClean(ds);
    ListingLinesParse(ds);
  }
}
