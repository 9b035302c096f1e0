/**
 * `get_camera_name_and_paths`: the parser that turns the text printed by
 * `v4l2-ctl --list-devices` into an insertion-ordered dictionary from camera
 * name to the camera's first `/dev/...` path.
 *
 * The listing is a sequence of blocks, one per device: a header line naming
 * the device and ending in `:`, then one tab-indented line per device node,
 * then an empty line.
 */
module DeviceListing {
  import opened Common

  // ---------------------------------------------------------------------------
  // The Python string operations the parser uses
  // ---------------------------------------------------------------------------

  /** Python's `str.isspace` for one character (the characters `str.strip()` removes). */
  predicate IsSpace(c: char)
  {
    var n := c as int;
    (9 <= n <= 13) || (28 <= n <= 32) || n == 0x85 || n == 0xA0 || n == 0x1680
    || (0x2000 <= n <= 0x200A) || n == 0x2028 || n == 0x2029 || n == 0x202F
    || n == 0x205F || n == 0x3000
  }

  function StripLeading(s: string): (r: string)
    ensures |r| <= |s| && r == s[|s| - |r|..]
    ensures forall i :: 0 <= i < |s| - |r| ==> IsSpace(s[i])
    ensures r != [] ==> !IsSpace(r[0])
  {
    if s != [] && IsSpace(s[0]) then StripLeading(s[1..]) else s
  }

  function StripTrailing(s: string): (r: string)
    ensures |r| <= |s| && r == s[..|r|]
    ensures forall i :: |r| <= i < |s| ==> IsSpace(s[i])
    ensures r != [] ==> !IsSpace(r[|r| - 1])
  {
    if s != [] && IsSpace(s[|s| - 1]) then StripTrailing(s[..|s| - 1]) else s
  }

  /** `s.strip()`: the text between the leading and the trailing whitespace. */
  function Strip(s: string): (r: string)
    ensures r != [] ==> !IsSpace(r[0]) && !IsSpace(r[|r| - 1])
  {
    StripTrailing(StripLeading(s))
  }

  /** `sep.join(parts)`. */
  function Join(parts: seq<string>, sep: char): string
  {
    if parts == [] then ""
    else if |parts| == 1 then parts[0]
    else parts[0] + [sep] + Join(parts[1..], sep)
  }

  /** `s.split(sep)`: the pieces between separators; joining them restores `s`. */
  function Split(s: string, sep: char): (parts: seq<string>)
    ensures |parts| >= 1
    ensures forall i :: 0 <= i < |parts| ==> sep !in parts[i]
    ensures Join(parts, sep) == s
    decreases |s|
  {
    if s == [] then [""]
    else
      var rest := Split(s[1..], sep);
      if s[0] == sep then
        assert ([""] + rest)[1..] == rest;
        [""] + rest
      else
        assert ([[s[0]] + rest[0]] + rest[1..])[1..] == rest[1..];
        assert |rest| > 1 ==> Join(rest, sep) == rest[0] + [sep] + Join(rest[1..], sep);
        [[s[0]] + rest[0]] + rest[1..]
  }

  lemma JoinHead(parts: seq<string>, sep: char)
    requires |parts| >= 1
    ensures parts[0] <= Join(parts, sep)
    ensures |parts| == 1 ==> Join(parts, sep) == parts[0]
    ensures |parts| > 1 ==> |Join(parts, sep)| > |parts[0]| && Join(parts, sep)[|parts[0]|] == sep
  {
  }

  /** Splitting undoes joining when no piece holds the separator. */
  lemma {:induction false} SplitJoin(parts: seq<string>, sep: char)
    requires |parts| >= 1
    requires forall i :: 0 <= i < |parts| ==> sep !in parts[i]
    ensures Split(Join(parts, sep), sep) == parts
    decreases |parts|, |parts[0]|
  {
    var p := parts[0];
    if |parts| == 1 {
      if p != [] {
        SplitJoin([p[1..]], sep);
        assert Join([p[1..]], sep) == p[1..];
        assert Join(parts, sep)[1..] == p[1..];
      }
    } else if p == [] {
      var rest := parts[1..];
      SplitJoin(rest, sep);
      assert Join(parts, sep) == [sep] + Join(rest, sep);
      assert Join(parts, sep)[1..] == Join(rest, sep);
      assert [""] + rest == parts;
    } else {
      var parts' := [p[1..]] + parts[1..];
      assert parts'[1..] == parts[1..];
      SplitJoin(parts', sep);
      assert Join(parts, sep) == [p[0]] + Join(parts', sep);
      assert Join(parts, sep)[1..] == Join(parts', sep);
      assert [p[0]] + p[1..] == p;
      assert [[p[0]] + parts'[0]] + parts'[1..] == parts;
    }
  }

  /** Joining two runs of pieces is joining each and putting a separator between. */
  lemma {:induction false} JoinConcat(p: seq<string>, q: seq<string>, sep: char)
    requires |p| >= 1 && |q| >= 1
    ensures Join(p + q, sep) == Join(p, sep) + [sep] + Join(q, sep)
    decreases |p|
  {
    assert (p + q)[0] == p[0];
    if |p| == 1 {
      assert (p + q)[1..] == q;
    } else {
      assert (p + q)[1..] == p[1..] + q;
      JoinConcat(p[1..], q, sep);
    }
  }

  /** Whitespace after a visible character is exactly what `StripTrailing` removes. */
  lemma {:induction false} StripTrailingSpace(s: string, w: string)
    requires s != [] && !IsSpace(s[|s| - 1])
    requires forall i :: 0 <= i < |w| ==> IsSpace(w[i])
    ensures StripTrailing(s + w) == s
    decreases |w|
  {
    if w != [] {
      assert (s + w)[|s + w| - 1] == w[|w| - 1];
      assert (s + w)[..|s + w| - 1] == s + w[..|w| - 1];
      StripTrailingSpace(s, w[..|w| - 1]);
    } else {
      assert s + w == s;
    }
  }

  /** `line.replace('\t', '')`. */
  function RemoveTabs(line: string): (r: string)
    ensures '\t' !in r
    ensures |r| <= |line|
    ensures '\t' !in line ==> r == line
  {
    if line == [] then []
    else (if line[0] == '\t' then [] else [line[0]]) + RemoveTabs(line[1..])
  }

  /**
   * Tab removal works character by character: it commutes with
   * concatenation, and `RemoveTabsChar` says what it does to one character,
   * so the result is the input's non-tab characters in their order.
   */
  lemma {:induction false} RemoveTabsConcat(a: string, b: string)
    ensures RemoveTabs(a + b) == RemoveTabs(a) + RemoveTabs(b)
    decreases |a|
  {
    if a != [] {
      var head := if a[0] == '\t' then [] else [a[0]];
      assert (a + b)[0] == a[0] && (a + b)[1..] == a[1..] + b;
      assert RemoveTabs(a + b) == head + RemoveTabs(a[1..] + b);
      assert RemoveTabs(a) == head + RemoveTabs(a[1..]);
      RemoveTabsConcat(a[1..], b);
    } else {
      assert a + b == b;
    }
  }

  /** A tab disappears; any other character stays. */
  lemma RemoveTabsChar(c: char)
    ensures RemoveTabs([c]) == if c == '\t' then [] else [c]
  {
  }

  /** `[line.replace('\t', '') for line in lines]`. */
  function RemoveTabsAll(lines: seq<string>): (r: seq<string>)
    ensures |r| == |lines| && forall i :: 0 <= i < |lines| ==> r[i] == RemoveTabs(lines[i])
  {
    seq(|lines|, i requires 0 <= i < |lines| => RemoveTabs(lines[i]))
  }

  lemma RemoveTabsAllConcat(a: seq<string>, b: seq<string>)
    ensures RemoveTabsAll(a + b) == RemoveTabsAll(a) + RemoveTabsAll(b)
  {
    var l, la, lb := RemoveTabsAll(a + b), RemoveTabsAll(a), RemoveTabsAll(b);
    assert |l| == |la + lb|;
    forall i | 0 <= i < |l| ensures l[i] == (la + lb)[i] {
      if i < |a| {
        assert (a + b)[i] == a[i] && (la + lb)[i] == la[i];
      } else {
        assert (a + b)[i] == b[i - |a|] && (la + lb)[i] == lb[i - |a|];
      }
    }
  }

  /** `[line for line in lines if line != '']`. */
  function DropEmpty(lines: seq<string>): (r: seq<string>)
    ensures |r| <= |lines|
    ensures forall i :: 0 <= i < |r| ==> r[i] != "" && r[i] in lines
    ensures forall l :: l in lines && l != "" ==> l in r
    ensures (forall i :: 0 <= i < |lines| ==> lines[i] != "") ==> r == lines
  {
    if lines == [] then []
    else (if lines[0] == "" then [] else [lines[0]]) + DropEmpty(lines[1..])
  }

  /**
   * The filter works line by line: it commutes with concatenation, and
   * `DropEmptyLine` says what it does to one line, so the result is the
   * input's non-empty lines, in their order and with their repetitions.
   */
  lemma {:induction false} DropEmptyConcat(a: seq<string>, b: seq<string>)
    ensures DropEmpty(a + b) == DropEmpty(a) + DropEmpty(b)
    decreases |a|
  {
    if a != [] {
      var head := if a[0] == "" then [] else [a[0]];
      assert (a + b)[0] == a[0] && (a + b)[1..] == a[1..] + b;
      assert DropEmpty(a + b) == head + DropEmpty(a[1..] + b);
      assert DropEmpty(a) == head + DropEmpty(a[1..]);
      DropEmptyConcat(a[1..], b);
    } else {
      assert a + b == b;
    }
  }

  /** An empty line disappears; any other line stays. */
  lemma DropEmptyLine(l: string)
    ensures DropEmpty([l]) == if l == "" then [] else [l]
  {
  }

  /**
   * The lines the cursor loop walks over, backend camera_manager.py lines 26-28:
   * stripped output, split at newlines, tabs removed, empty lines dropped.
   * No line is empty and none holds a tab; what it gives for the text the
   * command prints is `ListingProperties.RawListingClean`.
   */
  function CleanLines(output: string): (lines: seq<string>)
    ensures forall i :: 0 <= i < |lines| ==> lines[i] != "" && '\t' !in lines[i]
  {
    DropEmpty(RemoveTabsAll(Split(Strip(output), '\n')))
  }

  /** `line.split(":")[0]`: the text before the first colon, or the whole line. */
  function HeaderName(line: string): (name: string)
    ensures name <= line && ':' !in name
    ensures |name| < |line| ==> line[|name|] == ':'
  {
    var parts := Split(line, ':');
    JoinHead(parts, ':');
    parts[0]
  }

  /** A header of the form `<name>:<rest>` with no colon in `<name>` is named `<name>`. */
  lemma HeaderNameOfColonLine(name: string, rest: string)
    requires ':' !in name
    ensures HeaderName(name + [':'] + rest) == name
  {
    var line := name + [':'] + rest;
    var n := HeaderName(line);
    assert line[..|name|] == name && line[|name|] == ':';
    assert n == line[..|n|];
    assert |n| <= |name| ==> forall i :: 0 <= i < |n| ==> n[i] == name[i];
  }

  // ---------------------------------------------------------------------------
  // Python's insertion-ordered dict, string to string
  // ---------------------------------------------------------------------------

  /** A dict as its items in insertion order. */
  type Dict = seq<(string, string)>

  function Keys(d: Dict): (ks: seq<string>)
    ensures |ks| == |d| && forall i :: 0 <= i < |d| ==> ks[i] == d[i].0
  {
    seq(|d|, i requires 0 <= i < |d| => d[i].0)
  }

  predicate KeysUnique(d: Dict)
  {
    forall i, j :: 0 <= i < j < |d| ==> d[i].0 != d[j].0
  }

  /** The position of `k`, the first one if several. */
  function Find(d: Dict, k: string): (r: Option<nat>)
    ensures r.Some? ==> r.value < |d| && d[r.value].0 == k
    ensures r.Some? ==> forall j :: 0 <= j < r.value ==> d[j].0 != k
    ensures r.None? ==> forall j :: 0 <= j < |d| ==> d[j].0 != k
  {
    if d == [] then None
    else if d[0].0 == k then Some(0)
    else match Find(d[1..], k)
      case None => None
      case Some(i) => Some(i + 1)
  }

  /** `d.get(k)`. */
  function Get(d: Dict, k: string): Option<string>
  {
    match Find(d, k)
    case None => None
    case Some(i) => Some(d[i].1)
  }

  /**
   * `d[k] = v`: a key already present keeps its place and takes the new value;
   * a new key goes to the end. What this means for lookups is `PutLookup`.
   */
  function Put(d: Dict, k: string, v: string): (r: Dict)
    ensures |r| == if Find(d, k).Some? then |d| else |d| + 1
  {
    match Find(d, k)
    case Some(i) => d[i := (k, v)]
    case None => d + [(k, v)]
  }

  /**
   * After `d[k] = v`, `k` maps to `v`, every other key keeps its value, the
   * key order is unchanged or extended by `k`, and no key is duplicated.
   */
  lemma PutLookup(d: Dict, k: string, v: string)
    ensures Get(Put(d, k, v), k) == Some(v)
    ensures forall k' :: k' != k ==> Get(Put(d, k, v), k') == Get(d, k')
    ensures Keys(Put(d, k, v)) == if Find(d, k).Some? then Keys(d) else Keys(d) + [k]
    ensures KeysUnique(d) ==> KeysUnique(Put(d, k, v))
  {
    var r := Put(d, k, v);
    match Find(d, k)
    case Some(i) =>
      assert r == d[i := (k, v)];
      forall k' ensures Find(r, k') == Find(d, k') {
        FindSameKeys(d, r, k');
      }
      assert Keys(r) == Keys(d);
    case None =>
      assert r == d + [(k, v)];
      forall k' ensures Find(r, k') == if k' == k then Some(|d|) else Find(d, k') {
        FindAppend(d, k, v, k');
      }
      assert Keys(r) == Keys(d) + [k];
  }

  lemma FindAppend(d: Dict, k: string, v: string, k': string)
    ensures Find(d + [(k, v)], k') == if k' == k && Find(d, k).None? then Some(|d|) else Find(d, k')
  {
    var r := d + [(k, v)];
    var a, b := Find(r, k'), Find(d, k');
    assert r[|d|] == (k, v);
    if b.Some? {
      assert r[b.value] == d[b.value];
    }
  }

  /** Find only looks at which positions hold the key. */
  lemma FindSameKeys(d: Dict, r: Dict, k: string)
    requires |r| == |d|
    requires forall j :: 0 <= j < |d| ==> (r[j].0 == k <==> d[j].0 == k)
    ensures Find(r, k) == Find(d, k)
  {
  }

  // ---------------------------------------------------------------------------
  // The cursor loop
  // ---------------------------------------------------------------------------

  const DevPrefix: string := "/dev/"

  /** Lines `i` up to `j` start with `/dev/`, and line `j`, if there is one, does not. */
  predicate SkippedTo(lines: seq<string>, i: nat, j: nat)
    requires i <= j <= |lines|
  {
    (forall k :: i <= k < j ==> DevPrefix <= lines[k]) && (j < |lines| ==> !(DevPrefix <= lines[j]))
  }

  /** The cursor after skipping the further lines that start with `/dev/`. */
  function SkipDevicePaths(lines: seq<string>, i: nat): (j: nat)
    requires i <= |lines|
    ensures i <= j <= |lines|
    decreases |lines| - i
  {
    if i < |lines| && DevPrefix <= lines[i] then SkipDevicePaths(lines, i + 1) else i
  }

  /** The inner loop passes exactly the run of `/dev/` lines from `i`. */
  lemma {:induction false} SkipsDevicePaths(lines: seq<string>, i: nat)
    requires i <= |lines|
    ensures SkippedTo(lines, i, SkipDevicePaths(lines, i))
    decreases |lines| - i
  {
    if i < |lines| && DevPrefix <= lines[i] {
      SkipsDevicePaths(lines, i + 1);
    }
  }

  /**
   * What the loop computes from cursor `i` with the dictionary `acc` built so
   * far: a header line and the line after it make an entry; a header on the
   * last line makes `lines[curr_line]` raise IndexError.
   */
  function ParseFrom(lines: seq<string>, i: nat, acc: Dict): Result<Dict>
    requires i <= |lines|
    decreases |lines| - i
  {
    if i == |lines| then Ok(acc)
    else if i + 1 == |lines| then Err(IndexError)
    else ParseFrom(lines, SkipDevicePaths(lines, i + 2), Put(acc, HeaderName(lines[i]), lines[i + 1]))
  }

  /** The while loop of `get_camera_name_and_paths` over the cleaned lines. */
  method ParseLines(lines: seq<string>) returns (r: Result<Dict>)
    ensures r == ParseFrom(lines, 0, [])
  {
    var cameras: Dict := [];
    var currLine := 0;
    while currLine < |lines|
      invariant currLine <= |lines|
      invariant ParseFrom(lines, currLine, cameras) == ParseFrom(lines, 0, [])
      decreases |lines| - currLine
    {
      ghost var header := currLine;
      var cameraName := HeaderName(lines[currLine]);
      currLine := currLine + 1;
      if currLine == |lines| {
        return Err(IndexError);
      }
      var cameraPath := lines[currLine];
      currLine := currLine + 1;
      cameras := Put(cameras, cameraName, cameraPath);
      while currLine < |lines| && DevPrefix <= lines[currLine]
        invariant header + 2 <= currLine <= |lines|
        invariant SkipDevicePaths(lines, currLine) == SkipDevicePaths(lines, header + 2)
        decreases |lines| - currLine
      {
        currLine := currLine + 1;
      }
    }
    return Ok(cameras);
  }

  /** The dictionary the loop returns has no repeated key. */
  lemma {:induction false} ParseKeysUnique(lines: seq<string>, i: nat, acc: Dict)
    requires i <= |lines| && KeysUnique(acc)
    ensures ParseFrom(lines, i, acc).Ok? ==> KeysUnique(ParseFrom(lines, i, acc).value)
    decreases |lines| - i
  {
    if i + 1 < |lines| {
      PutLookup(acc, HeaderName(lines[i]), lines[i + 1]);
      ParseKeysUnique(lines, SkipDevicePaths(lines, i + 2), Put(acc, HeaderName(lines[i]), lines[i + 1]));
    }
  }

  // ---------------------------------------------------------------------------
  // Running the listing command
  // ---------------------------------------------------------------------------

  /** What `subprocess.check_output("v4l2-ctl --list-devices", ...)` did. */
  datatype CommandOutput = Completed(stdout: string) | CommandFailed

  /**
   * The text handed to the parser: the backend catches a failing command and
   * parses `""`; the legacy copy lets the failure propagate.
   */
  function ListingText(edition: Edition, out: CommandOutput): (r: Result<string>)
    ensures out.Completed? ==> r == Ok(out.stdout)
    ensures out.CommandFailed? ==> r == if edition == Backend then Ok("") else Err(ListingCommandError)
  {
    match out
    case Completed(s) => Ok(s)
    case CommandFailed => if edition == Backend then Ok("") else Err(ListingCommandError)
  }

  /** The dictionary `get_camera_name_and_paths` returns, or the exception it raises. */
  function CameraNamesAndPaths(edition: Edition, out: CommandOutput): Result<Dict>
  {
    match ListingText(edition, out)
    case Err(e) => Err(e)
    case Ok(text) => ParseFrom(CleanLines(text), 0, [])
  }

  method GetCameraNamesAndPaths(edition: Edition, out: CommandOutput) returns (r: Result<Dict>)
    ensures r == CameraNamesAndPaths(edition, out)
  {
    var text := ListingText(edition, out);
    if text.Err? {
      return Err(text.error);
    }
    var lines := CleanLines(text.value);
    r := ParseLines(lines);
  }

  lemma CleanEmpty()
    ensures CleanLines("") == []
  {
    assert Strip("") == "";
    assert Split("", '\n') == [""];
    assert RemoveTabsAll([""]) == [""];
    assert DropEmpty([""]) == [];
  }

  /**
   * With no listing (the command failed) the backend returns an empty
   * dictionary; the legacy copy lets the command's failure propagate.
   */
  lemma CommandFailure()
    ensures CameraNamesAndPaths(Backend, CommandFailed) == Ok([])
    ensures CameraNamesAndPaths(Legacy, CommandFailed) == Err(ListingCommandError)
  {
    assert ListingText(Backend, CommandFailed) == Ok("");
    CleanEmpty();
    assert ParseFrom([], 0, []) == Ok([]);
  }

  lemma StripAllSpace(s: string)
    requires forall i :: 0 <= i < |s| ==> IsSpace(s[i])
    ensures Strip(s) == ""
  {
    assert StripLeading(s) == "";
  }

  /** Output with no visible character produces no entry. */
  lemma BlankListing(edition: Edition, output: string)
    requires forall i :: 0 <= i < |output| ==> IsSpace(output[i])
    ensures CameraNamesAndPaths(edition, Completed(output)) == Ok([])
  {
    StripAllSpace(output);
    CleanEmpty();
  }

  /** Whatever the parser returns has each name once. */
  lemma NamesAndPathsKeysUnique(edition: Edition, out: CommandOutput)
    ensures CameraNamesAndPaths(edition, out).Ok? ==> KeysUnique(CameraNamesAndPaths(edition, out).value)
  {
    if ListingText(edition, out).Ok? {
      ParseKeysUnique(CleanLines(ListingText(edition, out).value), 0, []);
    }
  }

  /**
   * Given the same output, both copies of the parser build the same dictionary.
   * The model holds this by construction, since both editions share one
   * parser. The lemma records that the two copies' parsing lines agree; it
   * proves nothing further about the parser.
   */
  lemma SameParserBothEditions(output: string)
    ensures CameraNamesAndPaths(Backend, Completed(output)) == CameraNamesAndPaths(Legacy, Completed(output))
  {
  }
}
