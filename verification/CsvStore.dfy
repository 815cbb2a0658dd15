/** The key-value store kept in a text file: one "key,value" line per entry, '#' lines ignored. Strings are
    sequences of characters, and the C functions underneath cut them at a NUL character. */
module CsvStore {
  import opened Wrappers

  type Entry = (string, string)

  const NUL: char := '\0'

  /** The size of the line buffer; it holds one character less, before the final NUL. */
  const BUFFER: nat := 1024

  const HEADER: string := "# key,value\n"

  // ----- text

  /** The part of a string before the first occurrence of a character. */
  function Before(s: string, c: char): (r: string)
    ensures c !in r && r <= s
    ensures |r| < |s| ==> s[|r|] == c
  {
    if s == [] || s[0] == c then [] else [s[0]] + Before(s[1..], c)
  }

  lemma {:induction false} BeforeIs(s: string, c: char, r: string)
    requires c !in r && r <= s && (|r| == |s| || s[|r|] == c)
    ensures Before(s, c) == r
  {
    if r != [] {
      assert s[0] == r[0] && r[0] in r;
      BeforeIs(s[1..], c, r[1..]);
    }
  }

  lemma {:induction false} BeforeIsLonger(s: string, c: char, n: nat)
    requires n <= |s| && c !in s[..n]
    ensures |Before(s, c)| >= n
  {
    if n > 0 {
      assert s[..n][0] == s[0] && s[1..][..n - 1] == s[..n][1..];
      BeforeIsLonger(s[1..], c, n - 1);
    }
  }

  /** A string without the carriage returns and line feeds at its end. */
  function Stripped(s: string): (r: string)
    ensures r <= s
    ensures r != [] ==> r[|r| - 1] != '\r' && r[|r| - 1] != '\n'
    ensures forall i :: |r| <= i < |s| ==> s[i] == '\r' || s[i] == '\n'
  {
    if s != [] && (s[|s| - 1] == '\r' || s[|s| - 1] == '\n') then Stripped(s[..|s| - 1]) else s
  }

  /** How many characters one read takes from a non-empty text: up to and including a line feed, as many
      as the buffer holds, or all. */
  function ChunkLength(text: string): (n: nat)
    requires text != []
    ensures 1 <= n <= |text| && n < BUFFER
    ensures forall i :: 0 <= i < n - 1 ==> text[i] != '\n'
    ensures n == BUFFER - 1 || n == |text| || text[n - 1] == '\n'
  {
    var b := Before(text, '\n');
    assert forall i :: 0 <= i < |b| ==> b[i] == text[i] && b[i] in b;
    var line := if |b| < |text| then |b| + 1 else |text|;
    if line < BUFFER then line else BUFFER - 1
  }

  lemma ChunkIs(text: string, n: nat)
    requires 1 <= n <= |text| && n < BUFFER && '\n' !in text[..n - 1]
    requires n == BUFFER - 1 || n == |text| || text[n - 1] == '\n'
    ensures ChunkLength(text) == n
  {
    if text[n - 1] == '\n' {
      BeforeIs(text, '\n', text[..n - 1]);
    } else {
      assert text[..n] == text[..n - 1] + [text[n - 1]];
      BeforeIsLonger(text, '\n', n);
    }
  }

  // ----- reading

  /** What one line of the file stands for. Thrown: the line is empty once a NUL or a carriage return is
      cut off, and reading its first character throws. */
  datatype Line = Comment | Malformed | Thrown | Pair(key: string, val: string)

  function WithoutLastCr(s: string): string {
    if s != [] && s[|s| - 1] == '\r' then s[..|s| - 1] else s
  }

  function ParseLine(chunk: string): Line {
    var str := WithoutLastCr(Before(chunk, NUL));
    if str == [] then Thrown
    else if str[0] == '#' then Comment
    else
      var key := Before(str, ',');
      if |key| + 1 >= |str| then Malformed
      else Pair(key, Stripped(Before(str[|key| + 1..], ',')))
  }

  /** The map read so far, and whether the whole file was read, reading stopped at a malformed line, or
      an exception left the constructor. */
  datatype Outcome = Parsed(m: map<string, string>) | Stopped(m: map<string, string>) | Failed

  function Parse(text: string, m: map<string, string>): Outcome
    decreases |text|
  {
    if text == [] then Parsed(m)
    else
      var n := ChunkLength(text);
      match ParseLine(text[..n])
      case Comment => Parse(text[n..], m)
      case Malformed => Stopped(m)
      case Thrown => Failed
      case Pair(key, val) => Parse(text[n..], m[key := val])
  }

  /** Opening the store on a file with this text gives this map. */
  predicate Opens(text: string, m: map<string, string>) {
    var outcome := Parse(text, map[]);
    !outcome.Failed? && outcome.m == m
  }

  // ----- where reading stops

  /** A full line of the file, short enough for the buffer. */
  predicate OneLine(s: string) {
    1 <= |s| < BUFFER && s[|s| - 1] == '\n' && '\n' !in s[..|s| - 1]
  }

  lemma LineTaken(line: string, rest: string)
    requires OneLine(line)
    ensures ChunkLength(line + rest) == |line| && (line + rest)[..|line|] == line && (line + rest)[|line|..] == rest
  {
    assert (line + rest)[..|line| - 1] == line[..|line| - 1];
    ChunkIs(line + rest, |line|);
  }

  function Joined(lines: seq<string>): string {
    if lines == [] then [] else lines[0] + Joined(lines[1..])
  }

  /** The entries of some lines, later ones replacing earlier ones of the same key. */
  function Entries(lines: seq<string>, m: map<string, string>): map<string, string> {
    if lines == [] then m
    else
      match ParseLine(lines[0])
      case Pair(key, val) => Entries(lines[1..], m[key := val])
      case _ => Entries(lines[1..], m)
  }

  predicate Readable(line: string) {
    OneLine(line) && (ParseLine(line).Comment? || ParseLine(line).Pair?)
  }

  /** Reading ends at the first malformed line: what the lines before it gave stays, and nothing after it
      is read, whatever it is. */
  lemma {:induction false} ReadUpToMalformed(lines: seq<string>, bad: string, rest: string, m: map<string, string>)
    requires (forall i :: 0 <= i < |lines| ==> Readable(lines[i])) && OneLine(bad) && ParseLine(bad) == Malformed
    ensures Parse(Joined(lines) + bad + rest, m) == Stopped(Entries(lines, m))
    decreases |lines|
  {
    hide ParseLine, ChunkLength;
    if lines == [] {
      assert Joined(lines) + bad + rest == bad + rest;
      LineTaken(bad, rest);
    } else {
      var tail := Joined(lines[1..]) + bad + rest;
      assert Joined(lines) + bad + rest == lines[0] + tail;
      assert Readable(lines[0]);
      LineTaken(lines[0], tail);
      var line := ParseLine(lines[0]);
      ReadUpToMalformed(lines[1..], bad, rest, if line.Pair? then m[line.key := line.val] else m);
    }
  }

  /** A full line that is no comment is malformed exactly when it has no comma. */
  lemma MalformedIff(line: string)
    requires OneLine(line) && NUL !in line && line[0] != '#'
    ensures ParseLine(line) == Malformed <==> ',' !in line
    ensures ParseLine(line).Malformed? || ParseLine(line).Pair?
  {
    BeforeIs(line, NUL, line);
    var key := Before(line, ',');
    if ',' in line {
      var i :| 0 <= i < |line| && line[i] == ',';
      assert i < |line| - 1;
      assert forall j :: 0 <= j < |key| ==> key[j] in key && key[j] == line[j];
    }
  }

  // ----- writing

  /** The line the writer produces for an entry: cut at the first NUL of key and value, and at the size of
      the buffer. */
  function Written(key: string, val: string): (r: string)
    ensures 1 <= |r| < BUFFER
  {
    var line := Before(key, NUL) + "," + Before(val, NUL) + "\n";
    if |line| < BUFFER then line else line[..BUFFER - 1]
  }

  function Body(order: seq<Entry>): string {
    if order == [] then [] else Written(order[0].0, order[0].1) + Body(order[1..])
  }

  function FileText(order: seq<Entry>): string {
    HEADER + Body(order)
  }

  /** An iteration order of a map: each of its entries once. */
  ghost predicate Enumerates(order: seq<Entry>, m: map<string, string>) {
    && (forall i :: 0 <= i < |order| ==> order[i].0 in m && m[order[i].0] == order[i].1)
    && (forall i, j :: 0 <= i < j < |order| ==> order[i].0 != order[j].0)
    && (forall key :: key in m ==> exists i :: 0 <= i < |order| && order[i].0 == key)
  }

  /** Entries of the map, each at most once. */
  ghost predicate Lists(order: seq<Entry>, m: map<string, string>) {
    && (forall i :: 0 <= i < |order| ==> order[i].0 in m && m[order[i].0] == order[i].1)
    && forall i, j :: 0 <= i < j < |order| ==> order[i].0 != order[j].0
  }

  /** What the disk does with a save: whether the file opens, how many characters of the k-th write it takes
      at most, and how many of all it keeps when the file is closed, if not all of them. */
  datatype Disk = Disk(writable: bool, takes: nat -> nat, keeps: Option<nat>) {
    /** The program's own notion of success for n entries: the file opens and no write delivers nothing. */
    predicate Accepts(n: nat) {
      writable && AllTake(takes, n + 1, 1)
    }

    /** A disk that takes and keeps everything. */
    predicate Lossless(n: nat) {
      writable && keeps.None? && AllTake(takes, n + 1, BUFFER)
    }
  }

  /** Each of the first k writes takes at least least characters. */
  predicate AllTake(takes: nat -> nat, k: nat, least: nat) {
    forall j :: 0 <= j < k ==> takes(j) >= least
  }

  lemma OneMoreTakes(takes: nat -> nat, k: nat, least: nat)
    ensures AllTake(takes, 0, least)
    ensures AllTake(takes, k + 1, least) <==> AllTake(takes, k, least) && takes(k) >= least
  {
  }

  /** The first n characters, or all if there are fewer. */
  function Part(s: string, n: nat): (r: string)
    ensures r <= s && (n >= |s| ==> r == s) && (r == [] <==> n == 0 || s == [])
  {
    if n < |s| then s[..n] else s
  }

  lemma NoneTaken(takes: nat -> nat, k: nat, n: nat)
    requires k < n && takes(k) == 0
    ensures !AllTake(takes, n, 1) && !AllTake(takes, n, BUFFER)
  {
  }

  /** What arrives when every write delivers at least a part of its text: the program notices only a write
      that delivers nothing at all. */
  ghost predicate Delivered(text: string, order: seq<Entry>)
    decreases |order|
  {
    if order == [] then text != [] && text <= HEADER
    else
      var e := order[|order| - 1];
      exists sent: string, n: nat :: 1 <= n <= |Written(e.0, e.1)| && text == sent + Written(e.0, e.1)[..n]
        && Delivered(sent, order[..|order| - 1])
  }

  /** The file after a failed or interrupted save: what arrived, up to where the closing lost the rest. */
  ghost predicate PartlyWritten(file: Option<string>, m: map<string, string>) {
    file.Some? && exists order, text :: Lists(order, m) && Delivered(text, order) && file.value <= text
  }

  /** The file after a save that the program reports as successful. */
  ghost predicate Reported(file: Option<string>, m: map<string, string>) {
    file.Some? && exists order, text :: Enumerates(order, m) && Delivered(text, order) && file.value <= text
  }

  /** The file after a save that lost nothing. */
  ghost predicate Saved(file: Option<string>, m: map<string, string>) {
    file.Some? && exists order :: Enumerates(order, m) && file.value == FileText(order)
  }

  // ----- which entries survive

  /** The entries the format can hold. The line needs room for both separators; without room for the line
      feed it is still read back when it fills the buffer exactly and the value is not empty. */
  predicate Encodable(key: string, val: string) {
    && ',' !in key && '\n' !in key && NUL !in key
    && ',' !in val && '\n' !in val && NUL !in val
    && (key == [] || key[0] != '#')
    && (val == [] || val[|val| - 1] != '\r')
    && (|key| + |val| + 2 < BUFFER || (|key| + |val| + 2 == BUFFER && val != []))
  }

  ghost predicate AllEncodable(m: map<string, string>) {
    forall key :: key in m ==> Encodable(key, m[key])
  }

  lemma WrittenIs(key: string, val: string)
    requires Encodable(key, val)
    ensures Written(key, val) == key + "," + val + (if |key| + |val| + 2 < BUFFER then "\n" else "")
  {
    BeforeIs(key, NUL, key);
    BeforeIs(val, NUL, val);
    var line := key + "," + val + "\n";
    assert |key| + |val| + 2 == BUFFER ==> line[..BUFFER - 1] == key + "," + val;
  }

  lemma StripsLineEnd(val: string, end: string)
    requires '\n' !in val && (val == [] || val[|val| - 1] != '\r') && (end == "\n" || end == "")
    ensures Stripped(val + end) == val
  {
    assert val != [] ==> val[|val| - 1] in val;
    assert Stripped(val) == val;
    if end == "\n" {
      assert (val + end)[..|val|] == val && (val + end)[|val|] == '\n';
    } else {
      assert val + end == val;
    }
  }

  /** Reading a written line gives the entry back. */
  lemma LineReadBack(key: string, val: string)
    requires Encodable(key, val)
    ensures ParseLine(Written(key, val)) == Pair(key, val)
  {
    WrittenIs(key, val);
    var end := if |key| + |val| + 2 < BUFFER then "\n" else "";
    SplitsAtComma(key, val, end);
  }

  lemma SplitsAtComma(key: string, val: string, end: string)
    requires ',' !in key && NUL !in key && (key == [] || key[0] != '#')
    requires ',' !in val && NUL !in val && '\n' !in val && (val == [] || val[|val| - 1] != '\r')
    requires end == "\n" || (end == "" && val != [])
    ensures ParseLine(key + "," + val + end) == Pair(key, val)
  {
    var rest := val + end;
    var line := key + "," + val + end;
    assert line == key + "," + rest;
    assert rest[|rest| - 1] != '\r';
    BeforeIs(rest, ',', rest);
    StripsLineEnd(val, end);
    ParsesAs(line, key, rest, val);
  }

  lemma ParsesAs(line: string, key: string, rest: string, val: string)
    requires line == key + "," + rest && NUL !in key && NUL !in rest && ',' !in key
    requires rest != [] && rest[|rest| - 1] != '\r' && (key == [] || key[0] != '#')
    requires Stripped(Before(rest, ',')) == val
    ensures ParseLine(line) == Pair(key, val)
  {
    hide Stripped, Before;
    BeforeIs(line, NUL, line);
    BeforeIs(line, ',', key);
    hide ParseLine;
    assert line[|line| - 1] == rest[|rest| - 1];
    assert line[|key| + 1..] == rest;
    SplitPair(line, key, rest);
  }

  /** What a line with a key and a non-empty remainder stands for. */
  lemma SplitPair(line: string, key: string, rest: string)
    requires line != [] && Before(line, NUL) == line && line[|line| - 1] != '\r' && line[0] != '#'
    requires Before(line, ',') == key && rest != [] && |line| == |key| + 1 + |rest| && line[|key| + 1..] == rest
    ensures ParseLine(line) == Pair(key, Stripped(Before(rest, ',')))
  {
    hide Stripped, Before;
  }

  /** One read takes exactly one written line. */
  lemma ChunkIsLine(key: string, val: string, rest: string)
    requires Encodable(key, val)
    ensures ChunkLength(Written(key, val) + rest) == |Written(key, val)|
  {
    WrittenIs(key, val);
    var line := Written(key, val);
    var before := key + "," + val;
    var n := |line|;
    assert (line + rest)[..n - 1] == before[..n - 1];
    assert '\n' !in before;
    assert n == |before| || (line + rest)[n - 1] == '\n';
    ChunkIs(line + rest, n);
  }

  lemma ParsedPair(chunk: string) returns (str: string, key: string)
    requires ParseLine(chunk).Pair?
    ensures str <= chunk && NUL !in str && str != [] && str[0] != '#' && key == Before(str, ',') && |key| + 1 < |str|
    ensures ParseLine(chunk) == Pair(key, Stripped(Before(str[|key| + 1..], ',')))
  {
    str := WithoutLastCr(Before(chunk, NUL));
    key := Before(str, ',');
    hide Before, Stripped;
    assert NUL !in Before(chunk, NUL);
  }

  /** Whatever file is read, an entry that comes out of a line can be written again. */
  lemma PairIsEncodable(chunk: string)
    requires |chunk| < BUFFER && forall i :: 0 <= i < |chunk| - 1 ==> chunk[i] != '\n'
    requires ParseLine(chunk).Pair?
    ensures Encodable(ParseLine(chunk).key, ParseLine(chunk).val)
  {
    hide ParseLine, Encodable, WithoutLastCr, Before, Stripped;
    var str, key := ParsedPair(chunk);
    KeyIsEncodable(chunk, str, key);
    ValueIsEncodable(chunk, str, |key| + 1);
    EncodableParts(key, Stripped(Before(str[|key| + 1..], ',')));
  }

  predicate Clean(s: string) {
    ',' !in s && '\n' !in s && NUL !in s
  }

  lemma EncodableParts(key: string, val: string)
    requires Clean(key) && (key == [] || key[0] != '#')
    requires Clean(val) && (val == [] || val[|val| - 1] != '\r')
    requires |key| + 1 + |val| < BUFFER && (val == [] ==> |key| + 2 < BUFFER)
    ensures Encodable(key, val)
  {
  }

  lemma KeyIsEncodable(chunk: string, str: string, key: string)
    requires forall i :: 0 <= i < |chunk| - 1 ==> chunk[i] != '\n'
    requires str <= chunk && NUL !in str && str != [] && str[0] != '#'
    requires key == Before(str, ',') && |key| < |str|
    ensures Clean(key) && (key == [] || key[0] != '#')
  {
    hide Before;
    forall i | 0 <= i < |key| ensures key[i] != '\n' && key[i] != NUL {
      assert key[i] == str[i] == chunk[i] && str[i] in str;
    }
  }

  lemma ValueIsEncodable(chunk: string, str: string, from: nat)
    requires forall i :: 0 <= i < |chunk| - 1 ==> chunk[i] != '\n'
    requires str <= chunk && NUL !in str && from <= |str|
    ensures var val := Stripped(Before(str[from..], ','));
            Clean(val) && from + |val| <= |str| && (val == [] || val[|val| - 1] != '\r')
  {
    hide Before, Stripped;
    var raw := Before(str[from..], ',');
    var val := Stripped(raw);
    forall i | 0 <= i < |val| ensures val[i] != '\n' && val[i] != NUL && val[i] != ',' {
      assert val[i] == raw[i] && raw[i] in raw;
      assert raw[i] == str[from + i] == chunk[from + i] && str[from + i] in str;
    }
  }

  /** The map after assigning the entries in order. */
  function Assigned(m: map<string, string>, order: seq<Entry>): map<string, string>
    decreases |order|
  {
    if order == [] then m else Assigned(m[order[0].0 := order[0].1], order[1..])
  }

  lemma {:induction false} BodyReadBack(order: seq<Entry>, m: map<string, string>)
    requires forall i :: 0 <= i < |order| ==> Encodable(order[i].0, order[i].1)
    ensures Parse(Body(order), m) == Parsed(Assigned(m, order))
    decreases |order|
  {
    if order != [] {
      var (key, val) := order[0];
      var rest := Body(order[1..]);
      var line := Written(key, val);
      ChunkIsLine(key, val, rest);
      LineReadBack(key, val);
      hide Encodable, Written, ParseLine, ChunkLength;
      assert (line + rest)[..|line|] == line && (line + rest)[|line|..] == rest;
      BodyReadBack(order[1..], m[key := val]);
    }
  }

  lemma HeaderSkipped(rest: string, m: map<string, string>)
    ensures Parse(HEADER + rest, m) == Parse(rest, m)
  {
    var text := HEADER + rest;
    var n := |HEADER|;
    assert text[..n - 1] == "# key,value" && text[n - 1] == '\n';
    ChunkIs(text, n);
    assert text[..n] == HEADER && text[n..] == rest;
    HeaderIsComment();
  }

  lemma HeaderIsComment()
    ensures ParseLine(HEADER) == Comment
  {
    BeforeIs(HEADER, NUL, HEADER);
  }

  lemma {:induction false} AssignedKeys(m: map<string, string>, order: seq<Entry>, key: string)
    requires forall i, j :: 0 <= i < j < |order| ==> order[i].0 != order[j].0
    ensures key in Assigned(m, order) <==> key in m || exists i :: 0 <= i < |order| && order[i].0 == key
    ensures forall i :: 0 <= i < |order| && order[i].0 == key ==>
              key in Assigned(m, order) && Assigned(m, order)[key] == order[i].1
    ensures key in m && (forall i :: 0 <= i < |order| ==> order[i].0 != key) ==>
              key in Assigned(m, order) && Assigned(m, order)[key] == m[key]
    decreases |order|
  {
    if order != [] {
      var tail := order[1..];
      AssignedKeys(m[order[0].0 := order[0].1], tail, key);
      assert forall i :: 0 <= i < |tail| ==> tail[i] == order[i + 1];
      assert forall i :: 0 < i < |order| ==> order[i] == tail[i - 1];
    }
  }

  /** Assigning an enumeration of a map to the empty map gives the map. */
  lemma AssignedEnumeration(order: seq<Entry>, m: map<string, string>)
    requires Enumerates(order, m)
    ensures Assigned(map[], order) == m
  {
    var r := Assigned(map[], order);
    forall key ensures key in r <==> key in m {
      AssignedKeys(map[], order, key);
    }
    forall key | key in m ensures r[key] == m[key] {
      AssignedKeys(map[], order, key);
      var i :| 0 <= i < |order| && order[i].0 == key;
    }
  }

  lemma {:induction false} ParsedEncodable(text: string, m: map<string, string>)
    requires AllEncodable(m)
    ensures !Parse(text, m).Failed? ==> AllEncodable(Parse(text, m).m)
    decreases |text|
  {
    if text != [] {
      var n := ChunkLength(text);
      var chunk := text[..n];
      var line := ParseLine(chunk);
      if line.Pair? {
        PairIsEncodable(chunk);
        ParsedEncodable(text[n..], m[line.key := line.val]);
      } else if line.Comment? {
        ParsedEncodable(text[n..], m);
      }
    }
  }

  /** Whatever a file contains, every entry that opening it yields can be written. */
  lemma OpenedIsEncodable(text: string, m: map<string, string>)
    requires Opens(text, m)
    ensures AllEncodable(m)
  {
    ParsedEncodable(text, map[]);
  }

  /** The round trip: in any iteration order, a written map is read back exactly when all its entries are
      encodable, and reading then reaches the end of the file. */
  lemma RoundTripIff(order: seq<Entry>, m: map<string, string>)
    requires Enumerates(order, m)
    ensures Opens(FileText(order), m) <==> AllEncodable(m)
    ensures AllEncodable(m) ==> Parse(FileText(order), map[]) == Parsed(m)
  {
    if AllEncodable(m) {
      HeaderSkipped(Body(order), map[]);
      BodyReadBack(order, map[]);
      AssignedEnumeration(order, m);
    } else if Opens(FileText(order), m) {
      OpenedIsEncodable(FileText(order), m);
      assert false;
    }
  }

  /** Opening any file and writing its map back loses nothing. */
  lemma RewriteIsStable(text: string, m: map<string, string>, order: seq<Entry>)
    requires Opens(text, m) && Enumerates(order, m)
    ensures Opens(FileText(order), m)
  {
    OpenedIsEncodable(text, m);
    RoundTripIff(order, m);
  }

  /** A value that ends in a carriage return loses it. */
  lemma CarriageReturnLost()
    ensures Enumerates([("k", "v\r")], map["k" := "v\r"]) && !Opens(FileText([("k", "v\r")]), map["k" := "v\r"])
  {
    var m := map["k" := "v\r"];
    assert [("k", "v\r")][0].0 == "k";
    RoundTripIff([("k", "v\r")], m);
    assert "k" in m && !Encodable("k", m["k"]);
  }

  // ----- the program

  class CsvReader {
    /** The text of the file, if it exists. */
    var file: Option<string>
    var hash: map<string, string>

    /** Whether opening the file threw: no such store can be used. */
    var failed: bool

    /** Opens the store on a file. */
    constructor (file: Option<string>)
      ensures this.file == file
      ensures file.None? ==> !failed && hash == map[]
      ensures file.Some? ==> failed == Parse(file.value, map[]).Failed? && (!failed ==> Opens(file.value, hash))
      ensures !failed ==> AllEncodable(hash)
    {
      this.file := file;
      hash := map[];
      failed := false;
      new;
      var _, thrown := ParseCsvFile();
      failed := thrown;
      if file.Some? && !failed {
        OpenedIsEncodable(file.value, hash);
      }
    }

    /** Removes line ends from the end of a string, one character at a time. */
    static method StripStringEndingCrLf(s: string) returns (r: string, size: nat)
      ensures r == Stripped(s) && size == |r|
    {
      r, size := s, |s|;
      while size >= 1
        invariant size == |r| && Stripped(r) == Stripped(s)
      {
        if r[size - 1] == '\r' || r[size - 1] == '\n' {
          r := r[..size - 1];
          size := size - 1;
        } else {
          break;
        }
      }
    }

    /** Reads the file into the map, line by line, until its end, a malformed line or an exception; a
        missing file leaves the map as it is. */
    method ParseCsvFile() returns (ok: bool, thrown: bool)
      modifies `hash
      ensures file.None? ==> !ok && !thrown && hash == old(hash)
      ensures file.Some? ==>
                var outcome := Parse(file.value, old(hash));
                && ok == outcome.Parsed? && thrown == outcome.Failed? && (!thrown ==> hash == outcome.m)
    {
      if file.None? { return false, false; }
      hide ParseLine, ChunkLength;
      var rest := file.value;
      while rest != []
        invariant Parse(rest, hash) == Parse(file.value, old(hash))
        decreases |rest|
      {
        var n := ChunkLength(rest);
        var line := ParseCsvLine(rest[..n]);
        match line {
          case Malformed => return false, false;
          case Thrown => return false, true;
          case Comment =>
          case Pair(key, val) => hash := hash[key := val];
        }
        rest := rest[n..];
      }
      return true, false;
    }

    /** Splits one line at its commas. */
    static method ParseCsvLine(chunk: string) returns (line: Line)
      ensures line == ParseLine(chunk)
    {
      var str := Before(chunk, NUL);
      if str != [] && str[|str| - 1] == '\r' {
        str := str[..|str| - 1];
      }
      if str == [] { return Thrown; }
      if str[0] == '#' { return Comment; }
      var key := Before(str, ',');
      if |key| == |str| { return Malformed; }
      str := str[|key| + 1..];
      if str == [] { return Malformed; }
      var val, _ := StripStringEndingCrLf(Before(str, ','));
      return Pair(key, val);
    }

    /** Writes the header and one line per entry, in an order the map chooses. The result says only that the
        file could be opened and that every write delivered something; whole says that nothing was lost. */
    method WriteOutHashToFile(m: map<string, string>, disk: Disk) returns (ok: bool, ghost whole: bool)
      modifies `file
      ensures ok <==> disk.Accepts(|m|)
      ensures !disk.writable ==> file == old(file)
      ensures !ok ==> !whole && (file == old(file) || PartlyWritten(file, m))
      ensures ok ==> Reported(file, m)
      ensures whole <==> ok && Saved(file, m)
      ensures disk.Lossless(|m|) ==> whole
      ensures whole ==> (Opens(file.value, m) <==> AllEncodable(m))
    {
      hide Enumerates, Lists, Opens, AllEncodable, Delivered, FileText;
      if !disk.writable { return false, false; }
      ghost var order;
      var text;
      text, ok, order := WriteLines(m, disk.takes);
      NothingWritten(m);
      file := Some(if disk.keeps.Some? then Part(text, disk.keeps.value) else text);
      whole := ok && Saved(file, m);
      assert file.value <= text;
      if whole {
        var o :| Enumerates(o, m) && file.value == FileText(o);
        RoundTripIff(o, m);
      }
    }

    /** The writes, each of which may deliver a part of its text, until one delivers nothing. */
    static method WriteLines(m: map<string, string>, takes: nat -> nat)
      returns (text: string, ok: bool, ghost order: seq<Entry>)
      ensures Lists(order, m) && (text == [] || Delivered(text, order))
      ensures ok <==> AllTake(takes, |m| + 1, 1)
      ensures ok ==> Enumerates(order, m) && Delivered(text, order)
      ensures AllTake(takes, |m| + 1, BUFFER) ==> text == FileText(order)
    {
      hide Written, Enumerates, Lists, Delivered, FileText, AllTake, Progress;
      text, order := Part(HEADER, takes(0)), [];
      if text == [] {
        NothingTaken(m, takes);
        return text, false, order;
      }
      ProgressStarts(m, text, takes);
      var rest, k := m, 1;
      while rest != map[]
        invariant Progress(m, rest, order, text, takes, k)
        decreases |rest|
      {
        var key :| key in rest;
        var sent := Part(Written(key, rest[key]), takes(k));
        if sent == [] {
          ProgressStops(m, rest, order, text, takes, k);
          return text, false, order;
        }
        ProgressNext(m, rest, order, text, takes, k, key, sent);
        text := text + sent;
        order := order + [(key, rest[key])];
        rest, k := rest - {key}, k + 1;
      }
      ProgressEnds(m, rest, order, text, takes, k);
      ok := true;
    }

    /** Sets a key and saves; after a save that lost nothing, opening the file gives the new map exactly when
        all of it is encodable. */
    method AddKeyValuePair(key: string, val: string, disk: Disk) returns (ghost whole: bool)
      modifies this
      ensures disk.Lossless(|hash|) ==> whole
      ensures hash == old(hash)[key := val]
      ensures whole ==> Saved(file, hash) && (Opens(file.value, hash) <==> AllEncodable(hash))
      ensures !whole ==> file == old(file) || PartlyWritten(file, hash)
      ensures old(AllEncodable(hash)) ==> (AllEncodable(hash) <==> Encodable(key, val))
    {
      hide Encodable;
      hash := hash[key := val];
      assert key in hash;
      whole := Save(disk);
    }

    /** Saves the map. Neither caller looks at the result of the write. */
    method Save(disk: Disk) returns (ghost whole: bool)
      modifies `file
      ensures disk.Lossless(|hash|) ==> whole
      ensures whole ==> Saved(file, hash) && (Opens(file.value, hash) <==> AllEncodable(hash))
      ensures !whole ==> file == old(file) || PartlyWritten(file, hash)
    {
      hide Delivered, Encodable, Opens, AllEncodable, Saved;
      var ok;
      ok, whole := WriteOutHashToFile(hash, disk);
      if ok { ReportedIsPartly(file, hash); }
    }

    /** Removes a key and saves; an unknown key changes nothing, not even the file. */
    method RemoveKey(key: string, disk: Disk) returns (ghost whole: bool)
      modifies this
      ensures key in old(hash) && disk.Lossless(|hash|) ==> whole
      ensures key !in old(hash) ==> hash == old(hash) && file == old(file) && !whole
      ensures hash == old(hash) - {key}
      ensures whole ==> Saved(file, hash) && (Opens(file.value, hash) <==> AllEncodable(hash))
      ensures !whole ==> file == old(file) || PartlyWritten(file, hash)
      ensures old(AllEncodable(hash)) ==> AllEncodable(hash)
    {
      if key !in hash { return false; }
      hash := hash - {key};
      whole := Save(disk);
    }

    method DoesKeyExist(key: string) returns (r: bool)
      ensures r <==> key in hash
    {
      r := key in hash;
    }

    /** The value of a key. A missing key is added with an empty value, in memory only. */
    method GetKeyValue(key: string) returns (r: string)
      modifies `hash
      ensures r == if key in old(hash) then old(hash)[key] else ""
      ensures hash == if key in old(hash) then old(hash) else old(hash)[key := ""]
      ensures old(AllEncodable(hash)) ==> (AllEncodable(hash) <==> key in old(hash) || Encodable(key, ""))
    {
      hide Encodable;
      if key !in hash {
        hash := hash[key := ""];
      }
      r := hash[key];
    }
  }

  lemma {:induction false} BodyAppend(order: seq<Entry>, e: Entry)
    ensures Body(order + [e]) == Body(order) + Written(e.0, e.1)
  {
    hide Body, Written;
    if order == [] {
      BodyCons(e, []);
      assert order + [e] == [e] + [];
    } else {
      var rest := order[1..];
      BodyAppend(rest, e);
      BodyCons(order[0], rest);
      BodyCons(order[0], rest + [e]);
      assert order == [order[0]] + rest && order + [e] == [order[0]] + (rest + [e]);
    }
  }

  lemma BodyCons(e: Entry, rest: seq<Entry>)
    ensures Body([e] + rest) == Written(e.0, e.1) + Body(rest) && Body([]) == []
  {
    assert ([e] + rest)[1..] == rest;
  }

  lemma HeaderAlone()
    ensures FileText([]) == HEADER && |HEADER| < BUFFER
  {
  }

  lemma FileTextAppend(order: seq<Entry>, e: Entry)
    ensures FileText(order + [e]) == FileText(order) + Written(e.0, e.1)
  {
    hide Body, Written;
    BodyAppend(order, e);
  }

  /** A file that is still empty holds the beginning of any text. */
  lemma NothingWritten(m: map<string, string>)
    ensures PartlyWritten(Some([]), m)
  {
    HeaderDelivered(HEADER);
    assert Lists([], m) && [] <= HEADER;
  }

  lemma HeaderDelivered(text: string)
    requires text != [] && text <= HEADER
    ensures Delivered(text, [])
  {
  }

  lemma OneMoreDelivered(text: string, order: seq<Entry>, e: Entry, n: nat)
    requires Delivered(text, order) && 1 <= n <= |Written(e.0, e.1)|
    ensures Delivered(text + Written(e.0, e.1)[..n], order + [e])
  {
    hide Written;
    var more := order + [e];
    assert more[|more| - 1] == e && more[..|more| - 1] == order;
  }

  lemma EnumeratedIsListed(order: seq<Entry>, m: map<string, string>, keys: set<string>)
    requires Enumerates(order, m - keys)
    ensures Lists(order, m)
  {
  }

  lemma ReportedIsPartly(file: Option<string>, m: map<string, string>)
    requires Reported(file, m)
    ensures PartlyWritten(file, m)
  {
    hide Delivered;
    var order, text :| Enumerates(order, m) && Delivered(text, order) && file.value <= text;
    assert m - {} == m;
    EnumeratedIsListed(order, m, {});
  }

  lemma {:induction false} EverythingDelivered(order: seq<Entry>)
    ensures Delivered(FileText(order), order)
  {
    hide FileText, Written;
    if order == [] {
      EmptyText();
      HeaderDelivered(FileText(order));
    } else {
      var init, e := order[..|order| - 1], order[|order| - 1];
      EverythingDelivered(init);
      FileTextAppend(init, e);
      assert order == init + [e];
      assert Written(e.0, e.1)[..|Written(e.0, e.1)|] == Written(e.0, e.1);
      OneMoreDelivered(FileText(init), init, e, |Written(e.0, e.1)|);
    }
  }

  lemma EmptyText()
    ensures FileText([]) == HEADER
  {
  }

  /** A save whose closing loses everything after the header is reported as successful, although the file then
      opens as the empty map. */
  lemma LostOnClose(order: seq<Entry>, m: map<string, string>)
    requires Enumerates(order, m) && m != map[]
    ensures Reported(Some(HEADER), m) && !Saved(Some(HEADER), m)
    ensures Opens(HEADER, map[]) && !Opens(HEADER, m)
  {
    EverythingDelivered(order);
    assert HEADER <= FileText(order);
    hide Delivered;
    HeaderOpensEmpty();
    forall o | Enumerates(o, m) ensures FileText(o) != HEADER { TextBeyondHeader(o, m); }
  }

  lemma TextBeyondHeader(order: seq<Entry>, m: map<string, string>)
    requires Enumerates(order, m) && m != map[]
    ensures |FileText(order)| > |HEADER|
  {
    var key :| key in m;
    assert order != [];
    hide Written;
  }

  lemma HeaderOpensEmpty()
    ensures Parse(HEADER, map[]) == Parsed(map[])
  {
    HeaderSkipped([], map[]);
    assert HEADER + [] == HEADER;
  }

  lemma NothingEnumerated(m: map<string, string>)
    ensures Enumerates([], m - m.Keys)
  {
  }

  /** rest is a part of m. */
  predicate Within(rest: map<string, string>, m: map<string, string>) {
    rest.Keys <= m.Keys && forall key :: key in rest ==> rest[key] == m[key]
  }

  /** One more line, of which sent arrives. */
  lemma OneMoreLine(text: string, order: seq<Entry>, m: map<string, string>, rest: map<string, string>, key: string,
                    sent: string)
    requires Within(rest, m) && key in rest && Enumerates(order, m - rest.Keys) && Delivered(text, order)
    requires sent != [] && sent <= Written(key, rest[key])
    ensures Within(rest - {key}, m) && |rest - {key}| == |rest| - 1
    ensures var more := order + [(key, rest[key])];
            && Enumerates(more, m - (rest - {key}).Keys) && Delivered(text + sent, more)
            && (text == FileText(order) && sent == Written(key, rest[key]) ==> text + sent == FileText(more))
  {
    hide Written, Enumerates, Delivered, FileText;
    var line := Written(key, rest[key]);
    assert sent == line[..|sent|];
    OneMoreDelivered(text, order, (key, rest[key]), |sent|);
    FileTextAppend(order, (key, rest[key]));
    EnumerateOneMore(order, m, rest, key);
    assert rest == (rest - {key})[key := rest[key]];
  }

  /** The writes so far: the entries that are not in rest, in order, of each of which something arrived. */
  ghost predicate Progress(m: map<string, string>, rest: map<string, string>, order: seq<Entry>, text: string,
                           takes: nat -> nat, k: nat) {
    && Within(rest, m) && Enumerates(order, m - rest.Keys) && Delivered(text, order)
    && k + |rest| == |m| + 1 && AllTake(takes, k, 1)
    && (AllTake(takes, k, BUFFER) ==> text == FileText(order))
  }

  lemma NothingTaken(m: map<string, string>, takes: nat -> nat)
    requires takes(0) == 0
    ensures Lists([], m) && !AllTake(takes, |m| + 1, 1) && !AllTake(takes, |m| + 1, BUFFER)
  {
    NoneTaken(takes, 0, |m| + 1);
  }

  lemma ProgressStarts(m: map<string, string>, text: string, takes: nat -> nat)
    requires text == Part(HEADER, takes(0)) != []
    ensures Progress(m, m, [], text, takes, 1)
  {
    NothingEnumerated(m);
    HeaderDelivered(text);
    HeaderAlone();
    OneMoreTakes(takes, 0, 1);
    OneMoreTakes(takes, 0, BUFFER);
  }

  lemma ProgressNext(m: map<string, string>, rest: map<string, string>, order: seq<Entry>, text: string,
                     takes: nat -> nat, k: nat, key: string, sent: string)
    requires Progress(m, rest, order, text, takes, k) && key in rest
    requires sent == Part(Written(key, rest[key]), takes(k)) != []
    ensures |rest - {key}| < |rest|
    ensures Progress(m, rest - {key}, order + [(key, rest[key])], text + sent, takes, k + 1)
  {
    hide Written, Enumerates, Delivered, FileText, AllTake, Within;
    OneMoreLine(text, order, m, rest, key, sent);
    OneMoreTakes(takes, k, 1);
    OneMoreTakes(takes, k, BUFFER);
  }

  lemma ProgressStops(m: map<string, string>, rest: map<string, string>, order: seq<Entry>, text: string,
                      takes: nat -> nat, k: nat)
    requires Progress(m, rest, order, text, takes, k) && rest != map[] && takes(k) == 0
    ensures Lists(order, m) && Delivered(text, order)
    ensures !AllTake(takes, |m| + 1, 1) && !AllTake(takes, |m| + 1, BUFFER)
  {
    hide Written, Enumerates, Lists, Delivered, FileText, AllTake;
    EnumeratedIsListed(order, m, rest.Keys);
    NoneTaken(takes, k, |m| + 1);
  }

  lemma ProgressEnds(m: map<string, string>, rest: map<string, string>, order: seq<Entry>, text: string,
                     takes: nat -> nat, k: nat)
    requires Progress(m, rest, order, text, takes, k) && rest == map[]
    ensures Lists(order, m) && Enumerates(order, m) && Delivered(text, order)
    ensures AllTake(takes, |m| + 1, 1) && (AllTake(takes, |m| + 1, BUFFER) ==> text == FileText(order))
  {
    hide Written, Enumerates, Lists, Delivered, FileText, AllTake;
    EnumeratedIsListed(order, m, rest.Keys);
    assert m - rest.Keys == m;
  }

  lemma EnumerateOneMore(order: seq<Entry>, m: map<string, string>, rest: map<string, string>, key: string)
    requires rest.Keys <= m.Keys && key in rest && rest[key] == m[key]
    requires Enumerates(order, m - rest.Keys)
    ensures Enumerates(order + [(key, rest[key])], m - (rest - {key}).Keys)
  {
    var more := order + [(key, rest[key])];
    var all := m - (rest - {key}).Keys;
    forall k | k in all ensures exists i :: 0 <= i < |more| && more[i].0 == k {
      if k == key {
        assert more[|order|].0 == k;
      } else {
        assert k in m - rest.Keys;
        var i :| 0 <= i < |order| && order[i].0 == k;
        assert more[i].0 == k;
      }
    }
  }
}
