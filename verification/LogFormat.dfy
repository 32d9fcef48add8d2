/**
 The text format of the NoVoHT log: what a line means to the loader, what the
 writers put on a line, and exactly which entries and removals survive the trip.
 */
module LogFormat {
  import opened Common
  import opened Text

  type Table = map<string, string>

  // ---------- reading ----------

  /** What one line of the log does to the table being loaded. */
  datatype Effect = Nothing | Erase(key: string) | Set(key: string, value: string)

  /** The non-empty fields after the second one. */
  function NonEmpty(parts: seq<string>): (r: seq<string>)
    ensures forall p :: p in r ==> p in parts && p != ""
    ensures parts != [] && parts[|parts| - 1] != "" ==> r != [] && r[|r| - 1] == parts[|parts| - 1]
  {
    if parts == [] then [] else
      var rest := NonEmpty(parts[1..]);
      if parts[0] == "" then rest else [parts[0]] + rest
  }

  function ReadLine(raw: string): Effect {
    var line := Trim(raw);
    if line == "" then Nothing else
      var parts := Split(line, '\t');
      if parts[0] != "" && parts[0][0] == '~' then Erase(parts[0][1..])
      else if |parts| < 2 then Nothing
      else
        Set(parts[0], ValueOf(parts))
  }

  /** The second field and the non-empty ones after it, joined by colons. */
  function ValueOf(parts: seq<string>): string
    requires |parts| >= 2
  {
    var extra := NonEmpty(parts[2..]);
    if extra == [] then parts[1] else parts[1] + ":" + Join(extra, ':')
  }

  function Apply(m: Table, e: Effect): Table {
    match e
    case Nothing => m
    case Erase(k) => m - {k}
    case Set(k, v) => m[k := v]
  }

  function Replay(m: Table, lines: seq<string>): Table {
    if lines == [] then m else Apply(Replay(m, lines[..|lines| - 1]), ReadLine(lines[|lines| - 1]))
  }

  /** The table that opening a file with this content builds. */
  function Load(content: string): Table {
    Replay(map[], Lines(content))
  }

  // ---------- writing ----------

  function RecordOf(key: string, value: string): string {
    key + "\t" + value + "\t\n"
  }

  function TombstoneOf(key: string): string {
    "~" + key + "\t\n"
  }

  /** The text `flush` writes when it visits the entries in the given order. */
  function Listing(m: Table, order: seq<string>): string
    requires forall k :: k in order ==> k in m
  {
    if order == [] then "" else
      var k := order[|order| - 1];
      Listing(m, order[..|order| - 1]) + RecordOf(k, m[k])
  }

  ghost predicate IsOrderOf(order: seq<string>, keys: set<string>) {
    (forall k :: k in order <==> k in keys) && NoRepeats(order)
  }

  // ---------- what survives ----------

  /** No character that ends a field or a line. */
  predicate Plain(s: string) {
    '\t' !in s && '\n' !in s
  }

  /** An entry whose record is read back as that entry. */
  predicate Recordable(key: string, value: string) {
    && Plain(key) && Plain(value)
    && key != "" && !IsWhitespace(key[0]) && key[0] != '~'
    && value != "" && !IsWhitespace(value[|value| - 1])
  }

  /** A key whose tombstone is read back as its removal. */
  predicate Erasable(key: string) {
    Plain(key) && (key != "" ==> !IsWhitespace(key[|key| - 1]))
  }

  ghost predicate AllRecordable(m: Table) {
    forall k :: k in m ==> Recordable(k, m[k])
  }

  lemma RecordIsRead(key: string, value: string)
    requires Recordable(key, value)
    ensures ReadLine(key + "\t" + value + "\t") == Set(key, value)
  {
    var line := key + ['\t'] + value;
    SplitInTwo(key, '\t', value);
    TrimmedRecord(key, value);
    assert [key, value][2..] == [];
  }

  lemma TrimmedRecord(key: string, value: string)
    requires Recordable(key, value)
    ensures Trim(key + "\t" + value + "\t") == key + ['\t'] + value
  {
    var line := key + ['\t'] + value;
    TrimOfPadded("", line, "\t");
    assert "" + line + "\t" == key + "\t" + value + "\t";
  }

  /** Joining the fields after the first keeps them in one field that ends visibly. */
  lemma JoinedFields(field: string, extra: seq<string>)
    requires extra != [] && Plain(field) && forall p :: p in extra ==> Plain(p)
    requires var last := extra[|extra| - 1]; last != "" && !IsWhitespace(last[|last| - 1])
    ensures var v := field + ":" + Join(extra, ':'); Plain(v) && !IsWhitespace(v[|v| - 1])
  {
    JoinPieces(extra, ':');
  }

  /** Whatever a line sets can be recorded again: the loader only produces recordable entries. */
  lemma ReadIsRecordable(raw: string)
    requires '\n' !in raw && ReadLine(raw).Set?
    ensures Recordable(ReadLine(raw).key, ReadLine(raw).value)
  {
    var line := Trim(raw);
    var parts := Split(line, '\t');
    SplitPieces(line, '\t');
    forall p | p in parts ensures Plain(p) {}
    var extra := NonEmpty(parts[2..]);
    assert |parts| > 2 ==> parts[2..][|parts| - 3] == parts[|parts| - 1];
    if extra != [] {
      JoinedFields(parts[1], extra);
    }
  }

  /** A tombstone erases its key with trailing white space cut off. */
  lemma TombstoneIsRead(key: string)
    requires Plain(key)
    ensures ReadLine("~" + key + "\t") == Erase(TrimEnd(key))
  {
    var line := "~" + TrimEnd(key);
    var raw := "~" + key + "\t";
    TrimEndOfWhitespace("~" + key, "\t");
    TrimEndOfPrefixed('~', key);
    assert '\t' !in line;
    NoSplit(line, '\t');
  }

  lemma {:induction false} TrimEndOfPrefixed(c: char, s: string)
    requires !IsWhitespace(c)
    ensures TrimEnd([c] + s) == [c] + TrimEnd(s)
  {
    if s != "" && IsWhitespace(s[|s| - 1]) {
      assert ([c] + s)[..|s|] == [c] + s[..|s| - 1];
      TrimEndOfPrefixed(c, s[..|s| - 1]);
    }
  }

  // ---------- values with tabs ----------

  /** What a value turns into on the way through the log: every run of tabs in it becomes one colon. */
  function Loaded(v: string): string {
    if v == "" then "" else
      var front, last := v[..|v| - 1], v[|v| - 1];
      if last != '\t' then Loaded(front) + [last]
      else if EndsInTab(front) then Loaded(front)
      else Loaded(front) + ":"
  }

  predicate EndsInTab(v: string) {
    v != "" && v[|v| - 1] == '\t'
  }

  lemma {:induction false} NonEmptyOneMore(parts: seq<string>, last: string)
    ensures NonEmpty(parts + [last]) == NonEmpty(parts) + if last == "" then [] else [last]
  {
    if parts != [] {
      assert (parts + [last])[1..] == parts[1..] + [last];
      NonEmptyOneMore(parts[1..], last);
    }
  }

  function Coloned(first: string, extra: seq<string>): string {
    if extra == [] then first else first + ":" + Join(extra, ':')
  }

  lemma ColonedOneMore(first: string, extra: seq<string>, last: string)
    ensures Coloned(first, extra + [last]) == Coloned(first, extra) + ":" + last
  {
    if extra == [] {
      assert extra + [last] == [last];
    } else {
      JoinOneMore(extra, last, ':');
      hide Join;
      var j := Join(extra, ':');
      assert first + ":" + (j + [':'] + last) == first + ":" + j + ":" + last;
    }
  }

  /** The value of fields to which one more is added. */
  lemma ValueOfOneMore(parts: seq<string>, last: string)
    requires |parts| >= 2
    ensures ValueOf(parts + [last]) == if last == "" then ValueOf(parts) else ValueOf(parts) + ":" + last
  {
    hide NonEmpty, Join;
    assert (parts + [last])[2..] == parts[2..] + [last];
    NonEmptyOneMore(parts[2..], last);
    var extra := NonEmpty(parts[2..]);
    assert extra + [] == extra;
    ColonedOneMore(parts[1], extra, last);
    assert ValueOf(parts) == Coloned(parts[1], extra);
  }

  lemma ValueOfTwo(key: string, v: string)
    ensures ValueOf([key, v]) == v
  {
    assert [key, v][2..] == [];
  }

  /** The fields read so far, where the last one may still be going on. */
  ghost predicate FieldsAre(parts: seq<string>, key: string, v: string) {
    && |parts| >= 2 && parts[0] == key
    && (parts[|parts| - 1] == "" <==> v == "" || EndsInTab(v))
    && (|parts| == 2 ==> !EndsInTab(v)) && (v == "" ==> |parts| == 2)
    && Loaded(v) == ValueOf(parts) + if EndsInTab(v) then ":" else ""
  }

  lemma FieldsAfterTab(parts: seq<string>, key: string, v: string)
    requires FieldsAre(parts, key, v)
    ensures FieldsAre(parts + [""], key, v + "\t")
  {
    ValueOfOneMore(parts, "");
    assert (v + "\t")[..|v|] == v;
    hide ValueOf;
    assert ValueOf(parts) + "" == ValueOf(parts);
  }

  lemma LoadedOneMore(v: string, c: char)
    requires c != '\t'
    ensures Loaded(v + [c]) == Loaded(v) + [c] && !EndsInTab(v + [c])
  {
    assert (v + [c])[..|v|] == v;
  }

  lemma ValueOfLonger(before: seq<string>, end: string, c: char, loaded: string)
    requires |before| >= 1
    requires |before| == 1 ==> loaded == ValueOf(before + [end])
    requires |before| > 1 ==> loaded == ValueOf(before + [end]) + if end == "" then ":" else ""
    ensures ValueOf(before + [end + [c]]) == loaded + [c]
  {
    hide ValueOf;
    if |before| == 1 {
      assert before + [end] == [before[0], end] && before + [end + [c]] == [before[0], end + [c]];
      ValueOfTwo(before[0], end);
      ValueOfTwo(before[0], end + [c]);
    } else {
      ValueOfOneMore(before, end);
      ValueOfOneMore(before, end + [c]);
      var value := ValueOf(before);
      assert value + ":" + (end + [c]) == (value + ":" + end) + [c];
      assert end == "" ==> value + ":" + end == value + ":";
    }
  }

  lemma FieldsAfterChar(before: seq<string>, end: string, key: string, v: string, c: char)
    requires FieldsAre(before + [end], key, v) && c != '\t'
    ensures FieldsAre(before + [end + [c]], key, v + [c])
  {
    LoadedOneMore(v, c);
    hide ValueOf, Loaded;
    assert (before + [end])[0] == before[0] && (before + [end])[|before|] == end;
    ValueOfLonger(before, end, c, LoadedSoFar(before, end, key, v));
    assert (before + [end + [c]])[0] == before[0];
    assert ValueOf(before + [end + [c]]) + "" == ValueOf(before + [end + [c]]);
  }

  function LoadedSoFar(before: seq<string>, end: string, key: string, v: string): (r: string)
    requires FieldsAre(before + [end], key, v)
    ensures r == Loaded(v)
    ensures |before| == 1 ==> r == ValueOf(before + [end])
    ensures |before| > 1 ==> r == ValueOf(before + [end]) + if end == "" then ":" else ""
  {
    hide ValueOf, Loaded;
    assert (before + [end])[|before|] == end;
    assert ValueOf(before + [end]) + "" == ValueOf(before + [end]);
    Loaded(v)
  }

  lemma LastApart(parts: seq<string>)
    requires |parts| >= 1
    ensures parts == parts[..|parts| - 1] + [parts[|parts| - 1]]
  {
  }

  /** The fields of a key and a value, whose tabs separate fields too. */
  lemma {:induction false} FieldsOf(key: string, v: string)
    requires Plain(key)
    ensures FieldsAre(Split(key + ['\t'] + v, '\t'), key, v)
  {
    hide Split;
    if v == "" {
      SplitInTwo(key, '\t', "");
      ValueOfTwo(key, "");
    } else {
      hide FieldsAre;
      var front, last := v[..|v| - 1], v[|v| - 1];
      var line := key + ['\t'] + front;
      FieldsOf(key, front);
      assert v == front + [last] && key + ['\t'] + v == line + [last];
      SplitOneMore(line, last, '\t');
      if last == '\t' {
        FieldsAfterTab(Split(line, '\t'), key, front);
      } else {
        var parts := Split(line, '\t');
        LastApart(parts);
        FieldsAfterChar(parts[..|parts| - 1], parts[|parts| - 1], key, front, last);
      }
    }
  }

  /** A value that ends visibly is read with its runs of tabs turned into colons, and no part of it gets lost. */
  lemma TabsBecomeColons(key: string, v: string)
    requires Plain(key) && key != "" && !IsWhitespace(key[0]) && key[0] != '~'
    requires v != "" && !IsWhitespace(v[|v| - 1])
    ensures ReadLine(key + "\t" + v + "\t") == Set(key, Loaded(v))
  {
    hide Split, ValueOf, Loaded, Trim, TrimStart, TrimEnd;
    var line := key + ['\t'] + v;
    TrimOfPadded("", line, "\t");
    assert "" + line + "\t" == key + "\t" + v + "\t";
    FieldsOf(key, v);
    var parts := Split(line, '\t');
    assert ValueOf(parts) + "" == ValueOf(parts);
  }

  lemma {:induction false} LoadedIsShorter(v: string)
    ensures |Loaded(v)| <= |v| && '\t' !in Loaded(v)
    ensures '\t' !in v ==> Loaded(v) == v
  {
    if v != "" {
      LoadedIsShorter(v[..|v| - 1]);
      assert v == v[..|v| - 1] + [v[|v| - 1]];
    }
  }

  /** A value comes through unchanged exactly when it holds no tab. */
  lemma LoadedIsSame(v: string)
    ensures Loaded(v) == v <==> '\t' !in v
  {
    LoadedIsShorter(v);
  }

  /** A line with nothing after its key, such as an entry with an empty value makes, is passed over. */
  lemma KeyAloneIsNothing(key: string)
    requires '\t' !in key && (Trim(key) == "" || Trim(key)[0] != '~')
    ensures ReadLine(key + "\t\t") == Nothing
  {
    TrimOfConcat(key, "\t\t");
    NoSplit(Trim(key), '\t');
  }

  // ---------- replay ----------

  lemma {:induction false} ReplayOfConcat(m: Table, a: seq<string>, b: seq<string>)
    ensures Replay(m, a + b) == Replay(Replay(m, a), b)
  {
    if b == [] {
      assert a + b == a;
    } else {
      assert (a + b)[..|a + b| - 1] == a + b[..|b| - 1];
      ReplayOfConcat(m, a, b[..|b| - 1]);
    }
  }

  lemma {:induction false} ReplayIsRecordable(lines: seq<string>)
    requires forall l :: l in lines ==> '\n' !in l
    ensures AllRecordable(Replay(map[], lines))
  {
    if lines != [] {
      var front, last := lines[..|lines| - 1], lines[|lines| - 1];
      ReplayIsRecordable(front);
      if ReadLine(last).Set? {
        ReadIsRecordable(last);
      }
    }
  }

  /** Every entry that any file content can load is recordable. */
  lemma LoadIsRecordable(content: string)
    ensures AllRecordable(Load(content))
  {
    LinesHoldNoBreak("", content);
    ReplayIsRecordable(Lines(content));
  }

  lemma {:induction false} LastLineOf(current: string, rest: string)
    requires (rest == "" ==> current != "") && (rest != "" ==> rest[|rest| - 1] != '\n')
    ensures var lines, ended := LinesFrom(current, rest), LinesFrom(current, rest + "\n");
            && |lines| == |ended| > 0 && lines[..|lines| - 1] == ended[..|lines| - 1]
            && ended[|lines| - 1] == StripCr(lines[|lines| - 1])
    decreases |rest|
  {
    if rest == "" {
      assert rest + "\n" == "\n" && "\n"[1..] == "" && LinesFrom("", "") == [];
    } else {
      assert (rest + "\n")[0] == rest[0] && (rest + "\n")[1..] == rest[1..] + "\n";
      if rest[0] == '\n' {
        LastLineOf("", rest[1..]);
        var lines, ended := LinesFrom("", rest[1..]), LinesFrom("", rest[1..] + "\n");
        var n := |lines|;
        assert ([StripCr(current)] + lines)[..n] == [StripCr(current)] + lines[..n - 1];
        assert ([StripCr(current)] + ended)[..n] == [StripCr(current)] + ended[..n - 1];
      } else {
        LastLineOf(current + [rest[0]], rest[1..]);
      }
    }
  }

  lemma StrippedReadsAlike(line: string)
    ensures ReadLine(StripCr(line)) == ReadLine(line)
  {
    if line != "" && line[|line| - 1] == '\r' {
      var front := line[..|line| - 1];
      assert line == front + ['\r'];
      TrimOfConcat(front, "\r");
    }
  }

  /** A last line without a line break is loaded as one with it. */
  lemma LastLineNeedsNoBreak(content: string)
    requires !WholeLines(content)
    ensures Load(content + "\n") == Load(content)
  {
    LastLineOf("", content);
    var lines := Lines(content);
    StrippedReadsAlike(lines[|lines| - 1]);
    hide ReadLine, StripCr;
  }

  lemma LoadAfterLine(content: string, line: string)
    requires WholeLines(content) && '\n' !in line && StripCr(line) == line
    ensures Load(content + (line + "\n")) == Apply(Load(content), ReadLine(line))
  {
    LinesOfConcat("", content, line + "\n");
    LinesOfOne("", line);
    assert "" + line == line;
    ReplayOfConcat(map[], Lines(content), [line]);
    assert Replay(Load(content), [line]) == Apply(Load(content), ReadLine(line)) by {
      assert [line][..0] == [];
    }
  }

  lemma LoadAfterRecord(content: string, key: string, value: string)
    requires WholeLines(content) && Recordable(key, value)
    ensures Load(content + RecordOf(key, value)) == Load(content)[key := value]
  {
    var line := key + "\t" + value + "\t";
    assert line + "\n" == RecordOf(key, value);
    LoadAfterLine(content, line);
    RecordIsRead(key, value);
  }

  lemma LoadAfterTombstone(content: string, key: string)
    requires WholeLines(content) && Plain(key)
    ensures Load(content + TombstoneOf(key)) == Load(content) - {TrimEnd(key)}
  {
    var line := "~" + key + "\t";
    assert line + "\n" == TombstoneOf(key);
    LoadAfterLine(content, line);
    TombstoneIsRead(key);
  }

  /** Appending a record adds exactly its entry, or the entry was not recordable (or there already). */
  lemma RecordSurvives(content: string, key: string, value: string)
    requires WholeLines(content)
    ensures Load(content + RecordOf(key, value)) == Load(content)[key := value] <==> Recordable(key, value)
  {
    if Recordable(key, value) {
      LoadAfterRecord(content, key, value);
    } else {
      LoadIsRecordable(content + RecordOf(key, value));
      assert Load(content)[key := value][key] == value;
    }
  }

  /** Appending a tombstone removes exactly its key, or the key was not erasable. */
  lemma TombstoneSurvives(content: string, key: string)
    requires WholeLines(content) && key in Load(content)
    ensures Load(content + TombstoneOf(key)) == Load(content) - {key} <==> Erasable(key)
  {
    LoadIsRecordable(content);
    LoadAfterTombstone(content, key);
    var cut := TrimEnd(key);
    if Erasable(key) {
      assert cut == key;
    } else {
      assert cut != key;
      assert key in Load(content) - {cut};
    }
  }

  // ---------- compaction ----------

  lemma {:induction false} LoadOfListing(m: Table, order: seq<string>)
    requires forall k :: k in order ==> k in m && Recordable(k, m[k])
    ensures WholeLines(Listing(m, order))
    ensures var loaded := Load(Listing(m, order));
            (forall k :: k in loaded <==> k in order) && forall k :: k in loaded ==> loaded[k] == m[k]
  {
    if order != [] {
      hide Load, Recordable;
      var front, k := order[..|order| - 1], order[|order| - 1];
      assert order == front + [k];
      assert forall j :: j in order <==> j in front || j == k;
      LoadOfListing(m, front);
      LoadAfterRecord(Listing(m, front), k, m[k]);
    }
  }

  /** A compacted file loads as the table it was written from exactly when every entry is recordable. */
  lemma FlushSurvives(m: Table, order: seq<string>)
    requires IsOrderOf(order, m.Keys)
    ensures Load(Listing(m, order)) == m <==> AllRecordable(m)
  {
    if AllRecordable(m) {
      LoadOfListing(m, order);
    } else {
      LoadIsRecordable(Listing(m, order));
    }
  }

  /** Loading any content whatsoever, compacting in any order and loading again gives the first table. */
  lemma LoadFlushLoad(content: string, order: seq<string>)
    requires IsOrderOf(order, Load(content).Keys)
    ensures Load(Listing(Load(content), order)) == Load(content)
  {
    LoadIsRecordable(content);
    FlushSurvives(Load(content), order);
  }
}
