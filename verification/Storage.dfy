/**
 The NoVoHT engine: an in-memory table mirrored by an append-only log that is
 replayed on open and compacted by flush.
 */
module Storage {
  import opened Common
  import opened Text
  import opened LogFormat

  datatype StoreError = EmptyKey | KeyNotFound(key: string)

  // ---------- the engine on values ----------

  /** The table in memory and the content of the file behind it. */
  datatype Db = Db(table: Table, file: string)

  datatype Op =
    | Put(key: string, value: string)
    | Remove(key: string)
    | Append(key: string, value: string)
    | CompareSwap(key: string, expected: string, newValue: string)
    | Flush
    | Reopen

  function Appended(m: Table, key: string, value: string): string {
    if key in m then m[key] + ":" + value else value
  }

  function Swapped(m: Table, key: string, expected: string, newValue: string): string {
    if key in m && m[key] != expected then m[key] else newValue
  }

  /** The table after an operation; compaction and reopening are the business of Step. */
  function TableAfter(m: Table, op: Op): Table {
    match op
    case Put(k, v) => if k == "" then m else m[k := v]
    case Remove(k) => m - {k}
    case Append(k, v) => if k == "" then m else m[k := Appended(m, k, v)]
    case CompareSwap(k, e, n) => m[k := Swapped(m, k, e, n)]
    case Flush => m
    case Reopen => m
  }

  /** What an operation appends to the log. */
  function LogOf(m: Table, op: Op): string {
    match op
    case Put(k, v) => if k == "" then "" else RecordOf(k, v)
    case Remove(k) => if k in m then TombstoneOf(k) else ""
    case Append(k, v) => if k == "" then "" else RecordOf(k, Appended(m, k, v))
    case CompareSwap(k, e, n) => RecordOf(k, Swapped(m, k, e, n))
    case Flush => ""
    case Reopen => ""
  }

  ghost predicate IsListingOf(file: string, m: Table) {
    exists order :: IsOrderOf(order, m.Keys) && file == Listing(m, order)
  }

  /** One operation of a persistent engine; the order in which compaction visits the table is arbitrary. */
  ghost predicate Step(s: Db, op: Op, s': Db) {
    match op
    case Flush => s'.table == s.table && IsListingOf(s'.file, s.table)
    case Reopen => s'.table == Load(s.file) && IsListingOf(s'.file, s'.table)
    case _ => s' == Db(TableAfter(s.table, op), s.file + LogOf(s.table, op))
  }

  /** Replaying the file now would rebuild the table. */
  predicate Durable(s: Db) {
    WholeLines(s.file) && Load(s.file) == s.table
  }

  /** The operation logs only what the loader reads back; decidable before the call. */
  predicate Safe(m: Table, op: Op) {
    match op
    case Put(k, v) => k == "" || Recordable(k, v)
    case Remove(k) => k in m ==> Erasable(k)
    case Append(k, v) => k == "" || Recordable(k, Appended(m, k, v))
    case CompareSwap(k, e, n) => Recordable(k, Swapped(m, k, e, n))
    case Flush => true
    case Reopen => true
  }

  /** From a durable state, an operation leads to a durable state exactly when it is safe. */
  lemma StepDurable(s: Db, op: Op, s': Db)
    requires Durable(s) && Step(s, op, s')
    ensures Durable(s') <==> Safe(s.table, op)
  {
    assert s.file + "" == s.file;
    match op
    case Put(k, v) => if k != "" { RecordSurvives(s.file, k, v); }
    case Remove(k) =>
      if k in s.table {
        TombstoneSurvives(s.file, k);
      } else {
        assert s.table - {k} == s.table;
      }
    case Append(k, v) => if k != "" { RecordSurvives(s.file, k, Appended(s.table, k, v)); }
    case CompareSwap(k, e, n) => RecordSurvives(s.file, k, Swapped(s.table, k, e, n));
    case Flush => LoadIsRecordable(s.file); ListingIsDurable(s');
    case Reopen => LoadIsRecordable(s.file); ListingIsDurable(s');
  }

  lemma ListingIsDurable(s: Db)
    requires AllRecordable(s.table) && IsListingOf(s.file, s.table)
    ensures Durable(s)
  {
    var order :| IsOrderOf(order, s.table.Keys) && s.file == Listing(s.table, order);
    LoadOfListing(s.table, order);
    FlushSurvives(s.table, order);
  }

  /** Opening a file of any content whatsoever gives a durable engine. */
  lemma OpenDurable(s: Db, s': Db)
    requires Step(s, Reopen, s')
    ensures Durable(s')
  {
    LoadIsRecordable(s.file);
    ListingIsDurable(s');
  }

  // ---------- runs ----------

  ghost predicate Run(states: seq<Db>, ops: seq<Op>) {
    && |states| == |ops| + 1
    && forall i :: 0 <= i < |ops| ==> Step(states[i], ops[i], states[i + 1])
  }

  /** A run from a durable state stays durable throughout exactly when every operation is safe where it happens. */
  lemma RunDurable(states: seq<Db>, ops: seq<Op>)
    requires Run(states, ops) && Durable(states[0])
    ensures (forall i :: 0 <= i < |states| ==> Durable(states[i]))
            <==> forall i :: 0 <= i < |ops| ==> Safe(states[i].table, ops[i])
  {
    if forall i :: 0 <= i < |ops| ==> Safe(states[i].table, ops[i]) {
      forall i | 0 <= i < |states| ensures Durable(states[i]) {
        DurableAt(states, ops, i);
      }
    }
    if forall i :: 0 <= i < |states| ==> Durable(states[i]) {
      forall i | 0 <= i < |ops| ensures Safe(states[i].table, ops[i]) {
        assert Durable(states[i]) && Durable(states[i + 1]);
        StepDurable(states[i], ops[i], states[i + 1]);
      }
    }
  }

  lemma {:induction false} DurableAt(states: seq<Db>, ops: seq<Op>, i: nat)
    requires Run(states, ops) && Durable(states[0]) && i < |states|
    requires forall n :: 0 <= n < i ==> Safe(states[n].table, ops[n])
    ensures Durable(states[i])
  {
    if i > 0 {
      DurableAt(states, ops, i - 1);
      StepDurable(states[i - 1], ops[i - 1], states[i]);
    }
  }

  predicate Compacts(op: Op) {
    op.Flush? || op.Reopen?
  }

  lemma StepExtends(s: Db, op: Op, s': Db)
    requires Step(s, op, s') && !Compacts(op)
    ensures s.file <= s'.file
  {
  }

  lemma {:induction false} FileGrows(states: seq<Db>, ops: seq<Op>, i: nat, j: nat)
    requires Run(states, ops) && i <= j < |states|
    requires forall n :: i <= n < j ==> !Compacts(ops[n])
    ensures states[i].file <= states[j].file
    decreases j - i
  {
    if i < j {
      FileGrows(states, ops, i, j - 1);
      StepExtends(states[j - 1], ops[j - 1], states[j]);
    }
  }

  /**
   In a run of safe operations, between compactions the file only grows, and the part written up to any operation
   replays to the table as it was then.
   */
  lemma CutReplays(states: seq<Db>, ops: seq<Op>, i: nat, j: nat)
    requires Run(states, ops) && i <= j < |states|
    requires Durable(states[0])
    requires forall n :: 0 <= n < i ==> Safe(states[n].table, ops[n])
    requires forall n :: i <= n < j ==> !Compacts(ops[n])
    ensures states[i].file <= states[j].file
    ensures Load(states[j].file[..|states[i].file|]) == states[i].table
  {
    DurableAt(states, ops, i);
    FileGrows(states, ops, i, j);
    assert states[j].file[..|states[i].file|] == states[i].file;
  }

  // ---------- storable data ----------

  predicate StorableKey(k: string) {
    Plain(k) && k != "" && !IsWhitespace(k[0]) && !IsWhitespace(k[|k| - 1]) && k[0] != '~'
  }

  predicate StorableValue(v: string) {
    Plain(v) && v != "" && !IsWhitespace(v[|v| - 1])
  }

  predicate Storable(op: Op) {
    match op
    case Put(k, v) => StorableKey(k) && StorableValue(v)
    case Remove(k) => StorableKey(k)
    case Append(k, v) => StorableKey(k) && StorableValue(v)
    case CompareSwap(k, e, n) => StorableKey(k) && StorableValue(n)
    case Flush => true
    case Reopen => true
  }

  /** Storable data is safe in every durable state; in particular it is closed under the `:` join of append. */
  lemma StorableIsSafe(s: Db, op: Op)
    requires Durable(s) && Storable(op)
    ensures Safe(s.table, op)
  {
    LoadIsRecordable(s.file);
  }

  /** Every run of storable operations after opening any file keeps the log and the table in agreement. */
  lemma {:induction false} StorableRunsAreDurable(states: seq<Db>, ops: seq<Op>, i: nat)
    requires Run(states, ops) && 1 <= i < |states|
    requires ops[0] == Reopen
    requires forall n :: 0 <= n < |ops| ==> Storable(ops[n])
    ensures Durable(states[i])
  {
    if i == 1 {
      assert Step(states[0], ops[0], states[1]);
      OpenDurable(states[0], states[1]);
    } else {
      StorableRunsAreDurable(states, ops, i - 1);
      StorableIsSafe(states[i - 1], ops[i - 1]);
      StepDurable(states[i - 1], ops[i - 1], states[i]);
    }
  }

  /** What taking keys out of an engine leaves of its log: it replays to what is left, if the keys can be erased. */
  ghost predicate LogKept(persistent: bool, before: Db, after: Db) {
    if persistent then
      Durable(before) && (forall k :: k in before.table && k !in after.table ==> Erasable(k)) ==> Durable(after)
    else after.file == before.file
  }

  lemma LogKeptOnce(persistent: bool, before: Db, key: string, after: Db)
    requires if persistent then Step(before, Remove(key), after)
             else after == Db(TableAfter(before.table, Remove(key)), before.file)
    ensures LogKept(persistent, before, after) && after.table == before.table - {key}
  {
    if persistent && Durable(before) {
      StepDurable(before, Remove(key), after);
      hide Durable, Erasable;
      assert key in before.table ==> key !in after.table;
    }
  }

  lemma LogKeptTwice(persistent: bool, a: Db, b: Db, c: Db)
    requires LogKept(persistent, a, b) && LogKept(persistent, b, c)
    requires b.table.Keys <= a.table.Keys && c.table.Keys <= b.table.Keys
    ensures LogKept(persistent, a, c)
  {
    hide Durable, Erasable;
  }

  lemma LogKeptStill(persistent: bool, a: Db)
    ensures LogKept(persistent, a, a)
  {
  }

  /** What putting an entry and opening the file again gives: the value with its runs of tabs turned into colons. */
  lemma TabsDoNotSurvive(s: Db, key: string, value: string, s1: Db, s2: Db)
    requires Durable(s) && Step(s, Put(key, value), s1) && Step(s1, Reopen, s2)
    requires Plain(key) && key != "" && !IsWhitespace(key[0]) && key[0] != '~'
    requires '\n' !in value && value != "" && !IsWhitespace(value[|value| - 1])
    ensures s2.table == s.table[key := Loaded(value)]
    ensures s2.table == s1.table <==> '\t' !in value
  {
    var line := key + "\t" + value + "\t";
    assert line + "\n" == RecordOf(key, value);
    LoadAfterLine(s.file, line);
    TabsBecomeColons(key, value);
    LoadedIsSame(value);
    assert s2.table[key] == Loaded(value) && s1.table[key] == value;
  }

  /** Putting an empty value and opening the file again brings back what the log held before. */
  lemma EmptyPutIsForgotten(s: Db, key: string, s1: Db, s2: Db)
    requires Durable(s) && Step(s, Put(key, ""), s1) && Step(s1, Reopen, s2)
    requires Plain(key) && (Trim(key) == "" || Trim(key)[0] != '~')
    ensures s2.table == s.table
  {
    if key == "" {
      assert s.file + "" == s.file;
    } else {
      var line := key + "\t\t";
      assert line + "\n" == RecordOf(key, "");
      LoadAfterLine(s.file, line);
      KeyAloneIsNothing(key);
    }
  }

  /**
   What each operation adds to the file: the entry as it is afterwards, also when a swap does not take place; a
   tombstone for a key that was there; otherwise nothing.
   */
  lemma WhatIsLogged(s: Db, op: Op, s': Db)
    requires Step(s, op, s') && !Compacts(op)
    ensures !op.Remove? && (op.key != "" || op.CompareSwap?) ==>
      op.key in s'.table && s'.file == s.file + op.key + "\t" + s'.table[op.key] + "\t\n"
    ensures op.Remove? && op.key in s.table ==> s'.file == s.file + "~" + op.key + "\t\n"
    ensures (op.Remove? && op.key !in s.table) || (op.key == "" && (op.Put? || op.Append?)) ==> s'.file == s.file
  {
  }

  /** An entry the documentation does not rule out, yet lost on reopening: an empty value. */
  lemma EmptyValueIsLost(s: Db)
    requires Step(Db(map[], ""), Put("k", ""), s)
    ensures "k" in s.table && "k" !in Load(s.file)
  {
    var line := "k\t\t";
    assert Lines("") == [];
    assert "" + (line + "\n") == s.file;
    LoadAfterLine("", line);
    assert "" + "k" + "\t\t" == line;
    TrimOfPadded("", "k", "\t\t");
    NoSplit("k", '\t');
    assert ReadLine(line) == Nothing;
  }

  // ---------- the engine in place ----------

  class NoVoHT {
    var table: Table
    var file: string
    const persistent: bool

    function Now(): Db
      reads this
    {
      Db(table, file)
    }

    /** The state an operation leaves when this engine may or may not have a file. */
    ghost predicate Did(before: Db, op: Op)
      reads this
    {
      if persistent then Step(before, op, Now()) else Now() == Db(TableAfter(before.table, op), before.file)
    }

    /** A new engine in memory only. */
    constructor InMemory()
      ensures Now() == Db(map[], "") && !persistent
    {
      table, file, persistent := map[], "", false;
    }

    /** Opens a file with the given content: loads it and rewrites it without tombstones. */
    constructor WithPersistence(content: string)
      ensures persistent && Step(Db(map[], content), Reopen, Now())
    {
      table, file, persistent := map[], content, true;
      new;
      ReadFile();
      FlushFile();
    }

    /** Overlays the lines of the file on the table. */
    method ReadFile()
      modifies this`table
      ensures table == Replay(old(table), Lines(file))
    {
      var lines := Lines(file);
      for i := 0 to |lines|
        invariant table == Replay(old(table), lines[..i])
      {
        assert lines[..i + 1][..i] == lines[..i];
        ReadEntry(lines[i]);
      }
      assert lines[..|lines|] == lines;
    }

    /** One turn of the loading loop. */
    method ReadEntry(raw: string)
      modifies this`table
      ensures table == Apply(old(table), ReadLine(raw))
    {
      var line := Trim(raw);
      if line == "" { return; }
      var parts := Split(line, '\t');
      var rawKey := parts[0];
      if rawKey != "" && rawKey[0] == '~' {
        table := table - {rawKey[1..]};
        return;
      }
      if |parts| < 2 { return; }
      var value := parts[1];
      if |parts| > 2 {
        var extra := NonEmpty(parts[2..]);
        if extra != [] {
          value := value + ":" + Join(extra, ':');
        }
      }
      table := table[rawKey := value];
    }

    /** Truncates the file and writes the entries in some order. */
    method FlushFile()
      modifies this`file
      ensures if persistent then IsListingOf(file, table) else file == old(file)
    {
      if !persistent { return; }
      file := "";
      var left := table.Keys;
      ghost var order: seq<string> := [];
      while left != {}
        invariant left <= table.Keys
        invariant IsOrderOf(order, table.Keys - left)
        invariant file == Listing(table, order)
        decreases left
      {
        var k :| k in left;
        file := file + RecordOf(k, table[k]);
        left := left - {k};
        assert (order + [k])[..|order|] == order;
        order := order + [k];
      }
      assert table.Keys - left == table.Keys;
    }

    method WriteEntry(key: string, value: string)
      modifies this`file
      ensures file == if persistent then old(file) + RecordOf(key, value) else old(file)
    {
      if persistent {
        file := file + key + "\t" + value + "\t\n";
        assert file == old(file) + RecordOf(key, value);
      }
    }

    method Put(key: string, value: string) returns (r: Result<(), StoreError>)
      modifies this
      ensures Did(old(Now()), Op.Put(key, value))
      ensures r == if key == "" then Err(EmptyKey) else Ok(())
    {
      if key == "" {
        assert file + "" == file;
        return Err(EmptyKey);
      }
      table := table[key := value];
      WriteEntry(key, value);
      return Ok(());
    }

    method Get(key: string) returns (r: Result<string, StoreError>)
      ensures r == if key in table then Ok(table[key]) else Err(KeyNotFound(key))
    {
      return if key in table then Ok(table[key]) else Err(KeyNotFound(key));
    }

    method Remove(key: string) returns (r: Result<(), StoreError>)
      modifies this
      ensures Did(old(Now()), Op.Remove(key))
      ensures r == if key in old(table) then Ok(()) else Err(KeyNotFound(key))
    {
      if key !in table {
        assert file + "" == file && table - {key} == table;
        return Err(KeyNotFound(key));
      }
      table := table - {key};
      if persistent {
        file := file + TombstoneOf(key);
      }
      return Ok(());
    }

    method Append(key: string, value: string) returns (r: Result<(), StoreError>)
      modifies this
      ensures Did(old(Now()), Op.Append(key, value))
      ensures r == if key == "" then Err(EmptyKey) else Ok(())
    {
      if key == "" {
        assert file + "" == file;
        return Err(EmptyKey);
      }
      var newValue := value;
      if key in table {
        newValue := table[key] + ":" + value;
      }
      table := table[key := newValue];
      WriteEntry(key, newValue);
      return Ok(());
    }

    /** Swaps when the current value is the expected one or the key is absent; returns the value then stored. */
    method CompareSwap(key: string, expected: string, newValue: string) returns (actual: string)
      modifies this
      ensures Did(old(Now()), Op.CompareSwap(key, expected, newValue))
      ensures key in table && actual == table[key]
    {
      if key in table {
        if table[key] == expected {
          table := table[key := newValue];
        }
        actual := table[key];
      } else {
        table := table[key := newValue];
        actual := newValue;
      }
      assert table == TableAfter(old(table), Op.CompareSwap(key, expected, newValue));
      WriteEntry(key, actual);
    }

    method Flush()
      modifies this`file
      ensures Did(old(Now()), Op.Flush)
    {
      FlushFile();
    }
  }
}
