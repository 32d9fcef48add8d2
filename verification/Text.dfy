/**
 Text as the store, the chunk header and the address codec see it: trimming of
 Unicode white space, splitting on a separator, joining, and lines of a file.
 */
module Text {

  /** The Unicode White_Space property, which decides what `trim` removes. */
  predicate IsWhitespace(c: char) {
    var n := c as int;
    || 9 <= n <= 13 || n == 0x20 || n == 0x85 || n == 0xA0 || n == 0x1680
    || 0x2000 <= n <= 0x200A || n == 0x2028 || n == 0x2029 || n == 0x202F || n == 0x205F || n == 0x3000
  }

  function TrimStart(s: string): (r: string)
    ensures r != "" ==> !IsWhitespace(r[0])
    ensures forall c :: c in r ==> c in s
  {
    if s != "" && IsWhitespace(s[0]) then TrimStart(s[1..]) else s
  }

  function TrimEnd(s: string): (r: string)
    ensures r <= s
    ensures r != "" ==> !IsWhitespace(r[|r| - 1])
    ensures forall c :: c in r ==> c in s
  {
    if s != "" && IsWhitespace(s[|s| - 1]) then TrimEnd(s[..|s| - 1]) else s
  }

  function Trim(s: string): (r: string)
    ensures r != "" ==> !IsWhitespace(r[0]) && !IsWhitespace(r[|r| - 1])
    ensures forall c :: c in r ==> c in s
  {
    TrimEnd(TrimStart(s))
  }

  lemma {:induction false} TrimStartOfWhitespace(w: string, s: string)
    requires forall c :: c in w ==> IsWhitespace(c)
    ensures TrimStart(w + s) == TrimStart(s)
  {
    if w == "" {
      assert w + s == s;
    } else {
      assert (w + s)[1..] == w[1..] + s;
      TrimStartOfWhitespace(w[1..], s);
    }
  }

  lemma {:induction false} TrimEndOfWhitespace(s: string, w: string)
    requires forall c :: c in w ==> IsWhitespace(c)
    ensures TrimEnd(s + w) == TrimEnd(s)
  {
    if w == "" {
      assert s + w == s;
    } else {
      assert (s + w)[..|s + w| - 1] == s + w[..|w| - 1];
      TrimEndOfWhitespace(s, w[..|w| - 1]);
    }
  }

  /** Trimming a text that begins and ends visibly, padded by white space on both sides, gives the text. */
  lemma TrimOfPadded(left: string, s: string, right: string)
    requires forall c :: c in left + right ==> IsWhitespace(c)
    requires s != "" && !IsWhitespace(s[0]) && !IsWhitespace(s[|s| - 1])
    ensures Trim(left + s + right) == s
  {
    assert forall c :: c in left ==> c in left + right;
    assert forall c :: c in right ==> c in left + right;
    assert left + s + right == left + (s + right);
    TrimStartOfWhitespace(left, s + right);
    TrimEndOfWhitespace(s, right);
  }

  /** The first position of c in s, or |s| when there is none. */
  function IndexOf(s: string, c: char): (i: nat)
    ensures i <= |s|
    ensures c !in s[..i]
    ensures i < |s| ==> s[i] == c
  {
    if s == "" || s[0] == c then 0 else
      var i := 1 + IndexOf(s[1..], c);
      assert s[..i] == [s[0]] + s[1..][..i - 1];
      i
  }

  lemma IndexOfFirst(a: string, c: char, b: string)
    requires c !in a
    ensures IndexOf(a + [c] + b, c) == |a|
  {
    var s := a + [c] + b;
    var i := IndexOf(s, c);
    assert forall j :: 0 <= j < |a| ==> s[j] == a[j];
    assert forall j :: 0 <= j < i ==> s[..i][j] == s[j];
    assert s[|a|] == c;
  }

  /** The pieces of s between occurrences of the separator; never empty. */
  function Split(s: string, sep: char): (parts: seq<string>)
    ensures |parts| >= 1
    decreases |s|
  {
    var i := IndexOf(s, sep);
    if i == |s| then [s] else [s[..i]] + Split(s[i + 1..], sep)
  }

  /**
   No piece holds the separator or a character that s does not have, and the ends of s are the ends of its outer
   pieces.
   */
  lemma {:induction false} SplitPieces(s: string, sep: char)
    ensures var parts := Split(s, sep);
            && (forall p, c :: p in parts && c in p ==> c in s && c != sep)
            && parts[0] <= s
            && (s != "" && s[0] != sep ==> parts[0] != "")
            && (s != "" && s[|s| - 1] != sep ==>
                  parts[|parts| - 1] != "" && var last := parts[|parts| - 1]; last[|last| - 1] == s[|s| - 1])
    decreases |s|
  {
    var i := IndexOf(s, sep);
    if i < |s| {
      var rest := s[i + 1..];
      SplitPieces(rest, sep);
      var parts := Split(s, sep);
      assert parts == [s[..i]] + Split(rest, sep);
      forall p, c | p in parts && c in p ensures c in s && c != sep {
        if p == s[..i] {
          assert c in s[..i];
        } else {
          assert p in Split(rest, sep);
        }
      }
    } else {
      assert s[..i] == s;
    }
  }

  lemma SplitInTwo(a: string, sep: char, b: string)
    requires sep !in a && sep !in b
    ensures Split(a + [sep] + b, sep) == [a, b]
  {
    var s := a + [sep] + b;
    IndexOfFirst(a, sep, b);
    assert s[..|a|] == a && s[|a| + 1..] == b;
    NoSplit(b, sep);
  }

  lemma NoSplit(s: string, sep: char)
    requires sep !in s
    ensures IndexOf(s, sep) == |s| && Split(s, sep) == [s]
  {
  }

  lemma SplitFirst(a: string, sep: char, b: string)
    requires sep !in a
    ensures Split(a + [sep] + b, sep) == [a] + Split(b, sep)
  {
    var s := a + [sep] + b;
    IndexOfFirst(a, sep, b);
    assert s[..|a|] == a && s[|a| + 1..] == b;
  }

  /** One more character starts a new piece or lengthens the last one. */
  function OneMore(parts: seq<string>, c: char, sep: char): (r: seq<string>)
    requires |parts| >= 1
    ensures |r| >= 1
  {
    var n := |parts| - 1;
    if c == sep then parts + [""] else parts[..n] + [parts[n] + [c]]
  }

  lemma OneMoreLater(a: string, parts: seq<string>, c: char, sep: char)
    requires |parts| >= 1
    ensures OneMore([a] + parts, c, sep) == [a] + OneMore(parts, c, sep)
  {
    var n := |parts| - 1;
    assert ([a] + parts)[n + 1] == parts[n] && ([a] + parts)[..n + 1] == [a] + parts[..n];
  }

  lemma {:induction false} SplitOneMore(s: string, c: char, sep: char)
    ensures Split(s + [c], sep) == OneMore(Split(s, sep), c, sep)
    decreases |s|
  {
    var i := IndexOf(s, sep);
    if i < |s| {
      hide Split, OneMore, IndexOf;
      var a, rest := s[..i], s[i + 1..];
      CutAt(s, i, c);
      SplitOneMore(rest, c, sep);
      SplitFirst(a, sep, rest);
      SplitFirst(a, sep, rest + [c]);
      OneMoreLater(a, Split(rest, sep), c, sep);
    } else {
      assert s[..i] == s;
      SplitLastMore(s, c, sep);
    }
  }

  lemma CutAt(s: string, i: nat, c: char)
    requires i < |s|
    ensures s == s[..i] + [s[i]] + s[i + 1..] && s + [c] == s[..i] + [s[i]] + (s[i + 1..] + [c])
  {
  }

  lemma SplitLastMore(s: string, c: char, sep: char)
    requires sep !in s
    ensures Split(s + [c], sep) == OneMore(Split(s, sep), c, sep)
  {
    NoSplit(s, sep);
    if c == sep {
      SplitInTwo(s, sep, "");
      assert s + [sep] + "" == s + [c];
    } else {
      NoSplit(s + [c], sep);
    }
    hide Split, IndexOf;
    assert [s][..0] == [];
  }

  function Join(parts: seq<string>, sep: char): string
    requires |parts| >= 1
  {
    if |parts| == 1 then parts[0] else parts[0] + [sep] + Join(parts[1..], sep)
  }

  lemma {:induction false} JoinPieces(parts: seq<string>, sep: char)
    requires |parts| >= 1 && parts[|parts| - 1] != ""
    ensures var r := Join(parts, sep); var last := parts[|parts| - 1];
            && r != "" && r[|r| - 1] == last[|last| - 1]
            && (forall c :: c in r ==> c == sep || exists p :: p in parts && c in p)
  {
    if |parts| > 1 {
      JoinPieces(parts[1..], sep);
      var r := Join(parts, sep);
      forall c | c in r && c != sep ensures exists p :: p in parts && c in p {
        if c in parts[0] {
        } else {
          assert c in Join(parts[1..], sep);
          var p :| p in parts[1..] && c in p;
          assert p in parts;
        }
      }
    }
  }

  lemma {:induction false} JoinOneMore(parts: seq<string>, last: string, sep: char)
    requires |parts| >= 1
    ensures Join(parts + [last], sep) == Join(parts, sep) + [sep] + last
  {
    if |parts| > 1 {
      assert (parts + [last])[1..] == parts[1..] + [last];
      JoinOneMore(parts[1..], last, sep);
    }
  }

  lemma {:induction false} TrimStartOfConcat(s: string, w: string)
    ensures TrimStart(s + w) == if TrimStart(s) == "" then TrimStart(w) else TrimStart(s) + w
  {
    if s == "" {
      assert s + w == w;
    } else {
      assert (s + w)[0] == s[0] && (s + w)[1..] == s[1..] + w;
      TrimStartOfConcat(s[1..], w);
    }
  }

  /** White space added at the end is trimmed. */
  lemma TrimOfConcat(s: string, w: string)
    requires forall c :: c in w ==> IsWhitespace(c)
    ensures Trim(s + w) == Trim(s)
  {
    TrimStartOfConcat(s, w);
    TrimEndOfWhitespace(TrimStart(s), w);
    TrimStartOfWhitespace(w, "");
    assert w + "" == w;
  }

  /** Trimming takes nothing visible away. */
  lemma {:induction false} TrimStartKeeps(s: string, c: char)
    requires c in s && !IsWhitespace(c)
    ensures c in TrimStart(s)
  {
    if IsWhitespace(s[0]) {
      assert s == [s[0]] + s[1..];
      TrimStartKeeps(s[1..], c);
    }
  }

  lemma {:induction false} TrimEndKeeps(s: string, c: char)
    requires c in s && !IsWhitespace(c)
    ensures c in TrimEnd(s)
  {
    if IsWhitespace(s[|s| - 1]) {
      assert s == s[..|s| - 1] + [s[|s| - 1]];
      TrimEndKeeps(s[..|s| - 1], c);
    }
  }

  lemma TrimKeeps(s: string, c: char)
    requires c in s && !IsWhitespace(c)
    ensures c in Trim(s)
  {
    TrimStartKeeps(s, c);
    TrimEndKeeps(TrimStart(s), c);
  }

  // ---------- lines of a file ----------

  function StripCr(line: string): (r: string)
    ensures r <= line
  {
    if line != "" && line[|line| - 1] == '\r' then line[..|line| - 1] else line
  }

  /** The lines a buffered reader yields: terminators (`\n` or `\r\n`) removed, no empty last line. */
  function Lines(content: string): seq<string> {
    LinesFrom("", content)
  }

  /** The lines of the text to come when part of the current line has been read. */
  function LinesFrom(current: string, rest: string): seq<string>
    decreases |rest|
  {
    if rest == "" then (if current == "" then [] else [current])
    else if rest[0] == '\n' then [StripCr(current)] + LinesFrom("", rest[1..])
    else LinesFrom(current + [rest[0]], rest[1..])
  }

  /** The content ends where a line ends, so text appended to it starts a new line. */
  predicate WholeLines(content: string) {
    content == "" || content[|content| - 1] == '\n'
  }

  lemma {:induction false} LinesHoldNoBreak(current: string, rest: string)
    requires '\n' !in current
    ensures forall l :: l in LinesFrom(current, rest) ==> '\n' !in l
    decreases |rest|
  {
    if rest != "" {
      LinesHoldNoBreak(if rest[0] == '\n' then "" else current + [rest[0]], rest[1..]);
    }
  }

  lemma {:induction false} LinesOfConcat(current: string, a: string, b: string)
    requires if a == "" then current == "" else a[|a| - 1] == '\n'
    ensures LinesFrom(current, a + b) == LinesFrom(current, a) + Lines(b)
    decreases |a|
  {
    if a == "" {
      assert a + b == b;
    } else {
      assert (a + b)[0] == a[0] && (a + b)[1..] == a[1..] + b;
      LinesOfConcat(if a[0] == '\n' then "" else current + [a[0]], a[1..], b);
    }
  }

  lemma {:induction false} LinesOfOne(current: string, rest: string)
    requires '\n' !in rest
    ensures LinesFrom(current, rest + "\n") == [StripCr(current + rest)]
    decreases |rest|
  {
    var s := rest + "\n";
    if rest == "" {
      assert s[1..] == "" && current + rest == current;
    } else {
      assert s[0] == rest[0] && s[1..] == rest[1..] + "\n";
      LinesOfOne(current + [rest[0]], rest[1..]);
      assert current + [rest[0]] + rest[1..] == current + rest;
    }
  }
}
