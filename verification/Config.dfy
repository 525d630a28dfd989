/**
 * The INI reader (services/config/config.cpp): the line-by-line loader, what a
 * file means declaratively, and the round trip through a printed file.
 */
module Config {
  import opened Basics

  datatype ConfigError = Success | InvalidArgument | FileNotFound

  datatype Entry = Entry(value: string, line: nat)

  // ---------------------------------------------------------------------------
  // Trimming
  // ---------------------------------------------------------------------------

  predicate IsSpace(c: char) {
    c == ' ' || c == '\t' || c == '\r' || c == '\n'
  }

  predicate Trimmed(s: string) {
    s == "" || (!IsSpace(s[0]) && !IsSpace(s[|s| - 1]))
  }

  function TrimLeft(s: string): string {
    if s != "" && IsSpace(s[0]) then TrimLeft(s[1..]) else s
  }

  function TrimRight(s: string): string {
    if s != "" && IsSpace(s[|s| - 1]) then TrimRight(s[..|s| - 1]) else s
  }

  lemma {:induction false} TrimLeftStrips(s: string)
    ensures var r := TrimLeft(s);
      && |r| <= |s| && r == s[|s| - |r|..]
      && (forall i | 0 <= i < |s| - |r| :: IsSpace(s[i]))
      && (r != "" ==> !IsSpace(r[0]))
  {
    if s != "" && IsSpace(s[0]) {
      TrimLeftStrips(s[1..]);
      var n := |s| - |TrimLeft(s[1..])|;
      assert s[1..][n - 1..] == s[n..];
      forall i | 0 <= i < n ensures IsSpace(s[i]) {
        assert i > 0 ==> s[i] == s[1..][i - 1];
      }
    }
  }

  lemma {:induction false} TrimRightStrips(s: string)
    ensures var r := TrimRight(s);
      && |r| <= |s| && r == s[..|r|]
      && (forall i | |r| <= i < |s| :: IsSpace(s[i]))
      && (r != "" ==> !IsSpace(r[|r| - 1]))
  {
    if s != "" && IsSpace(s[|s| - 1]) {
      TrimRightStrips(s[..|s| - 1]);
      var n := |TrimRight(s[..|s| - 1])|;
      forall i | n <= i < |s| ensures IsSpace(s[i]) {
        assert i < |s| - 1 ==> s[i] == s[..|s| - 1][i];
      }
    }
  }

  function Trim(s: string): (r: string)
    ensures Trimmed(r)
  {
    TrimLeftStrips(s);
    TrimRightStrips(TrimLeft(s));
    TrimRight(TrimLeft(s))
  }

  /** What is left is the string between its leading and its trailing white space. */
  lemma TrimStripsOnlySpace(s: string) returns (a: nat, b: nat)
    ensures a <= b <= |s| && Trim(s) == s[a..b]
    ensures forall i | 0 <= i < a || b <= i < |s| :: s[i] in " \t\r\n"
    ensures a < b ==> s[a] !in " \t\r\n" && s[b - 1] !in " \t\r\n"
  {
    hide TrimLeft, TrimRight;
    TrimLeftStrips(s);
    TrimRightStrips(TrimLeft(s));
    var l := TrimLeft(s);
    var r := TrimRight(l);
    a, b := |s| - |l|, |s| - |l| + |r|;
    assert r == s[a..b];
    forall i | b <= i < |s| ensures IsSpace(s[i]) {
      assert s[i] == l[i - a];
    }
  }

  lemma TrimmedIsKept(s: string)
    requires Trimmed(s)
    ensures Trim(s) == s
  {
  }

  // ---------------------------------------------------------------------------
  // One line
  // ---------------------------------------------------------------------------

  datatype Line = Ignored | Header(name: string) | Assign(key: string, value: string)

  /** The first index of `c`, or the length. */
  function Find(s: string, c: char): (i: nat)
    ensures i <= |s| && (i < |s| ==> s[i] == c) && forall j | 0 <= j < i :: s[j] != c
  {
    if s == "" || s[0] == c then 0 else 1 + Find(s[1..], c)
  }

  function ParseHeader(t: string): Line
    requires t != "" && t[0] == '['
  {
    if t[|t| - 1] != ']' then Ignored
    else
      var name := Trim(t[1..|t| - 1]);
      if name == "" || '[' in name || ']' in name then Ignored else Header(name)
  }

  function ParseAssignment(t: string): Line {
    var eq := Find(t, '=');
    if eq == |t| then Ignored
    else
      var key := Trim(t[..eq]);
      if key == "" then Ignored else Assign(key, Trim(t[eq + 1..]))
  }

  /** Blank lines, comments and everything malformed are ignored. */
  function ParseLine(line: string): Line {
    var t := Trim(line);
    if t == "" || t[0] == '#' || t[0] == ';' then Ignored
    else if t[0] == '[' then ParseHeader(t)
    else ParseAssignment(t)
  }

  function FullKey(section: string, key: string): string {
    if section == "" then key else section + "." + key
  }

  // ---------------------------------------------------------------------------
  // Which lines are read as what
  // ---------------------------------------------------------------------------

  predicate AllSpace(s: string) {
    forall i | 0 <= i < |s| :: IsSpace(s[i])
  }

  lemma {:induction false} TrimLeftPadded(a: string, s: string)
    requires AllSpace(a)
    ensures TrimLeft(a + s) == TrimLeft(s)
  {
    if a == "" {
      assert a + s == s;
    } else {
      TrimLeftPadded(a[1..], s);
      assert (a + s)[1..] == a[1..] + s && (a + s)[0] == a[0];
    }
  }

  lemma {:induction false} TrimRightPadded(s: string, b: string)
    requires AllSpace(b)
    ensures TrimRight(s + b) == TrimRight(s)
  {
    if b == "" {
      assert s + b == s;
    } else {
      var n := |b| - 1;
      TrimRightPadded(s, b[..n]);
      assert (s + b)[..|s + b| - 1] == s + b[..n] && (s + b)[|s + b| - 1] == b[n];
    }
  }

  /** White space around a trimmed string is all that trimming takes away. */
  lemma TrimPadded(a: string, s: string, b: string)
    requires AllSpace(a) && AllSpace(b) && Trimmed(s)
    ensures Trim(a + s + b) == s
  {
    assert a + s + b == a + (s + b);
    TrimLeftPadded(a, s + b);
    if s == "" {
      assert s + b == b + "";
      TrimLeftPadded(b, "");
    } else {
      assert (s + b)[0] == s[0];
      TrimRightPadded(s, b);
    }
  }

  /** And every string is its trimmed core with white space around it. */
  lemma Padding(s: string) returns (a: string, b: string)
    ensures AllSpace(a) && AllSpace(b) && s == a + Trim(s) + b
  {
    hide Trim;
    var i, j := TrimStripsOnlySpace(s);
    a, b := s[..i], s[j..];
  }

  predicate WellFormedKey(k: string) {
    k != "" && Trimmed(k) && '=' !in k && k[0] != '#' && k[0] != ';' && k[0] != '['
  }

  /** A line that assigns `v` to `k`, with any white space around the two. */
  ghost predicate AssignsIn(line: string, k: string, v: string, a: string, b: string, c: string, d: string) {
    && AllSpace(a) && AllSpace(b) && AllSpace(c) && AllSpace(d)
    && line == a + k + b + "=" + c + v + d
    && WellFormedKey(k) && Trimmed(v)
  }

  /** What is left of such a line once trimmed. */
  lemma CoreIsRead(t: string, k: string, b: string, c: string, v: string)
    requires AllSpace(b) && AllSpace(c) && t == k + b + "=" + c + v && WellFormedKey(k) && Trimmed(v)
    ensures t != "" && t[0] == k[0] && ParseAssignment(t) == Assign(k, v)
  {
    hide Trim, Find;
    var n := |k + b|;
    assert t[n] == '=' && forall j | 0 <= j < n :: t[j] == (k + b)[j] != '=';
    FindIs(t, '=', n);
    assert t[..n] == "" + k + b && t[n + 1..] == c + v + "";
    TrimPadded("", k, b);
    TrimPadded(c, v, "");
  }

  lemma PaddedAssignmentIsRead(line: string, k: string, v: string, a: string, b: string, c: string, d: string)
    requires AssignsIn(line, k, v, a, b, c, d)
    ensures ParseLine(line) == Assign(k, v)
  {
    hide Trim, ParseAssignment;
    var c', d' := if v == "" then "" else c, if v == "" then c + d else d;
    var t := k + b + "=" + c' + v;
    assert line == a + t + d';
    CoreIsRead(t, k, b, c', v);
    assert t[|t| - 1] == if v == "" then '=' else v[|v| - 1];
    TrimPadded(a, t, d');
  }

  lemma AssignmentWasPadded(line: string, k: string, v: string)
    returns (a: string, b: string, c: string, d: string)
    requires ParseLine(line) == Assign(k, v)
    ensures AssignsIn(line, k, v, a, b, c, d)
  {
    hide Trim, Find, AssignsIn, AllSpace;
    var t := Trim(line);
    var eq := Find(t, '=');
    assert t[eq] == '=' && '=' !in t[..eq];
    var pre, post := Padding(line);
    var pre2, post2 := Padding(t[..eq]);
    var pre3, post3 := Padding(t[eq + 1..]);
    a, b, c, d := pre, post2, pre3, post3 + post;
    SplitAt(t, eq);
    NoPaddingInFront(t, eq, pre2, k, post2);
    Reassemble(line, pre, k, post2, pre3, v, post3, post);
    AssemblyAssigns(line, k, v, a, b, c, post3, post);
  }

  lemma SplitAt(t: string, eq: nat)
    requires eq < |t| && t[eq] == '='
    ensures t == t[..eq] + "=" + t[eq + 1..]
  {
  }

  lemma NoPaddingInFront(t: string, eq: nat, pre: string, k: string, post: string)
    requires Trimmed(t) && eq <= |t| && t[..eq] == pre + k + post && k != "" && AllSpace(pre) && '=' !in t[..eq]
    ensures pre == "" && k[0] == t[0] && '=' !in k
  {
    assert t[0] == t[..eq][0] == (pre + k + post)[0] == (if pre == "" then k else pre)[0];
    assert forall i | 0 <= i < |k| :: k[i] == t[..eq][|pre| + i];
  }

  lemma Reassemble(
    line: string, pre: string, k: string, b: string, c: string, v: string, post3: string, post: string)
    requires line == pre + ("" + k + b + "=" + (c + v + post3)) + post
    ensures line == pre + k + b + "=" + c + v + (post3 + post)
  {
  }

  lemma AssemblyAssigns(
    line: string, k: string, v: string, a: string, b: string, c: string, post3: string, post: string)
    requires AllSpace(a) && AllSpace(b) && AllSpace(c) && AllSpace(post3) && AllSpace(post)
    requires line == a + k + b + "=" + c + v + (post3 + post) && WellFormedKey(k) && Trimmed(v)
    ensures AssignsIn(line, k, v, a, b, c, post3 + post)
  {
  }

  /**
   * A line is read as the assignment of `v` to `k` if and only if it is k=v with
   * white space around the two, both trimmed, and the key not empty, without an
   * '=' and not starting like a comment or a header.
   */
  lemma AssignmentsAreRead(line: string, k: string, v: string)
    ensures ParseLine(line) == Assign(k, v) <==> exists a, b, c, d :: AssignsIn(line, k, v, a, b, c, d)
  {
    hide ParseLine, AssignsIn;
    if ParseLine(line) == Assign(k, v) {
      var a, b, c, d := AssignmentWasPadded(line, k, v);
    }
    if a, b, c, d :| AssignsIn(line, k, v, a, b, c, d) {
      PaddedAssignmentIsRead(line, k, v, a, b, c, d);
    }
  }

  /** A line that is a header of section `name`, with any white space around the brackets and the name. */
  ghost predicate HeaderIn(line: string, name: string, a: string, p: string, q: string, b: string) {
    && AllSpace(a) && AllSpace(p) && AllSpace(q) && AllSpace(b)
    && line == a + "[" + p + name + q + "]" + b
    && name != "" && Trimmed(name) && '[' !in name && ']' !in name
  }

  lemma PaddedHeaderIsRead(line: string, name: string, a: string, p: string, q: string, b: string)
    requires HeaderIn(line, name, a, p, q, b)
    ensures ParseLine(line) == Header(name)
  {
    hide Trim, Find;
    var t := "[" + p + name + q + "]";
    assert line == a + t + b && t[0] == '[' && t[|t| - 1] == ']';
    TrimPadded(a, t, b);
    assert t[1..|t| - 1] == p + name + q;
    TrimPadded(p, name, q);
  }

  lemma HeaderWasPadded(line: string, name: string) returns (a: string, p: string, q: string, b: string)
    requires ParseLine(line) == Header(name)
    ensures HeaderIn(line, name, a, p, q, b)
  {
    hide Trim, Find;
    var t := Trim(line);
    a, b := Padding(line);
    p, q := Padding(t[1..|t| - 1]);
    assert t == "[" + t[1..|t| - 1] + "]";
  }

  /**
   * A line is read as the header of a section if and only if it is its name in
   * brackets, with white space around, the name not empty and bracket-free.
   * Every other line that assigns nothing is ignored.
   */
  lemma HeadersAreRead(line: string, name: string)
    ensures ParseLine(line) == Header(name) <==> exists a, p, q, b :: HeaderIn(line, name, a, p, q, b)
  {
    hide ParseLine, HeaderIn;
    if ParseLine(line) == Header(name) {
      var a, p, q, b := HeaderWasPadded(line, name);
    }
    if a, p, q, b :| HeaderIn(line, name, a, p, q, b) {
      PaddedHeaderIsRead(line, name, a, p, q, b);
    }
  }

  lemma FindIs(s: string, c: char, n: nat)
    requires n < |s| && s[n] == c && forall j | 0 <= j < n :: s[j] != c
    ensures Find(s, c) == n
  {
    assert Find(s, c) <= n;
  }

  // ---------------------------------------------------------------------------
  // What a file means
  // ---------------------------------------------------------------------------

  /** The section in force at line `i`: that of the nearest preceding valid header. */
  function SectionAt(lines: seq<string>, i: nat): string
    requires i <= |lines|
  {
    if i == 0 then ""
    else match ParseLine(lines[i - 1])
      case Header(name) => name
      case _ => SectionAt(lines, i - 1)
  }

  lemma {:induction false} SectionIsNearestHeader(lines: seq<string>, i: nat) returns (j: nat)
    requires i <= |lines|
    ensures j <= i && forall k | j <= k < i :: !ParseLine(lines[k]).Header?
    ensures if j == 0 then SectionAt(lines, i) == "" else ParseLine(lines[j - 1]) == Header(SectionAt(lines, i))
  {
    hide ParseLine;
    if i == 0 || ParseLine(lines[i - 1]).Header? {
      j := i;
    } else {
      j := SectionIsNearestHeader(lines, i - 1);
    }
  }

  /** The full key line `i` assigns to, if it is a well-formed assignment. */
  function KeyAt(lines: seq<string>, i: nat): Option<string>
    requires i < |lines|
  {
    match ParseLine(lines[i])
    case Assign(key, value) => Some(FullKey(SectionAt(lines, i), key))
    case _ => None
  }

  /** The full key is the key itself before any header, and the section's name, a dot and the key after one. */
  lemma KeysAreDotted(lines: seq<string>, i: nat)
    requires i < |lines| && ParseLine(lines[i]).Assign?
    ensures var key := ParseLine(lines[i]).key;
      KeyAt(lines, i) == Some(if (forall j | 0 <= j < i :: !ParseLine(lines[j]).Header?) then key
                              else SectionAt(lines, i) + "." + key)
  {
    var j := SectionIsNearestHeader(lines, i);
    if j > 0 {
      HeaderIsNamed(lines[j - 1]);
      assert ParseLine(lines[j - 1]).Header?;
    }
  }

  lemma HeaderIsNamed(line: string)
    ensures ParseLine(line).Header? ==> ParseLine(line).name != ""
  {
  }

  /** Every assigned key has an entry; every entry is the last assignment to its key, with its line number. */
  ghost predicate Means(lines: seq<string>, entries: map<string, Entry>) {
    && (forall i | 0 <= i < |lines| && KeyAt(lines, i).Some? :: KeyAt(lines, i).value in entries)
    && (forall k | k in entries :: LastAssignment(lines, k, entries[k]))
  }

  ghost predicate LastAssignment(lines: seq<string>, k: string, e: Entry) {
    && 0 < e.line <= |lines|
    && KeyAt(lines, e.line - 1) == Some(k)
    && e.value == ParseLine(lines[e.line - 1]).value
    && forall j | e.line <= j < |lines| :: KeyAt(lines, j) != Some(k)
  }

  /** A file has one meaning. */
  lemma MeaningIsUnique(lines: seq<string>, a: map<string, Entry>, b: map<string, Entry>)
    requires Means(lines, a) && Means(lines, b)
    ensures a == b
  {
    hide ParseLine, SectionAt, FullKey;
    forall k | k in a ensures k in b && b[k] == a[k] {
      assert LastAssignment(lines, k, a[k]);
      assert k in b && LastAssignment(lines, k, b[k]);
    }
    forall k | k in b ensures k in a {
      assert LastAssignment(lines, k, b[k]);
    }
  }

  /** The first `n` lines of a file have the same section in force at each of them as the file has. */
  lemma {:induction false} SectionOfPrefix(lines: seq<string>, n: nat, i: nat)
    requires i <= n <= |lines|
    ensures SectionAt(lines[..n], i) == SectionAt(lines, i)
  {
    hide ParseLine;
    if i > 0 {
      SectionOfPrefix(lines, n, i - 1);
    }
  }

  lemma KeyOfPrefix(lines: seq<string>, n: nat, i: nat)
    requires i < n <= |lines|
    ensures KeyAt(lines[..n], i) == KeyAt(lines, i)
  {
    hide ParseLine;
    SectionOfPrefix(lines, n, i);
  }

  /** The entries after one more line. */
  function Extended(lines: seq<string>, i: nat, entries: map<string, Entry>): map<string, Entry>
    requires i < |lines|
  {
    match ParseLine(lines[i])
    case Assign(key, value) => entries[FullKey(SectionAt(lines, i), key) := Entry(value, i + 1)]
    case _ => entries
  }

  lemma ExtendedMeans(lines: seq<string>, i: nat, entries: map<string, Entry>)
    requires i < |lines| && Means(lines[..i], entries)
    ensures Means(lines[..i + 1], Extended(lines, i, entries))
  {
    hide ParseLine, SectionAt, FullKey;
    var before, after, entries' := lines[..i], lines[..i + 1], Extended(lines, i, entries);
    forall j | 0 <= j < i + 1 ensures KeyAt(after, j) == KeyAt(lines, j) {
      KeyOfPrefix(lines, i + 1, j);
    }
    forall j | 0 <= j < i ensures KeyAt(before, j) == KeyAt(lines, j) {
      KeyOfPrefix(lines, i, j);
    }
    forall k | k in entries' ensures LastAssignment(after, k, entries'[k]) {
      if KeyAt(lines, i) != Some(k) {
        assert LastAssignment(before, k, entries[k]);
        assert before[entries[k].line - 1] == after[entries[k].line - 1];
      }
    }
    forall j | 0 <= j < |after| && KeyAt(after, j).Some? ensures KeyAt(after, j).value in entries' {
      if j < i {
        assert KeyAt(before, j).Some?;
      }
    }
  }

  // ---------------------------------------------------------------------------
  // The loader
  // ---------------------------------------------------------------------------

  class Config {
    var entries: map<string, Entry>

    constructor ()
      ensures entries == map[]
    {
      entries := map[];
    }

    /**
     * Load, with the file's content in place of the file. An empty path or a
     * missing file leaves the entries alone; otherwise they become what the
     * file means.
     */
    method Load(path: string, file: Option<string>) returns (error: ConfigError)
      modifies this
      ensures error == if path == "" then InvalidArgument else if file.None? then FileNotFound else Success
      ensures error != Success ==> entries == old(entries)
      ensures error == Success ==> Means(SplitLines(file.value), entries)
    {
      if path == "" {
        return InvalidArgument;
      }
      if file.None? {
        return FileNotFound;
      }
      entries := map[];
      var section := "";
      var lines := SplitLines(file.value);
      var i := 0;
      while i < |lines|
        invariant i <= |lines|
        invariant section == SectionAt(lines, i)
        invariant Means(lines[..i], entries)
      {
        hide ParseLine, Means;
        ExtendedMeans(lines, i, entries);
        match ParseLine(lines[i]) {
          case Ignored =>
          case Header(name) =>
            section := name;
          case Assign(key, value) =>
            entries := entries[FullKey(section, key) := Entry(value, i + 1)];
        }
        i := i + 1;
      }
      assert lines[..i] == lines;
      error := Success;
    }
  }

  /** std::getline until the end of the file: a final newline starts no further line. */
  function SplitLines(content: string): seq<string>
    decreases |content|
  {
    if content == "" then []
    else
      var n := Find(content, '\n');
      if n == |content| then [content] else [content[..n]] + SplitLines(content[n + 1..])
  }

  /** The lines, each with the newline that ends it. */
  function Unsplit(lines: seq<string>): string {
    if lines == [] then "" else lines[0] + "\n" + Unsplit(lines[1..])
  }

  /** The lines of a file are its text cut at the newlines, a missing last newline being made up for. */
  lemma {:induction false} SplitIsExact(content: string)
    ensures forall i | 0 <= i < |SplitLines(content)| :: '\n' !in SplitLines(content)[i]
    ensures Unsplit(SplitLines(content)) ==
      if content == "" || content[|content| - 1] == '\n' then content else content + "\n"
    decreases |content|
  {
    hide Find, SplitLines, Unsplit;
    if content == "" {
      SplitNothing();
    } else {
      var n := Find(content, '\n');
      if n < |content| {
        SplitFirst(content, n);
        SplitIsExact(content[n + 1..]);
        LastOf(content, n);
      } else {
        SplitLast(content);
      }
    }
  }

  lemma SplitNothing()
    ensures SplitLines("") == [] && Unsplit([]) == ""
  {
  }

  lemma SplitFirst(content: string, n: nat)
    requires n < |content| && Find(content, '\n') == n
    ensures SplitLines(content) == [content[..n]] + SplitLines(content[n + 1..]) && '\n' !in content[..n]
    ensures Unsplit(SplitLines(content)) == content[..n] + "\n" + Unsplit(SplitLines(content[n + 1..]))
  {
    hide Find;
    assert ([content[..n]] + SplitLines(content[n + 1..]))[1..] == SplitLines(content[n + 1..]);
  }

  lemma SplitLast(content: string)
    requires content != "" && Find(content, '\n') == |content|
    ensures SplitLines(content) == [content] && '\n' !in content && Unsplit([content]) == content + "\n"
  {
    hide Find;
    assert Unsplit([content][1..]) == "";
  }

  lemma LastOf(content: string, n: nat)
    requires n < |content| && content[n] == '\n'
    ensures content == content[..n] + "\n" + content[n + 1..]
    ensures content[|content| - 1] == if n + 1 == |content| then '\n' else content[n + 1..][|content| - n - 2]
    ensures (content[..n] + "\n") + (content[n + 1..] + "\n") == content + "\n"
  {
  }

  // ---------------------------------------------------------------------------
  // The round trip
  // ---------------------------------------------------------------------------

  predicate PrintableKey(k: string) {
    WellFormedKey(k) && '\n' !in k
  }

  predicate PrintableValue(v: string) {
    Trimmed(v) && '\n' !in v
  }

  function Print(pairs: seq<(string, string)>): string {
    if pairs == [] then "" else PrintLine(pairs[0]) + "\n" + Print(pairs[1..])
  }

  function PrintLine(p: (string, string)): string {
    p.0 + "=" + p.1
  }

  ghost predicate Printable(pairs: seq<(string, string)>) {
    forall p | p in pairs :: PrintableKey(p.0) && PrintableValue(p.1)
  }

  lemma ParsePrinted(p: (string, string))
    requires WellFormedKey(p.0) && Trimmed(p.1)
    ensures ParseLine(PrintLine(p)) == Assign(p.0, p.1)
  {
    hide ParseLine;
    assert PrintLine(p) == "" + p.0 + "" + "=" + "" + p.1 + "";
    PaddedAssignmentIsRead(PrintLine(p), p.0, p.1, "", "", "", "");
  }

  lemma SplitPrinted(line: string, rest: string)
    requires '\n' !in line
    ensures SplitLines(line + "\n" + rest) == [line] + SplitLines(rest)
  {
    var s := line + "\n" + rest;
    assert s[|line|] == '\n';
    FindIs(s, '\n', |line|);
    assert s[..|line|] == line && s[|line| + 1..] == rest;
  }

  lemma {:induction false} PrintedLines(pairs: seq<(string, string)>)
    requires Printable(pairs)
    ensures |SplitLines(Print(pairs))| == |pairs|
    ensures forall i | 0 <= i < |pairs| :: SplitLines(Print(pairs))[i] == PrintLine(pairs[i])
  {
    if pairs != [] {
      hide Find, SplitLines;
      assert pairs[0] in pairs && '\n' !in PrintLine(pairs[0]);
      SplitPrinted(PrintLine(pairs[0]), Print(pairs[1..]));
      PrintedLines(pairs[1..]);
    }
  }

  lemma {:induction false} NoSections(lines: seq<string>, i: nat)
    requires i <= |lines| && forall j | 0 <= j < |lines| :: ParseLine(lines[j]).Assign?
    ensures SectionAt(lines, i) == ""
  {
    hide ParseLine;
    if i > 0 {
      NoSections(lines, i - 1);
    }
  }

  lemma PrintedMeaning(pairs: seq<(string, string)>, i: nat)
    requires Printable(pairs) && i < |pairs|
    ensures var lines := SplitLines(Print(pairs));
      |lines| == |pairs| && KeyAt(lines, i) == Some(pairs[i].0) && ParseLine(lines[i]) == Assign(pairs[i].0, pairs[i].1)
  {
    hide ParseLine, SplitLines, Print, PrintLine;
    var lines := SplitLines(Print(pairs));
    PrintedLines(pairs);
    forall j | 0 <= j < |pairs| ensures ParseLine(lines[j]) == Assign(pairs[j].0, pairs[j].1) {
      assert pairs[j] in pairs;
      ParsePrinted(pairs[j]);
    }
    NoSections(lines, i);
  }

  /**
   * Printing and loading is the identity. For any list of distinct printable
   * keys with printable values, loading the printed file yields exactly those
   * keys, each with its value and the number of its line.
   */
  lemma LoadUndoesPrint(pairs: seq<(string, string)>, entries: map<string, Entry>)
    requires Printable(pairs) && forall i, j | 0 <= i < j < |pairs| :: pairs[i].0 != pairs[j].0
    requires Means(SplitLines(Print(pairs)), entries)
    ensures forall i | 0 <= i < |pairs| :: pairs[i].0 in entries && entries[pairs[i].0] == Entry(pairs[i].1, i + 1)
    ensures entries.Keys == set p | p in pairs :: p.0
  {
    hide ParseLine, SplitLines, Print, PrintLine, KeyAt, Printable, LastAssignment;
    var lines := SplitLines(Print(pairs));
    PrintedLines(pairs);
    forall i | 0 <= i < |pairs| ensures pairs[i].0 in entries && entries[pairs[i].0] == Entry(pairs[i].1, i + 1) {
      PrintedMeaning(pairs, i);
      EntryIsOwn(pairs, lines, entries[pairs[i].0], i);
    }
    forall k | k in entries ensures k in set p | p in pairs :: p.0 {
      OwnEntry(pairs, lines, k, entries[k]);
    }
  }

  /** The round trip itself: print the pairs, load the file, and have the map back. */
  method PrintThenLoad(path: string, pairs: seq<(string, string)>) returns (config: Config, error: ConfigError)
    requires Printable(pairs) && forall i, j | 0 <= i < j < |pairs| :: pairs[i].0 != pairs[j].0
    ensures fresh(config) && (error == Success <==> path != "")
    ensures error == Success ==>
      && config.entries.Keys == (set p | p in pairs :: p.0)
      && forall i | 0 <= i < |pairs| ::
           pairs[i].0 in config.entries && config.entries[pairs[i].0] == Entry(pairs[i].1, i + 1)
  {
    hide Printable, Means, SplitLines, Print;
    config := new Config();
    error := config.Load(path, Some(Print(pairs)));
    if error == Success {
      LoadUndoesPrint(pairs, config.entries);
    }
  }

  /** A section and one assignment in it: the entry is under the section's name, a dot and the key. */
  lemma SectionedKeyIsLoaded(section: string, key: string, value: string, entries: map<string, Entry>)
    requires section != "" && Trimmed(section) && '[' !in section && ']' !in section
    requires WellFormedKey(key) && Trimmed(value)
    requires Means(["[" + section + "]", key + "=" + value], entries)
    ensures entries == map[section + "." + key := Entry(value, 2)]
  {
    hide ParseLine;
    var lines := ["[" + section + "]", key + "=" + value];
    assert lines[0] == "" + "[" + "" + section + "" + "]" + "";
    PaddedHeaderIsRead(lines[0], section, "", "", "", "");
    ParsePrinted((key, value));
    assert SectionAt(lines, 1) == section;
    KeysAreDotted(lines, 1);
    assert KeyAt(lines, 0) == None && KeyAt(lines, 1) == Some(section + "." + key);
    forall k | k in entries ensures k == section + "." + key && entries[k] == Entry(value, 2) {
      assert LastAssignment(lines, k, entries[k]);
    }
  }

  lemma OwnEntry(pairs: seq<(string, string)>, lines: seq<string>, k: string, e: Entry)
    requires Printable(pairs) && lines == SplitLines(Print(pairs)) && LastAssignment(lines, k, e)
    ensures 0 < e.line <= |pairs| && pairs[e.line - 1].0 == k && pairs[e.line - 1].1 == e.value
  {
    hide ParseLine, SplitLines, Print, KeyAt, Printable;
    PrintedLines(pairs);
    PrintedMeaning(pairs, e.line - 1);
  }

  lemma EntryIsOwn(pairs: seq<(string, string)>, lines: seq<string>, e: Entry, i: nat)
    requires Printable(pairs) && forall i, j | 0 <= i < j < |pairs| :: pairs[i].0 != pairs[j].0
    requires lines == SplitLines(Print(pairs)) && i < |pairs| && LastAssignment(lines, pairs[i].0, e)
    ensures e == Entry(pairs[i].1, i + 1)
  {
    hide LastAssignment, SplitLines, Print, Printable;
    OwnEntry(pairs, lines, pairs[i].0, e);
  }
}
