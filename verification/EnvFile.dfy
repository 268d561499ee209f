/** The two readers of an instance's .env file: the map of every assignment, and the first value of one key. */
module EnvFile {
  import opened Common

  // ---------------------------------------------------------------- strings

  predicate OneLine(s: string) {
    '\n' !in s
  }

  /** White space as Unicode has it. */
  predicate IsSpace(c: char) {
    var n := c as int;
    || 0x09 <= n <= 0x0D || n == 0x20 || n == 0x85 || n == 0xA0 || n == 0x1680 || 0x2000 <= n <= 0x200A
    || n == 0x2028 || n == 0x2029 || n == 0x202F || n == 0x205F || n == 0x3000
  }

  predicate Trimmed(s: string) {
    s != "" ==> !IsSpace(s[0]) && !IsSpace(s[|s| - 1])
  }

  function Trim(s: string): (r: string)
    ensures Trimmed(r) && |r| <= |s|
    ensures Trimmed(s) ==> r == s
  {
    if s != "" && IsSpace(s[0]) then Trim(s[1..])
    else if s != "" && IsSpace(s[|s| - 1]) then Trim(s[..|s| - 1])
    else s
  }

  ghost predicate AllSpace(s: string) {
    forall i :: 0 <= i < |s| ==> IsSpace(s[i])
  }

  lemma FirstAndRest(s: string, left: string, mid: string, right: string)
    requires s != "" && s[1..] == left + mid + right
    ensures s == ([s[0]] + left) + mid + right
  {
    assert s == [s[0]] + s[1..];
  }

  lemma LastAndRest(s: string, left: string, mid: string, right: string)
    requires s != "" && s[..|s| - 1] == left + mid + right
    ensures s == left + mid + (right + [s[|s| - 1]])
  {
    assert s == s[..|s| - 1] + [s[|s| - 1]];
  }

  /** Trimming takes white space off both ends and nothing else. */
  lemma {:induction false} TrimIsMiddle(s: string) returns (left: string, right: string)
    ensures AllSpace(left) && AllSpace(right) && s == left + Trim(s) + right
  {
    if s != "" && IsSpace(s[0]) {
      var inner;
      inner, right := TrimIsMiddle(s[1..]);
      left := [s[0]] + inner;
      FirstAndRest(s, inner, Trim(s), right);
    } else if s != "" && IsSpace(s[|s| - 1]) {
      var inner;
      left, inner := TrimIsMiddle(s[..|s| - 1]);
      right := inner + [s[|s| - 1]];
      LastAndRest(s, left, Trim(s), inner);
    } else {
      left, right := s[..0], s[..0];
    }
  }

  /** The white space of ASCII, and characters that names and values are made of. */
  lemma PlainWhiteSpace(c: char)
    ensures c as int < 128 ==> (IsSpace(c) <==> c in {' ', '\t', '\n', '\r', 11 as char, 12 as char})
    ensures c as int in {0x85, 0xA0, 0x2028, 0x2029, 0x3000} ==> IsSpace(c)
  {
  }

  lemma {:induction false} TrimmedIsOneLine(s: string)
    requires OneLine(s)
    ensures OneLine(Trim(s))
  {
    if s != "" && IsSpace(s[0]) {
      TrimmedIsOneLine(s[1..]);
    } else if s != "" && IsSpace(s[|s| - 1]) {
      TrimmedIsOneLine(s[..|s| - 1]);
    }
  }

  /** The first place of a character, or -1. */
  function Index(s: string, c: char): (r: int)
    ensures -1 <= r < |s|
    ensures r >= 0 ==> s[r] == c && c !in s[..r]
    ensures r < 0 <==> c !in s
  {
    if s == "" then -1
    else if s[0] == c then 0
    else
      var rest := Index(s[1..], c);
      if rest < 0 then -1 else rest + 1
  }

  /** The pieces between the line ends; there is always at least one. */
  function Lines(content: string): (r: seq<string>)
    ensures r != []
  {
    var i := Index(content, '\n');
    if i < 0 then [content] else [content[..i]] + Lines(content[i + 1..])
  }

  ghost predicate AllOneLine(lines: seq<string>) {
    forall i: nat :: i < |lines| ==> OneLine(lines[i])
  }

  lemma {:induction false} LinesAreOneLine(content: string)
    ensures AllOneLine(Lines(content))
  {
    var i := Index(content, '\n');
    if i >= 0 {
      LinesAreOneLine(content[i + 1..]);
    }
  }

  predicate HasPrefix(s: string, prefix: string) {
    prefix <= s
  }

  // ---------------------------------------------------------------- one line

  datatype Entry = Entry(name: string, value: string)

  function Parsed(line: string): Option<Entry> {
    var line := Trim(line);
    var i := Index(line, '=');
    if line == "" || line[0] == '#' || i <= 0 then None
    else Some(Entry(Trim(line[..i]), Trim(line[i + 1..])))
  }

  /** What the first-match reader finds in a line that has it. */
  function ValueAfter(line: string, key: string): Option<string> {
    var line := Trim(line);
    if HasPrefix(line, key + "=") then Some(Trim(line[|key| + 1..])) else None
  }

  // ---------------------------------------------------------------- the two readers

  function Table(lines: seq<string>): map<string, string> {
    if lines == [] then
      map[]
    else
      Extended(Table(lines[..|lines| - 1]), Parsed(lines[|lines| - 1]))
  }

  function Extended(table: map<string, string>, entry: Option<Entry>): map<string, string> {
    if entry.Some? then table[entry.value.name := entry.value.value] else table
  }

  function FirstValue(lines: seq<string>, key: string): string {
    if lines == [] then ""
    else if ValueAfter(lines[0], key).Some? then ValueAfter(lines[0], key).value
    else FirstValue(lines[1..], key)
  }

  method ParseEnv(content: string) returns (out: map<string, string>)
    ensures out == Table(Lines(content))
  {
    out := map[];
    var lines := Lines(content);
    for n := 0 to |lines|
      invariant out == Table(lines[..n])
    {
      assert lines[..n + 1][..n] == lines[..n];
      var line := Trim(lines[n]);
      if line == "" || HasPrefix(line, "#") {
        continue;
      }
      var i := Index(line, '=');
      if i > 0 {
        out := out[Trim(line[..i]) := Trim(line[i + 1..])];
      }
    }
    assert lines[..|lines|] == lines;
  }

  method EnvValue(data: string, key: string) returns (value: string)
    ensures value == FirstValue(Lines(data), key)
  {
    var lines := Lines(data);
    for n := 0 to |lines|
      invariant FirstValue(lines, key) == FirstValue(lines[n..], key)
    {
      var line := Trim(lines[n]);
      if HasPrefix(line, key + "=") {
        return Trim(line[|key| + 1..]);
      }
    }
    return "";
  }

  /** The table of what the lines were parsed to. */
  function TableOf(entries: seq<Option<Entry>>): map<string, string> {
    if entries == [] then
      map[]
    else
      Extended(TableOf(entries[..|entries| - 1]), entries[|entries| - 1])
  }

  predicate Assigns(entry: Option<Entry>, name: string) {
    entry.Some? && entry.value.name == name
  }

  lemma {:induction false} LastEntryWins(entries: seq<Option<Entry>>, name: string, i: nat)
    requires i < |entries| && Assigns(entries[i], name)
    requires forall j :: i < j < |entries| ==> !Assigns(entries[j], name)
    ensures name in TableOf(entries) && TableOf(entries)[name] == entries[i].value.value
  {
    if i < |entries| - 1 {
      LastEntryWins(entries[..|entries| - 1], name, i);
    }
  }

  lemma {:induction false} UnnamedIsAbsent(entries: seq<Option<Entry>>, name: string)
    requires forall j :: 0 <= j < |entries| ==> !Assigns(entries[j], name)
    ensures name !in TableOf(entries)
  {
    if entries != [] {
      UnnamedIsAbsent(entries[..|entries| - 1], name);
    }
  }

  predicate ParsedAt(lines: seq<string>, entries: seq<Option<Entry>>, k: nat) {
    k < |lines| && k < |entries| && entries[k] == Parsed(lines[k])
  }

  /** What the lines are parsed to, line by line. */
  ghost predicate ParsedTo(lines: seq<string>, entries: seq<Option<Entry>>) {
    |entries| == |lines| && forall k: nat :: k < |lines| ==> ParsedAt(lines, entries, k)
  }

  lemma ParsedFront(lines: seq<string>, entries: seq<Option<Entry>>, n: nat, k: nat)
    requires k < n && n <= |lines| && n <= |entries| && ParsedAt(lines, entries, k)
    ensures ParsedAt(lines[..n], entries[..n], k)
  {
  }

  lemma TableSnoc(lines: seq<string>, entry: Option<Entry>)
    requires lines != [] && entry == Parsed(lines[|lines| - 1])
    ensures Table(lines) == Extended(Table(lines[..|lines| - 1]), entry)
  {
  }

  lemma {:induction false} TableIsOfEntries(lines: seq<string>, entries: seq<Option<Entry>>)
    requires ParsedTo(lines, entries)
    ensures Table(lines) == TableOf(entries)
  {
    if lines != [] {
      var n := |lines| - 1;
      forall k: nat | k < n
        ensures ParsedAt(lines[..n], entries[..n], k)
      {
        ParsedFront(lines, entries, n, k);
      }
      TableIsOfEntries(lines[..n], entries[..n]);
      assert ParsedAt(lines, entries, n);
      TableSnoc(lines, entries[n]);
    }
  }

  /** The table holds what the last line that assigns the name says, and no name that no line assigns. */
  lemma LastAssignmentWins(lines: seq<string>, entries: seq<Option<Entry>>, name: string, i: nat)
    requires ParsedTo(lines, entries)
    requires i < |entries| ==> Assigns(entries[i], name)
    requires forall j :: 0 <= j < |entries| && (j > i || i >= |entries|) ==> !Assigns(entries[j], name)
    ensures name in Table(lines) <==> i < |entries|
    ensures i < |entries| ==> Table(lines)[name] == entries[i].value.value
  {
    TableIsOfEntries(lines, entries);
    if i < |entries| {
      LastEntryWins(entries, name, i);
    } else {
      UnnamedIsAbsent(entries, name);
    }
  }

  /** The other reader takes the first line that matches, and the empty string when none does. */
  lemma {:induction false} FirstMatchWins(lines: seq<string>, key: string, i: nat)
    requires i <= |lines| && forall j :: 0 <= j < i ==> !(key + "=" <= Trim(lines[j]))
    requires i < |lines| ==> key + "=" <= Trim(lines[i])
    ensures FirstValue(lines, key) == if i < |lines| then Trim(Trim(lines[i])[|key| + 1..]) else ""
  {
    if i > 0 {
      assert forall j :: 0 <= j < i - 1 ==> lines[1..][j] == lines[j + 1];
      FirstMatchWins(lines[1..], key, i - 1);
    }
  }

  // ---------------------------------------------------------------- when the two agree

  /** Assigns each name once, and right up to its equals sign. */
  ghost predicate Tidy(lines: seq<string>) {
    && (forall i: nat, j: nat :: i < j < |lines| ==> Apart(Parsed(lines[i]), Parsed(lines[j])))
    && (forall i: nat :: i < |lines| ==> Tight(lines[i]))
  }

  predicate Apart(a: Option<Entry>, b: Option<Entry>) {
    a.Some? && b.Some? ==> a.value.name != b.value.name
  }

  predicate Tight(line: string) {
    var t := Trim(line);
    Parsed(line).Some? ==> !IsSpace(t[Index(t, '=') - 1])
  }

  /** A key that no line can hold, or that is a name: nonempty, no comment, and no equals sign in it, unless after a
      space, where no tidy line has one. */
  predicate IsSafe(key: string) {
    || !OneLine(key)
    || (key != "" && IsSpace(key[0]))
    || (key != "" && key[0] != '#'
        && (Index(key, '=') < 0 || (Index(key, '=') > 0 && IsSpace(key[Index(key, '=') - 1]))))
  }

  lemma {:induction false} IndexIsUnique(s: string, c: char, i: nat)
    requires i < |s| && s[i] == c && c !in s[..i]
    ensures Index(s, c) == i
  {
    if i > 0 {
      assert s[..i][0] == s[0] && s[1..][..i - 1] == s[..i][1..];
      IndexIsUnique(s[1..], c, i - 1);
    }
  }

  lemma PrefixAt(line: string, key: string)
    requires HasPrefix(line, key + "=")
    ensures |line| > |key| && line[..|key|] == key && line[|key|] == '='
  {
    assert (key + "=")[|key|] == '=' == line[|key|];
    assert line[..|key|] == (key + "=")[..|key|] == key;
  }

  /** A tidy line is found by a safe key exactly when it assigns it. */
  lemma FoundIffAssigned(line: string, key: string)
    requires OneLine(line) && Tight(line) && IsSafe(key)
    ensures ValueAfter(line, key).Some? <==> Parsed(line).Some? && Parsed(line).value.name == key
    ensures ValueAfter(line, key).Some? ==> Parsed(line).value.value == ValueAfter(line, key).value
  {
    var t := Trim(line);
    if HasPrefix(t, key + "=") {
      SafeMatchIsAssignment(line, key);
    }
    if Parsed(line).Some? && Parsed(line).value.name == key {
      AssignmentMatches(line, key);
    }
  }

  lemma SafeMatchIsAssignment(line: string, key: string)
    requires OneLine(line) && Tight(line) && IsSafe(key) && HasPrefix(Trim(line), key + "=")
    ensures Parsed(line) == Some(Entry(key, ValueAfter(line, key).value))
  {
    var t := Trim(line);
    PrefixAt(t, key);
    MatchedKeyIsPlain(line, key);
    IndexIsUnique(t, '=', |key|);
    LastBefore(t, key, |key|);
    assert Trimmed(key);
  }

  lemma LastBefore(t: string, key: string, i: nat)
    requires 0 < i <= |key| <= |t| && t[..|key|] == key
    ensures t[i - 1] == key[i - 1] && t[0] == key[0]
  {
    assert t[..|key|][i - 1] == t[i - 1] && t[..|key|][0] == t[0];
  }

  lemma FirstEqualsOfPrefix(t: string, key: string)
    requires |key| <= |t| && t[..|key|] == key && Index(key, '=') >= 0
    ensures Index(t, '=') == Index(key, '=')
    ensures Index(key, '=') > 0 ==> t[Index(key, '=') - 1] == key[Index(key, '=') - 1]
  {
    var i := Index(key, '=');
    assert t[..|key|][i] == t[i];
    assert t[..|key|][..i] == t[..i];
    assert i > 0 ==> t[..|key|][i - 1] == t[i - 1];
    IndexIsUnique(t, '=', i);
  }

  lemma MatchedKeyIsPlain(line: string, key: string)
    requires OneLine(line) && Tight(line) && IsSafe(key)
    requires |key| < |Trim(line)| && Trim(line)[..|key|] == key && Trim(line)[|key|] == '='
    ensures key != "" && key[0] != '#' && !IsSpace(key[0]) && '=' !in key
  {
    var t := Trim(line);
    TrimmedIsOneLine(line);
    assert OneLine(t[..|key|]);
    if key != "" {
      LastBefore(t, key, 1);
      if Index(key, '=') > 0 {
        FirstEqualsOfPrefix(t, key);
      }
    }
  }

  lemma AssignmentMatches(line: string, key: string)
    requires Tight(line) && Parsed(line).Some? && Parsed(line).value.name == key
    ensures HasPrefix(Trim(line), key + "=")
  {
    var t := Trim(line);
    var i := Index(t, '=');
    TakeIsTrimmed(t, i);
    TakeOneMore(t, i);
  }

  lemma TakeIsTrimmed(t: string, i: nat)
    requires 0 < i < |t| && Trimmed(t) && !IsSpace(t[i - 1])
    ensures Trim(t[..i]) == t[..i]
  {
    assert t[..i][0] == t[0] && t[..i][i - 1] == t[i - 1];
  }

  lemma TakeOneMore(t: string, i: nat)
    requires i < |t|
    ensures t[..i] + [t[i]] <= t
  {
    assert t == t[..i] + [t[i]] + t[i + 1..];
  }

  lemma TidyFront(lines: seq<string>)
    requires Tidy(lines) && lines != []
    ensures Tidy(lines[..|lines| - 1])
  {
  }

  lemma {:induction false} TableHas(lines: seq<string>, i: nat)
    requires Tidy(lines) && i < |lines| && Parsed(lines[i]).Some?
    ensures var e := Parsed(lines[i]).value; e.name in Table(lines) && Table(lines)[e.name] == e.value
  {
    var n := |lines| - 1;
    if i < n {
      TidyFront(lines);
      TableHas(lines[..n], i);
      assert Apart(Parsed(lines[i]), Parsed(lines[n]));
    }
  }

  lemma {:induction false} TableOnlyHas(lines: seq<string>, name: string) returns (i: nat)
    requires name in Table(lines)
    ensures i < |lines| && Parsed(lines[i]).Some? && Parsed(lines[i]).value == Entry(name, Table(lines)[name])
  {
    var n := |lines| - 1;
    if Parsed(lines[n]).Some? && Parsed(lines[n]).value.name == name {
      i := n;
    } else {
      i := TableOnlyHas(lines[..n], name);
    }
  }

  lemma {:induction false} FirstValueIsAt(lines: seq<string>, key: string) returns (i: nat)
    ensures i < |lines| ==> ValueAfter(lines[i], key) == Some(FirstValue(lines, key))
    ensures i >= |lines| ==>
              FirstValue(lines, key) == "" && forall j :: 0 <= j < |lines| ==> ValueAfter(lines[j], key) == None
  {
    if lines == [] || ValueAfter(lines[0], key).Some? {
      i := 0;
    } else {
      i := FirstValueIsAt(lines[1..], key);
      assert forall j :: 0 < j < |lines| ==> lines[j] == lines[1..][j - 1];
      i := i + 1;
    }
  }

  /** In a tidy file, the first match of a safe key is what the table holds. */
  lemma SafeKeysAgree(lines: seq<string>, key: string)
    requires Tidy(lines) && AllOneLine(lines) && IsSafe(key)
    ensures FirstValue(lines, key) == Lookup(Table(lines), key)
  {
    var i := FirstValueIsAt(lines, key);
    if i < |lines| {
      FoundIffAssigned(lines[i], key);
      TableHas(lines, i);
    } else if key in Table(lines) {
      var k := TableOnlyHas(lines, key);
      FoundIffAssigned(lines[k], key);
      assert false;
    }
  }

  lemma OneLineFile(content: string, key: string)
    requires OneLine(content)
    ensures Lines(content) == [content]
    ensures Tight(content) ==> Tidy(Lines(content))
    ensures FirstValue(Lines(content), key)
            == if ValueAfter(content, key).Some? then ValueAfter(content, key).value else ""
    ensures Table(Lines(content)).Keys == if Parsed(content).Some? then {Parsed(content).value.name} else {}
  {
    assert [content][..0] == [] && [content][1..] == [];
  }

  lemma UnsafeKeyMatches(key: string)
    requires !IsSafe(key)
    ensures OneLine(key + "=v") && Trimmed(key + "=v") && ValueAfter(key + "=v", key) == Some("v")
  {
    var content := key + "=v";
    assert content[|key| + 1] == 'v' && content[|key|] == '=' && content[..|key|] == key;
    assert key != "" ==> content[0] == key[0];
    assert content[|key| + 1..] == "v" && Trimmed("v");
    assert content == key + "=" + "v";
  }

  lemma UnsafeKeyIsNotAssigned(key: string)
    requires !IsSafe(key) && Trimmed(key + "=v")
    ensures Tight(key + "=v")
    ensures Parsed(key + "=v").Some? ==> Parsed(key + "=v").value.name != key
  {
    var content := key + "=v";
    assert content[..|key|] == key;
    if key == "" {
      IndexIsUnique(content, '=', 0);
    } else {
      assert content[0] == key[0];
      if key[0] != '#' {
        FirstEqualsOfPrefix(content, key);
      }
    }
  }

  /** For any other key there is a one-line file on which they differ. */
  lemma UnsafeKeyDisagrees(key: string) returns (content: string)
    requires !IsSafe(key)
    ensures Tidy(Lines(content))
    ensures FirstValue(Lines(content), key) != Lookup(Table(Lines(content)), key)
  {
    content := key + "=v";
    UnsafeKeyMatches(key);
    UnsafeKeyIsNotAssigned(key);
    OneLineFile(content, key);
  }

  /** The two readers agree on a key, in every file that assigns tidily, exactly when the key is safe. */
  lemma ReadersAgreeIff(key: string)
    ensures (forall content ::
               Tidy(Lines(content)) ==> FirstValue(Lines(content), key) == Lookup(Table(Lines(content)), key))
            <==> IsSafe(key)
  {
    if IsSafe(key) {
      forall content | Tidy(Lines(content))
        ensures FirstValue(Lines(content), key) == Lookup(Table(Lines(content)), key)
      {
        LinesAreOneLine(content);
        SafeKeysAgree(Lines(content), key);
      }
    } else {
      var content := UnsafeKeyDisagrees(key);
    }
  }
}
