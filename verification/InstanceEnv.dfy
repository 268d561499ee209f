/** The instance's .env file as the installer prints it, and what both of its readers find there. */
module InstanceEnv {
  import opened Common
  import opened EnvFile

  datatype Line =
    | Comment(text: string)
    | Blank
    | Assign(name: string, value: string)

  function Printed(line: Line): string {
    match line
    case Comment(text) => "#" + text
    case Blank => ""
    case Assign(name, value) => name + "=" + value
  }

  function PrintedAll(lines: seq<Line>): (r: seq<string>)
    ensures |r| == |lines| && forall i :: 0 <= i < |lines| ==> r[i] == Printed(lines[i])
  {
    if lines == [] then [] else PrintedAll(lines[..|lines| - 1]) + [Printed(lines[|lines| - 1])]
  }

  /** Every line ends with a line end. */
  function Joined(lines: seq<string>): string {
    if lines == [] then "" else lines[0] + "\n" + Joined(lines[1..])
  }

  function Join(items: seq<string>, separator: string): string {
    if items == [] then ""
    else if |items| == 1 then items[0]
    else items[0] + separator + Join(items[1..], separator)
  }

  /** Items joined in parts are joined by the separator. */
  lemma {:induction false} JoinOfParts(a: seq<string>, b: seq<string>, separator: string)
    requires a != [] && b != []
    ensures Join(a + b, separator) == Join(a, separator) + separator + Join(b, separator)
    ensures |a| == 1 ==> Join(a, separator) == a[0]
  {
    if |a| == 1 {
      assert (a + b)[1..] == b;
    } else {
      assert (a + b)[1..] == a[1..] + b;
      JoinOfParts(a[1..], b, separator);
      var first, rest, tail := a[0], Join(a[1..], separator), Join(b, separator);
      assert first + separator + (rest + separator + tail) == (first + separator + rest) + separator + tail;
    }
  }

  // ---------------------------------------------------------------- printing and parsing lines

  lemma LinesAfterFirst(line: string, rest: string)
    requires OneLine(line)
    ensures Lines(line + "\n" + rest) == [line] + Lines(rest)
  {
    var text, n := line + "\n" + rest, |line|;
    assert text[..n] == line && text[n] == '\n' && text[n + 1..] == rest;
    IndexIsUnique(text, '\n', n);
  }

  lemma JoinedAfterFirst(lines: seq<string>, text: string)
    requires lines != [] && OneLine(lines[0]) && Lines(text) == lines[1..] + [""]
    ensures Lines(lines[0] + "\n" + text) == lines + [""]
  {
    var first, rest := lines[0], lines[1..];
    LinesAfterFirst(first, text);
    assert lines == [first] + rest;
    assert [first] + (rest + [""]) == ([first] + rest) + [""];
  }

  lemma {:induction false} LinesOfJoined(lines: seq<string>)
    requires AllOneLine(lines)
    ensures Lines(Joined(lines)) == lines + [""]
  {
    if lines == [] {
      assert Joined(lines) == "" && lines + [""] == [""];
    } else {
      LinesOfJoined(lines[1..]);
      JoinedAfterFirst(lines, Joined(lines[1..]));
    }
  }

  /** A name as every line of the template has it. */
  predicate IsName(name: string) {
    name != "" && forall i :: 0 <= i < |name| ==> 'A' <= name[i] <= 'Z' || name[i] == '_'
  }

  lemma {:induction false} TrimDropsLast(s: string)
    requires s != "" && IsSpace(s[|s| - 1])
    ensures Trim(s) == Trim(s[..|s| - 1])
  {
    if IsSpace(s[0]) && |s| > 1 {
      TrimDropsLast(s[1..]);
      assert s[1..][..|s| - 2] == s[..|s| - 1][1..];
    } else if |s| == 1 {
      assert s[1..] == s[..0];
    }
  }

  lemma NameIsPlain(name: string)
    requires IsName(name)
    ensures '=' !in name && Trimmed(name) && name[0] != '#' && !IsSpace(name[|name| - 1])
  {
  }

  lemma AssignmentShape(name: string, value: string)
    requires name != "" && '=' !in name && Trimmed(name) && (value != "" ==> !IsSpace(value[|value| - 1]))
    ensures var line, n := name + "=" + value, |name|;
            && Trimmed(line) && Index(line, '=') == n
            && line[0] == name[0] && line[n - 1] == name[n - 1] && line[..n] == name && line[n + 1..] == value
  {
    var line, n := name + "=" + value, |name|;
    assert line[..n] == name && line[n + 1..] == value;
    assert value != "" ==> line[|line| - 1] == value[|value| - 1];
    IndexIsUnique(line, '=', n);
  }

  lemma ParsedAtEquals(line: string, i: nat)
    requires Trimmed(line) && Index(line, '=') == i && i > 0 && line[0] != '#'
    ensures Parsed(line) == Some(Entry(Trim(line[..i]), Trim(line[i + 1..])))
    ensures !IsSpace(line[i - 1]) ==> Tight(line)
  {
  }

  lemma TrimmedAssignment(name: string, value: string)
    requires name != "" && '=' !in name && Trimmed(name) && name[0] != '#'
    requires value != "" ==> !IsSpace(value[|value| - 1])
    ensures Parsed(name + "=" + value) == Some(Entry(name, Trim(value)))
    ensures Tight(name + "=" + value)
  {
    AssignmentShape(name, value);
    ParsedAtEquals(name + "=" + value, |name|);
  }

  lemma AssignmentDropsLast(name: string, value: string)
    requires value != "" && IsSpace(value[|value| - 1])
    ensures Trim(name + "=" + value) == Trim(name + "=" + value[..|value| - 1])
  {
    var line := name + "=" + value;
    assert line[|line| - 1] == value[|value| - 1] && line[..|line| - 1] == name + "=" + value[..|value| - 1];
    TrimDropsLast(line);
  }

  lemma ReadAlike(a: string, b: string)
    requires Trim(a) == Trim(b)
    ensures Parsed(a) == Parsed(b) && Tight(a) == Tight(b)
  {
  }

  /** An assignment is read back with the white space around its value gone, whatever else the value holds. */
  lemma {:induction false} AssignmentIsParsed(name: string, value: string)
    requires IsName(name)
    ensures Parsed(name + "=" + value) == Some(Entry(name, Trim(value)))
    ensures Tight(name + "=" + value)
  {
    if value != "" && IsSpace(value[|value| - 1]) {
      var shorter := value[..|value| - 1];
      AssignmentIsParsed(name, shorter);
      TrimDropsLast(value);
      AssignmentDropsLast(name, value);
      ReadAlike(name + "=" + value, name + "=" + shorter);
    } else {
      NameIsPlain(name);
      TrimmedAssignment(name, value);
    }
  }

  lemma {:induction false} HashStaysFirst(line: string)
    requires line != "" && line[0] == '#'
    ensures Trim(line) != "" && Trim(line)[0] == '#'
  {
    if IsSpace(line[|line| - 1]) {
      HashStaysFirst(line[..|line| - 1]);
    }
  }

  lemma OtherLineIsSkipped(line: string)
    requires line == "" || line[0] == '#'
    ensures Parsed(line) == None && Tight(line)
  {
    if line != "" {
      HashStaysFirst(line);
    }
  }

  ghost predicate AssignsOnce(lines: seq<Line>) {
    forall i, j :: 0 <= i < j < |lines| && lines[i].Assign? && lines[j].Assign? ==> lines[i].name != lines[j].name
  }

  ghost predicate Named(lines: seq<Line>) {
    forall i :: 0 <= i < |lines| && lines[i].Assign? ==> IsName(lines[i].name)
  }

  ghost predicate WellFormed(lines: seq<Line>) {
    Named(lines) && AssignsOnce(lines) && forall i :: 0 <= i < |lines| ==> OneLine(Printed(lines[i]))
  }

  function Text(lines: seq<Line>): string {
    Joined(PrintedAll(lines))
  }

  /** What a printed line is read as. */
  function Meaning(line: Line): Option<Entry> {
    if line.Assign? then Some(Entry(line.name, Trim(line.value))) else None
  }

  lemma LineIsParsed(line: Line)
    requires line.Assign? ==> IsName(line.name)
    ensures Parsed(Printed(line)) == Meaning(line) && Tight(Printed(line))
  {
    match line
    case Comment(_) => OtherLineIsSkipped(Printed(line));
    case Blank => OtherLineIsSkipped(Printed(line));
    case Assign(name, value) => AssignmentIsParsed(name, value);
  }

  /** The text ends with a line end, so after the last line comes an empty one. */
  function MeaningAt(lines: seq<Line>, k: nat): Option<Entry> {
    if k < |lines| then Meaning(lines[k]) else None
  }

  ghost predicate ReadAs(read: seq<string>, lines: seq<Line>) {
    && |read| == |lines| + 1
    && (forall k: nat :: k < |read| ==> Parsed(read[k]) == MeaningAt(lines, k))
    && (forall k: nat :: k < |read| ==> Tight(read[k]))
  }

  lemma PrintedIsReadAs(lines: seq<Line>, k: nat)
    requires WellFormed(lines) && k <= |lines|
    ensures Parsed((PrintedAll(lines) + [""])[k]) == MeaningAt(lines, k) && Tight((PrintedAll(lines) + [""])[k])
  {
    if k < |lines| {
      LineIsParsed(lines[k]);
    } else {
      OtherLineIsSkipped((PrintedAll(lines) + [""])[k]);
    }
  }

  lemma TextIsReadAs(lines: seq<Line>)
    requires WellFormed(lines)
    ensures ReadAs(Lines(Text(lines)), lines)
  {
    var read := PrintedAll(lines) + [""];
    LinesOfJoined(PrintedAll(lines));
    forall k: nat | k < |read|
      ensures Parsed(read[k]) == MeaningAt(lines, k) && Tight(read[k])
    {
      PrintedIsReadAs(lines, k);
    }
  }

  lemma PairIsApart(a: Option<Entry>, b: Option<Entry>, lines: seq<Line>, i: nat, j: nat)
    requires AssignsOnce(lines) && i < j && a == MeaningAt(lines, i) && b == MeaningAt(lines, j)
    ensures Apart(a, b)
  {
  }

  lemma ReadIsTidy(read: seq<string>, lines: seq<Line>)
    requires AssignsOnce(lines) && ReadAs(read, lines)
    ensures Tidy(read)
  {
    forall i: nat, j: nat | i < j < |read|
      ensures Apart(Parsed(read[i]), Parsed(read[j]))
    {
      PairIsApart(Parsed(read[i]), Parsed(read[j]), lines, i, j);
    }
  }

  /** Parsing what was printed gives every assignment under its name, trimmed, and nothing else. */
  lemma ParsedTextIsAssignments(lines: seq<Line>)
    requires WellFormed(lines)
    ensures var table := Table(Lines(Text(lines)));
            && (forall i :: 0 <= i < |lines| && lines[i].Assign? ==>
                  lines[i].name in table && table[lines[i].name] == Trim(lines[i].value))
            && (forall name :: name in table ==>
                  exists i :: 0 <= i < |lines| && lines[i].Assign? && lines[i].name == name)
  {
    var read := Lines(Text(lines));
    TextIsReadAs(lines);
    ReadIsTidy(read, lines);
    forall i | 0 <= i < |lines| && lines[i].Assign?
      ensures lines[i].name in Table(read) && Table(read)[lines[i].name] == Trim(lines[i].value)
    {
      TableHas(read, i);
    }
    forall name | name in Table(read)
      ensures exists i :: 0 <= i < |lines| && lines[i].Assign? && lines[i].name == name
    {
      var i := TableOnlyHas(read, name);
      assert i < |lines|;
    }
  }

  // ---------------------------------------------------------------- the template

  datatype Instance = Instance(
    host: string, httpAddr: string, dashboardPort: string, jwtSecret: string, postgresPassword: string,
    redisPassword: string, serverID: string, agentSecret: string, allowedOrigins: seq<string>, adminEmail: string,
    adminPass: string)

  const SERVER_PORT := "4858"

  function ServerAPIURL(host: string): string {
    "http://" + host + ":" + SERVER_PORT
  }

  function ServerWSURL(host: string): string {
    "ws://" + host + ":" + SERVER_PORT + "/ws/agent"
  }

  function DatabaseURL(password: string): string {
    "postgres://postgres:" + password + "@postgres:5432" + "/horizonx?sslmode=disable"
  }

  /** The wording of the comments, which no reader looks at. */
  type Remarks = nat -> string

  function ServicesPart(e: Instance, remarks: Remarks): seq<Line> {
    [Comment(remarks(0)),
     Comment(remarks(1)),
     Assign("APP_ENV", "production"),
     Assign("LOG_LEVEL", "info"),
     Assign("LOG_FORMAT", "text"),
     Assign("HTTP_ADDR", e.httpAddr),
     Assign("TIME_ZONE", "Asia/Jakarta"),
     Blank,
     Comment(remarks(2)),
     Assign("JWT_SECRET", e.jwtSecret),
     Assign("JWT_EXPIRY", "24h"),
     Blank,
     Comment(remarks(3)),
     Assign("POSTGRES_PASSWORD", e.postgresPassword),
     Assign("DATABASE_URL", DatabaseURL(e.postgresPassword)),
     Blank,
     Comment(remarks(4)),
     Assign("REDIS_PASSWORD", e.redisPassword),
     Assign("REDIS_PASS", e.redisPassword),
     Assign("REDIS_ADDR", "redis:6379"),
     Blank]
  }

  function AgentPart(e: Instance, remarks: Remarks): seq<Line> {
    [Comment(remarks(5)),
     Comment("   HORIZONX_SERVER_ID=" + e.serverID),
     Comment("   HORIZONX_SERVER_API_TOKEN=" + e.agentSecret),
     Comment("   HORIZONX_API_URL=" + ServerAPIURL(e.host)),
     Comment("   HORIZONX_WS_URL=" + ServerWSURL(e.host)),
     Assign("HORIZONX_SERVER_ID", e.serverID),
     Assign("HORIZONX_SERVER_API_TOKEN", e.agentSecret),
     Assign("HORIZONX_API_URL", ServerAPIURL(e.host)),
     Assign("HORIZONX_WS_URL", ServerWSURL(e.host)),
     Assign("AGENT_JOB_WORKER_COUNT", "10"),
     Blank]
  }

  function AccessPart(e: Instance, remarks: Remarks): seq<Line> {
    [Comment(remarks(6)),
     Assign("HORIZONX_PORT", SERVER_PORT),
     Assign("DASHBOARD_PORT", e.dashboardPort),
     Blank,
     Comment(remarks(7)),
     Comment(remarks(8)),
     Comment(remarks(9)),
     Comment(remarks(10)),
     Assign("ALLOWED_ORIGINS", Join(e.allowedOrigins, ",")),
     Blank,
     Comment(remarks(11)),
     Comment(remarks(12)),
     Assign("ADMIN_EMAIL", e.adminEmail),
     Assign("ADMIN_PASSWORD", e.adminPass),
     Assign("AUTO_SEED", "true")]
  }

  function Template(e: Instance, remarks: Remarks): seq<Line> {
    ServicesPart(e, remarks) + AgentPart(e, remarks) + AccessPart(e, remarks)
  }

  function RenderInstanceEnv(e: Instance, remarks: Remarks): string {
    Text(Template(e, remarks))
  }

  // ---------------------------------------------------------------- the template is well formed

  /** The line of the template that assigns a name, told from its length and its first and last characters. */
  function Place(name: string): nat
    requires name != ""
  {
    var size, first, last := |name|, name[0], name[|name| - 1];
    if size == 7 then 2
    else if size == 9 then (if first == 'L' then 3 else if first == 'H' then 5 else if first == 'T' then 6 else 46)
    else if size == 10 then
      (if first == 'L' then 4 else if last == 'T' then 9 else if last == 'Y' then 10
       else if last == 'S' then 18 else 19)
    else if size == 11 then 44
    else if size == 12 then 14
    else if size == 13 then 33
    else if size == 14 then (if first == 'R' then 17 else if first == 'D' then 34 else 45)
    else if size == 15 then (if first == 'H' then 29 else 40)
    else if size == 16 then 28
    else if size == 17 then 13
    else if size == 18 then 26
    else if size == 22 then 30
    else 27
  }

  predicate NamedAt(name: string, place: nat) {
    IsName(name) && Place(name) == place
  }

  lemma GeneralNames()
    ensures NamedAt("APP_ENV", 2) && NamedAt("LOG_LEVEL", 3) && NamedAt("LOG_FORMAT", 4) && NamedAt("HTTP_ADDR", 5)
            && NamedAt("TIME_ZONE", 6)
  {
  }

  lemma SecretNames()
    ensures NamedAt("JWT_SECRET", 9) && NamedAt("JWT_EXPIRY", 10) && NamedAt("POSTGRES_PASSWORD", 13)
            && NamedAt("DATABASE_URL", 14)
  {
  }

  lemma RedisNames()
    ensures NamedAt("REDIS_PASSWORD", 17) && NamedAt("REDIS_PASS", 18) && NamedAt("REDIS_ADDR", 19)
  {
  }

  lemma AgentNames()
    ensures NamedAt("HORIZONX_SERVER_ID", 26) && NamedAt("HORIZONX_SERVER_API_TOKEN", 27)
            && NamedAt("HORIZONX_API_URL", 28)
  {
  }

  lemma MoreAgentNames()
    ensures NamedAt("HORIZONX_WS_URL", 29) && NamedAt("AGENT_JOB_WORKER_COUNT", 30)
  {
  }

  lemma AccessNames()
    ensures NamedAt("HORIZONX_PORT", 33) && NamedAt("DASHBOARD_PORT", 34) && NamedAt("ALLOWED_ORIGINS", 40)
  {
  }

  lemma AdminNames()
    ensures NamedAt("ADMIN_EMAIL", 44) && NamedAt("ADMIN_PASSWORD", 45) && NamedAt("AUTO_SEED", 46)
  {
  }

  ghost predicate Placed(lines: seq<Line>, offset: nat) {
    forall i :: 0 <= i < |lines| && lines[i].Assign? ==> NamedAt(lines[i].name, offset + i)
  }

  lemma ServicesPlaced(e: Instance, remarks: Remarks)
    ensures Placed(ServicesPart(e, remarks), 0) && |ServicesPart(e, remarks)| == 21
  {
    GeneralNames();
    SecretNames();
    RedisNames();
  }

  lemma AgentPlaced(e: Instance, remarks: Remarks)
    ensures Placed(AgentPart(e, remarks), 21) && |AgentPart(e, remarks)| == 11
  {
    AgentNames();
    MoreAgentNames();
  }

  lemma AccessPlaced(e: Instance, remarks: Remarks)
    ensures Placed(AccessPart(e, remarks), 32)
  {
    AccessNames();
    AdminNames();
  }

  lemma TemplateIsApart(e: Instance, remarks: Remarks)
    ensures Named(Template(e, remarks)) && AssignsOnce(Template(e, remarks))
  {
    ServicesPlaced(e, remarks);
    AgentPlaced(e, remarks);
    AccessPlaced(e, remarks);
    assert Placed(Template(e, remarks), 0);
  }

  // ---------------------------------------------------------------- the round trip

  /** What both readers give back unchanged. */
  predicate Clean(field: string) {
    OneLine(field) && Trimmed(field)
  }

  predicate CleanFields(e: Instance) {
    && OneLine(e.host)
    && Clean(e.httpAddr) && Clean(e.dashboardPort) && Clean(e.jwtSecret) && Clean(e.postgresPassword)
    && Clean(e.redisPassword) && Clean(e.serverID) && Clean(e.agentSecret) && Clean(Join(e.allowedOrigins, ","))
    && Clean(e.adminEmail) && Clean(e.adminPass)
  }

  ghost predicate CleanValues(lines: seq<Line>) {
    forall i :: 0 <= i < |lines| ==> OneLine(Printed(lines[i])) && (lines[i].Assign? ==> Clean(lines[i].value))
  }

  lemma NameIsOneLine(name: string)
    requires IsName(name)
    ensures OneLine(name)
  {
  }

  lemma CleanAssign(name: string, value: string)
    requires IsName(name) && Clean(value)
    ensures OneLine(Printed(Assign(name, value)))
  {
    NameIsOneLine(name);
  }

  lemma ConstantsAreClean()
    ensures Clean("production") && Clean("info") && Clean("text") && Clean("Asia/Jakarta") && Clean("24h")
            && Clean("redis:6379") && Clean("10") && Clean("4858") && Clean("true")
  {
  }

  lemma DatabaseURLIsClean(password: string)
    requires OneLine(password)
    ensures Clean(DatabaseURL(password))
  {
    var prefix, host, path := "postgres://postgres:", "@postgres:5432", "/horizonx?sslmode=disable";
    assert OneLine(prefix) && prefix[0] == 'p';
    assert OneLine(host);
    assert OneLine(path) && path[|path| - 1] == 'e';
    var url := prefix + password + host + path;
    assert url[0] == prefix[0] && url[|url| - 1] == path[|path| - 1];
  }

  lemma URLsAreCleanIff(host: string)
    ensures Clean(ServerAPIURL(host)) <==> OneLine(host)
    ensures Clean(ServerWSURL(host)) <==> OneLine(host)
  {
    var http, ws, port, path := "http://", "ws://", ":" + SERVER_PORT, "/ws/agent";
    assert OneLine(http) && OneLine(ws) && OneLine(port) && OneLine(path);
    assert ServerAPIURL(host) == http + host + port && ServerWSURL(host) == ws + host + port + path;
    assert host <= (host + port);
    assert forall c :: c in host ==> c in http + host + port && c in ws + host + port + path;
  }

  lemma ServicesAreClean(e: Instance, remarks: Remarks)
    requires CleanFields(e) && forall k: nat :: OneLine(remarks(k))
    ensures CleanValues(ServicesPart(e, remarks))
  {
    var lines := ServicesPart(e, remarks);
    ConstantsAreClean();
    DatabaseURLIsClean(e.postgresPassword);
    ServicesPlaced(e, remarks);
    forall i | 0 <= i < |lines|
      ensures OneLine(Printed(lines[i])) && (lines[i].Assign? ==> Clean(lines[i].value))
    {
      if lines[i].Assign? {
        CleanAssign(lines[i].name, lines[i].value);
      }
    }
  }

  lemma CommentIsOneLine(prefix: string, value: string)
    requires OneLine(prefix) && OneLine(value)
    ensures OneLine(Printed(Comment(prefix + value)))
  {
  }

  lemma LabelsAreOneLine()
    ensures OneLine("   HORIZONX_SERVER_ID=") && OneLine("   HORIZONX_SERVER_API_TOKEN=")
            && OneLine("   HORIZONX_API_URL=") && OneLine("   HORIZONX_WS_URL=")
  {
  }

  lemma AgentIsClean(e: Instance, remarks: Remarks)
    requires CleanFields(e) && forall k: nat :: OneLine(remarks(k))
    ensures CleanValues(AgentPart(e, remarks))
  {
    var lines := AgentPart(e, remarks);
    ConstantsAreClean();
    URLsAreCleanIff(e.host);
    AgentPlaced(e, remarks);
    LabelsAreOneLine();
    CommentIsOneLine("   HORIZONX_SERVER_ID=", e.serverID);
    CommentIsOneLine("   HORIZONX_SERVER_API_TOKEN=", e.agentSecret);
    CommentIsOneLine("   HORIZONX_API_URL=", ServerAPIURL(e.host));
    CommentIsOneLine("   HORIZONX_WS_URL=", ServerWSURL(e.host));
    forall i | 0 <= i < |lines|
      ensures OneLine(Printed(lines[i])) && (lines[i].Assign? ==> Clean(lines[i].value))
    {
      if lines[i].Assign? {
        CleanAssign(lines[i].name, lines[i].value);
      }
    }
  }

  lemma AccessIsClean(e: Instance, remarks: Remarks)
    requires CleanFields(e) && forall k: nat :: OneLine(remarks(k))
    ensures CleanValues(AccessPart(e, remarks))
  {
    var lines := AccessPart(e, remarks);
    ConstantsAreClean();
    AccessPlaced(e, remarks);
    forall i | 0 <= i < |lines|
      ensures OneLine(Printed(lines[i])) && (lines[i].Assign? ==> Clean(lines[i].value))
    {
      if lines[i].Assign? {
        CleanAssign(lines[i].name, lines[i].value);
      }
    }
  }

  /** The rendered file is tidy, so both readers can be trusted with it. */
  lemma TemplateIsWellFormed(e: Instance, remarks: Remarks)
    requires CleanFields(e) && forall k: nat :: OneLine(remarks(k))
    ensures WellFormed(Template(e, remarks)) && CleanValues(Template(e, remarks))
  {
    TemplateIsApart(e, remarks);
    ServicesAreClean(e, remarks);
    AgentIsClean(e, remarks);
    AccessIsClean(e, remarks);
    var a, b, c := ServicesPart(e, remarks), AgentPart(e, remarks), AccessPart(e, remarks);
    CleanConcat(a, b);
    CleanConcat(a + b, c);
  }

  lemma CleanConcat(a: seq<Line>, b: seq<Line>)
    requires CleanValues(a) && CleanValues(b)
    ensures CleanValues(a + b)
  {
  }

  /** Every one of these assignments is what parsing the text finds under its name. */
  ghost predicate ComesBack(lines: seq<Line>, table: map<string, string>) {
    forall i :: 0 <= i < |lines| && lines[i].Assign? ==>
      lines[i].name in table && table[lines[i].name] == lines[i].value
  }

  lemma ParsedValueIsClean(line: string)
    requires OneLine(line) && Parsed(line).Some?
    ensures Clean(Parsed(line).value.value)
  {
    var t := Trim(line);
    var value := t[Index(t, '=') + 1..];
    TrimmedIsOneLine(line);
    assert OneLine(value);
    TrimmedIsOneLine(value);
  }

  /** Nothing a parse yields holds a line end or begins or ends with white space. */
  lemma {:induction false} ParsedValuesAreClean(lines: seq<string>, name: string)
    requires AllOneLine(lines) && name in Table(lines)
    ensures Clean(Table(lines)[name])
  {
    var i := TableOnlyHas(lines, name);
    ParsedValueIsClean(lines[i]);
  }

  /** The clean values of a part are clean fields. */
  ghost predicate ValuesClean(lines: seq<Line>) {
    forall i :: 0 <= i < |lines| && lines[i].Assign? ==> Clean(lines[i].value)
  }

  lemma FieldsOfServices(e: Instance, remarks: Remarks)
    requires ValuesClean(ServicesPart(e, remarks))
    ensures Clean(e.httpAddr) && Clean(e.jwtSecret) && Clean(e.postgresPassword) && Clean(e.redisPassword)
  {
    var lines := ServicesPart(e, remarks);
    assert lines[5].value == e.httpAddr && lines[9].value == e.jwtSecret;
    assert lines[13].value == e.postgresPassword && lines[17].value == e.redisPassword;
  }

  lemma FieldsOfAgent(e: Instance, remarks: Remarks)
    requires ValuesClean(AgentPart(e, remarks))
    ensures Clean(e.serverID) && Clean(e.agentSecret) && OneLine(e.host)
  {
    var lines := AgentPart(e, remarks);
    assert lines[5].value == e.serverID && lines[6].value == e.agentSecret && lines[7].value == ServerAPIURL(e.host);
    URLsAreCleanIff(e.host);
  }

  lemma FieldsOfAccess(e: Instance, remarks: Remarks)
    requires ValuesClean(AccessPart(e, remarks))
    ensures Clean(e.dashboardPort) && Clean(Join(e.allowedOrigins, ",")) && Clean(e.adminEmail) && Clean(e.adminPass)
  {
    var lines := AccessPart(e, remarks);
    assert lines[2].value == e.dashboardPort && lines[8].value == Join(e.allowedOrigins, ",");
    assert lines[12].value == e.adminEmail && lines[13].value == e.adminPass;
  }

  lemma ValuesOfParts(a: seq<Line>, b: seq<Line>)
    requires ValuesClean(a + b)
    ensures ValuesClean(a) && ValuesClean(b)
  {
    assert forall i :: 0 <= i < |a| ==> (a + b)[i] == a[i];
    assert forall i :: 0 <= i < |b| ==> (a + b)[|a| + i] == b[i];
  }

  lemma FieldsOfTemplate(e: Instance, remarks: Remarks)
    requires ValuesClean(Template(e, remarks))
    ensures CleanFields(e)
  {
    var a, b, c := ServicesPart(e, remarks), AgentPart(e, remarks), AccessPart(e, remarks);
    ValuesOfParts(a + b, c);
    ValuesOfParts(a, b);
    FieldsOfServices(e, remarks);
    FieldsOfAgent(e, remarks);
    FieldsOfAccess(e, remarks);
  }

  lemma CleanFieldsComeBack(e: Instance, remarks: Remarks)
    requires CleanFields(e) && forall k: nat :: OneLine(remarks(k))
    ensures ComesBack(Template(e, remarks), Table(Lines(RenderInstanceEnv(e, remarks))))
  {
    TemplateIsWellFormed(e, remarks);
    ParsedTextIsAssignments(Template(e, remarks));
  }

  lemma WhatComesBackIsClean(lines: seq<Line>, content: string)
    requires ComesBack(lines, Table(Lines(content)))
    ensures ValuesClean(lines)
  {
    forall i | 0 <= i < |lines| && lines[i].Assign?
      ensures Clean(lines[i].value)
    {
      LinesAreOneLine(content);
      ParsedValuesAreClean(Lines(content), lines[i].name);
    }
  }

  /** The round trip: parsing the rendered file returns every assignment exactly when no field holds a line end and none
      but the host begins or ends with white space; equals signs and hashes are no obstacle. */
  lemma FieldsComeBackIff(e: Instance, remarks: Remarks)
    requires forall k: nat :: OneLine(remarks(k))
    ensures ComesBack(Template(e, remarks), Table(Lines(RenderInstanceEnv(e, remarks)))) <==> CleanFields(e)
  {
    if CleanFields(e) {
      CleanFieldsComeBack(e, remarks);
    }
    if ComesBack(Template(e, remarks), Table(Lines(RenderInstanceEnv(e, remarks)))) {
      WhatComesBackIsClean(Template(e, remarks), RenderInstanceEnv(e, remarks));
      FieldsOfTemplate(e, remarks);
    }
  }

  /** The file gives the name this value. */
  predicate Gives(table: map<string, string>, name: string, value: string) {
    name in table && table[name] == value
  }

  lemma PartsComeBack(a: seq<Line>, b: seq<Line>, table: map<string, string>)
    requires ComesBack(a + b, table)
    ensures ComesBack(a, table) && ComesBack(b, table)
  {
    assert forall i :: 0 <= i < |a| ==> (a + b)[i] == a[i];
    assert forall i :: 0 <= i < |b| ==> (a + b)[|a| + i] == b[i];
  }

  lemma ServiceSettings(e: Instance, remarks: Remarks, table: map<string, string>)
    requires ComesBack(ServicesPart(e, remarks), table)
    ensures Gives(table, "APP_ENV", "production") && Gives(table, "LOG_LEVEL", "info")
    ensures Gives(table, "LOG_FORMAT", "text") && Gives(table, "HTTP_ADDR", e.httpAddr)
    ensures Gives(table, "TIME_ZONE", "Asia/Jakarta")
    ensures Gives(table, "JWT_SECRET", e.jwtSecret) && Gives(table, "JWT_EXPIRY", "24h")
    ensures Gives(table, "POSTGRES_PASSWORD", e.postgresPassword)
    ensures Gives(table, "DATABASE_URL",
                  "postgres://postgres:" + e.postgresPassword + "@postgres:5432" + "/horizonx?sslmode=disable")
    ensures Gives(table, "REDIS_PASSWORD", e.redisPassword) && Gives(table, "REDIS_PASS", e.redisPassword)
    ensures Gives(table, "REDIS_ADDR", "redis:6379")
  {
    var lines := ServicesPart(e, remarks);
    assert lines[2].Assign? && lines[3].Assign? && lines[4].Assign? && lines[5].Assign? && lines[6].Assign?;
    assert lines[9].Assign? && lines[10].Assign? && lines[13].Assign? && lines[14].Assign?;
    assert lines[17].Assign? && lines[18].Assign? && lines[19].Assign?;
  }

  lemma AgentSettings(e: Instance, remarks: Remarks, table: map<string, string>)
    requires ComesBack(AgentPart(e, remarks), table)
    ensures Gives(table, "HORIZONX_SERVER_ID", e.serverID) && Gives(table, "HORIZONX_SERVER_API_TOKEN", e.agentSecret)
    ensures Gives(table, "HORIZONX_API_URL", "http://" + e.host + ":" + "4858")
    ensures Gives(table, "HORIZONX_WS_URL", "ws://" + e.host + ":" + "4858" + "/ws/agent")
    ensures Gives(table, "AGENT_JOB_WORKER_COUNT", "10")
  {
    var lines := AgentPart(e, remarks);
    assert lines[5].Assign? && lines[6].Assign? && lines[7].Assign? && lines[8].Assign? && lines[9].Assign?;
  }

  lemma AccessSettings(e: Instance, remarks: Remarks, table: map<string, string>)
    requires ComesBack(AccessPart(e, remarks), table)
    ensures Gives(table, "HORIZONX_PORT", "4858") && Gives(table, "DASHBOARD_PORT", e.dashboardPort)
    ensures Gives(table, "ALLOWED_ORIGINS", Join(e.allowedOrigins, ","))
    ensures Gives(table, "ADMIN_EMAIL", e.adminEmail) && Gives(table, "ADMIN_PASSWORD", e.adminPass)
    ensures Gives(table, "AUTO_SEED", "true")
  {
    var lines := AccessPart(e, remarks);
    assert lines[1].Assign? && lines[2].Assign? && lines[8].Assign?;
    assert lines[12].Assign? && lines[13].Assign? && lines[14].Assign?;
  }

  /** On such a file each field is found under its own name. */
  lemma EachFieldUnderItsName(e: Instance, remarks: Remarks)
    requires CleanFields(e) && forall k: nat :: OneLine(remarks(k))
    ensures var table := Table(Lines(RenderInstanceEnv(e, remarks)));
            && Gives(table, "HTTP_ADDR", e.httpAddr) && Gives(table, "JWT_SECRET", e.jwtSecret)
            && Gives(table, "POSTGRES_PASSWORD", e.postgresPassword)
            && Gives(table, "DATABASE_URL",
                     "postgres://postgres:" + e.postgresPassword + "@postgres:5432" + "/horizonx?sslmode=disable")
            && Gives(table, "REDIS_PASSWORD", e.redisPassword) && Gives(table, "REDIS_PASS", e.redisPassword)
            && Gives(table, "HORIZONX_SERVER_ID", e.serverID)
            && Gives(table, "HORIZONX_SERVER_API_TOKEN", e.agentSecret)
            && Gives(table, "HORIZONX_API_URL", "http://" + e.host + ":" + "4858")
            && Gives(table, "HORIZONX_WS_URL", "ws://" + e.host + ":" + "4858" + "/ws/agent")
            && Gives(table, "DASHBOARD_PORT", e.dashboardPort)
            && Gives(table, "ALLOWED_ORIGINS", Join(e.allowedOrigins, ","))
            && Gives(table, "ADMIN_EMAIL", e.adminEmail) && Gives(table, "ADMIN_PASSWORD", e.adminPass)
  {
    var table := Table(Lines(RenderInstanceEnv(e, remarks)));
    var a, b, c := ServicesPart(e, remarks), AgentPart(e, remarks), AccessPart(e, remarks);
    CleanFieldsComeBack(e, remarks);
    PartsComeBack(a + b, c, table);
    PartsComeBack(a, b, table);
    ServiceSettings(e, remarks, table);
    AgentSettings(e, remarks, table);
    AccessSettings(e, remarks, table);
  }

  /** And on such a file the first-match reader finds what the parse finds, for every safe key. */
  lemma BothReadersAgree(e: Instance, remarks: Remarks, key: string)
    requires CleanFields(e) && (forall k: nat :: OneLine(remarks(k))) && IsSafe(key)
    ensures FirstValue(Lines(RenderInstanceEnv(e, remarks)), key)
            == Lookup(Table(Lines(RenderInstanceEnv(e, remarks))), key)
  {
    var lines := Template(e, remarks);
    TemplateIsWellFormed(e, remarks);
    TextIsReadAs(lines);
    ReadIsTidy(Lines(Text(lines)), lines);
    LinesAreOneLine(Text(lines));
    SafeKeysAgree(Lines(Text(lines)), key);
  }
}
