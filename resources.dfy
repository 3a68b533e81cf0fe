/** The upstream resources the connection requests, and the URL of each: the
    server URL followed directly by the resource's path (no separator is
    inserted, so the server URL is expected to end in `/`).  `ParsePath`
    reads a path back, which shows that distinct resources are requested
    at distinct URLs. */
module Resources {

  import opened PyJson

  /** The two kinds of asynchronous job whose status is polled. */
  datatype JobKind = ReportJob | ImportJob

  datatype Resource =
    | Projects(withStructure: bool)            // with TOVs and cycles, or without
    | Filters
    | Members(projectKey: string)
    | CycleStructure(cycleKey: string)
    | TovStructure(tovKey: string)
    | SpecTestCases(setKey: string, specKey: string)
    | ExecTestCases(setKey: string, execKey: string)
    | XmlReport(name: string)
    | Job(kind: JobKind, jobId: string)

  /** The path prefix of a job's status document. */
  function JobPath(kind: JobKind): string {
    match kind
    case ReportJob => "job/"
    case ImportJob => "executionResultsImporterJob/"
  }

  /** The path of the project list; the two query parameters are both `true`
      or both `false`, as `requests` appends them. */
  function ProjectsPath(withStructure: bool): string {
    var flag := if withStructure then "true" else "false";
    "projects?includeTOVs=" + flag + "&includeCycles=" + flag
  }

  /** The path of each resource below the server URL; never empty, so a URL
      always names more than the server. */
  function Path(r: Resource): (p: string)
    ensures p != []
    ensures r.Job? ==> StartsWith(p, JobPath(r.kind))
  {
    match r
    case Projects(b) => ProjectsPath(b)
    case Filters => "filters"
    case Members(k) => "project/" + k + "/members"
    case CycleStructure(k) => "cycle/" + k + "/structure"
    case TovStructure(k) => "tov/" + k + "/structure"
    case SpecTestCases(s, k) => "testCaseSets/" + s + "/specifications/" + k + "/testCases"
    case ExecTestCases(s, k) => "testCaseSets/" + s + "/executions/" + k + "/testCases"
    case XmlReport(n) => "xmlReport/" + n
    case Job(kind, id) => JobPath(kind) + id
  }

  /** The URL a request for `r` goes to. */
  function Url(serverUrl: string, r: Resource): (u: string)
    ensures |u| > |serverUrl| && u[..|serverUrl|] == serverUrl
  {
    serverUrl + Path(r)
  }

  predicate StartsWith(s: string, prefix: string) {
    |prefix| <= |s| && s[..|prefix|] == prefix
  }

  /** The text between a given prefix and suffix. */
  function Between(s: string, prefix: string, suffix: string): (r: Option<string>)
    ensures r.Some? ==> prefix + r.value + suffix == s
  {
    if |prefix| + |suffix| <= |s| && s[..|prefix|] == prefix && s[|s| - |suffix|..] == suffix then
      var mid := s[|prefix|..|s| - |suffix|];
      assert prefix + mid + suffix == s[..|prefix|] + s[|prefix|..|s| - |suffix|] + s[|s| - |suffix|..];
      Some(mid)
    else None
  }

  /** Reads the resource back from a path. */
  function ParsePath(p: string): Option<Resource> {
    if p == ProjectsPath(true) then Some(Projects(true))
    else if p == ProjectsPath(false) then Some(Projects(false))
    else if p == "filters" then Some(Filters)
    else if Between(p, "project/", "/members").Some? then
      Some(Members(Between(p, "project/", "/members").value))
    else if Between(p, "cycle/", "/structure").Some? then
      Some(CycleStructure(Between(p, "cycle/", "/structure").value))
    else if Between(p, "tov/", "/structure").Some? then
      Some(TovStructure(Between(p, "tov/", "/structure").value))
    else if Between(p, "testCaseSets/", "/testCases").Some? then
      match SplitOnce(Between(p, "testCaseSets/", "/testCases").value, '/')
      case Err(_) => None
      case Ok(parts) =>
        if StartsWith(parts.1, "specifications/") then Some(SpecTestCases(parts.0, parts.1[15..]))
        else if StartsWith(parts.1, "executions/") then Some(ExecTestCases(parts.0, parts.1[11..]))
        else None
    else if StartsWith(p, "xmlReport/") then Some(XmlReport(p[10..]))
    else if StartsWith(p, "job/") then Some(Job(ReportJob, p[4..]))
    else if StartsWith(p, "executionResultsImporterJob/") then Some(Job(ImportJob, p[28..]))
    else None
  }

  /** The keys a path can be read back from: a test case set key must not
      contain `/`, since it is followed by further path segments. */
  predicate Readable(r: Resource) {
    match r
    case SpecTestCases(s, _) => '/' !in s
    case ExecTestCases(s, _) => '/' !in s
    case _ => true
  }

  lemma BetweenOf(prefix: string, mid: string, suffix: string)
    ensures Between(prefix + mid + suffix, prefix, suffix) == Some(mid)
  {
    var s := prefix + mid + suffix;
    assert s[..|prefix|] == prefix;
    assert s[|s| - |suffix|..] == suffix;
    assert s[|prefix|..|s| - |suffix|] == mid;
  }

  /** A path that differs from a prefix at some position does not start
      with it. */
  lemma Differs(p: string, prefix: string, i: nat)
    requires i < |prefix| && i < |p| && p[i] != prefix[i]
    ensures !StartsWith(p, prefix) && p != prefix
    ensures forall suffix :: Between(p, prefix, suffix) == None
  {
    forall suffix ensures Between(p, prefix, suffix) == None {
      if |prefix| + |suffix| <= |p| {
        assert p[..|prefix|][i] == p[i];
      }
    }
  }

  /** None of the fixed paths and prefixes tried before the test case paths
      matches a path whose first two characters are `te`. */
  lemma NotBeforeTestCases(p: string)
    requires |p| > 2 && p[0] == 't' && p[1] == 'e'
    ensures p != ProjectsPath(true) && p != ProjectsPath(false) && p != "filters"
    ensures Between(p, "project/", "/members") == None
    ensures Between(p, "cycle/", "/structure") == None
    ensures Between(p, "tov/", "/structure") == None
  {
    Differs(p, ProjectsPath(true), 0);
    Differs(p, ProjectsPath(false), 0);
    Differs(p, "filters", 0);
    Differs(p, "project/", 0);
    Differs(p, "cycle/", 0);
    Differs(p, "tov/", 1);
  }

  /** None of the paths with a key tried before `xmlReport/` and the job
      paths matches a path whose first character is `c`. */
  lemma NotBeforeKeyed(p: string, c: char)
    requires |p| > 1 && p[0] == c && c !in "pftc"
    ensures p != ProjectsPath(true) && p != ProjectsPath(false) && p != "filters"
    ensures Between(p, "project/", "/members") == None
    ensures Between(p, "cycle/", "/structure") == None
    ensures Between(p, "tov/", "/structure") == None
    ensures Between(p, "testCaseSets/", "/testCases") == None
  {
    Differs(p, ProjectsPath(true), 0);
    Differs(p, ProjectsPath(false), 0);
    Differs(p, "filters", 0);
    Differs(p, "project/", 0);
    Differs(p, "cycle/", 0);
    Differs(p, "tov/", 0);
    Differs(p, "testCaseSets/", 0);
  }

  lemma ParseProjects(b: bool)
    ensures ParsePath(ProjectsPath(b)) == Some(Projects(b))
  {
    assert ProjectsPath(true)[21] != ProjectsPath(false)[21];
  }

  lemma ParseMembers(k: string)
    ensures ParsePath(Path(Members(k))) == Some(Members(k))
  {
    var p := Path(Members(k));
    assert p[7] == '/' && ProjectsPath(true)[7] == 's' && ProjectsPath(false)[7] == 's';
    BetweenOf("project/", k, "/members");
  }

  lemma ParseCycleStructure(k: string)
    ensures ParsePath(Path(CycleStructure(k))) == Some(CycleStructure(k))
  {
    var p := Path(CycleStructure(k));
    assert p[0] == 'c';
    BetweenOf("cycle/", k, "/structure");
  }

  lemma ParseTovStructure(k: string)
    ensures ParsePath(Path(TovStructure(k))) == Some(TovStructure(k))
  {
    var p := Path(TovStructure(k));
    assert p[0] == 't' && p[1] == 'o';
    BetweenOf("tov/", k, "/structure");
  }

  /** The test case set key and the rest of a test case path. */
  lemma SplitTestCasesPath(s: string, rest: string)
    requires '/' !in s
    ensures var p := "testCaseSets/" + s + "/" + rest + "/testCases";
      && p[0] == 't' && p[1] == 'e'
      && Between(p, "testCaseSets/", "/testCases") == Some(s + "/" + rest)
      && SplitOnce(s + "/" + rest, '/') == Ok((s, rest))
  {
    var mid := s + "/" + rest;
    var p := "testCaseSets/" + s + "/" + rest + "/testCases";
    assert p == "testCaseSets/" + mid + "/testCases";
    assert p[0] == 't' && p[1] == 'e';
    BetweenOf("testCaseSets/", mid, "/testCases");
    assert mid == s + ['/'] + rest;
    SplitOnceOf(s, rest, '/');
  }

  lemma ParseSpecTestCases(s: string, k: string)
    requires '/' !in s
    ensures ParsePath(Path(SpecTestCases(s, k))) == Some(SpecTestCases(s, k))
  {
    var rest := "specifications/" + k;
    assert Path(SpecTestCases(s, k)) == "testCaseSets/" + s + "/" + rest + "/testCases";
    SplitTestCasesPath(s, rest);
    NotBeforeTestCases(Path(SpecTestCases(s, k)));
    assert rest[..15] == "specifications/" && rest[15..] == k;
  }

  lemma ParseExecTestCases(s: string, k: string)
    requires '/' !in s
    ensures ParsePath(Path(ExecTestCases(s, k))) == Some(ExecTestCases(s, k))
  {
    var rest := "executions/" + k;
    assert Path(ExecTestCases(s, k)) == "testCaseSets/" + s + "/" + rest + "/testCases";
    SplitTestCasesPath(s, rest);
    NotBeforeTestCases(Path(ExecTestCases(s, k)));
    Differs(rest, "specifications/", 0);
    assert rest[..11] == "executions/" && rest[11..] == k;
  }

  lemma ParseXmlReport(n: string)
    ensures ParsePath(Path(XmlReport(n))) == Some(XmlReport(n))
  {
    var p := Path(XmlReport(n));
    NotBeforeKeyed(p, 'x');
    assert p[..10] == "xmlReport/" && p[10..] == n;
  }

  lemma ParseJob(kind: JobKind, id: string)
    ensures ParsePath(Path(Job(kind, id))) == Some(Job(kind, id))
  {
    var p := Path(Job(kind, id));
    if kind == ReportJob {
      NotBeforeKeyed(p, 'j');
      Differs(p, "xmlReport/", 0);
      assert p[..4] == "job/" && p[4..] == id;
    } else {
      NotBeforeKeyed(p, 'e');
      Differs(p, "xmlReport/", 0);
      Differs(p, "job/", 0);
      assert p[..28] == "executionResultsImporterJob/" && p[28..] == id;
    }
  }

  /** Every readable resource is read back from its path. */
  lemma ParsePathOfPath(r: Resource)
    requires Readable(r)
    ensures ParsePath(Path(r)) == Some(r)
  {
    match r
    case Projects(b) => ParseProjects(b);
    case Filters =>
    case Members(k) => ParseMembers(k);
    case CycleStructure(k) => ParseCycleStructure(k);
    case TovStructure(k) => ParseTovStructure(k);
    case SpecTestCases(s, k) => ParseSpecTestCases(s, k);
    case ExecTestCases(s, k) => ParseExecTestCases(s, k);
    case XmlReport(n) => ParseXmlReport(n);
    case Job(kind, id) => ParseJob(kind, id);
  }

  /** Requests for distinct readable resources go to distinct URLs. */
  lemma UrlInjective(serverUrl: string, r1: Resource, r2: Resource)
    requires Readable(r1) && Readable(r2)
    requires Url(serverUrl, r1) == Url(serverUrl, r2)
    ensures r1 == r2
  {
    var u := Url(serverUrl, r1);
    assert Path(r1) == u[|serverUrl|..] == Path(r2);
    ParsePathOfPath(r1);
    ParsePathOfPath(r2);
  }
}
