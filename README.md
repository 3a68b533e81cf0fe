# TestBench connection core, modelled in Dafny

This project models the core of a TestBench REST API client: the `Connection`
class and the `ConnectionLog` class of `utils/testbench.py`. The model covers
the following:

- **Credentials.** A connection takes a base64 `basicAuth` string, decodes it
  (standard alphabet with `=` padding, RFC 4648 section 4) and splits it at the
  first colon into login name and password. Without `basicAuth` it takes the
  separate `loginname` and `password`, and a missing one becomes the empty
  string. `export` re-encodes `loginname:password`.
- **Paths.** Every URL the connection requests is the server URL followed
  directly by a resource path, with no separator in between.
- **Projects.** `get_all_projects` copies the response into a dict. It then
  sorts the `projects` list in place, stably, by the case-folded project name.
- **Testers.** `get_all_testers_of_project` keeps the members whose
  `value.membership.roles` contains `"Tester"`.
- **Test cases.** `get_test_cases` indexes the specification and execution
  test cases by `uniqueID`; a later test case replaces an earlier one with the
  same ID. When an execution is referenced, it computes `equal_lists`.
- **Jobs.** `get_exp_job_result` and `get_imp_job_result` unwrap a job's
  completion.
- **Connection log.** `ConnectionLog` keeps a list of connections. The last
  one is active, `next` rotates the list left, `remove` drops the first
  occurrence of a connection, and `add_connection` appends.

Upstream responses are parameters of type `Json`. Python exceptions are `Err`
results that name the exception raised. Text that is base64-encoded is
modelled as its UTF-8 bytes.

The modules are:

| module | file | what it holds |
|---|---|---|
| `PyJson` | json.dfy | JSON values and the Python operations applied to them (subscript, `get`, `in`, truthiness, iteration, `split(sep, 1)`) |
| `Base64` | base64.dfy | the codec, its round trip and injectivity |
| `Credentials` | credentials.dfy | how credentials are resolved and re-encoded |
| `Testbench` | connection.dfy | the `Connection` class, its construction, `export` and `check_is_identical` |
| `Resources` | resources.dfy | the requested resources, their paths and URLs, and a parser that reads a path back |
| `Projects` | project_sort.dfy | the project sort |
| `Members` | members.dfy | the tester filter |
| `TestCases` | test_cases.dfy | the specification/execution join |
| `Jobs` | jobs.dfy | job-result unwrapping |
| `Log` | connection_log.dfy | the `ConnectionLog` class |

## Model

| member | source | states |
|---|---|---|
| PyJson.Subscript | utils/testbench.py:138 | `x[key]` succeeds exactly on a dict holding the key; a missing key raises `KeyError(key)` and a non-dict raises `TypeError` |
| PyJson.Get | utils/testbench.py:201 | `x.get(key)` gives the value, or `None` for a missing key; only dicts have `get` |
| PyJson.Contains | utils/testbench.py:160 | `name in x` is an element test on a list, a key test on a dict and a substring test on a string (so `"Tester" in "NonTester"` is true); other values raise `TypeError` |
| PyJson.Elements | utils/testbench.py:159 | iterating a list visits its items; values that are not iterable raise `TypeError` |
| PyJson.SplitOnce | utils/testbench.py:48 | `s.split(sep, 1)` unpacked into two names succeeds exactly when `sep` occurs; the parts rebuild `s` around the first `sep`; otherwise `ValueError` |
| PyJson.SplitOnceOf | utils/testbench.py:48 | text before a separator that has no separator itself comes back whole, and so does the rest |
| Base64.Encode | utils/testbench.py:80-82 | the base64 text of `n` bytes has `4 * ceil(n / 3)` characters |
| Base64.Decode | utils/testbench.py:47 | strict RFC 4648 decoding; it fails only with the base64 error |
| Base64.RoundTrip | utils/testbench.py:47 | decoding the encoding of any byte string gives that byte string back |
| Base64.EncodeInjective | utils/testbench.py:80-82 | different byte strings never have the same base64 text |
| Base64.EncodeColon | utils/testbench.py:81 | empty credentials are exported as `Og==` |
| Credentials.Resolve | utils/testbench.py:46-48 | with a non-empty `basicAuth`, resolution succeeds if and only if the text decodes and the decoded text holds a colon; the result is the split at the first colon, so the login name has no colon; undecodable text raises the base64 error and text without a colon raises `ValueError` |
| Credentials.BasicAuth | utils/testbench.py:80-82 | the exported `basicAuth` is never empty, so a connection built from it always takes the decoding branch |
| Credentials.DefaultCredentials | utils/testbench.py:49-51 | without a non-empty `basicAuth`, construction cannot fail, given values are kept, and missing ones become empty |
| Credentials.RoundTrip | utils/testbench.py:46-48 | re-constructing from an exported `basicAuth` restores login name and password if and only if the login name contains no colon; passwords may contain colons |
| Testbench.Connection.constructor | utils/testbench.py:45-58 | stores the server URL, the resolved credentials, the timeouts and the TLS setting; a missing action list becomes empty |
| Testbench.Connection.Export | utils/testbench.py:79-92 | the snapshot keeps the server URL, records whether TLS verification is truthy, and holds a `basicAuth` that decodes back to the credentials if and only if the login name has no colon |
| Testbench.NewConnection | utils/testbench.py:32-59 | construction succeeds exactly when credential resolution does, raises its error otherwise, and stores every argument in a new object; an omitted job timeout becomes the four-hour default |
| Testbench.Connection.IsIdentical | utils/testbench.py:97-102 | identical connections (same server, login name and password) export the same server and the same `basicAuth`, with no condition on the login name |
| Testbench.SameExportIdentical | utils/testbench.py:97-102 | conversely, for login names without a colon, the same server and the same exported `basicAuth` make two connections identical |
| Testbench.ColonBreaksIdentity | utils/testbench.py:97-102 | the colon condition is needed: login `a:` with password `b` and login `a` with password `:b` export the same but are not identical |
| Resources.Path | utils/testbench.py:120-233 | every resource path is non-empty and a job's path starts with its kind's prefix; `ParsePathOfPath` reads each readable resource back from it |
| Resources.Url | utils/testbench.py:143-147 | every URL starts with the server URL and continues past it |
| Resources.ParseProjects | utils/testbench.py:119-122 | the project-list path with TOVs and cycles, and the one without them, are each read back as themselves |
| Resources.ParseMembers | utils/testbench.py:164-166 | a member-list path is read back with its project key |
| Resources.ParseCycleStructure | utils/testbench.py:182-184 | a cycle-structure path is read back with its cycle key |
| Resources.ParseTovStructure | utils/testbench.py:188-190 | a TOV-structure path is read back with its TOV key |
| Resources.ParseSpecTestCases | utils/testbench.py:222-226 | a specification test case path is read back with both keys when the set key has no `/` |
| Resources.ParseExecTestCases | utils/testbench.py:230-234 | an execution test case path is read back with both keys when the set key has no `/` |
| Resources.ParseXmlReport | utils/testbench.py:150-152 | an XML report path is read back with its report name |
| Resources.ParseJob | utils/testbench.py:143-147 | the status paths of report jobs and import jobs are read back with their kind and ID |
| Resources.ParsePathOfPath | utils/testbench.py:119-234 | every resource whose set key has no `/` is read back from its path |
| Resources.UrlInjective | utils/testbench.py:145 | on one server, distinct resources are requested at distinct URLs |
| Projects.LessIrreflexive | utils/testbench.py:124 | no name sorts before itself |
| Projects.LessTransitive | utils/testbench.py:124 | Python's string order is transitive |
| Projects.LessTotal | utils/testbench.py:124 | of two different names, one sorts before the other |
| Projects.LessAsymmetric | utils/testbench.py:124 | two names never sort before each other |
| Projects.FoldExample | utils/testbench.py:124 | case folding makes `Alpha` and `ALPHA` one key, and `Alpha` sorts before `beta` |
| Projects.ProjectKey | utils/testbench.py:124 | the key is the case-folded `name`; a non-dict raises `TypeError`, a missing name raises `KeyError("name")` and a non-string name raises |
| Projects.SortKeys | utils/testbench.py:124 | the keys are computed for every project in order, and the first project whose key raises decides the error |
| Projects.SortedIsStableSort | utils/testbench.py:124 | a sorted rearrangement of the projects, each tagged with its key and starting position, is their stable sort: a permutation, ordered by key, with equal keys in their original order |
| Projects.SortByKey | utils/testbench.py:124 | the in-place sort, which compares keys only, leaves the tagged entries sorted by key and then by starting position, and rearranges them without adding or losing any |
| Projects.DictOf | utils/testbench.py:118-123 | `dict(response)` copies a dict and raises `TypeError` on null, booleans and numbers |
| Projects.SortInput | utils/testbench.py:117-124 | sorting starts from the copied dict, its `projects` list and the projects' keys; a missing `projects` raises `KeyError("projects")` |
| Projects.GetAllProjects | utils/testbench.py:117-125 | the result is the same dict with the same keys; `projects` is the stable sort of the upstream list by case-folded name, and every other key keeps its value; every error of the way there is raised |
| Members.IsTester | utils/testbench.py:160 | the role check succeeds exactly when `value.membership.roles` can be read and supports `in`; on a list it is an element test, on a dict a key test, on a string a substring test |
| Members.FilterTesters | utils/testbench.py:156-161 | the filter succeeds exactly when every role check does, and the first failing check decides the error |
| Members.Testers | utils/testbench.py:156-161 | a member list is filtered; a response that is not iterable raises `TypeError` |
| Members.TesterIndicesExact | utils/testbench.py:160 | the tester positions are increasing, and a position is among them if and only if that member has the role |
| Members.FilterIsSubsequence | utils/testbench.py:156-161 | the result is the members at exactly the tester positions, in their original order |
| Members.FilterKeepsExactlyTesters | utils/testbench.py:156-161 | every selected entry is a member with the role, and no member with the role is dropped |
| Members.TestersExample | utils/testbench.py:156-161 | of a Tester/Viewer member and a Viewer-only member, only the first is kept |
| TestCases.Insert | utils/testbench.py:200 | a dict assignment keeps every key listed once and maps the key to the new value; a present key keeps its position and a new key goes last |
| TestCases.UniqueId | utils/testbench.py:200 | the key is `tc["uniqueID"]` and is read exactly when the test case is a dict holding a hashable `uniqueID`; a non-dict or a list or dict ID raises `TypeError`, a missing ID `KeyError("uniqueID")` |
| TestCases.IndexPrefix | utils/testbench.py:200 | indexing the first `n` test cases succeeds exactly when each of their IDs can be read, and yields a well-formed dict |
| TestCases.IndexById | utils/testbench.py:200 | the comprehension succeeds exactly when every ID can be read, and yields a well-formed dict |
| TestCases.IndexByIdFirstError | utils/testbench.py:200 | the first test case whose ID cannot be read decides the error |
| TestCases.IndexByIdKeys | utils/testbench.py:200 | the dict's keys are exactly the test cases' IDs |
| TestCases.IndexByIdLastWins | utils/testbench.py:207 | each ID maps to the last test case that carries it |
| TestCases.ExecSerial | utils/testbench.py:210 | the execution serial is `tc["paramCombPK"]["serial"]`, read exactly when both levels are dicts holding the key |
| TestCases.SerialsMatch | utils/testbench.py:209-210 | a comparison succeeds exactly when both serials can be read, the left one first, and is true if and only if they are equal |
| TestCases.SpecSerial | utils/testbench.py:209 | the specification serial is `spec[uid]["testCaseSpecificationKey"]["serial"]`, read exactly when each level is a dict holding the key; a missing ID or a missing `testCaseSpecificationKey` raises `TypeError` (`None["serial"]`), and a specification test case that is not a dict raises `AttributeError` |
| TestCases.AllMatch | utils/testbench.py:208-212 | the list of comparisons succeeds exactly when every comparison does, the first failing comparison decides the error, and it is true if and only if every comparison is true |
| TestCases.EqualLists | utils/testbench.py:208-212 | `equal_lists` is computed exactly when every execution ID can be compared, and it is true if and only if every execution test case's serial equals the serial of the specification test case with its ID |
| TestCases.EqualListsVacuous | utils/testbench.py:208-212 | with no execution test cases, `equal_lists` is true |
| TestCases.MissingSpecEntryRaises | utils/testbench.py:208-212 | an execution ID with no specification test case makes the `equal_lists` comparison raise rather than give `False`; `TestCases.JoinShape` lifts this to `get_test_cases` |
| TestCases.GetTestCases | utils/testbench.py:193-217 | a result that holds execution test cases holds a well-formed dict of them |
| TestCases.JoinShape | utils/testbench.py:193-217 | the result is the specification dict alone if and only if the `exec` reference is falsy; the dicts are the indexes of the payloads; a result holding execution test cases has a specification test case for every execution ID, so a missing one makes the call raise; `equal_lists` holds if and only if every execution serial matches its specification serial |
| Jobs.Completion | utils/testbench.py:143-147 | the status poll yields the `completion` field exactly when the status is a dict holding it |
| Jobs.Outcome | utils/testbench.py:136-141 | `None` exactly for a `None` completion; a value only for a dict result holding `Right`, and then that value; a failure carries the completion's `result`; a `result` that is null, a boolean or a number, or a list or string containing `"Right"`, raises `TypeError` |
| Jobs.JobResult | utils/testbench.py:134-147 | the poll unwraps the status document's `completion`; a status that is not a dict raises `TypeError` and one without `completion` raises `KeyError` |
| Jobs.OutcomeCases | utils/testbench.py:134-141 | `None` when the completion is `None`; the `Right` value exactly when the result is a dict holding `Right`; a failure carrying the result exactly when `"Right" in result` is false |
| Jobs.FailedAndPendingJobs | utils/testbench.py:170-179 | a completion with a `Left` result fails with that result, and a pending job yields `None` |
| Log.RotateLeft | utils/testbench.py:293 | rotation keeps the length and moves the first connection to the end |
| Log.RotateLeftKeeps | utils/testbench.py:293 | rotating keeps the length and the number of copies of each connection |
| Log.RotateLeftAt | utils/testbench.py:293 | after a rotation, position `i` holds what was at `(i + 1) mod n`, so the old first connection ends up last |
| Log.RotateTimesSplit | utils/testbench.py:293 | after `k` rotations the log starts at its old position `k` |
| Log.RotateFullCircle | utils/testbench.py:293 | one rotation per connection gives the log back |
| Log.RemoveFirst | utils/testbench.py:296 | removal succeeds exactly when the connection is present and shortens the log by one; otherwise `ValueError` |
| Log.RemoveFirstAt | utils/testbench.py:296 | only the first occurrence is removed, and what comes before it and after it stays in order |
| Log.RemoveFirstMultiset | utils/testbench.py:296 | removal takes exactly one copy of the connection out |
| Log.ConnectionLog.constructor | utils/testbench.py:281-282 | a new log is empty |
| Log.ConnectionLog.Len | utils/testbench.py:284-286 | `len` is the number of connections |
| Log.ConnectionLog.ActiveConnection | utils/testbench.py:288-290 | the active connection is the last one; an empty log raises `IndexError` |
| Log.ConnectionLog.Next | utils/testbench.py:292-293 | the log becomes its left rotation, and the old first connection becomes active |
| Log.ConnectionLog.Remove | utils/testbench.py:295-296 | the first occurrence is removed exactly when the connection is present; otherwise `ValueError` is raised and the log is unchanged |
| Log.ConnectionLog.AddConnection | utils/testbench.py:298-299 | the connection is appended, becomes active, and the length grows by one |

## Left out

- The HTTP session is not modelled: the `session` property, the auth header, the response hooks, `close` and the TLS warning suppression (utils/testbench.py:44, 60-77). These are library configuration and I/O. `export` reads `session.verify`, which the session takes from `verify`; the model reads `verify` directly.
- `TimeoutHTTPAdapter`, `check_is_working`, `get_xml_report_data`, `login` and the HTTP GETs are not modelled. They are network I/O with no logic of their own, so their payloads are parameters.
- `ConnectionLog.export_as_json` is not modelled. It writes a file.
- The `actions` part of `export`, the action logs and `add_action` are not modelled. They depend on `AbstractAction` from `utils/util.py`, which is not part of this model.
- `main.py` is not part of this model.
- Base64.Decode: the decoder is strict (RFC 4648). Python's `b64decode` without `validate=True` is lenient in ways that are not modelled: it discards characters outside the alphabet before decoding, it stops at the first completed padding and ignores what follows (`Og==Og==` decodes to `:`), and it ignores `=` characters that cannot be padding. Texts that Python accepts this way are `InvalidBase64` in the model.
- Credentials.Resolve: the UTF-8 decoding step, and the `UnicodeDecodeError` it raises on invalid bytes, is not modelled. Credentials are byte strings. The colon is the single byte 58, which never occurs inside a multi-byte UTF-8 character.
- Projects.Fold: `casefold` is modelled for ASCII letters only. Unicode case folding tables are not modelled.
- Projects.DictOf: `dict()` of a non-empty list of key-value pairs is not modelled. Such a response is taken to raise `TypeError`, as it does when the first element is not a sequence. The server sends a dict here.
- JSON numbers are integers. Floats are not modelled, and neither is Python's equality of `1`, `1.0` and `True`, both as dict keys and in the serial comparison of `equal_lists`.
- TestCases.SerialsMatch: values are compared structurally, so a serial `1` and a serial `true` differ in the model while Python's `==` finds them equal.
- The string formatting of serials in URL paths is not modelled. Path keys are strings.
- TestCases.IndexById: the key order of the resulting dict is tracked, since `equal_lists` visits keys in that order, but no contract states which order it is.
- `get_imp_job_result` is the same code as `get_exp_job_result` on a different status path, so one function models both. `Resources.Path` distinguishes the two paths.
- `Connection.job_timeout_sec` and `connection_timeout` are stored but not used by any modelled operation. `Testbench.NewConnection` falls back to `Testbench.DefaultJobTimeoutSec` when no job timeout is given.
