/** Joining the specification and execution test cases of a test case set:
    both lists are indexed by `uniqueID` into dicts (a later test case
    replaces an earlier one with the same ID), and when an execution is
    referenced, `equal_lists` says whether every execution test case carries
    the serial of the specification test case with its ID. */
module TestCases {

  import opened PyJson

  /** A Python dict keyed by JSON values: its keys in insertion order, and
      the value of each key. */
  datatype Index = Index(order: seq<Json>, entries: map<Json, Json>)

  predicate Distinct(s: seq<Json>) {
    forall i, j :: 0 <= i < j < |s| ==> s[i] != s[j]
  }

  /** The key order lists every key once. */
  predicate Valid(d: Index) {
    && Distinct(d.order)
    && (forall k | k in d.order :: k in d.entries)
    && (forall k | k in d.entries :: k in d.order)
  }

  /** `d[key] = value`: a present key keeps its position, a new key goes last. */
  function Insert(d: Index, key: Json, value: Json): (r: Index)
    requires Valid(d)
    ensures Valid(r)
    ensures r.entries == d.entries[key := value]
    ensures key in d.entries ==> r.order == d.order
    ensures key !in d.entries ==> r.order == d.order + [key]
  {
    if key in d.entries then Index(d.order, d.entries[key := value])
    else Index(d.order + [key], d.entries[key := value])
  }

  /** `tc["uniqueID"]` used as a dict key; lists and dicts are unhashable. */
  function UniqueId(tc: Json): (r: Result<Json>)
    ensures r.Ok? <==> tc.Obj? && "uniqueID" in tc.fields
                       && !(tc.fields["uniqueID"].Arr? || tc.fields["uniqueID"].Obj?)
    ensures r.Ok? ==> r.value == tc.fields["uniqueID"] && !r.value.Arr? && !r.value.Obj?
    ensures !tc.Obj? ==> r == Err(TypeError)
    ensures tc.Obj? && "uniqueID" !in tc.fields ==> r == Err(KeyError("uniqueID"))
    ensures tc.Obj? && "uniqueID" in tc.fields && (tc.fields["uniqueID"].Arr? || tc.fields["uniqueID"].Obj?) ==>
      r == Err(TypeError)
  {
    match Subscript(tc, "uniqueID")
    case Err(e) => Err(e)
    case Ok(id) => if id.Arr? || id.Obj? then Err(TypeError) else Ok(id)
  }

  /** The dict comprehension over the first `n` test cases. */
  function IndexPrefix(tcs: seq<Json>, n: nat): (r: Result<Index>)
    requires n <= |tcs|
    ensures r.Ok? <==> forall i :: 0 <= i < n ==> UniqueId(tcs[i]).Ok?
    ensures r.Ok? ==> Valid(r.value)
    decreases n
  {
    if n == 0 then Ok(Index([], map[]))
    else
      match IndexPrefix(tcs, n - 1)
      case Err(e) => Err(e)
      case Ok(d) =>
        match UniqueId(tcs[n - 1])
        case Err(e) => Err(e)
        case Ok(id) => Ok(Insert(d, id, tcs[n - 1]))
  }

  /** `{tc["uniqueID"]: tc for tc in tcs}`. */
  function IndexById(tcs: seq<Json>): (r: Result<Index>)
    ensures r.Ok? <==> forall i :: 0 <= i < |tcs| ==> UniqueId(tcs[i]).Ok?
    ensures r.Ok? ==> Valid(r.value)
  {
    IndexPrefix(tcs, |tcs|)
  }

  /** The first test case whose ID cannot be read decides the error. */
  lemma {:induction false} PrefixFirstError(tcs: seq<Json>, n: nat, i: int)
    requires 0 <= i < n <= |tcs| && UniqueId(tcs[i]).Err?
    requires forall j :: 0 <= j < i ==> UniqueId(tcs[j]).Ok?
    ensures IndexPrefix(tcs, n) == Err(UniqueId(tcs[i]).error)
    decreases n
  {
    if i < n - 1 {
      PrefixFirstError(tcs, n - 1, i);
    }
  }

  lemma IndexByIdFirstError(tcs: seq<Json>, i: int)
    requires 0 <= i < |tcs| && UniqueId(tcs[i]).Err?
    requires forall j :: 0 <= j < i ==> UniqueId(tcs[j]).Ok?
    ensures IndexById(tcs) == Err(UniqueId(tcs[i]).error)
  {
    PrefixFirstError(tcs, |tcs|, i);
  }

  /** Every indexed test case's ID is a key. */
  lemma {:induction false} PrefixHasId(tcs: seq<Json>, n: nat, i: int)
    requires n <= |tcs| && IndexPrefix(tcs, n).Ok? && 0 <= i < n
    ensures UniqueId(tcs[i]).value in IndexPrefix(tcs, n).value.entries
    decreases n
  {
    if i < n - 1 {
      PrefixHasId(tcs, n - 1, i);
    }
  }

  /** Every key is the ID of an indexed test case. */
  lemma {:induction false} PrefixKeyIsId(tcs: seq<Json>, n: nat, k: Json)
    requires n <= |tcs| && IndexPrefix(tcs, n).Ok? && k in IndexPrefix(tcs, n).value.entries
    ensures exists i :: 0 <= i < n && UniqueId(tcs[i]) == Ok(k)
    decreases n
  {
    if UniqueId(tcs[n - 1]) != Ok(k) {
      PrefixKeyIsId(tcs, n - 1, k);
    }
  }

  /** The keys are exactly the IDs of the test cases. */
  lemma IndexByIdKeys(tcs: seq<Json>)
    requires IndexById(tcs).Ok?
    ensures var d := IndexById(tcs).value;
      && (forall i :: 0 <= i < |tcs| ==> UniqueId(tcs[i]).value in d.entries)
      && (forall k :: k in d.entries ==> exists i :: 0 <= i < |tcs| && UniqueId(tcs[i]) == Ok(k))
  {
    forall i | 0 <= i < |tcs|
      ensures UniqueId(tcs[i]).value in IndexById(tcs).value.entries
    {
      PrefixHasId(tcs, |tcs|, i);
    }
    forall k | k in IndexById(tcs).value.entries
      ensures exists i :: 0 <= i < |tcs| && UniqueId(tcs[i]) == Ok(k)
    {
      PrefixKeyIsId(tcs, |tcs|, k);
    }
  }

  /** No test case after the one at `i` and before `n` has its ID. */
  predicate LastBefore(tcs: seq<Json>, n: nat, i: int)
    requires 0 <= i < n <= |tcs|
  {
    forall j :: i < j < n ==> UniqueId(tcs[j]) != UniqueId(tcs[i])
  }

  lemma {:induction false} PrefixLastWins(tcs: seq<Json>, n: nat, i: int)
    requires 0 <= i < n <= |tcs| && IndexPrefix(tcs, n).Ok? && LastBefore(tcs, n, i)
    ensures UniqueId(tcs[i]).value in IndexPrefix(tcs, n).value.entries
    ensures IndexPrefix(tcs, n).value.entries[UniqueId(tcs[i]).value] == tcs[i]
    decreases n
  {
    if i < n - 1 {
      assert UniqueId(tcs[n - 1]) != UniqueId(tcs[i]);
      PrefixLastWins(tcs, n - 1, i);
    }
  }

  /** Each ID maps to the last test case that carries it. */
  lemma IndexByIdLastWins(tcs: seq<Json>, i: int)
    requires IndexById(tcs).Ok? && 0 <= i < |tcs|
    requires forall j :: i < j < |tcs| ==> UniqueId(tcs[j]) != UniqueId(tcs[i])
    ensures UniqueId(tcs[i]).value in IndexById(tcs).value.entries
    ensures IndexById(tcs).value.entries[UniqueId(tcs[i]).value] == tcs[i]
  {
    PrefixLastWins(tcs, |tcs|, i);
  }

  /** `spec[uid]` has a `testCaseSpecificationKey` dict holding `serial`. */
  predicate HasSpecSerial(spec: Index, uid: Json) {
    && uid in spec.entries && spec.entries[uid].Obj?
    && "testCaseSpecificationKey" in spec.entries[uid].fields
    && spec.entries[uid].fields["testCaseSpecificationKey"].Obj?
    && "serial" in spec.entries[uid].fields["testCaseSpecificationKey"].fields
  }

  /** `test_cases.get(uid, {}).get("testCaseSpecificationKey")["serial"]`:
      a missing specification entry or key gives `None`, which cannot be
      subscripted. */
  function SpecSerial(spec: Index, uid: Json): (r: Result<Json>)
    ensures r.Ok? <==> HasSpecSerial(spec, uid)
    ensures r.Ok? ==> r.value == spec.entries[uid].fields["testCaseSpecificationKey"].fields["serial"]
    ensures uid !in spec.entries ==> r == Err(TypeError)
    ensures uid in spec.entries && !spec.entries[uid].Obj? ==> r == Err(AttributeError)
    ensures (uid in spec.entries && spec.entries[uid].Obj?
             && "testCaseSpecificationKey" !in spec.entries[uid].fields) ==>
      r == Err(TypeError)
  {
    var tc := if uid in spec.entries then spec.entries[uid] else Obj(map[]);
    match Get(tc, "testCaseSpecificationKey")
    case Err(e) => Err(e)
    case Ok(key) => Subscript(key, "serial")
  }

  /** `tc["paramCombPK"]["serial"]` of an execution test case. */
  function ExecSerial(tc: Json): (r: Result<Json>)
    ensures r.Ok? <==> tc.Obj? && "paramCombPK" in tc.fields
                       && tc.fields["paramCombPK"].Obj? && "serial" in tc.fields["paramCombPK"].fields
    ensures r.Ok? ==> r.value == tc.fields["paramCombPK"].fields["serial"]
    ensures !tc.Obj? ==> r == Err(TypeError)
    ensures tc.Obj? && "paramCombPK" !in tc.fields ==> r == Err(KeyError("paramCombPK"))
  {
    match Subscript(tc, "paramCombPK")
    case Err(e) => Err(e)
    case Ok(key) => Subscript(key, "serial")
  }

  /** One comparison of the list, left operand evaluated first. */
  function SerialsMatch(spec: Index, uid: Json, tc: Json): (r: Result<bool>)
    ensures r.Ok? <==> SpecSerial(spec, uid).Ok? && ExecSerial(tc).Ok?
    ensures r.Ok? ==> (r.value <==> SpecSerial(spec, uid).value == ExecSerial(tc).value)
    ensures SpecSerial(spec, uid).Err? ==> r == Err(SpecSerial(spec, uid).error)
    ensures SpecSerial(spec, uid).Ok? && ExecSerial(tc).Err? ==> r == Err(ExecSerial(tc).error)
  {
    match SpecSerial(spec, uid)
    case Err(e) => Err(e)
    case Ok(a) =>
      match ExecSerial(tc)
      case Err(e) => Err(e)
      case Ok(b) => Ok(a == b)
  }

  /** The comparisons for the execution IDs `ids`, all evaluated in order (a
      list, not a generator), folded into "no comparison is False". */
  function AllMatch(spec: Index, execs: Index, ids: seq<Json>): (r: Result<bool>)
    requires forall i :: 0 <= i < |ids| ==> ids[i] in execs.entries
    ensures r.Ok? <==> forall i :: 0 <= i < |ids| ==> SerialsMatch(spec, ids[i], execs.entries[ids[i]]).Ok?
    ensures r.Err? ==> exists i :: 0 <= i < |ids| && SerialsMatch(spec, ids[i], execs.entries[ids[i]]) == Err(r.error)
                          && forall j :: 0 <= j < i ==> SerialsMatch(spec, ids[j], execs.entries[ids[j]]).Ok?
    ensures r.Ok? ==> (r.value <==> forall i :: 0 <= i < |ids| ==> SerialsMatch(spec, ids[i], execs.entries[ids[i]]) == Ok(true))
  {
    if ids == [] then Ok(true)
    else
      assert forall i :: 0 <= i < |ids| - 1 ==> ids[1..][i] == ids[i + 1];
      match SerialsMatch(spec, ids[0], execs.entries[ids[0]])
      case Err(e) => Err(e)
      case Ok(same) =>
        match AllMatch(spec, execs, ids[1..])
        case Err(e) => Err(e)
        case Ok(rest) => Ok(same && rest)
  }

  /** `equal_lists`, over the execution dict in its key order. */
  function EqualLists(spec: Index, execs: Index): (r: Result<bool>)
    requires Valid(execs)
    ensures r.Ok? <==> forall uid :: uid in execs.entries ==> SerialsMatch(spec, uid, execs.entries[uid]).Ok?
    ensures r.Ok? ==> (r.value <==> forall uid :: uid in execs.entries ==> SerialsMatch(spec, uid, execs.entries[uid]) == Ok(true))
  {
    var r := AllMatch(spec, execs, execs.order);
    assert forall uid :: uid in execs.entries ==> exists i :: 0 <= i < |execs.order| && execs.order[i] == uid;
    r
  }

  /** With no execution test cases `equal_lists` is true. */
  lemma EqualListsVacuous(spec: Index)
    ensures EqualLists(spec, Index([], map[])) == Ok(true)
  {
  }

  /** An execution ID without a specification test case makes the call
      raise rather than give `false`. */
  lemma MissingSpecEntryRaises(spec: Index, execs: Index, uid: Json)
    requires Valid(execs) && uid in execs.entries && uid !in spec.entries
    ensures EqualLists(spec, execs).Err?
  {
    assert SerialsMatch(spec, uid, execs.entries[uid]) == Err(TypeError);
  }

  /** The result of `get_test_cases`: the specification dict alone, or both
      dicts and `equal_lists`. */
  datatype Joined = SpecOnly(spec: Index) | WithExec(spec: Index, exec: Index, equalLists: bool)

  /** `structure[outer][inner]["serial"]`. */
  function ReferenceSerial(structure: Json, outer: string, inner: string): Result<Json> {
    match Subscript(structure, outer)
    case Err(e) => Err(e)
    case Ok(o) =>
      match Subscript(o, inner)
      case Err(e) => Err(e)
      case Ok(i) => Subscript(i, "serial")
  }

  /** `get_test_cases(structure)`, given the payloads upstream returns for the
      specification and execution test case lists it requests. */
  function GetTestCases(structure: Json, specPayload: Json, execPayload: Json): (r: Result<Joined>)
    ensures r.Ok? && r.value.WithExec? ==> Valid(r.value.exec)
  {
    match ReferenceSerial(structure, "TestCaseSet_structure", "key")
    case Err(e) => Err(e)
    case Ok(_) =>
      match ReferenceSerial(structure, "spec", "Specification_key")
      case Err(e) => Err(e)
      case Ok(_) =>
        match Elements(specPayload)
        case Err(e) => Err(e)
        case Ok(specItems) =>
          match IndexById(specItems)
          case Err(e) => Err(e)
          case Ok(spec) =>
            match Get(structure, "exec")
            case Err(e) => Err(e)
            case Ok(execRef) =>
              if !Truthy(execRef) then Ok(SpecOnly(spec))
              else
                match ReferenceSerial(structure, "exec", "Execution_key")
                case Err(e) => Err(e)
                case Ok(_) =>
                  match Elements(execPayload)
                  case Err(e) => Err(e)
                  case Ok(execItems) =>
                    match IndexById(execItems)
                    case Err(e) => Err(e)
                    case Ok(execs) =>
                      match EqualLists(spec, execs)
                      case Err(e) => Err(e)
                      case Ok(eq) => Ok(WithExec(spec, execs, eq))
  }

  /** The `exec` reference of a structure, `None` when it is absent. */
  function ExecReference(structure: Json): Json
    requires structure.Obj?
  {
    if "exec" in structure.fields then structure.fields["exec"] else Null
  }

  /** Without a (truthy) execution reference the result is the specification
      dict alone, indexed from the specification payload; with one, it holds
      both dicts, and `equal_lists` is true exactly when every execution test
      case's serial equals that of the specification test case with its ID. */
  lemma JoinShape(structure: Json, specPayload: Json, execPayload: Json)
    requires GetTestCases(structure, specPayload, execPayload).Ok?
    ensures structure.Obj?
    ensures var j := GetTestCases(structure, specPayload, execPayload).value;
      && (j.SpecOnly? <==> !Truthy(ExecReference(structure)))
      && Elements(specPayload).Ok? && j.spec == IndexById(Elements(specPayload).value).value
      && (j.WithExec? ==>
            && Elements(execPayload).Ok? && j.exec == IndexById(Elements(execPayload).value).value
            && (forall uid :: uid in j.exec.entries ==> uid in j.spec.entries)
            && (j.equalLists <==>
                  forall uid :: uid in j.exec.entries ==>
                    SpecSerial(j.spec, uid).Ok? && ExecSerial(j.exec.entries[uid]).Ok?
                    && SpecSerial(j.spec, uid).value == ExecSerial(j.exec.entries[uid]).value))
  {
    var j := GetTestCases(structure, specPayload, execPayload).value;
    if j.WithExec? {
      forall uid | uid in j.exec.entries
        ensures uid in j.spec.entries
      {
        assert SerialsMatch(j.spec, uid, j.exec.entries[uid]).Ok?;
      }
      forall uid | uid in j.exec.entries
        ensures SerialsMatch(j.spec, uid, j.exec.entries[uid]) == Ok(true) <==>
          SpecSerial(j.spec, uid).Ok? && ExecSerial(j.exec.entries[uid]).Ok?
          && SpecSerial(j.spec, uid).value == ExecSerial(j.exec.entries[uid]).value
      {
      }
    }
  }
}
