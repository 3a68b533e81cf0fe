/** Reading the outcome of an asynchronous upstream job (report generation
    or result import) from its status document. */
module Jobs {

  import opened PyJson

  /** The `completion` field of a job's status document. */
  function Completion(status: Json): (r: Result<Json>)
    ensures r.Ok? <==> status.Obj? && "completion" in status.fields
    ensures r.Ok? ==> r.value == status.fields["completion"]
  {
    Subscript(status, "completion")
  }

  /** The result of a job given its completion: nothing yet for `null`, the
      `Right` value of the completion's `result`, or a failure carrying that
      `result` when it has no `Right`. */
  function Outcome(completion: Json): (r: Result<Option<Json>>)
    ensures r == Ok(None) <==> completion == Null
    ensures r.Ok? && r.value.Some? ==>
      && completion.Obj? && "result" in completion.fields
      && completion.fields["result"].Obj? && "Right" in completion.fields["result"].fields
      && r.value.value == completion.fields["result"].fields["Right"]
    ensures r.Err? && r.error.JobFailed? ==>
      completion.Obj? && "result" in completion.fields && r.error.result == completion.fields["result"]
    ensures completion != Null && !completion.Obj? ==> r == Err(TypeError)
    ensures completion.Obj? && "result" !in completion.fields ==> r == Err(KeyError("result"))
    ensures completion.Obj? && "result" in completion.fields ==>
      var result := completion.fields["result"];
      && (!(result.Arr? || result.Obj? || result.Str?) ==> r == Err(TypeError))
      && (result.Arr? && Str("Right") in result.items ==> r == Err(TypeError))
      && (result.Str? && IsSubstring("Right", result.s) ==> r == Err(TypeError))
  {
    if completion == Null then Ok(None)
    else
      match Subscript(completion, "result")
      case Err(e) => Err(e)
      case Ok(result) =>
        match Contains(result, "Right")
        case Err(e) => Err(e)
        case Ok(hasRight) =>
          if hasRight then
            match Subscript(result, "Right")
            case Err(e) => Err(e)
            case Ok(v) => Ok(Some(v))
          else Err(JobFailed(result))
  }

  /** What the status-document poll of a report or import job returns. */
  function JobResult(status: Json): (r: Result<Option<Json>>)
    ensures status.Obj? && "completion" in status.fields ==> r == Outcome(status.fields["completion"])
    ensures !status.Obj? ==> r == Err(TypeError)
    ensures status.Obj? && "completion" !in status.fields ==> r == Err(KeyError("completion"))
  {
    match Completion(status)
    case Err(e) => Err(e)
    case Ok(c) => Outcome(c)
  }

  /** The outcome, told apart by the shape of the completion: a job yields a
      value exactly when its `result` is an object with a `Right` key, and
      fails with that `result` exactly when the result is a list without the
      element "Right", an object without the key, or a string not
      containing it. */
  lemma OutcomeCases(completion: Json)
    ensures Outcome(completion) == Ok(None) <==> completion == Null
    ensures (exists v :: Outcome(completion) == Ok(Some(v))) <==>
      completion.Obj? && "result" in completion.fields
      && completion.fields["result"].Obj? && "Right" in completion.fields["result"].fields
    ensures Outcome(completion).Ok? && Outcome(completion).value.Some? ==>
      Outcome(completion).value.value == completion.fields["result"].fields["Right"]
    ensures (exists x :: Outcome(completion) == Err(JobFailed(x))) <==>
      completion.Obj? && "result" in completion.fields
      && match completion.fields["result"]
         case Arr(items) => Str("Right") !in items
         case Obj(m) => "Right" !in m
         case Str(s) => !IsSubstring("Right", s)
         case _ => false
    ensures Outcome(completion).Err? && Outcome(completion).error.JobFailed? ==>
      Outcome(completion).error.result == completion.fields["result"]
  {
    if completion != Null && completion.Obj? && "result" in completion.fields {
      var result := completion.fields["result"];
      if result.Obj? && "Right" in result.fields {
        assert Outcome(completion) == Ok(Some(result.fields["Right"]));
      }
    }
  }

  /** A completed job whose result carries `Left` fails with that result;
      an unfinished job (`completion: null`) yields nothing. */
  lemma FailedAndPendingJobs(message: string)
    ensures JobResult(Obj(map["completion" := Obj(map["result" := Obj(map["Left" := Str(message)])])]))
         == Err(JobFailed(Obj(map["Left" := Str(message)])))
    ensures JobResult(Obj(map["completion" := Null])) == Ok(None)
  {
  }
}
