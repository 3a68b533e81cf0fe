/** Selecting the testers among the members of a project: the members whose
    `value.membership.roles` contains the role name "Tester". */
module Members {

  import opened PyJson

  /** `member["value"]["membership"]["roles"]` can be read. */
  predicate HasRoles(member: Json) {
    && member.Obj? && "value" in member.fields
    && member.fields["value"].Obj? && "membership" in member.fields["value"].fields
    && member.fields["value"].fields["membership"].Obj?
    && "roles" in member.fields["value"].fields["membership"].fields
  }

  function Roles(member: Json): Json
    requires HasRoles(member)
  {
    member.fields["value"].fields["membership"].fields["roles"]
  }

  /** `"Tester" in member["value"]["membership"]["roles"]`: an element test
      on a list of roles, a key test on a dict and a substring test on a
      string. */
  function IsTester(member: Json): (r: Result<bool>)
    ensures r.Ok? <==> HasRoles(member) && (Roles(member).Arr? || Roles(member).Obj? || Roles(member).Str?)
    ensures HasRoles(member) && Roles(member).Arr? ==> r == Ok(Str("Tester") in Roles(member).items)
    ensures HasRoles(member) && Roles(member).Obj? ==> r == Ok("Tester" in Roles(member).fields)
    ensures HasRoles(member) && Roles(member).Str? ==> r == Ok(IsSubstring("Tester", Roles(member).s))
    ensures !member.Obj? ==> r == Err(TypeError)
    ensures member.Obj? && "value" !in member.fields ==> r == Err(KeyError("value"))
  {
    match Subscript(member, "value")
    case Err(e) => Err(e)
    case Ok(value) =>
      match Subscript(value, "membership")
      case Err(e) => Err(e)
      case Ok(membership) =>
        match Subscript(membership, "roles")
        case Err(e) => Err(e)
        case Ok(roles) => Contains(roles, "Tester")
  }

  /** The testers among `members`, in their original order; the first member
      whose role check raises makes the whole selection raise. */
  function FilterTesters(members: seq<Json>): (r: Result<seq<Json>>)
    ensures r.Ok? <==> forall i :: 0 <= i < |members| ==> IsTester(members[i]).Ok?
    ensures r.Err? ==> exists i :: 0 <= i < |members| && IsTester(members[i]) == Err(r.error)
                          && forall j :: 0 <= j < i ==> IsTester(members[j]).Ok?
    ensures r.Ok? ==> |r.value| <= |members|
  {
    if members == [] then Ok([])
    else
      match IsTester(members[0])
      case Err(e) => Err(e)
      case Ok(keep) =>
        match FilterTesters(members[1..])
        case Err(e) =>
          assert forall j :: 0 <= j < |members| - 1 ==> members[1..][j] == members[j + 1];
          Err(e)
        case Ok(rest) => Ok(if keep then [members[0]] + rest else rest)
  }

  /** What `get_all_testers_of_project` makes of the member list upstream
      returns for the project. */
  function Testers(members: Json): (r: Result<seq<Json>>)
    ensures members.Arr? ==> r == FilterTesters(members.items)
    ensures !(members.Arr? || members.Obj? || members.Str?) ==> r == Err(TypeError)
  {
    match Elements(members)
    case Err(e) => Err(e)
    case Ok(items) => FilterTesters(items)
  }

  /** The indices of the testers among `members`, in increasing order. */
  function TesterIndices(members: seq<Json>): (idx: seq<nat>)
    ensures forall k :: 0 <= k < |idx| ==> idx[k] < |members|
  {
    if members == [] then []
    else
      var rest := TesterIndices(members[..|members| - 1]);
      if IsTester(members[|members| - 1]) == Ok(true) then rest + [|members| - 1] else rest
  }

  /** The tester indices are increasing and are exactly the positions of the
      members with the role. */
  lemma {:induction false} TesterIndicesExact(members: seq<Json>)
    ensures var idx := TesterIndices(members);
      && (forall k, l :: 0 <= k < l < |idx| ==> idx[k] < idx[l])
      && (forall i :: 0 <= i < |members| ==> (i in idx <==> IsTester(members[i]) == Ok(true)))
  {
    if members != [] {
      var n := |members| - 1;
      var front := members[..n];
      TesterIndicesExact(front);
      var idx0 := TesterIndices(front);
      forall i | 0 <= i < n
        ensures IsTester(members[i]) == IsTester(front[i])
      {
      }
      if IsTester(members[n]) == Ok(true) {
        assert TesterIndices(members) == idx0 + [n];
      } else {
        assert TesterIndices(members) == idx0;
      }
    }
  }

  /** The selection holds the members at the tester indices, in that order. */
  lemma {:induction false} FilterAtIndices(members: seq<Json>)
    requires FilterTesters(members).Ok?
    ensures var ts, idx := FilterTesters(members).value, TesterIndices(members);
      && |ts| == |idx|
      && (forall k :: 0 <= k < |ts| ==> ts[k] == members[idx[k]])
  {
    if members != [] {
      var n := |members| - 1;
      var front := members[..n];
      FilterPrefix(members);
      FilterAtIndices(front);
      var ts0, idx0 := FilterTesters(front).value, TesterIndices(front);
      forall k | 0 <= k < |idx0|
        ensures front[idx0[k]] == members[idx0[k]]
      {
      }
      if IsTester(members[n]) == Ok(true) {
        assert FilterTesters(members).value == ts0 + [members[n]];
        assert TesterIndices(members) == idx0 + [n];
      } else {
        assert FilterTesters(members).value == ts0;
        assert TesterIndices(members) == idx0;
      }
    }
  }

  /** The selection is the subsequence of the members at exactly the tester
      positions: it keeps their order, drops no tester and adds nothing. */
  lemma FilterIsSubsequence(members: seq<Json>)
    requires FilterTesters(members).Ok?
    ensures var ts, idx := FilterTesters(members).value, TesterIndices(members);
      && |ts| == |idx|
      && (forall k :: 0 <= k < |ts| ==> ts[k] == members[idx[k]])
      && (forall k, l :: 0 <= k < l < |idx| ==> idx[k] < idx[l])
      && (forall i :: 0 <= i < |members| ==> (i in idx <==> IsTester(members[i]) == Ok(true)))
  {
    TesterIndicesExact(members);
    FilterAtIndices(members);
  }

  /** Every selected entry is a member with the role, and no member with the
      role is left out. */
  lemma FilterKeepsExactlyTesters(members: seq<Json>)
    requires FilterTesters(members).Ok?
    ensures forall x :: x in FilterTesters(members).value ==> x in members && IsTester(x) == Ok(true)
    ensures forall x :: x in members && IsTester(x) == Ok(true) ==> x in FilterTesters(members).value
  {
    FilterIsSubsequence(members);
    var ts, idx := FilterTesters(members).value, TesterIndices(members);
    forall x | x in ts
      ensures x in members && IsTester(x) == Ok(true)
    {
      var k :| 0 <= k < |ts| && ts[k] == x;
      assert idx[k] in idx;
    }
    forall x | x in members && IsTester(x) == Ok(true)
      ensures x in ts
    {
      var i :| 0 <= i < |members| && members[i] == x;
      var k :| 0 <= k < |idx| && idx[k] == i;
      assert ts[k] == x;
    }
  }

  /** Filtering all but the last member and then the last one. */
  lemma {:induction false} FilterPrefix(members: seq<Json>)
    requires members != [] && FilterTesters(members).Ok?
    ensures var n := |members| - 1;
      && FilterTesters(members[..n]).Ok?
      && FilterTesters(members).value ==
           FilterTesters(members[..n]).value + (if IsTester(members[n]) == Ok(true) then [members[n]] else [])
  {
    var n := |members| - 1;
    if n > 0 {
      var tail := members[1..];
      assert tail[..|tail| - 1] == members[..n][1..];
      FilterPrefix(tail);
      assert members[..n][0] == members[0];
    }
  }

  /** The member list of the example project: one member with the roles
      Tester and Viewer, one with the role Viewer only. */
  lemma TestersExample()
    ensures var tester := Obj(map["value" := Obj(map["membership" := Obj(map["roles" := Arr([Str("Tester"), Str("Viewer")])])])]);
      var viewer := Obj(map["value" := Obj(map["membership" := Obj(map["roles" := Arr([Str("Viewer")])])])]);
      Testers(Arr([tester, viewer])) == Ok([tester])
  {
    var tester := Obj(map["value" := Obj(map["membership" := Obj(map["roles" := Arr([Str("Tester"), Str("Viewer")])])])]);
    var viewer := Obj(map["value" := Obj(map["membership" := Obj(map["roles" := Arr([Str("Viewer")])])])]);
    assert IsTester(tester) == Ok(true);
    assert IsTester(viewer) == Ok(false);
    assert [tester, viewer][1..] == [viewer] && [viewer][1..] == [];
    assert FilterTesters([viewer]) == Ok([]);
    var both := [tester, viewer];
    assert both[0] == tester && both[1..] == [viewer];
    assert [tester] + [] == [tester];
    assert FilterTesters(both) == Ok([tester]);
  }
}
