/** Sorting the project list: `get_all_projects` copies the response into a
    dict and sorts its `projects` list in place by the case-folded project
    name.  Python's `list.sort` is stable and compares keys only; the sort
    below does the same on an array of decorated entries, and the position
    each entry starts at is what shows the sort to be stable. */
module Projects {

  import opened PyJson

  /** `casefold` on one character, for ASCII letters. */
  function FoldChar(c: char): char {
    if 'A' <= c <= 'Z' then (c as int + 32) as char else c
  }

  /** `str.casefold`, for ASCII letters. */
  function Fold(s: string): string {
    if s == [] then [] else [FoldChar(s[0])] + Fold(s[1..])
  }

  /** Python's `<` on strings: code point by code point, a proper prefix first. */
  predicate Less(a: string, b: string) {
    if a == [] then b != []
    else b != [] && (a[0] < b[0] || (a[0] == b[0] && Less(a[1..], b[1..])))
  }

  lemma {:induction false} LessIrreflexive(a: string)
    ensures !Less(a, a)
  {
    if a != [] {
      LessIrreflexive(a[1..]);
    }
  }

  lemma {:induction false} LessTransitive(a: string, b: string, c: string)
    requires Less(a, b) && Less(b, c)
    ensures Less(a, c)
  {
    if a != [] && a[0] == b[0] && b[0] == c[0] {
      LessTransitive(a[1..], b[1..], c[1..]);
    }
  }

  /** Two different strings are ordered one way or the other. */
  lemma {:induction false} LessTotal(a: string, b: string)
    requires a != b
    ensures Less(a, b) || Less(b, a)
  {
    if a != [] && b != [] && a[0] == b[0] {
      assert a == [a[0]] + a[1..] && b == [b[0]] + b[1..];
      LessTotal(a[1..], b[1..]);
    }
  }

  lemma LessAsymmetric(a: string, b: string)
    requires Less(a, b)
    ensures !Less(b, a)
  {
    if Less(b, a) {
      LessTransitive(a, b, a);
      LessIrreflexive(a);
    }
  }

  /** Folding makes names that differ only in the case of ASCII letters equal. */
  lemma FoldExample()
    ensures Fold("Alpha") == Fold("ALPHA") == "alpha"
    ensures Less(Fold("Alpha"), Fold("beta")) && !Less(Fold("beta"), Fold("Alpha"))
  {
    assert Fold("a") == "a" && Fold("A") == "a";
    assert Fold("ha") == "ha" && Fold("HA") == "ha";
    assert Fold("pha") == "pha" && Fold("PHA") == "pha";
    assert Fold("lpha") == "lpha" && Fold("LPHA") == "lpha";
    assert Fold("Alpha") == "alpha" && Fold("ALPHA") == "alpha";
    assert Fold("ta") == "ta" && Fold("eta") == "eta";
    assert Fold("beta") == "beta";
    assert Less("alpha", "beta");
    LessAsymmetric("alpha", "beta");
  }

  /** The sort key of a project: `proj["name"].casefold()`. */
  function ProjectKey(proj: Json): (r: Result<string>)
    ensures r.Ok? <==> proj.Obj? && "name" in proj.fields && proj.fields["name"].Str?
    ensures r.Ok? ==> r.value == Fold(proj.fields["name"].s)
    ensures !proj.Obj? ==> r == Err(TypeError)
    ensures proj.Obj? && "name" !in proj.fields ==> r == Err(KeyError("name"))
  {
    match Subscript(proj, "name")
    case Err(e) => Err(e)
    case Ok(name) => if name.Str? then Ok(Fold(name.s)) else Err(AttributeError)
  }

  /** The keys of all projects, computed before any comparison; the first
      project whose key raises makes the sort raise. */
  function SortKeys(ps: seq<Json>): (r: Result<seq<string>>)
    ensures r.Ok? <==> forall i :: 0 <= i < |ps| ==> ProjectKey(ps[i]).Ok?
    ensures r.Ok? ==> |r.value| == |ps| && forall i :: 0 <= i < |ps| ==> ProjectKey(ps[i]) == Ok(r.value[i])
    ensures r.Err? ==> exists i :: 0 <= i < |ps| && ProjectKey(ps[i]) == Err(r.error)
                          && forall j :: 0 <= j < i ==> ProjectKey(ps[j]).Ok?
  {
    if ps == [] then Ok([])
    else
      assert forall j :: 0 <= j < |ps| - 1 ==> ps[1..][j] == ps[j + 1];
      match ProjectKey(ps[0])
      case Err(e) => Err(e)
      case Ok(k) =>
        match SortKeys(ps[1..])
        case Err(e) => Err(e)
        case Ok(rest) => Ok([k] + rest)
  }

  /** A project with its sort key and the position it starts at. */
  datatype Keyed = Keyed(key: string, pos: nat, item: Json)

  /** The order a stable sort produces: by key, and by starting position
      among equal keys. */
  predicate Before(x: Keyed, y: Keyed) {
    Less(x.key, y.key) || (x.key == y.key && x.pos < y.pos)
  }

  lemma BeforeTransitive(x: Keyed, y: Keyed, z: Keyed)
    requires Before(x, y) && Before(y, z)
    ensures Before(x, z)
  {
    if Less(x.key, y.key) && Less(y.key, z.key) {
      LessTransitive(x.key, y.key, z.key);
    }
  }

  predicate Sorted(s: seq<Keyed>) {
    forall k, m :: 0 <= k < m < |s| ==> Before(s[k], s[m])
  }

  /** The projects decorated with their keys and positions. */
  function Tagged(keys: seq<string>, ps: seq<Json>): (t: seq<Keyed>)
    requires |keys| == |ps|
    ensures |t| == |ps|
    ensures forall i :: 0 <= i < |t| ==> t[i] == Keyed(keys[i], i, ps[i])
  {
    seq(|ps|, i requires 0 <= i < |ps| => Keyed(keys[i], i, ps[i]))
  }

  /** `order` lists where each entry of `out` comes from: every project
      exactly once, no later entry with a key below an earlier one, and
      entries with equal keys in their original relative order. */
  ghost predicate StableOrder(order: seq<nat>, out: seq<Json>, ps: seq<Json>, keys: seq<string>) {
    && |order| == |out| == |ps| == |keys|
    && (forall i :: 0 <= i < |order| ==> order[i] < |ps| && out[i] == ps[order[i]])
    && (forall j :: 0 <= j < |ps| ==> j in order)
    && (forall i, l :: 0 <= i < l < |order| ==> order[i] != order[l])
    && (forall i, l :: 0 <= i < l < |order| ==> !Less(keys[order[l]], keys[order[i]]))
    && (forall i, l :: 0 <= i < l < |order| && keys[order[i]] == keys[order[l]] ==> order[i] < order[l])
  }

  /** `out` is the stable sort of `ps` by `keys`. */
  ghost predicate IsStableSort(out: seq<Json>, ps: seq<Json>, keys: seq<string>) {
    exists order :: StableOrder(order, out, ps, keys)
  }

  function Items(s: seq<Keyed>): (r: seq<Json>)
    ensures |r| == |s| && forall i :: 0 <= i < |s| ==> r[i] == s[i].item
  {
    seq(|s|, i requires 0 <= i < |s| => s[i].item)
  }

  function Positions(s: seq<Keyed>): (r: seq<nat>)
    ensures |r| == |s| && forall i :: 0 <= i < |s| ==> r[i] == s[i].pos
  {
    seq(|s|, i requires 0 <= i < |s| => s[i].pos)
  }

  /** A sorted rearrangement of the decorated projects, undecorated, is their
      stable sort, with the starting positions as the witness. */
  lemma SortedIsStableSort(s: seq<Keyed>, keys: seq<string>, ps: seq<Json>)
    requires |keys| == |ps|
    requires multiset(s) == multiset(Tagged(keys, ps))
    requires Sorted(s)
    ensures StableOrder(Positions(s), Items(s), ps, keys)
    ensures IsStableSort(Items(s), ps, keys)
  {
    var t := Tagged(keys, ps);
    var order := Positions(s);
    var out := Items(s);
    assert |s| == |t| by {
      calc {
        |s|;
        |multiset(s)|;
        |multiset(t)|;
        |t|;
      }
    }
    forall i | 0 <= i < |s|
      ensures s[i].pos < |ps| && s[i] == t[s[i].pos]
    {
      assert s[i] in multiset(t);
      var p :| 0 <= p < |t| && t[p] == s[i];
    }
    forall j | 0 <= j < |ps|
      ensures j in order
    {
      assert t[j] in multiset(s);
      var i :| 0 <= i < |s| && s[i] == t[j];
      assert order[i] == j;
    }
    forall i, l | 0 <= i < l < |s|
      ensures order[i] != order[l] && !Less(keys[order[l]], keys[order[i]])
    {
      assert Before(s[i], s[l]);
      if Less(s[i].key, s[l].key) {
        LessAsymmetric(s[i].key, s[l].key);
        LessIrreflexive(s[i].key);
      } else {
        LessIrreflexive(s[i].key);
      }
    }
    assert StableOrder(order, out, ps, keys);
  }

  /** Midway through inserting the entry now at `j` into the sorted prefix
      `s[..i]`: the other entries of `s[..i + 1]` are in order, the entries
      after `j` have greater keys, and the inserted entry started after all
      of them. */
  ghost predicate Inserting(s: seq<Keyed>, j: int, i: int)
    requires 0 <= j <= i < |s|
  {
    && (forall k :: 0 <= k <= i && k != j ==> s[k].pos < s[j].pos)
    && (forall k, m :: 0 <= k < m <= i && k != j && m != j ==> Before(s[k], s[m]))
    && (forall m :: j < m <= i ==> Less(s[j].key, s[m].key))
  }

  /** Every entry up to `i` started before every entry after it. */
  ghost predicate PosSplit(s: seq<Keyed>, i: int) {
    forall k, m :: 0 <= k <= i < m < |s| ==> s[k].pos < s[m].pos
  }

  lemma InsertStart(s: seq<Keyed>, i: int)
    requires 0 <= i < |s| && Sorted(s[..i]) && PosPrefix(s, i)
    ensures Inserting(s, i, i) && PosSplit(s, i)
  {
    assert forall k :: 0 <= k < i ==> s[..i][k] == s[k];
  }

  /** Swapping the inserted entry with a predecessor of greater key. */
  lemma InsertStep(s: seq<Keyed>, j: int, i: int)
    requires 0 < j <= i < |s| && Inserting(s, j, i) && PosSplit(s, i)
    requires Less(s[j].key, s[j - 1].key)
    ensures Inserting(s[j - 1 := s[j]][j := s[j - 1]], j - 1, i)
    ensures PosSplit(s[j - 1 := s[j]][j := s[j - 1]], i)
  {
  }

  /** `s` holds the entries of `s0`, rearranged within `s0[..i + 1]`. */
  ghost predicate Rearranged(s: seq<Keyed>, s0: seq<Keyed>, i: int)
    requires 0 <= i < |s0|
  {
    |s| == |s0| && s[i + 1..] == s0[i + 1..] && multiset(s) == multiset(s0)
  }

  /** Swapping two entries up to `i` keeps the same entries. */
  lemma SwapRearranges(s: seq<Keyed>, s0: seq<Keyed>, x: int, y: int, i: int)
    requires 0 <= x < y <= i < |s0| && Rearranged(s, s0, i)
    ensures Rearranged(s[x := s[y]][y := s[x]], s0, i)
  {
    var t := s[x := s[y]][y := s[x]];
    assert s == s[..x] + [s[x]] + s[x + 1..y] + [s[y]] + s[y + 1..];
    assert t == s[..x] + [s[y]] + s[x + 1..y] + [s[x]] + s[y + 1..];
    assert t[i + 1..] == s[i + 1..];
  }

  /** The inserted entry has reached its place. */
  lemma InsertDone(s: seq<Keyed>, j: int, i: int)
    requires 0 <= j <= i < |s| && Inserting(s, j, i)
    requires j == 0 || !Less(s[j].key, s[j - 1].key)
    ensures Sorted(s[..i + 1])
  {
    if 0 < j && s[j - 1].key != s[j].key {
      LessTotal(s[j - 1].key, s[j].key);
    }
    forall k, m | 0 <= k < m <= i
      ensures Before(s[k], s[m])
    {
      if m == j && k < j - 1 {
        BeforeTransitive(s[k], s[j - 1], s[j]);
      }
    }
  }

  /** The entries before `i` started before the entries from `i` on, which
      are still in their starting order. */
  ghost predicate PosPrefix(s: seq<Keyed>, i: int) {
    && 0 <= i <= |s|
    && (forall k, m :: 0 <= k < i <= m < |s| ==> s[k].pos < s[m].pos)
    && (forall k, m :: i <= k < m < |s| ==> s[k].pos < s[m].pos)
  }

  lemma PosPrefixNext(s: seq<Keyed>, s1: seq<Keyed>, i: int)
    requires 0 <= i < |s| && PosPrefix(s, i)
    requires PosSplit(s1, i) && |s1| == |s| && s1[i + 1..] == s[i + 1..]
    ensures PosPrefix(s1, i + 1)
  {
    forall k, m | i + 1 <= k < m < |s1|
      ensures s1[k].pos < s1[m].pos
    {
      assert s1[k] == s1[i + 1..][k - i - 1] == s[k];
      assert s1[m] == s1[i + 1..][m - i - 1] == s[m];
    }
  }

  lemma RearrangedNext(s0: seq<Keyed>, s: seq<Keyed>, s1: seq<Keyed>, i: int)
    requires 0 <= i < |s|
    requires |s| == |s0| && s[i..] == s0[i..] && multiset(s) == multiset(s0)
    requires Rearranged(s1, s, i)
    ensures s1[i + 1..] == s0[i + 1..] && multiset(s1) == multiset(s0)
  {
    assert s[i + 1..] == s[i..][1..];
    assert s0[i + 1..] == s0[i..][1..];
  }

  /** Exchanges two entries of the array. */
  method Swap(a: array<Keyed>, x: int, y: int)
    modifies a
    requires 0 <= x < y < a.Length
    ensures a[..] == old(a[..])[x := old(a[y])][y := old(a[x])]
  {
    a[x], a[y] := a[y], a[x];
  }

  /** The state of the array while an entry is inserted. */
  ghost predicate InsertState(s: seq<Keyed>, s0: seq<Keyed>, j: int, i: int)
    requires 0 <= j <= i < |s0|
  {
    |s| == |s0| && Rearranged(s, s0, i) && PosSplit(s, i) && Inserting(s, j, i)
  }

  /** One step of the insertion: the entry at `j` and its predecessor
      exchanged. */
  lemma InsertSwapped(s: seq<Keyed>, s0: seq<Keyed>, j: int, i: int) returns (t: seq<Keyed>)
    requires 0 < j <= i < |s0| && InsertState(s, s0, j, i)
    requires Less(s[j].key, s[j - 1].key)
    ensures t == s[j - 1 := s[j]][j := s[j - 1]]
    ensures InsertState(t, s0, j - 1, i)
  {
    InsertStep(s, j, i);
    SwapRearranges(s, s0, j - 1, j, i);
    t := s[j - 1 := s[j]][j := s[j - 1]];
  }

  /** Moves the entry at `i` down past every entry of the sorted prefix
      `a[..i]` with a greater key. */
  method InsertAt(a: array<Keyed>, i: int)
    modifies a
    requires 0 <= i < a.Length && Sorted(a[..i]) && PosPrefix(a[..], i)
    ensures Sorted(a[..i + 1]) && Rearranged(a[..], old(a[..]), i) && PosSplit(a[..], i)
  {
    var j := i;
    ghost var s0 := a[..];
    InsertStart(s0, i);
    while 0 < j && Less(a[j].key, a[j - 1].key)
      invariant 0 <= j <= i
      invariant InsertState(a[..], s0, j, i)
    {
      ghost var t := InsertSwapped(a[..], s0, j, i);
      Swap(a, j - 1, j);
      assert a[..] == t;
      j := j - 1;
    }
    InsertDone(a[..], j, i);
  }

  /** `list.sort(key=...)` on the decorated projects: an insertion sort that
      compares keys only, as Python's does. */
  method SortByKey(a: array<Keyed>)
    modifies a
    requires forall k, m :: 0 <= k < m < a.Length ==> a[k].pos < a[m].pos
    ensures Sorted(a[..])
    ensures multiset(a[..]) == multiset(old(a[..]))
  {
    var i := 0;
    while i < a.Length
      invariant 0 <= i <= a.Length
      invariant Sorted(a[..i])
      invariant a[i..] == old(a[..])[i..]
      invariant multiset(a[..]) == multiset(old(a[..]))
      invariant PosPrefix(a[..], i)
    {
      ghost var s := a[..];
      InsertAt(a, i);
      RearrangedNext(old(a[..]), s, a[..], i);
      PosPrefixNext(s, a[..], i);
      i := i + 1;
    }
    assert a[..] == a[..a.Length];
  }

  /** `dict(response)` for the kinds of response the server sends: a dict is
      copied, an empty list or string gives an empty dict, and a value that
      is not a sequence raises. */
  function DictOf(response: Json): (r: Result<map<string, Json>>)
    ensures response.Obj? ==> r == Ok(response.fields)
    ensures response.Null? || response.Bool? || response.Num? ==> r == Err(TypeError)
  {
    match response
    case Obj(m) => Ok(m)
    case Str(s) => if s == "" then Ok(map[]) else Err(ValueError)
    case Arr(items) => if items == [] then Ok(map[]) else Err(TypeError)
    case _ => Err(TypeError)
  }

  /** What the sort starts from: the copied dict, its `projects` list and
      the keys of the projects; or the exception raised on the way there. */
  function SortInput(response: Json): (r: Result<(map<string, Json>, seq<Json>, seq<string>)>)
    ensures DictOf(response).Err? ==> r == Err(DictOf(response).error)
    ensures r.Ok? <==> DictOf(response).Ok? && "projects" in DictOf(response).value
                       && DictOf(response).value["projects"].Arr?
                       && SortKeys(DictOf(response).value["projects"].items).Ok?
    ensures DictOf(response).Ok? && "projects" !in DictOf(response).value ==> r == Err(KeyError("projects"))
    ensures (DictOf(response).Ok? && "projects" in DictOf(response).value
             && !DictOf(response).value["projects"].Arr?) ==>
      r == Err(AttributeError)
    ensures (DictOf(response).Ok? && "projects" in DictOf(response).value
             && DictOf(response).value["projects"].Arr?
             && SortKeys(DictOf(response).value["projects"].items).Err?) ==>
      r == Err(SortKeys(DictOf(response).value["projects"].items).error)
    ensures r.Ok? ==> var (fields, ps, keys) := r.value;
      && DictOf(response) == Ok(fields)
      && "projects" in fields && fields["projects"] == Arr(ps)
      && SortKeys(ps) == Ok(keys)
  {
    match DictOf(response)
    case Err(e) => Err(e)
    case Ok(fields) =>
      if "projects" !in fields then Err(KeyError("projects"))
      else if !fields["projects"].Arr? then Err(AttributeError)
      else
        var ps := fields["projects"].items;
        match SortKeys(ps)
        case Err(e) => Err(e)
        case Ok(keys) => Ok((fields, ps, keys))
  }

  /** `get_all_projects` on an upstream response: the same dict with its
      `projects` list stably sorted by case-folded name; every other key
      keeps its value. */
  method GetAllProjects(response: Json) returns (r: Result<Json>)
    ensures r.Ok? <==> SortInput(response).Ok?
    ensures r.Err? ==> r.error == SortInput(response).error
    ensures r.Ok? ==> var (fields, ps, keys) := SortInput(response).value;
      && r.value.Obj? && r.value.fields.Keys == fields.Keys
      && (forall k | k in fields && k != "projects" :: r.value.fields[k] == fields[k])
      && r.value.fields["projects"].Arr?
      && IsStableSort(r.value.fields["projects"].items, ps, keys)
  {
    match SortInput(response)
    case Err(e) =>
      r := Err(e);
    case Ok(input) =>
      var (fields, ps, keys) := input;
      var n := |ps|;
      var a := new Keyed[n](i requires 0 <= i < n => Keyed(keys[i], i, ps[i]));
      assert a[..] == Tagged(keys, ps);
      SortByKey(a);
      var sorted := a[..];
      SortedIsStableSort(sorted, keys, ps);
      r := Ok(Obj(fields["projects" := Arr(Items(sorted))]));
  }
}
