/** The connection log: the connections the command-line reporter knows,
    the last one being the active connection.  `next` rotates the log left
    by one, `remove` drops the first occurrence of a connection (compared by
    identity, since connections define no equality of their own), and
    `add_connection` appends. */
module Log {

  import opened PyJson
  import Testbench

  type Connection = Testbench.Connection

  /** `s[1:] + s[:1]`: the first element moves to the end. */
  function RotateLeft<T>(s: seq<T>): (r: seq<T>)
    ensures |r| == |s|
    ensures s != [] ==> r[|r| - 1] == s[0]
  {
    if s == [] then [] else s[1..] + [s[0]]
  }

  /** Rotating keeps the connections and how often each occurs. */
  lemma RotateLeftKeeps<T>(s: seq<T>)
    ensures |RotateLeft(s)| == |s| && multiset(RotateLeft(s)) == multiset(s)
  {
    if s != [] {
      calc {
        multiset(RotateLeft(s));
        multiset(s[1..]) + multiset{s[0]};
        { assert s == [s[0]] + s[1..]; }
        multiset(s);
      }
    }
  }

  /** Position `i` after a rotation holds what followed it cyclically
      before; in particular the old first element ends up last. */
  lemma RotateLeftAt<T>(s: seq<T>, i: int)
    requires 0 <= i < |s|
    ensures |RotateLeft(s)| == |s| && RotateLeft(s)[i] == s[(i + 1) % |s|]
  {
    if i < |s| - 1 {
      assert (i + 1) % |s| == i + 1;
    } else {
      assert (i + 1) % |s| == 0;
    }
  }

  /** `next` applied `n` times. */
  function RotateTimes<T>(s: seq<T>, n: nat): seq<T>
    decreases n
  {
    if n == 0 then s else RotateTimes(RotateLeft(s), n - 1)
  }

  /** After `k` rotations the log starts at its old element `k`. */
  lemma {:induction false} RotateTimesSplit<T>(s: seq<T>, k: nat)
    requires k <= |s|
    decreases k
    ensures RotateTimes(s, k) == s[k..] + s[..k]
  {
    if k > 0 {
      var r := RotateLeft(s);
      assert r == s[1..] + [s[0]];
      RotateTimesSplit(r, k - 1);
      assert r[k - 1..] == s[k..] + [s[0]];
      assert r[..k - 1] == s[1..k];
      assert [s[0]] + s[1..k] == s[..k];
    }
  }

  /** Rotating a log once per connection gives the log back. */
  lemma RotateFullCircle<T>(s: seq<T>)
    ensures RotateTimes(s, |s|) == s
  {
    RotateTimesSplit(s, |s|);
  }

  /** `list.remove(x)`: the first element equal to `x` is taken out;
      `ValueError` when there is none. */
  function RemoveFirst<T(==)>(s: seq<T>, x: T): (r: Result<seq<T>>)
    ensures r.Ok? <==> x in s
    ensures r.Err? ==> r.error == ValueError
    ensures r.Ok? ==> |r.value| == |s| - 1
  {
    if s == [] then Err(ValueError)
    else if s[0] == x then Ok(s[1..])
    else
      match RemoveFirst(s[1..], x)
      case Err(e) => Err(e)
      case Ok(rest) => Ok([s[0]] + rest)
  }

  /** Exactly the first occurrence is removed: everything before it and
      after it stays, in order. */
  lemma {:induction false} RemoveFirstAt<T>(s: seq<T>, x: T, i: int)
    requires 0 <= i < |s| && s[i] == x && x !in s[..i]
    ensures RemoveFirst(s, x) == Ok(s[..i] + s[i + 1..])
  {
    if i > 0 {
      assert s[0] in s[..i];
      assert s[1..][..i - 1] == s[1..i];
      RemoveFirstAt(s[1..], x, i - 1);
      assert s[1..][i..] == s[i + 1..];
      assert [s[0]] + s[1..i] == s[..i];
      assert [s[0]] + (s[1..i] + s[i + 1..]) == s[..i] + s[i + 1..];
    } else {
      assert s[..0] + s[1..] == s[1..];
    }
  }

  /** Removing takes one copy of `x` out of the log and nothing else. */
  lemma {:induction false} RemoveFirstMultiset<T>(s: seq<T>, x: T)
    requires x in s
    ensures multiset(RemoveFirst(s, x).value) == multiset(s) - multiset{x}
  {
    assert s == [s[0]] + s[1..];
    if s[0] != x {
      RemoveFirstMultiset(s[1..], x);
    }
  }

  class ConnectionLog {
    var connections: seq<Connection>

    /** A new log is empty. */
    constructor ()
      ensures connections == []
    {
      connections := [];
    }

    /** `len`: the number of connections in the log. */
    function Len(): (n: nat)
      reads this
      ensures n == |connections|
    {
      |connections|
    }

    /** `active_connection`: the last connection; `connections[-1]` raises
        `IndexError` on an empty log. */
    function ActiveConnection(): (r: Result<Connection>)
      reads this
      ensures r.Err? <==> connections == []
      ensures r.Err? ==> r.error == IndexError
      ensures r.Ok? ==> r.value == connections[|connections| - 1] && r.value in connections
    {
      if connections == [] then Err(IndexError) else Ok(connections[|connections| - 1])
    }

    /** `next`: the first connection moves to the end and becomes active. */
    method Next()
      modifies this
      ensures connections == RotateLeft(old(connections))
      ensures old(connections) != [] ==> ActiveConnection() == Ok(old(connections)[0])
    {
      if connections != [] {
        connections := connections[1..] + connections[..1];
      }
    }

    /** `remove`: the first occurrence of `c` leaves the log; when `c` is not
        in the log, `ValueError` is raised and the log is unchanged. */
    method Remove(c: Connection) returns (r: Result<()>)
      modifies this
      ensures r.Ok? <==> c in old(connections)
      ensures r.Err? ==> r.error == ValueError && connections == old(connections)
      ensures r.Ok? ==> connections == RemoveFirst(old(connections), c).value
    {
      match RemoveFirst(connections, c)
      case Err(e) =>
        r := Err(e);
      case Ok(rest) =>
        connections := rest;
        r := Ok(());
    }

    /** `add_connection`: the new connection goes last and becomes active. */
    method AddConnection(c: Connection)
      modifies this
      ensures connections == old(connections) + [c]
      ensures ActiveConnection() == Ok(c) && Len() == old(Len()) + 1
    {
      connections := connections + [c];
    }
  }
}
