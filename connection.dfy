/** The `Connection` class: one authenticated configuration for talking to
    the test management server.  Its fields are set once at construction and
    never reassigned; the objects have identity, which matters where a
    connection log removes a connection. */
module Testbench {

  import opened PyJson
  import Credentials
  import Base64

  type byte = Base64.byte

  /** The default timeout for waiting on asynchronous jobs: four hours. */
  const DefaultJobTimeoutSec: int := 4 * 60 * 60

  /** TLS verification: on or off, or the path of a certificate bundle. */
  datatype Verify = Flag(on: bool) | CaBundle(path: string)

  /** Python truthiness of the `verify` setting, as `bool(...)` computes it. */
  predicate VerifyTruthy(v: Verify) {
    match v
    case Flag(on) => on
    case CaBundle(path) => path != ""
  }

  /** The serialisable snapshot `export` produces (its `actions` list is not
      part of this model). */
  datatype Configuration = Configuration(serverUrl: string, verify: bool, basicAuth: string)

  class Connection {
    const serverUrl: string
    const loginname: seq<byte>
    const password: seq<byte>
    const jobTimeoutSec: int
    const connectionTimeout: Option<int>
    const verifySsl: Verify
    const actionsToTrigger: seq<Json>

    /** Stores the already resolved credentials and the settings; a missing
        action list becomes the empty list. */
    constructor (serverUrl: string, verify: Verify, loginname: seq<byte>, password: seq<byte>,
                 jobTimeoutSec: int, connectionTimeoutSec: Option<int>, actions: Option<seq<Json>>)
      ensures this.serverUrl == serverUrl && this.verifySsl == verify
      ensures this.loginname == loginname && this.password == password
      ensures this.jobTimeoutSec == jobTimeoutSec && this.connectionTimeout == connectionTimeoutSec
      ensures this.actionsToTrigger == if actions.Some? then actions.value else []
    {
      this.serverUrl := serverUrl;
      this.loginname := loginname;
      this.password := password;
      this.jobTimeoutSec := jobTimeoutSec;
      this.connectionTimeout := connectionTimeoutSec;
      this.verifySsl := verify;
      this.actionsToTrigger := if actions.Some? then actions.value else [];
    }

    /** The snapshot of this connection: the server URL, whether TLS
        verification is on, and the credentials re-encoded as `basicAuth`,
        which a new connection decodes back to these credentials exactly
        when the login name has no colon. */
    function Export(): (c: Configuration)
      ensures c.serverUrl == serverUrl
      ensures c.verify <==> VerifyTruthy(verifySsl)
      ensures Credentials.Resolve(Some(c.basicAuth), None, None) == Ok((loginname, password))
          <==> Credentials.Colon !in loginname
    {
      Credentials.RoundTrip(loginname, password, None, None);
      Configuration(serverUrl, VerifyTruthy(verifySsl), Credentials.BasicAuth(loginname, password))
    }

    /** `check_is_identical`: same server, login name and password.  Identical
        connections export the same server and the same `basicAuth`, whatever
        their login names contain. */
    predicate IsIdentical(other: Connection): (b: bool)
      ensures b ==> (Export().serverUrl == other.Export().serverUrl
                     && Export().basicAuth == other.Export().basicAuth)
    {
      serverUrl == other.serverUrl && loginname == other.loginname && password == other.password
    }
  }

  /** Constructs a connection as `Connection(...)` does: a non-empty
      `basicAuth` takes precedence and is decoded; otherwise the separate
      login name and password are used.  Decoding errors are raised.  An
      omitted job timeout (`None` here) is the four-hour default. */
  method NewConnection(serverUrl: string, verify: Verify, basicAuth: Option<string>,
                       loginname: Option<seq<byte>>, password: Option<seq<byte>>,
                       jobTimeoutSec: Option<int>, connectionTimeoutSec: Option<int>, actions: Option<seq<Json>>)
    returns (r: Result<Connection>)
    ensures var creds := Credentials.Resolve(basicAuth, loginname, password);
      && (r.Ok? <==> creds.Ok?)
      && (r.Err? ==> r.error == creds.error)
      && (r.Ok? ==> fresh(r.value) && r.value.serverUrl == serverUrl && r.value.verifySsl == verify
                    && r.value.loginname == creds.value.0 && r.value.password == creds.value.1
                    && r.value.jobTimeoutSec == (if jobTimeoutSec.Some? then jobTimeoutSec.value else DefaultJobTimeoutSec)
                    && r.value.connectionTimeout == connectionTimeoutSec
                    && r.value.actionsToTrigger == if actions.Some? then actions.value else [])
  {
    match Credentials.Resolve(basicAuth, loginname, password)
    case Err(e) =>
      r := Err(e);
    case Ok(creds) =>
      var timeout := if jobTimeoutSec.Some? then jobTimeoutSec.value else DefaultJobTimeoutSec;
      var c := new Connection(serverUrl, verify, creds.0, creds.1, timeout, connectionTimeoutSec, actions);
      r := Ok(c);
  }

  /** The converse of `IsIdentical`'s contract: two connections whose login
      names have no colon and whose exports name the same server and the same
      `basicAuth` are identical. */
  lemma SameExportIdentical(a: Connection, b: Connection)
    requires Credentials.Colon !in a.loginname && Credentials.Colon !in b.loginname
    requires a.Export().serverUrl == b.Export().serverUrl && a.Export().basicAuth == b.Export().basicAuth
    ensures a.IsIdentical(b)
  {
    var ra := Credentials.Resolve(Some(a.Export().basicAuth), None, None);
    assert ra == Ok((a.loginname, a.password));
    assert ra == Ok((b.loginname, b.password));
  }

  /** The colon condition is needed: a login name with a colon shares its
      `basicAuth` with a different split of the same text. */
  lemma ColonBreaksIdentity(a: Connection, b: Connection)
    requires a.serverUrl == b.serverUrl
    requires a.loginname == [97, Credentials.Colon] && a.password == [98]
    requires b.loginname == [97] && b.password == [Credentials.Colon, 98]
    ensures a.Export().serverUrl == b.Export().serverUrl && a.Export().basicAuth == b.Export().basicAuth
    ensures !a.IsIdentical(b)
  {
    assert a.loginname + [Credentials.Colon] + a.password == b.loginname + [Credentials.Colon] + b.password;
  }
}
