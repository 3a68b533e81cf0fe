/** How a connection obtains its login name and password: from a base64
    `basicAuth` string split at its first colon, or from the separate
    arguments with missing ones defaulting to the empty string; and how
    `export` turns them back into a `basicAuth` string.  Credential text is
    modelled as its UTF-8 bytes. */
module Credentials {

  import opened PyJson
  import Base64

  type byte = Base64.byte

  /** The UTF-8 encoding of `:`. */
  const Colon: byte := 58

  /** The login name and password a connection is constructed with. */
  function Resolve(basicAuth: Option<string>, loginname: Option<seq<byte>>, password: Option<seq<byte>>)
    : (r: Result<(seq<byte>, seq<byte>)>)
    ensures basicAuth.Some? && basicAuth.value != "" ==>
      (r.Ok? <==> Base64.Decode(basicAuth.value).Ok? && Colon in Base64.Decode(basicAuth.value).value)
    ensures basicAuth.Some? && basicAuth.value != "" && r.Ok? ==>
      Base64.Decode(basicAuth.value) == Ok(r.value.0 + [Colon] + r.value.1) && Colon !in r.value.0
    ensures basicAuth.Some? && basicAuth.value != "" && Base64.Decode(basicAuth.value).Err? ==>
      r == Err(InvalidBase64)
    ensures basicAuth.Some? && basicAuth.value != "" && Base64.Decode(basicAuth.value).Ok?
            && Colon !in Base64.Decode(basicAuth.value).value ==>
      r == Err(ValueError)
  {
    if basicAuth.Some? && basicAuth.value != "" then
      match Base64.Decode(basicAuth.value)
      case Err(e) => Err(e)
      case Ok(text) => SplitOnce(text, Colon)
    else
      Ok((if loginname.Some? then loginname.value else [], if password.Some? then password.value else []))
  }

  /** The `basicAuth` string `export` writes for a login name and password. */
  function BasicAuth(loginname: seq<byte>, password: seq<byte>): (s: string)
    ensures s != ""
  {
    Base64.Encode(loginname + [Colon] + password)
  }

  /** Without a (non-empty) `basicAuth`, given values are kept unchanged and
      missing ones become the empty string; construction cannot fail. */
  lemma DefaultCredentials(basicAuth: Option<string>, loginname: Option<seq<byte>>, password: Option<seq<byte>>)
    requires basicAuth == None || basicAuth == Some("")
    ensures Resolve(basicAuth, loginname, password).Ok?
    ensures loginname.Some? ==> Resolve(basicAuth, loginname, password).value.0 == loginname.value
    ensures loginname.None? ==> Resolve(basicAuth, loginname, password).value.0 == []
    ensures password.Some? ==> Resolve(basicAuth, loginname, password).value.1 == password.value
    ensures password.None? ==> Resolve(basicAuth, loginname, password).value.1 == []
  {
  }

  /** Re-constructing from an exported `basicAuth` restores the login name and
      password exactly when the login name contains no colon; the password
      may contain colons.  The other arguments are ignored. */
  lemma {:induction false} RoundTrip(loginname: seq<byte>, password: seq<byte>, otherLogin: Option<seq<byte>>, otherPassword: Option<seq<byte>>)
    ensures Resolve(Some(BasicAuth(loginname, password)), otherLogin, otherPassword) == Ok((loginname, password))
        <==> Colon !in loginname
  {
    var text := loginname + [Colon] + password;
    Base64.RoundTrip(text);
    var r := Resolve(Some(BasicAuth(loginname, password)), otherLogin, otherPassword);
    assert r == SplitOnce(text, Colon);
    if Colon !in loginname {
      SplitOnceOf(loginname, password, Colon);
    } else {
      assert r.Ok? && Colon !in r.value.0;
    }
  }
}
