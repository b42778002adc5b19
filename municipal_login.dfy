/** POST /api/auth/municipal: a municipal login checked against a fixed table of five
    accounts, one per municipal corporation. */
module MunicipalLogin {
  import opened Http

  datatype Credential = Credential(password: string, nagarNigam: string, name: string)

  const MunicipalCredentials: map<string, Credential> := map[
    "ranchi2024" := Credential("ranchi123", "Ranchi Municipal Corporation", "Ranchi Municipal Admin"),
    "jamshedpur2024" := Credential("jamshedpur123", "Jamshedpur Notified Area Committee", "Jamshedpur Municipal Admin"),
    "dhanbad2024" := Credential("dhanbad123", "Dhanbad Municipal Corporation", "Dhanbad Municipal Admin"),
    "bokaro2024" := Credential("bokaro123", "Bokaro Steel City Municipal Corporation", "Bokaro Municipal Admin"),
    "deoghar2024" := Credential("deoghar123", "Deoghar Municipal Corporation", "Deoghar Municipal Admin")
  ]

  /** The success reply: the id as given, with the account's jurisdiction and name. */
  datatype LoginOk = LoginOk(municipalId: string, nagarNigam: string, name: string)

  /** Each account belongs to exactly one jurisdiction, and the five accounts belong to
      five different jurisdictions. */
  lemma JurisdictionsDistinct()
    ensures |MunicipalCredentials| == 5
    ensures forall a, b :: a in MunicipalCredentials && b in MunicipalCredentials && a != b
                           ==> MunicipalCredentials[a].nagarNigam != MunicipalCredentials[b].nagarNigam
  {
    assert MunicipalCredentials.Keys == {"ranchi2024", "jamshedpur2024", "dhanbad2024", "bokaro2024", "deoghar2024"};
  }

  /** The login check: both fields required, then the id, then the password. */
  function Login(municipalId: Option<string>, password: Option<string>): (r: Reply<LoginOk>)
    ensures !Truthy(municipalId) || !Truthy(password)
            ==> r == Error(400, "Municipal ID and password are required")
    ensures Truthy(municipalId) && Truthy(password) && municipalId.value !in MunicipalCredentials
            ==> r == Error(401, "Invalid Municipal ID")
    ensures Truthy(municipalId) && Truthy(password) && municipalId.value in MunicipalCredentials
            && MunicipalCredentials[municipalId.value].password != password.value
            ==> r == Error(401, "Invalid password")
    ensures r.Ok? <==> && Truthy(municipalId) && Truthy(password)
                       && municipalId.value in MunicipalCredentials
                       && MunicipalCredentials[municipalId.value].password == password.value
    ensures r.Ok? ==> r.value == LoginOk(municipalId.value,
                                         MunicipalCredentials[municipalId.value].nagarNigam,
                                         MunicipalCredentials[municipalId.value].name)
  {
    if !Truthy(municipalId) || !Truthy(password) then
      Error(400, "Municipal ID and password are required")
    else if municipalId.value !in MunicipalCredentials then
      Error(401, "Invalid Municipal ID")
    else
      var credentials := MunicipalCredentials[municipalId.value];
      if password.value != credentials.password then Error(401, "Invalid password")
      else Ok(LoginOk(municipalId.value, credentials.nagarNigam, credentials.name))
  }

  /** Property names every plain JavaScript object inherits from `Object.prototype`. Looking
      one of them up in the credentials object yields a truthy value (a function, or the
      prototype itself) that has no `password`. */
  const InheritedKeys: set<string> := {
    "constructor", "hasOwnProperty", "isPrototypeOf", "propertyIsEnumerable",
    "toLocaleString", "toString", "valueOf", "__proto__",
    "__defineGetter__", "__defineSetter__", "__lookupGetter__", "__lookupSetter__"
  }

  /** The check as the handler writes it, by property lookup on the credentials object: an
      inherited name passes the "unknown id" test and then fails the password comparison. */
  function LoginAsWritten(municipalId: Option<string>, password: Option<string>): (r: Reply<LoginOk>)
    ensures r.Ok? ==> r == Login(municipalId, password)
  {
    if !Truthy(municipalId) || !Truthy(password) then
      Error(400, "Municipal ID and password are required")
    else if municipalId.value !in MunicipalCredentials && municipalId.value !in InheritedKeys then
      Error(401, "Invalid Municipal ID")
    else if municipalId.value !in MunicipalCredentials then
      Error(401, "Invalid password")
    else
      var credentials := MunicipalCredentials[municipalId.value];
      if password.value != credentials.password then Error(401, "Invalid password")
      else Ok(LoginOk(municipalId.value, credentials.nagarNigam, credentials.name))
  }

  /** The two agree on every id that is not an inherited property name ... */
  lemma AsWrittenAgreesElsewhere(municipalId: Option<string>, password: Option<string>)
    requires !Truthy(municipalId) || municipalId.value !in InheritedKeys
    ensures LoginAsWritten(municipalId, password) == Login(municipalId, password)
  {
  }

  /** ... but the id "constructor", which is no account, is answered "Invalid password"
      instead of "Invalid Municipal ID". */
  lemma InheritedKeyMisreported()
    ensures LoginAsWritten(Some("constructor"), Some("ranchi123")) == Error(401, "Invalid password")
    ensures Login(Some("constructor"), Some("ranchi123")) == Error(401, "Invalid Municipal ID")
  {
    assert "constructor" !in MunicipalCredentials;
    assert "constructor" in InheritedKeys;
  }
}
