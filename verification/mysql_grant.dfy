/**
 * The MySQL user grant provider: grant privileges on a privilege level to a
 * `user@host` account, on a database server reached with the owner's
 * password, and revoke them on delete. Failures are reported through
 * `fail()` rather than raised.
 *
 * The password store, the database connection and the execution of a
 * statement are parameters: `secrets` answers the SSM and Secrets Manager
 * requests, `connects` says whether a connection with the given arguments
 * succeeds, and `executes` whether a statement succeeds on it. An
 * operation's trace holds the statements that succeeded, in order.
 */
module MySqlUserGrant {
  import opened Wrappers
  import opened Dicts
  import opened Values
  import opened Lifecycle
  import Strings

  /** The physical id of a grant that was never made. */
  const NotCreated: string := "NOT CREATED"

  datatype Config = Config(grant: Value, on: Value, user: Value, withGrantOption: bool, database: Value)

  /** The world a grant operation runs against. */
  datatype World = World(secrets: Api, connects: Props -> bool, executes: string -> bool)

  /**
   * `validate`: WithGrantOption goes through `strtobool` (default 'false')
   * before the check that Grant is given and not empty.
   */
  function Validate(props: Props): (r: Result<Config, Error>)
    ensures FlagOrFalse(props, "WithGrantOption").Err? ==> r == Err(FlagOrFalse(props, "WithGrantOption").error)
    ensures FlagOrFalse(props, "WithGrantOption").Ok? ==> (r.Ok? <==> Truthy(GetValue(props, "Grant")))
    ensures FlagOrFalse(props, "WithGrantOption").Ok? && !Truthy(GetValue(props, "Grant")) ==> r == Err(Invalid)
    ensures r.Ok? ==> r.value.grant == GetValue(props, "Grant") && r.value.on == GetValue(props, "On") &&
                      r.value.user == GetValue(props, "User") && r.value.database == GetValue(props, "Database")
    ensures r.Ok? ==> FlagOrFalse(props, "WithGrantOption") == Ok(r.value.withGrantOption)
  {
    var withGrant :- FlagOrFalse(props, "WithGrantOption");
    if !Truthy(GetValue(props, "Grant")) then Err(Invalid)
    else Ok(Config(GetValue(props, "Grant"), GetValue(props, "On"), GetValue(props, "User"), withGrant, GetValue(props, "Database")))
  }

  // ---------------------------------------------------------------- rendering

  /** `'%s' % v`: a string as itself, anything else through `render`. */
  function Text(v: Value, render: Value -> string): string {
    if v.Str? then v.s else render(v)
  }

  /** `user.split('@')[0]` */
  function MysqlUser(user: string): string {
    Strings.Split(user, '@')[0]
  }

  /** `user.split('@')[1]` when there is an '@', else '%' (any host). */
  function MysqlUserHost(user: string): string {
    var parts := Strings.Split(user, '@');
    if |parts| > 1 then parts[1] else "%"
  }

  /** An account written `name@host` splits back into its name and host. */
  lemma UserHostOfAccount(name: string, host: string)
    requires '@' !in name && '@' !in host
    ensures MysqlUser(name + "@" + host) == name
    ensures MysqlUserHost(name + "@" + host) == host
  {
    assert Strings.Join([name, host], "@") == name + "@" + host by {
      assert Strings.Join([name, host][1..], "@") == host;
    }
    Strings.SplitJoin([name, host], '@');
  }

  /** An account without '@' is the user name itself, on any host. */
  lemma UserWithoutHost(user: string)
    requires '@' !in user
    ensures MysqlUser(user) == user && MysqlUserHost(user) == "%"
  {
  }

  /**
   * `','.join(grants)`: the privileges joined by commas; a string is joined
   * character by character, as Python iterates it.
   */
  function ToSqlFormat(grants: Value): (r: Result<string, Error>)
    ensures grants.List? ==> (r.Ok? <==> forall i :: 0 <= i < |grants.items| ==> grants.items[i].Str?)
    ensures grants.Str? ==> r.Ok?
    ensures !grants.List? && !grants.Str? ==> r.Err?
  {
    match grants
    case List(items) =>
      if forall i :: 0 <= i < |items| ==> items[i].Str?
      then Ok(Strings.Join(seq(|items|, i requires 0 <= i < |items| => items[i].s), ","))
      else Err(TypeError("sequence item: expected str instance"))
    case Str(s) => Ok(Strings.Join(seq(|s|, i requires 0 <= i < |s| => [s[i]]), ","))
    case _ => Err(TypeError("can only join an iterable"))
  }

  /** Privilege names without commas come back out of the joined list. */
  lemma SqlFormatSplits(names: seq<string>)
    requires |names| >= 1
    requires forall i :: 0 <= i < |names| ==> ',' !in names[i]
    ensures ToSqlFormat(List(seq(|names|, i requires 0 <= i < |names| => Str(names[i])))).Ok?
    ensures Strings.Split(ToSqlFormat(List(seq(|names|, i requires 0 <= i < |names| => Str(names[i])))).value, ',') == names
  {
    var items := seq(|names|, i requires 0 <= i < |names| => Str(names[i]));
    assert seq(|items|, i requires 0 <= i < |items| => items[i].s) == names;
    Strings.SplitJoin(names, ',');
  }

  /** `<privileges> ON <level>`, the part GRANT and REVOKE share before the account. */
  function Target(grant: Value, on: Value, render: Value -> string): Result<string, Error> {
    var privileges :- ToSqlFormat(grant);
    Ok(privileges + " ON " + Text(on, render))
  }

  /** `'<user>'@'<host>'`; a user that is not a string has no `split`. */
  function Account(user: Value): Result<string, Error> {
    if user.Str? then Ok("'" + MysqlUser(user.s) + "'@'" + MysqlUserHost(user.s) + "'")
    else Err(AttributeError("split"))
  }

  function GrantQuery(cfg: Config, render: Value -> string): Result<string, Error> {
    var target :- Target(cfg.grant, cfg.on, render);
    var account :- Account(cfg.user);
    Ok("GRANT " + target + " TO " + account + if cfg.withGrantOption then " WITH GRANT OPTION" else "")
  }

  function RevokeQuery(grant: Value, on: Value, user: Value, render: Value -> string): Result<string, Error> {
    var target :- Target(grant, on, render);
    var account :- Account(user);
    Ok("REVOKE " + target + " FROM " + account)
  }

  /**
   * The GRANT statement ends with " WITH GRANT OPTION" exactly when the
   * option is set, and REVOKE names the same privileges, level and account.
   */
  lemma GrantAndRevoke(cfg: Config, render: Value -> string)
    requires GrantQuery(cfg, render).Ok?
    ensures Strings.EndsWith(GrantQuery(cfg, render).value, " WITH GRANT OPTION") <==> cfg.withGrantOption
    ensures RevokeQuery(cfg.grant, cfg.on, cfg.user, render).Ok?
    ensures exists target, account ::
      GrantQuery(cfg, render).value ==
        "GRANT " + target + " TO " + account + (if cfg.withGrantOption then " WITH GRANT OPTION" else "") &&
      RevokeQuery(cfg.grant, cfg.on, cfg.user, render).value == "REVOKE " + target + " FROM " + account
  {
    var q := GrantQuery(cfg, render).value;
    var target := Target(cfg.grant, cfg.on, render).value;
    var account := Account(cfg.user).value;
    if !cfg.withGrantOption {
      assert q[|q| - 1] == '\'';
    }
  }

  /**
   * `"mysql:%s:grants:%s:%s" % (database.get('DBName'), user, on)`, that is
   * the five fields joined by ':'.
   */
  function PhysicalId(cfg: Config, render: Value -> string): Result<string, Error> {
    if !cfg.database.Obj? then Err(AttributeError("get"))
    else Ok(Strings.Join(["mysql", Text(GetValue(cfg.database.fields, "DBName"), render), "grants",
                          Text(cfg.user, render), Text(cfg.on, render)], ":"))
  }

  /** With no ':' in the database name, the user and the level, the id splits back into its five fields. */
  lemma PhysicalIdFields(cfg: Config, render: Value -> string, db: string, user: string, on: string)
    requires cfg.database.Obj? && Text(GetValue(cfg.database.fields, "DBName"), render) == db
    requires Text(cfg.user, render) == user && Text(cfg.on, render) == on
    requires ':' !in db && ':' !in user && ':' !in on
    ensures PhysicalId(cfg, render).Ok?
    ensures Strings.Split(PhysicalId(cfg, render).value, ':') == ["mysql", db, "grants", user, on]
  {
    var parts := ["mysql", db, "grants", user, on];
    assert forall i :: 0 <= i < |parts| ==> ':' !in parts[i];
    Strings.SplitJoin(parts, ':');
  }

  // ---------------------------------------------------------------- password and connection

  /** Where the owner's password comes from. */
  datatype PasswordSource = Literal(password: Value) | FromParameter(name: Value) | FromSecret(name: Value)

  /**
   * `dbowner_password`: Password if the key is there, else the SSM
   * parameter PasswordParameterName, else the secret PasswordSecretName,
   * which must then be there.
   */
  function PasswordSourceOf(db: Value): (r: Result<PasswordSource, Error>)
    ensures db.Obj? && HasKey(db.fields, "Password") ==> r == Ok(Literal(GetValue(db.fields, "Password")))
    ensures db.Obj? && !HasKey(db.fields, "Password") && HasKey(db.fields, "PasswordParameterName") ==>
      r == Ok(FromParameter(GetValue(db.fields, "PasswordParameterName")))
    ensures db.Obj? && !HasKey(db.fields, "Password") && !HasKey(db.fields, "PasswordParameterName") ==>
      (if HasKey(db.fields, "PasswordSecretName") then r == Ok(FromSecret(GetValue(db.fields, "PasswordSecretName")))
       else r == Err(KeyError("PasswordSecretName")))
    ensures !db.Obj? ==> r.Err?
  {
    if !db.Obj? then Err(TypeError("argument is not iterable"))
    else if HasKey(db.fields, "Password") then Ok(Literal(GetValue(db.fields, "Password")))
    else if HasKey(db.fields, "PasswordParameterName") then Ok(FromParameter(GetValue(db.fields, "PasswordParameterName")))
    else
      var name :- Require(db.fields, "PasswordSecretName");
      Ok(FromSecret(name))
  }

  function GetParameterCall(name: Value): ApiCall {
    ApiCall("get_parameter", [("Name", name), ("WithDecryption", Bool(true))])
  }

  function GetSecretCall(name: Value): ApiCall {
    ApiCall("get_secret_value", [("SecretId", name)])
  }

  /** A service error while reading the password becomes ValueError. */
  function Fetch(secrets: Api, call: ApiCall): Result<Value, Error> {
    match secrets(call)
    case Err(_) => Err(ValueError("Could not obtain password"))
    case Ok(v) => Ok(v)
  }

  function Password(src: PasswordSource, secrets: Api): (r: Result<Value, Error>)
    ensures src.Literal? ==> r == Ok(src.password)
    ensures src.FromParameter? && secrets(GetParameterCall(src.name)).Err? ==> r.Err? && r.error.ValueError?
    ensures src.FromSecret? && secrets(GetSecretCall(src.name)).Err? ==> r.Err? && r.error.ValueError?
  {
    match src
    case Literal(p) => Ok(p)
    case FromParameter(name) =>
      var response :- Fetch(secrets, GetParameterCall(name));
      var parameter :- Index(response, "Parameter");
      Index(parameter, "Value")
    case FromSecret(name) =>
      var response :- Fetch(secrets, GetSecretCall(name));
      Index(response, "SecretString")
  }

  /** `mysql.connector.connect` keyword arguments. */
  function ConnectArgs(db: Dict<Value>, password: Value): Props {
    [("host", GetValue(db, "Host")), ("port", GetValue(db, "Port")), ("database", GetValue(db, "DBName")),
     ("user", GetValue(db, "User")), ("password", password)]
  }

  /** `connect`: any failure, reading the password included, becomes ValueError. */
  function Connect(db: Value, w: World): (r: Result<(), Error>)
    ensures r.Err? ==> r.error.ValueError?
    ensures r.Ok? ==> db.Obj? && PasswordSourceOf(db).Ok? && Password(PasswordSourceOf(db).value, w.secrets).Ok? &&
                      w.connects(ConnectArgs(db.fields, Password(PasswordSourceOf(db).value, w.secrets).value))
  {
    if !db.Obj? then Err(ValueError("Failed to connect"))
    else
      match PasswordSourceOf(db)
      case Err(_) => Err(ValueError("Failed to connect"))
      case Ok(src) =>
        match Password(src, w.secrets)
        case Err(_) => Err(ValueError("Failed to connect"))
        case Ok(p) => if w.connects(ConnectArgs(db.fields, p)) then Ok(()) else Err(ValueError("Failed to connect"))
  }

  // ---------------------------------------------------------------- operations

  /** Connect and run one statement; the trace holds it if it succeeded. */
  function ConnectAndRun(cfg: Config, query: Result<string, Error>, w: World): (r: (Result<(), Error>, seq<string>))
    ensures r.0.Ok? <==> Connect(cfg.database, w).Ok? && query.Ok? && w.executes(query.value)
    ensures r.0.Ok? ==> r.1 == [query.value]
    ensures r.0.Err? ==> r.1 == []
  {
    match Connect(cfg.database, w)
    case Err(e) => (Err(e), [])
    case Ok(_) =>
      match query
      case Err(e) => (Err(e), [])
      case Ok(q) => if w.executes(q) then (Ok(()), [q]) else (Err(RuntimeError("statement failed")), [])
  }

  /**
   * `close()` in a `finally` clause. Only a successful `connect` sets the
   * `connection` attribute, so after a failed one `close()` raises
   * AttributeError; that replaces the way the method was ending, while a
   * reason already given to `fail()` stays recorded.
   */
  function Closed(o: Outcome<seq<string>>, connected: bool): (r: Outcome<seq<string>>)
    ensures connected ==> r == o
    ensures !connected ==> r.ret.Raised? && r.ret.err.AttributeError?
    ensures r.id == o.id && r.failure == o.failure && r.after == o.after
  {
    if connected then o else o.(ret := Raised(AttributeError("connection")))
  }

  /**
   * `create`: the id is NOT CREATED until the grant succeeds; any failure
   * is reported with `fail()` and leaves it NOT CREATED. When the
   * connection could not be made, `close()` then raises.
   */
  function Create(cfg: Config, w: World, render: Value -> string): (o: Outcome<seq<string>>)
    ensures Connect(cfg.database, w).Ok? ==> o.ret == Returned(None)
    ensures Connect(cfg.database, w).Err? ==> o.ret.Raised? && o.ret.err.AttributeError?
    ensures o.failure.None? <==> ConnectAndRun(cfg, GrantQuery(cfg, render), w).0.Ok? && PhysicalId(cfg, render).Ok?
    ensures o.failure.None? ==> o.id == Some(PhysicalId(cfg, render).value) && o.after == [GrantQuery(cfg, render).value]
    ensures o.failure.Some? ==> o.id == Some(NotCreated) && o.failure == Some("Failed to grant user")
  {
    var (done, sent) := ConnectAndRun(cfg, GrantQuery(cfg, render), w);
    var o :=
      if done.Err? then Outcome(Returned(None), Some(NotCreated), Some("Failed to grant user"), sent)
      else
        match PhysicalId(cfg, render)
        case Err(_) => Outcome(Returned(None), Some(NotCreated), Some("Failed to grant user"), sent)
        case Ok(id) => Outcome(Returned(None), Some(id), None, sent);
    Closed(o, Connect(cfg.database, w).Ok?)
  }

  /**
   * `update` as written: a different constructed id means `create()`.
   * Otherwise, after connecting, building the REVOKE of the old grant reads
   * `self.user_old`, a method rather than its value, and `split` on it
   * raises; so no statement runs and the update is reported as failed
   * (and `close()` raises if the connection could not be made).
   */
  function Update(cfg: Config, id: string, w: World, render: Value -> string): (o: Outcome<seq<string>>)
    ensures PhysicalId(cfg, render).Err? ==> o.ret == Raised(PhysicalId(cfg, render).error)
    ensures PhysicalId(cfg, render).Ok? && PhysicalId(cfg, render).value != id ==> o == Create(cfg, w, render)
    ensures PhysicalId(cfg, render) == Ok(id) ==>
      o.id == Some(id) && o.failure == Some("Failed to grant the user") && o.after == [] &&
      (o.ret == Returned(None) <==> Connect(cfg.database, w).Ok?) &&
      (Connect(cfg.database, w).Err? ==> o.ret.Raised? && o.ret.err.AttributeError?)
  {
    match PhysicalId(cfg, render)
    case Err(e) => Raise(e, Some(id), [])
    case Ok(newId) =>
      if newId != id then Create(cfg, w, render)
      else Closed(Outcome(Returned(None), Some(id), Some("Failed to grant the user"), []), Connect(cfg.database, w).Ok?)
  }

  /** Every update that keeps the id fails, whatever the world, and grants nothing. */
  lemma InPlaceUpdateAlwaysFails(cfg: Config, id: string, w: World, render: Value -> string)
    requires PhysicalId(cfg, render) == Ok(id)
    requires Connect(cfg.database, w).Ok?
    requires forall q :: w.executes(q)
    ensures Update(cfg, id, w, render).failure.Some? && Update(cfg, id, w, render).after == []
  {
  }

  /**
   * `update` as evidently intended: revoke the old grant, as the old
   * properties describe it, then grant the new one.
   */
  function UpdateRevokingOld(cfg: Config, oldProps: Props, id: string, w: World, render: Value -> string): (o: Outcome<seq<string>>)
    ensures PhysicalId(cfg, render).Ok? && PhysicalId(cfg, render).value != id ==> o == Create(cfg, w, render)
    ensures PhysicalId(cfg, render) == Ok(id) ==> o.id == Some(id)
  {
    match PhysicalId(cfg, render)
    case Err(e) => Raise(e, Some(id), [])
    case Ok(newId) =>
      if newId != id then Create(cfg, w, render)
      else
        var revoke := RevokeQuery(GetValue(oldProps, "Grant"), GetValue(oldProps, "On"), GetValue(oldProps, "User"), render);
        match Connect(cfg.database, w)
        case Err(_) => Closed(Outcome(Returned(None), Some(id), Some("Failed to grant the user"), []), false)
        case Ok(_) =>
          if revoke.Err? || !w.executes(revoke.value) then Outcome(Returned(None), Some(id), Some("Failed to grant the user"), [])
          else
            match GrantQuery(cfg, render)
            case Err(_) => Outcome(Returned(None), Some(id), Some("Failed to grant the user"), [revoke.value])
            case Ok(q) =>
              if w.executes(q) then Outcome(Returned(None), Some(id), None, [revoke.value, q])
              else Outcome(Returned(None), Some(id), Some("Failed to grant the user"), [revoke.value])
  }

  /** With a reachable server and well-formed grants, the corrected update revokes the old grant and grants the new one. */
  lemma UpdateRevokingOldRegrants(cfg: Config, oldProps: Props, id: string, w: World, render: Value -> string)
    requires PhysicalId(cfg, render) == Ok(id)
    requires Connect(cfg.database, w).Ok?
    requires GrantQuery(cfg, render).Ok?
    requires RevokeQuery(GetValue(oldProps, "Grant"), GetValue(oldProps, "On"), GetValue(oldProps, "User"), render).Ok?
    requires forall q :: w.executes(q)
    ensures UpdateRevokingOld(cfg, oldProps, id, w, render) ==
      Outcome(Returned(None), Some(id), None,
              [RevokeQuery(GetValue(oldProps, "Grant"), GetValue(oldProps, "On"), GetValue(oldProps, "User"), render).value,
               GrantQuery(cfg, render).value])
  {
  }

  /**
   * `delete`: nothing for a grant that was never made; otherwise revoke the
   * grant the properties describe, reporting a failure with `fail()`.
   * When the connection could not be made, `close()` then raises.
   */
  function Delete(cfg: Config, id: string, w: World, render: Value -> string): (o: Outcome<seq<string>>)
    ensures id == NotCreated ==> o == ReturnNone(Some(id), [])
    ensures id != NotCreated ==> o.id == Some(id) && (o.ret == Returned(None) <==> Connect(cfg.database, w).Ok?)
    ensures id != NotCreated && Connect(cfg.database, w).Err? ==> o.ret.Raised? && o.ret.err.AttributeError?
    ensures id != NotCreated ==>
      (o.failure.None? <==> ConnectAndRun(cfg, RevokeQuery(cfg.grant, cfg.on, cfg.user, render), w).0.Ok?)
    ensures id != NotCreated && o.failure.None? ==> o.after == [RevokeQuery(cfg.grant, cfg.on, cfg.user, render).value]
  {
    if id == NotCreated then ReturnNone(Some(id), [])
    else
      var (done, sent) := ConnectAndRun(cfg, RevokeQuery(cfg.grant, cfg.on, cfg.user, render), w);
      if done.Err? then Closed(Outcome(Returned(None), Some(id), Some("Failed to revoke the user grant"), sent), Connect(cfg.database, w).Ok?)
      else ReturnNone(Some(id), sent)
  }

  /** A grant whose creation failed is deleted without touching the database. */
  lemma FailedCreateDeletesNothing(cfg: Config, w: World, w': World, render: Value -> string)
    requires Create(cfg, w, render).failure.Some?
    ensures Delete(cfg, Create(cfg, w, render).id.value, w', render).after == []
    ensures Delete(cfg, Create(cfg, w, render).id.value, w', render).failure.None?
  {
  }
}
