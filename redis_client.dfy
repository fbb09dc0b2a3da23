/** `RedisConnection.getInstance`: the connection settings read from the
    environment, their checks, and the static slot that keeps the one
    client. */
module RedisClient {
  import opened Wrappers

  /** The four environment variables, `None` when unset. */
  datatype Env = Env(port: Option<string>, host: Option<string>, password: Option<string>, user: Option<string>)

  datatype Config = Config(host: string, port: int, username: string, password: string)

  /** A JavaScript string is truthy iff it is not empty. */
  predicate Truthy(v: Option<string>) {
    v.Some? && v.value != []
  }

  function OrDefault(v: Option<string>, default: string): (r: string)
    ensures Truthy(v) ==> r == v.value
    ensures !Truthy(v) ==> r == default
  {
    if Truthy(v) then v.value else default
  }

  function PortMessage(raw: Option<string>): string {
    "Invalid Redis port: " + (if raw.Some? then raw.value else "undefined") + ". Must be between 1 and 65535"
  }

  const PasswordMessage := "REDIS_PASSWORD is required for Upstash Redis."

  /** The settings, or the message thrown. `number` is `Number(...)` on
      the port string, `None` for NaN. The port is checked before the
      password. */
  function Resolve(env: Env, number: string -> Option<int>): (r: Result<Config, string>)
    ensures !Truthy(env.port) ==> (r.Success? ==> r.value.port == 6379)
    ensures r.Success? ==>
            && r.value.host == OrDefault(env.host, "localhost")
            && r.value.username == OrDefault(env.user, "default")
            && Truthy(env.password) && r.value.password == env.password.value
            && 1 <= r.value.port <= 65535
            && (Truthy(env.port) ==> number(env.port.value) == Some(r.value.port))
    ensures Truthy(env.port) && (number(env.port.value).None? || !(0 < number(env.port.value).value < 65536)) ==>
            r == Failure(PortMessage(env.port))
    ensures r.Failure? && r.error != PortMessage(env.port) ==> r.error == PasswordMessage && !Truthy(env.password)
    ensures (!Truthy(env.port) || (number(env.port.value).Some? && 0 < number(env.port.value).value < 65536)) ==>
            (r.Success? <==> Truthy(env.password))
  {
    var port := if Truthy(env.port) then number(env.port.value) else Some(6379);
    if port.None? || port.value <= 0 || port.value >= 65536 then Failure(PortMessage(env.port))
    else if !Truthy(env.password) then Failure(PasswordMessage)
    else Success(Config(OrDefault(env.host, "localhost"), port.value, OrDefault(env.user, "default"), env.password.value))
  }

  /** With only a password set, the client goes to localhost:6379 as
      user "default". */
  lemma DefaultsApply(password: string, number: string -> Option<int>)
    requires password != []
    ensures Resolve(Env(None, None, Some(password), None), number) ==
            Success(Config("localhost", 6379, "default", password))
  {
  }

  /** The static `instance` slot. `constructed` counts the clients
      built. */
  class RedisConnection {
    var instance: Option<Config>
    ghost var constructed: nat

    ghost predicate Valid()
      reads this
    {
      constructed == if instance.Some? then 1 else 0
    }

    constructor ()
      ensures Valid() && instance.None?
    {
      instance := None;
      constructed := 0;
    }

    /** `getInstance`: once a client exists it is returned whatever the
        environment now says; before that, the settings are resolved and a
        client is built only when they pass. */
    method GetInstance(env: Env, number: string -> Option<int>) returns (r: Result<Config, string>)
      requires Valid()
      modifies this
      ensures Valid() && constructed <= 1
      ensures old(instance).Some? ==> r == Success(old(instance).value) && instance == old(instance)
      ensures old(instance).None? ==> r == Resolve(env, number)
      ensures old(instance).None? ==> instance == (if r.Success? then Some(r.value) else None)
    {
      if instance.Some? {
        return Success(instance.value);
      }
      r := Resolve(env, number);
      if r.Success? {
        instance := Some(r.value);
        constructed := constructed + 1;
      }
    }
  }
}
