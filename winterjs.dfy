/** The WinterJS environment accessor: reading and writing named values of a table the host may not provide. */
module WinterJsEnv {
  import opened Results

  /** The host's environment table. */
  class Env {
    var vars: map<string, string>

    constructor (vars: map<string, string>)
      ensures this.vars == vars
    {
      this.vars := vars;
    }
  }

  /** `env_get`: the value under `key`, or an error when there is no table or no such key. */
  function EnvGet(env: Env?, key: string): (r: Result<string, ()>)
    reads env
    ensures r.Ok? <==> env != null && key in env.vars
    ensures r.Ok? ==> r.value == env.vars[key]
  {
    if env == null || key !in env.vars then Error(()) else Ok(env.vars[key])
  }

  /** `env_set`: store `value` under `key`, or report an error, changing nothing, when there is no table. */
  method EnvSet(env: Env?, key: string, value: string) returns (r: Result<(), ()>)
    modifies env
    ensures r.Ok? <==> env != null
    ensures env != null ==> env.vars == old(env.vars)[key := value]
    ensures env != null ==> EnvGet(env, key) == Ok(value)
    ensures forall k :: k != key ==> EnvGet(env, k) == old(EnvGet(env, k))
  {
    if env == null {
      return Error(());
    }
    env.vars := env.vars[key := value];
    r := Ok(());
  }
}
