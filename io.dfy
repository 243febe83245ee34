/**
 * What the adapters see of the outside world: the reply to one HTTP request, and
 * the Python exceptions that escape an adapter instead of being caught.
 */
module Io {
  import opened Wrappers
  import opened Json

  /**
   * The reply to one `requests` call: a connection failure, a non-2xx status
   * (`raise_for_status`), a body that is not JSON, or a decoded JSON body.
   */
  datatype Response =
    | NetworkError
    | HttpStatusError(status: int)
    | UndecodableBody
    | Body(json: Json)

  /** An exception that propagates out of the code that raised it. */
  datatype PyError = KeyError(key: string) | TypeError | AttributeError | IntegrityError

  /**
   * What a route handler answers: a body, an `HTTPException` with its status
   * and detail, or an uncaught exception (status 500).
   */
  datatype Reply<+T> = Done(body: T) | Rejected(status: int, detail: string) | InternalError

  /**
   * The adapter settings. The client id and secret come from the environment
   * (None when unset). `env` and `jobLimit` are the `ENV` and `JOB_LIMIT`
   * attributes of the configuration class; None means the class does not
   * define the attribute, so reading it raises `AttributeError`. The
   * configuration of `core/config.py` defines neither.
   */
  datatype Settings = Settings(
    clientId: Option<string>,
    clientSecret: Option<string>,
    env: Option<string>,
    jobLimit: Option<int>)

  /** Python truthiness of an optional setting: unset or empty is false. */
  predicate IsSet(v: Option<string>) {
    v.Some? && v.value != ""
  }

}
