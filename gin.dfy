/**
 * The parts of the gin web framework the handlers and middleware use: dynamically typed
 * values (what `c.Set` stores and what JSON decoding yields), the per-request context
 * that middleware writes into, and the status-plus-JSON replies handlers produce.
 */
module Gin {
  import opened Wrappers

  /**
   * A dynamically typed value. `Int` is a Go `int`; `Number` is a JSON number, which Go
   * decodes as a float64 (only integral values are modelled); `Time` is a `time.Time`
   * given as a count of seconds, serialised as a timestamp string.
   */
  datatype Value = Nil | Str(s: string) | Int(i: int) | Number(n: int) | Bool(b: bool) | Time(t: int)

  const StatusOK := 200
  const StatusCreated := 201
  const StatusNoContent := 204
  const StatusBadRequest := 400
  const StatusUnauthorized := 401
  const StatusForbidden := 403
  const StatusNotFound := 404
  const StatusInternalServerError := 500

  /** A response body: `gin.H{"error": message}`, a JSON payload, or nothing (`c.Status`). */
  datatype Body<+T> = ErrorJson(message: string) | Json(payload: T) | NoBody

  datatype Reply<+T> = Reply(status: int, body: Body<T>)

  /**
   * The request context shared by the middleware chain: the key/value store of `c.Set`/`c.Get`,
   * whether the chain was aborted and with which status and error message, and whether
   * `c.Next()` handed control on to the rest of the chain.
   */
  class Context {
    var keys: map<string, Value>
    var aborted: bool
    var status: int
    var errorMessage: string
    var continued: bool

    /** A fresh context for one request: nothing stored, nothing written. */
    constructor ()
      ensures keys == map[] && !aborted && status == 0 && errorMessage == "" && !continued
    {
      keys := map[];
      aborted := false;
      status := 0;
      errorMessage := "";
      continued := false;
    }

    /** `c.Get(key)`: the stored value, and whether the key exists. */
    function Get(key: string): (v: Option<Value>)
      reads this
      ensures v.Some? <==> key in keys
      ensures v.Some? ==> v.value == keys[key]
    {
      if key in keys then Some(keys[key]) else None
    }

    method Set(key: string, v: Value)
      modifies this
      ensures keys == old(keys)[key := v]
      ensures aborted == old(aborted) && status == old(status)
      ensures errorMessage == old(errorMessage) && continued == old(continued)
    {
      keys := keys[key := v];
    }

    /** `c.AbortWithStatusJSON(code, gin.H{"error": message})`: the rest of the chain will not run. */
    method AbortWithStatusJSON(code: int, message: string)
      modifies this
      ensures aborted && status == code && errorMessage == message
      ensures keys == old(keys) && continued == old(continued)
    {
      aborted := true;
      status := code;
      errorMessage := message;
    }

    /** `c.Next()`: run the remaining handlers of the chain. */
    method Next()
      modifies this
      ensures continued
      ensures keys == old(keys) && aborted == old(aborted)
      ensures status == old(status) && errorMessage == old(errorMessage)
    {
      continued := true;
    }
  }
}
