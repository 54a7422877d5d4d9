/**
 The exceptions that can travel through the provisioning scripts, as one
 datatype. Python's class hierarchy is flattened; the predicates below
 recover the `isinstance` tests the scripts make (`except RuntimeError`,
 `except HTTPError`, `backoff.on_exception(requests.RequestException)`).
 */
module Errors {

  datatype Exc =
    | RuntimeError(msg: string)
      /** builtin TimeoutError (raised by the polling loops) */
    | TimeoutError
      /** PowerVSNotFoundException: an expected sub-resource is absent */
    | NotFound(what: string)
      /** requests.HTTPError carrying the response's status code */
    | HttpError(status: int)
      /** requests.ConnectionError */
    | ConnectionError
      /** requests.Timeout */
    | RequestTimeout
      /** any other requests.RequestException */
    | OtherRequestError
      /** subprocess.CalledProcessError from the ssh waiter or the playbook runner */
    | CalledProcessError(code: int)
      /** a failed `assert resp.status_code == 204` */
    | AssertionError
    | IndexError
    | KeyError(key: string)
    | ValueError
    | TypeError
    | AttributeError(name: string)
      /** sys.exit(code) */
    | SystemExit(code: int)
      /** a call the client double was not scripted to answer */
    | Unscripted
      /** anything else a collaborator may raise */
    | Other(name: string)

  /** `isinstance(e, RuntimeError)` */
  predicate IsRuntimeError(e: Exc) {
    e.RuntimeError?
  }

  /** `isinstance(e, requests.RequestException)` */
  predicate IsRequestException(e: Exc) {
    e.HttpError? || e.ConnectionError? || e.RequestTimeout? || e.OtherRequestError?
  }

  /** `isinstance(e, Exception)`: everything except `SystemExit`. */
  predicate IsException(e: Exc) {
    !e.SystemExit?
  }
}
