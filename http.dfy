/**
 * The part of an HTTP response the handlers decide: the status code and either the
 * `message`/`msg` text or the `errors` list produced by the request validators.
 */
module Http {

  datatype Reply = Reply(status: nat, message: string, errors: seq<string>) {
    predicate Success() { 200 <= status < 300 }
  }

  /** A response carrying one message. */
  function Msg(status: nat, message: string): (r: Reply)
    ensures r.status == status && r.message == message && r.errors == []
  {
    Reply(status, message, [])
  }

  /** The 400 response listing the failed validator messages. */
  function Invalid(errors: seq<string>): (r: Reply)
    ensures r.status == 400 && r.errors == errors
  {
    Reply(400, "", errors)
  }

  /** The 500 response of a handler's catch block. */
  const ServerError: Reply := Msg(500, "Server error")

  /** The 403 response of a role or ownership check. */
  const NotAuthorized: Reply := Msg(403, "Not authorized")

  /** A 201 or 200 response whose body is the saved record itself. */
  const Created: Reply := Msg(201, "")
  const Sent: Reply := Msg(200, "")

  /** A read-only route's answer: the body it sends, or the refusal. */
  datatype Answer<T> = Ok(body: T) | Fail(reply: Reply)
}
