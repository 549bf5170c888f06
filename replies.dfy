/** How the proxy writes its refusals and its error replies
    (src/server.ts:56-74, 173-228, 237-247, 255-283, 291-297): on a plain
    request through Node's `ServerResponse`, whose header block may be
    written only once; on an upgrade straight onto the socket, which is then
    destroyed.  `JSON.stringify` is not modelled: a body is the object it
    would serialise. */
module Replies {
  import opened Wrappers
  import opened Dispatcher

  /** The `{ error, message }` object of a JSON error body. */
  datatype ErrorBody = ErrorBody(error: string, message: Option<string>)

  const BadGatewayLine := "HTTP/1.1 502 Bad Gateway\r\n\r\n"

  /** The part of `http.ServerResponse` the proxy uses. */
  class ServerResponse {
    var headersSent: bool
    var statusCode: nat
    var finished: bool
    /** The bodies handed to `end`, in order. */
    var bodies: seq<ErrorBody>

    /** A finished response has sent its header block. */
    predicate Valid()
      reads this
    {
      finished ==> headersSent
    }

    constructor ()
      ensures Valid()
      ensures !headersSent && !finished && bodies == [] && statusCode == 200
    {
      headersSent, finished, bodies, statusCode := false, false, [], 200;
    }

    /** `writeHead(status, ...)`: Node throws when the header block has
        already gone out, so a caller must not get there. */
    method WriteHead(status: nat)
      requires Valid() && !headersSent
      modifies this
      ensures Valid()
      ensures headersSent && statusCode == status
      ensures finished == old(finished) && bodies == old(bodies)
    {
      headersSent, statusCode := true, status;
    }

    /** `end(body)`: sends the header block if it has not gone out, then the
        body; on a finished response it does nothing. */
    method End(body: ErrorBody)
      requires Valid()
      modifies this
      ensures Valid()
      ensures headersSent && finished && statusCode == old(statusCode)
      ensures bodies == if old(finished) then old(bodies) else old(bodies) + [body]
    {
      if !finished {
        bodies := bodies + [body];
      }
      headersSent, finished := true, true;
    }
  }

  /** The part of a `net.Socket` the upgrade path uses. */
  class Socket {
    var written: seq<string>
    var destroyed: bool

    constructor ()
      ensures written == [] && !destroyed
    {
      written, destroyed := [], false;
    }

    /** `write(data)`: a destroyed socket takes nothing more. */
    method Write(data: string)
      modifies this
      ensures destroyed == old(destroyed)
      ensures written == if old(destroyed) then old(written) else old(written) + [data]
    {
      if !destroyed {
        written := written + [data];
      }
    }

    method Destroy()
      modifies this
      ensures destroyed && written == old(written)
    {
      destroyed := true;
    }
  }

  /** The JSON refusals of `handleHttpRequest` (src/server.ts:173-228), on a
      response nothing has been written to yet: its status, then its body,
      and the response is finished. */
  method SendJsonError(res: ServerResponse, outcome: Outcome)
    requires outcome.JsonError?
    requires res.Valid() && !res.headersSent && !res.finished
    modifies res
    ensures res.Valid()
    ensures res.headersSent && res.finished && res.statusCode == outcome.status
    ensures res.bodies == old(res.bodies) + [ErrorBody(outcome.error, outcome.message)]
  {
    res.WriteHead(outcome.status);
    res.End(ErrorBody(outcome.error, outcome.message));
  }

  /** The raw refusals of `handleWsUpgrade` (src/server.ts:255-283), and its
      502 when the hand-off throws (src/server.ts:291-297): the status line,
      then the socket is destroyed. */
  method RefuseUpgrade(socket: Socket, line: string)
    modifies socket
    ensures socket.destroyed
    ensures socket.written == if old(socket.destroyed) then old(socket.written) else old(socket.written) + [line]
  {
    socket.Write(line);
    socket.Destroy();
  }

  /** An error after forwarding began, on a response: the status is written
      only if the header block has not gone out, and the body is sent
      either way. */
  method FailResponse(res: ServerResponse, status: nat, body: ErrorBody)
    requires res.Valid()
    modifies res
    ensures res.Valid()
    ensures res.headersSent && res.finished
    ensures res.statusCode == if old(res.headersSent) then old(res.statusCode) else status
    ensures res.bodies == if old(res.finished) then old(res.bodies) else old(res.bodies) + [body]
  {
    if !res.headersSent {
      res.WriteHead(status);
    }
    res.End(body);
  }

  /** The engine's `error` handler on a response (src/server.ts:58-65):
      502 when nothing was sent yet, the `Bad gateway` body in any case. */
  method OnProxyErrorResponse(res: ServerResponse, message: string)
    requires res.Valid()
    modifies res
    ensures res.Valid()
    ensures res.headersSent && res.finished
    ensures res.statusCode == if old(res.headersSent) then old(res.statusCode) else 502
    ensures res.bodies == if old(res.finished) then old(res.bodies)
                          else old(res.bodies) + [ErrorBody("Bad gateway", Some(message))]
  {
    FailResponse(res, 502, ErrorBody("Bad gateway", Some(message)));
  }

  /** The engine's `error` handler on an upgrade socket
      (src/server.ts:66-73): the 502 status line, then the socket is
      destroyed. */
  method OnProxyErrorSocket(socket: Socket)
    modifies socket
    ensures socket.destroyed
    ensures socket.written == if old(socket.destroyed) then old(socket.written)
                              else old(socket.written) + [BadGatewayLine]
  {
    RefuseUpgrade(socket, BadGatewayLine);
  }

  /** `proxy.web` throwing at hand-off (src/server.ts:237-247): 400 when
      nothing was sent yet, the `Proxy error` body in any case. */
  method OnForwardThrow(res: ServerResponse, message: string)
    requires res.Valid()
    modifies res
    ensures res.Valid()
    ensures res.headersSent && res.finished
    ensures res.statusCode == if old(res.headersSent) then old(res.statusCode) else 400
    ensures res.bodies == if old(res.finished) then old(res.bodies)
                          else old(res.bodies) + [ErrorBody("Proxy error", Some(message))]
  {
    FailResponse(res, 400, ErrorBody("Proxy error", Some(message)));
  }
}
