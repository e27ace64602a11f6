/** The `/callback` handler as the command registers it: it reads the
    redirect, writes the response through net/http's response writer, calls
    the token exchange, and schedules the listener's shutdown. */
module CallbackServer {
  import opened Callback

  const StatusOK := 200
  const StatusInternalServerError := 500

  /** The response to one request as net/http keeps it: the first
      `WriteHeader` fixes the status, and a `Write` before any header sends
      200; every `Write` appends to the body. */
  class ResponseWriter {
    var status: int  // 0 while no header has been sent
    var body: string

    constructor ()
      ensures status == 0 && body == ""
    {
      status, body := 0, "";
    }

    method WriteHeader(code: int)
      modifies this
      ensures status == (if old(status) == 0 then code else old(status))
      ensures body == old(body)
    {
      if status == 0 {
        status := code;
      }
    }

    method Write(b: string)
      modifies this
      ensures status == (if old(status) == 0 then StatusOK else old(status))
      ensures body == old(body) + b
    {
      if status == 0 {
        status := StatusOK;
      }
      body := body + b;
    }
  }

  /** How handling one request ends: a response was written, or the token
      exchange failed and the process exits (`pkg.Must`). */
  datatype Served = Responded | ExitedOnExchangeError(error: string)

  /** The handler closure with what it captures: the run's `state` and the
      shutdown it may schedule. */
  class CallbackHandler {
    const state: string
    var shutdownScheduled: bool
    /** The codes handed to the token exchange so far, in order. */
    ghost var exchanged: seq<string>

    constructor (state: string)
      ensures this.state == state && !shutdownScheduled && exchanged == []
    {
      this.state := state;
      shutdownScheduled := false;
      exchanged := [];
    }

    /** Handles one redirect with query `q` on a fresh response `w`.
        `exchange` stands for `conf.Exchange`. The two refusals answer 500
        with their message and neither exchange nor schedule a shutdown; a
        valid redirect exchanges exactly its code and, on success, answers
        with the token page and schedules the shutdown. */
    method Handle(w: ResponseWriter, q: Query, exchange: string -> Exchanged) returns (served: Served)
      requires w.status == 0 && w.body == ""
      modifies this, w
      ensures var v := Validate(q, state);
        if !v.Exchange? then
          && served == Responded
          && w.status == StatusInternalServerError && w.body == ErrorBody(v)
          && exchanged == old(exchanged) && shutdownScheduled == old(shutdownScheduled)
        else
          && exchanged == old(exchanged) + [v.code]
          && match exchange(v.code)
             case Granted(t) =>
               && served == Responded
               && w.status == StatusOK && w.body == SuccessBody(t)
               && shutdownScheduled
             case Rejected(e) =>
               && served == ExitedOnExchangeError(e)
               && w.status == 0 && w.body == ""
               && shutdownScheduled == old(shutdownScheduled)
    {
      if Param(q, "error") != "" {
        var message := DeniedPrefix + Param(q, "error_description");
        assert message == ErrorBody(Validate(q, state));
        Refuse(w, message);
        return Responded;
      }

      if Param(q, "state") != state {
        var message := MismatchPrefix + state + MismatchSeparator + Param(q, "state");
        assert message == ErrorBody(Validate(q, state));
        Refuse(w, message);
        return Responded;
      }

      var code := Param(q, "code");
      assert Validate(q, state) == Exchange(code);
      exchanged := exchanged + [code];
      var result := exchange(code);
      if result.Rejected? {
        return ExitedOnExchangeError(result.error);
      }
      WriteTokenPage(w, result.token);
      shutdownScheduled := true;
      served := Responded;
    }
  }

  /** A refusal: status 500 with `message` as the whole body. */
  method Refuse(w: ResponseWriter, message: string)
    requires w.status == 0 && w.body == ""
    modifies w
    ensures w.status == StatusInternalServerError && w.body == message
  {
    w.WriteHeader(StatusInternalServerError);
    w.Write(message);
  }

  /** The success page, in three writes: the token list, the identity-token
      item when the `id_token` extra is present, and the closing tags. */
  method WriteTokenPage(w: ResponseWriter, token: Token)
    requires w.status == 0 && w.body == ""
    modifies w
    ensures w.status == StatusOK && w.body == SuccessBody(token)
  {
    var list := TokenList(token);
    var item := OptionalIdTokenItem(token);
    w.Write(list);
    assert w.body == list;
    if token.idToken.Some? {
      w.Write(item);
    }
    assert w.body == list + item;
    w.Write(Closing);
  }
}
