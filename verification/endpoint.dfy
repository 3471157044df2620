/** The relay script from top to bottom (telegram-sender.php:28-200): load `.env`, read the
    configuration, then handle the request against the client's session. */
module Endpoint {
  import opened Wrappers
  import opened EnvLoader
  import opened RelayConfig
  import opened Relay

  const ConfigurationErrorText := "Configuration error"

  /** One run of the script. `envFile` is the lines `file()` reads from `.env`, or None when the
      file does not exist; the result is None when the script dies on an uncaught error before
      answering. */
  method Serve(environment: Environment, session: Session, envFile: Option<seq<string>>,
               req: Request, upstream: TelegramOutcome) returns (resp: Option<Response>)
    modifies environment, session
    ensures envFile.None? ==>
      && resp == Some(Response(500, None, Some(Reply(false, ConfigurationErrorText)), None,
                               old(session.lastSubmission)))
      && unchanged(environment) && unchanged(session)
    ensures envFile.Some? ==>
      (resp.None? <==> "" !in old(environment.server) && "" !in old(environment.env)
                       && exists j :: 0 <= j < |envFile.value| && Defines(envFile.value[j], ""))
    ensures resp.None? ==> unchanged(session)
    ensures envFile.Some? && resp.Some? ==> forall k ::
      && Get(environment.server, k) == Loaded(old(environment.server), old(environment.server), old(environment.env), envFile.value, k)
      && Get(environment.env, k) == Loaded(old(environment.env), old(environment.server), old(environment.env), envFile.value, k)
      && Get(environment.process, k) == Loaded(old(environment.process), old(environment.server), old(environment.env), envFile.value, k)
    ensures envFile.Some? && resp.Some? ==>
      resp == Some(HandleRequest(LoadConfig(environment.process), environment.server, req,
                         old(session.lastSubmission), upstream))
    ensures session.lastSubmission == if resp.Some? then resp.value.session else old(session.lastSubmission)
  {
    if envFile.None? {
      return Some(Response(500, None, Some(Reply(false, ConfigurationErrorText)), None, session.lastSubmission));
    }
    var failed := environment.LoadEnv(envFile.value);
    if failed {
      return None;
    }
    var cfg := LoadConfig(environment.process);
    var answer := session.Handle(cfg, environment.server, req, upstream);
    return Some(answer);
  }
}
