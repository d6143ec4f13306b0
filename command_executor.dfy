/**
 * API::CommandExecutor: merges the authentication options into a call's
 * parameters, builds the Command URL and either sends it with an HTTP GET
 * or, in test mode, records it in a request log and sends nothing.
 */
module CommandExecutor {
  import opened Wrappers
  import QueryString
  import Command

  /**
   * The client-wide settings: the custom service host (`api_service_host`)
   * and the secure, debug and test mode flags.
   */
  datatype Config = Config(serviceHost: Option<string>, secureMode: bool, debugMode: bool, testMode: bool)

  /** One GET as the transport is asked to perform it. */
  datatype HttpGet = HttpGet(host: string, port: nat, useSsl: bool, target: string)

  /** The response object the transport hands back. */
  datatype HttpResponse = HttpResponse(status: nat, body: string)

  /** What `execute` returns: the transport's response, or the stand-in of test mode. */
  datatype RawResponse = Received(response: HttpResponse) | Fabricated

  /** A call recorded in test mode. */
  datatype SmsRequest = SmsRequest(command: string, service: string, params: QueryString.Params, url: Command.Url)

  /** The entries of `ps`, each taking the value `extra` has for its key, if any. */
  function Overridden(ps: QueryString.Params, extra: QueryString.Params): (r: QueryString.Params)
    ensures |r| == |ps|
    ensures forall i | 0 <= i < |ps| :: r[i].0 == ps[i].0
    ensures forall i | 0 <= i < |ps| ::
              r[i].1 == (match QueryString.Lookup(extra, ps[i].0) case Some(v) => v case None => ps[i].1)
  {
    if ps == [] then []
    else
      var v := match QueryString.Lookup(extra, ps[0].0) case Some(v) => v case None => ps[0].1;
      [(ps[0].0, v)] + Overridden(ps[1..], extra)
  }

  /** The entries of `extra` whose key `ps` does not have, in order. */
  function Fresh(extra: QueryString.Params, ps: QueryString.Params): (r: QueryString.Params)
    ensures forall i | 0 <= i < |r| :: r[i] in extra && r[i].0 !in QueryString.Keys(ps)
  {
    if extra == [] then []
    else if extra[0].0 in QueryString.Keys(ps) then Fresh(extra[1..], ps)
    else [extra[0]] + Fresh(extra[1..], ps)
  }

  /**
   * Ruby's `Hash#merge`: the entries of `ps` in their order, a key that
   * `extra` also has taking `extra`'s value, then the entries of `extra`
   * with a new key.
   */
  function Merge(ps: QueryString.Params, extra: QueryString.Params): QueryString.Params {
    Overridden(ps, extra) + Fresh(extra, ps)
  }

  lemma {:induction false} LookupOverridden(ps: QueryString.Params, extra: QueryString.Params, k: string)
    requires k in QueryString.Keys(ps)
    ensures QueryString.Lookup(Overridden(ps, extra), k)
            == if k in QueryString.Keys(extra) then QueryString.Lookup(extra, k) else QueryString.Lookup(ps, k)
  {
    var r := Overridden(ps, extra);
    if ps[0].0 != k {
      assert QueryString.Keys(ps) == [ps[0].0] + QueryString.Keys(ps[1..]);
      LookupOverridden(ps[1..], extra, k);
      assert r[1..] == Overridden(ps[1..], extra);
    }
  }

  lemma {:induction false} LookupFresh(extra: QueryString.Params, ps: QueryString.Params, k: string)
    requires k !in QueryString.Keys(ps)
    ensures QueryString.Lookup(Fresh(extra, ps), k) == QueryString.Lookup(extra, k)
  {
    if extra != [] {
      LookupFresh(extra[1..], ps, k);
    }
  }

  /**
   * What the merged parameters say for every key: the authentication
   * option's value where there is one, the call's own value otherwise, and
   * no value for a key neither has.
   */
  lemma LookupMerge(ps: QueryString.Params, extra: QueryString.Params, k: string)
    ensures QueryString.Lookup(Merge(ps, extra), k)
            == if k in QueryString.Keys(extra) then QueryString.Lookup(extra, k) else QueryString.Lookup(ps, k)
  {
    var o := Overridden(ps, extra);
    assert QueryString.Keys(o) == QueryString.Keys(ps);
    QueryString.LookupAppend(o, Fresh(extra, ps), k);
    if k in QueryString.Keys(ps) {
      LookupOverridden(ps, extra, k);
    } else {
      LookupFresh(extra, ps, k);
    }
  }

  /** Merging keeps the call's keys first, in their order, and adds no key neither side has. */
  lemma MergeKeys(ps: QueryString.Params, extra: QueryString.Params)
    ensures QueryString.Keys(Merge(ps, extra))[..|ps|] == QueryString.Keys(ps)
    ensures forall k :: k in QueryString.Keys(Merge(ps, extra))
                        <==> k in QueryString.Keys(ps) || k in QueryString.Keys(extra)
  {
    var m := Merge(ps, extra);
    forall k ensures k in QueryString.Keys(m) <==> k in QueryString.Keys(ps) || k in QueryString.Keys(extra) {
      LookupMerge(ps, extra, k);
    }
  }

  lemma {:induction false} FreshDistinctKeys(extra: QueryString.Params, ps: QueryString.Params)
    requires QueryString.DistinctKeys(extra)
    ensures QueryString.DistinctKeys(Fresh(extra, ps))
  {
    if extra != [] {
      var rest := extra[1..];
      assert QueryString.DistinctKeys(rest);
      FreshDistinctKeys(rest, ps);
      var f := Fresh(rest, ps);
      if extra[0].0 !in QueryString.Keys(ps) {
        forall j | 0 <= j < |f| ensures f[j].0 != extra[0].0 {
          assert f[j] in rest;
          var m :| 0 <= m < |rest| && rest[m] == f[j];
          assert extra[m + 1] == rest[m];
        }
        assert extra[0].0 !in QueryString.Keys(f);
        QueryString.DistinctAppend([extra[0]], f);
      }
    }
  }

  /** Merging two parameter sets with distinct keys gives one with distinct keys, as `Hash#merge` does. */
  lemma MergeDistinctKeys(ps: QueryString.Params, extra: QueryString.Params)
    requires QueryString.DistinctKeys(ps) && QueryString.DistinctKeys(extra)
    ensures QueryString.DistinctKeys(Merge(ps, extra))
  {
    var o := Overridden(ps, extra);
    var f := Fresh(extra, ps);
    FreshDistinctKeys(extra, ps);
    forall i | 0 <= i < |o| ensures o[i].0 !in QueryString.Keys(f) {
      assert QueryString.Keys(ps)[i] == o[i].0;
    }
    QueryString.DistinctAppend(o, f);
  }

  lemma {:induction false} OverriddenNothing(ps: QueryString.Params)
    ensures Overridden(ps, []) == ps
  {
    if ps != [] {
      OverriddenNothing(ps[1..]);
    }
  }

  /** With no authentication options the parameters go out unchanged. */
  lemma MergeNothing(ps: QueryString.Params)
    ensures Merge(ps, []) == ps
  {
    OverriddenNothing(ps);
  }

  /** The URL `execute` requests: the command's URL with the merged parameters. */
  function CommandUrl(auth: QueryString.Params, config: Config, name: string, service: string,
                      params: QueryString.Params): Command.Url
  {
    Command.WithParams(Command.Command(name, service, config.secureMode), config.serviceHost, Merge(params, auth))
  }

  /** The GET for a URL: its host and port, TLS when secure, its path and query. */
  function GetFor(u: Command.Url, secure: bool): HttpGet {
    HttpGet(u.host, u.port, secure, Command.RequestTarget(u))
  }

  /** The result of `execute`: no transport call in test mode. */
  function Dispatch(config: Config, u: Command.Url, transport: HttpGet -> HttpResponse): RawResponse {
    if config.testMode then Fabricated else Received(transport(GetFor(u, config.secureMode)))
  }

  /** What `execute` returns for a call. */
  function Execution(auth: QueryString.Params, config: Config, name: string, service: string,
                     params: QueryString.Params, transport: HttpGet -> HttpResponse): RawResponse
  {
    Dispatch(config, CommandUrl(auth, config, name, service, params), transport)
  }

  /** The log entries one `execute` adds: one in test mode, none otherwise. */
  function Recorded(config: Config, auth: QueryString.Params, name: string, service: string,
                    params: QueryString.Params): seq<SmsRequest>
  {
    if config.testMode
    then [SmsRequest(name, service, Merge(params, auth), CommandUrl(auth, config, name, service, params))]
    else []
  }

  /** Every record of a call whose parameters and options are Hashes carries a Hash. */
  lemma RecordedDistinctKeys(config: Config, auth: QueryString.Params, name: string, service: string,
                             params: QueryString.Params)
    requires QueryString.DistinctKeys(params) && QueryString.DistinctKeys(auth)
    ensures forall r | r in Recorded(config, auth, name, service, params) :: QueryString.DistinctKeys(r.params)
  {
    MergeDistinctKeys(params, auth);
  }

  /**
   * Test mode makes no transport call (the result is the same whatever
   * transport is given) and logs exactly one entry; otherwise the result is
   * the transport's answer and nothing is logged.
   */
  lemma ExecutionModes(auth: QueryString.Params, config: Config, name: string, service: string,
                       params: QueryString.Params, t1: HttpGet -> HttpResponse, t2: HttpGet -> HttpResponse)
    ensures config.testMode ==> Execution(auth, config, name, service, params, t1)
                                == Execution(auth, config, name, service, params, t2) == Fabricated
    ensures config.testMode ==> |Recorded(config, auth, name, service, params)| == 1
    ensures !config.testMode ==>
              && Execution(auth, config, name, service, params, t1)
                 == Received(t1(GetFor(CommandUrl(auth, config, name, service, params), config.secureMode)))
              && Recorded(config, auth, name, service, params) == []
  {
  }

  /**
   * The request an executor sends: the query carries exactly the call's
   * parameters and the authentication options, TLS is on exactly when the
   * URL is https, and the port is the scheme's.
   */
  lemma CommandRequest(auth: QueryString.Params, config: Config, name: string, service: string,
                       params: QueryString.Params)
    ensures var u := CommandUrl(auth, config, name, service, params);
            && QueryString.Parse(u.query) == Some(QueryString.Rendered(Merge(params, auth)))
            && GetFor(u, config.secureMode).useSsl == (u.scheme == "https")
            && GetFor(u, config.secureMode).port == (if config.secureMode then 443 else 80)
            && GetFor(u, config.secureMode).target == u.path + "?" + u.query
            && u.path == "/" + service + "/" + name
  {
  }

  /** `new({:session_id => '12345'})` then `execute('cmdname', 'http', :param_one => 'foo')`. */
  lemma MergeSessionExample()
    ensures Merge([("param_one", QueryString.Str("foo"))], [("session_id", QueryString.Str("12345"))])
            == [("param_one", QueryString.Str("foo")), ("session_id", QueryString.Str("12345"))]
  {
  }

  class Executor {
    const auth: QueryString.Params
    const config: Config
    /** The calls made in test mode, oldest first. */
    var smsRequests: seq<SmsRequest>

    constructor (auth: QueryString.Params, config: Config)
      ensures this.auth == auth && this.config == config && smsRequests == []
    {
      this.auth := auth;
      this.config := config;
      smsRequests := [];
    }

    /**
     * Builds `Command(name, service, secure)` with the parameters merged
     * with the authentication options; in test mode appends one record and
     * returns the stand-in, otherwise returns what the transport answers to
     * the GET for that URL. The debug flag changes nothing here.
     */
    method Execute(name: string, service: string, params: QueryString.Params,
                   transport: HttpGet -> HttpResponse) returns (r: RawResponse)
      modifies this
      ensures r == Execution(auth, config, name, service, params, transport)
      ensures smsRequests == old(smsRequests) + Recorded(config, auth, name, service, params)
    {
      var merged := Merge(params, auth);
      var url := Command.WithParams(Command.Command(name, service, config.secureMode), config.serviceHost, merged);
      if config.testMode {
        smsRequests := smsRequests + [SmsRequest(name, service, merged, url)];
        r := Fabricated;
      } else {
        var get := HttpGet(url.host, url.port, config.secureMode, Command.RequestTarget(url));
        r := Received(transport(get));
      }
    }
  }
}
