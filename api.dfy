/**
 * The API facade: each operation assembles its parameters, has a fresh
 * CommandExecutor run the command, and reads the parsed response. The
 * response parser (`Response.parse`) and the HTTP transport are passed in.
 */
module Api {
  import opened Wrappers
  import QueryString
  import CommandExecutor
  import ApiError

  type Fields = map<string, string>

  /** A parsed response body: one mapping, or one mapping per line of a bulk reply. */
  datatype Parsed = Single(fields: Fields) | Bulk(entries: seq<Fields>)

  /** Why an operation gives no result. */
  datatype Failure =
    | Gateway(error: ApiError.Error)   // the parser found an `ERR:` body
    | MissingField(key: string)        // the reply lacks the field the operation reads
    | UnexpectedBulk                   // a bulk reply where one mapping was expected
    | NoRecipients                     // `send_message` with an empty recipient list
    | Uncorrelated                     // a single reply without `To` for several recipients

  /** The length above which a text goes out as a concatenated message. */
  const SinglePartLength: nat := 160
  /** The characters each part of a concatenated message carries. */
  const ConcatPartLength: nat := 153

  /** The wire keys `send_message` can produce. */
  predicate IsMessageKey(k: string) {
    k == "to" || k == "text" || k == "from" || k == "req_feat" || k == "callback" || k == "climsgid" || k == "concat"
  }

  // ---------------------------------------------------------------- parameters

  function AuthParams(apiId: string, user: string, password: string): QueryString.Params {
    [("api_id", QueryString.Str(apiId)), ("user", QueryString.Str(user)), ("password", QueryString.Str(password))]
  }

  function PingParams(sessionId: string): QueryString.Params {
    [("session_id", QueryString.Str(sessionId))]
  }

  function StatusParams(messageId: string): QueryString.Params {
    [("apimsgid", QueryString.Str(messageId))]
  }

  /** The number of parts a text of `n` characters needs: n / 153, rounded up. */
  function Parts(n: nat): (k: nat)
    ensures n > 0 ==> (k - 1) * ConcatPartLength < n <= k * ConcatPartLength
  {
    (n + ConcatPartLength - 1) / ConcatPartLength
  }

  /** The `concat` a text implies on its own: its part count when over 160 characters. */
  function AutoConcat(text: string): Option<nat> {
    if |text| > SinglePartLength then Some(Parts(|text|)) else None
  }

  function OptionParam(options: QueryString.Params, key: string, wireKey: string): QueryString.Params {
    match QueryString.Lookup(options, key)
    case Some(v) => [(wireKey, v)]
    case None => []
  }

  /** `from`, with `req_feat` = '48' beside it. */
  function FromParams(options: QueryString.Params): QueryString.Params {
    match QueryString.Lookup(options, "from")
    case Some(v) => [("from", v), ("req_feat", QueryString.Str("48"))]
    case None => []
  }

  /** An explicit `concat` as given, else the one the length implies, if any. */
  function ConcatValue(text: string, options: QueryString.Params): Option<QueryString.Value> {
    match QueryString.Lookup(options, "concat")
    case Some(v) => Some(v)
    case None =>
      match AutoConcat(text)
      case Some(n) => Some(QueryString.Num(n))
      case None => None
  }

  function ConcatParams(text: string, options: QueryString.Params): QueryString.Params {
    match ConcatValue(text, options)
    case Some(v) => [("concat", v)]
    case None => []
  }

  function BaseParams(recipients: seq<string>, text: string): QueryString.Params {
    [("to", QueryString.Str(QueryString.Join(recipients, ','))), ("text", QueryString.Str(text))]
  }

  /**
   * The wire parameters of `send_message`: `to` (the recipients joined by
   * commas) and `text`, then the recognised options; every other option key
   * is dropped.
   */
  function MessageParams(recipients: seq<string>, text: string, options: QueryString.Params): QueryString.Params {
    BaseParams(recipients, text)
    + FromParams(options)
    + OptionParam(options, "callback", "callback")
    + OptionParam(options, "client_message_id", "climsgid")
    + ConcatParams(text, options)
  }

  /**
   * The value `send_message` puts on the wire under key `k`, stated key by
   * key, independently of the order MessageParams lists them in.
   */
  function WireValue(recipients: seq<string>, text: string, options: QueryString.Params, k: string)
    : Option<QueryString.Value>
  {
    if k == "to" then Some(QueryString.Str(QueryString.Join(recipients, ',')))
    else if k == "text" then Some(QueryString.Str(text))
    else if k == "from" then QueryString.Lookup(options, "from")
    else if k == "req_feat" then
      if "from" in QueryString.Keys(options) then Some(QueryString.Str("48")) else None
    else if k == "callback" then QueryString.Lookup(options, "callback")
    else if k == "climsgid" then QueryString.Lookup(options, "client_message_id")
    else if k == "concat" then ConcatValue(text, options)
    else None
  }

  lemma LookupOptionParam(options: QueryString.Params, key: string, wireKey: string, k: string)
    ensures QueryString.Lookup(OptionParam(options, key, wireKey), k)
            == if k == wireKey then QueryString.Lookup(options, key) else None
  {
  }

  lemma LookupBaseParams(recipients: seq<string>, text: string, k: string)
    ensures QueryString.Lookup(BaseParams(recipients, text), k)
            == if k == "to" then Some(QueryString.Str(QueryString.Join(recipients, ',')))
               else if k == "text" then Some(QueryString.Str(text)) else None
  {
  }

  lemma LookupFromParams(options: QueryString.Params, k: string)
    ensures QueryString.Lookup(FromParams(options), k)
            == if k == "from" then QueryString.Lookup(options, "from")
               else if k == "req_feat" && "from" in QueryString.Keys(options) then Some(QueryString.Str("48"))
               else None
  {
  }

  lemma LookupConcatParams(text: string, options: QueryString.Params, k: string)
    ensures QueryString.Lookup(ConcatParams(text, options), k)
            == if k == "concat" then ConcatValue(text, options) else None
  {
  }

  /** Each wire key of `send_message` carries exactly the value WireValue gives it. */
  lemma LookupMessageParams(recipients: seq<string>, text: string, options: QueryString.Params, k: string)
    ensures QueryString.Lookup(MessageParams(recipients, text, options), k) == WireValue(recipients, text, options, k)
  {
    var base := BaseParams(recipients, text);
    var from := FromParams(options);
    var callback := OptionParam(options, "callback", "callback");
    var climsgid := OptionParam(options, "client_message_id", "climsgid");
    var concat := ConcatParams(text, options);
    LookupBaseParams(recipients, text, k);
    LookupFromParams(options, k);
    LookupOptionParam(options, "callback", "callback", k);
    LookupOptionParam(options, "client_message_id", "climsgid", k);
    LookupConcatParams(text, options, k);
    QueryString.LookupAppend(base, from, k);
    QueryString.LookupAppend(base + from, callback, k);
    QueryString.LookupAppend(base + from + callback, climsgid, k);
    QueryString.LookupAppend(base + from + callback + climsgid, concat, k);
  }

  /** No key outside the recognised set reaches the wire, whatever the options hold. */
  lemma MessageParamsKeys(recipients: seq<string>, text: string, options: QueryString.Params, k: string)
    ensures k in QueryString.Keys(MessageParams(recipients, text, options)) ==> IsMessageKey(k)
  {
    var ps := MessageParams(recipients, text, options);
    LookupMessageParams(recipients, text, options, k);
    if !IsMessageKey(k) {
      assert WireValue(recipients, text, options, k) == None;
      assert QueryString.Lookup(ps, k).None?;
    }
  }

  lemma FixedPiecesKeys(recipients: seq<string>, text: string, options: QueryString.Params)
    ensures QueryString.DistinctKeys(BaseParams(recipients, text))
    ensures QueryString.KeysAmong(BaseParams(recipients, text), {"to", "text"})
    ensures QueryString.DistinctKeys(FromParams(options))
    ensures QueryString.KeysAmong(FromParams(options), {"from", "req_feat"})
  {
  }

  lemma OptionPieceKeys(options: QueryString.Params, key: string, wireKey: string)
    ensures QueryString.DistinctKeys(OptionParam(options, key, wireKey))
    ensures QueryString.KeysAmong(OptionParam(options, key, wireKey), {wireKey})
  {
  }

  lemma ConcatPieceKeys(text: string, options: QueryString.Params)
    ensures QueryString.DistinctKeys(ConcatParams(text, options))
    ensures QueryString.KeysAmong(ConcatParams(text, options), {"concat"})
  {
  }

  lemma WireKeySetsDisjoint()
    ensures {"to", "text"} !! {"from", "req_feat"}
    ensures {"to", "text", "from", "req_feat"} !! {"callback"}
    ensures {"to", "text", "from", "req_feat", "callback"} !! {"climsgid"}
    ensures {"to", "text", "from", "req_feat", "callback", "climsgid"} !! {"concat"}
  {
    assert "req_feat"[0] != "text"[0];
    assert "callback"[0] != "req_feat"[0];
    assert "climsgid"[0] != "req_feat"[0] && "climsgid"[1] != "callback"[1];
  }

  /**
   * The wire parameters never repeat a key, whatever the options hold, so
   * they are a Hash as the command expects.
   */
  lemma MessageParamsDistinctKeys(recipients: seq<string>, text: string, options: QueryString.Params)
    ensures QueryString.DistinctKeys(MessageParams(recipients, text, options))
  {
    var base := BaseParams(recipients, text);
    var from := FromParams(options);
    var callback := OptionParam(options, "callback", "callback");
    var climsgid := OptionParam(options, "client_message_id", "climsgid");
    var concat := ConcatParams(text, options);
    FixedPiecesKeys(recipients, text, options);
    OptionPieceKeys(options, "callback", "callback");
    OptionPieceKeys(options, "client_message_id", "climsgid");
    ConcatPieceKeys(text, options);
    WireKeySetsDisjoint();
    QueryString.DistinctAppendAmong(base, from, {"to", "text"}, {"from", "req_feat"});
    assert {"to", "text"} + {"from", "req_feat"} == {"to", "text", "from", "req_feat"};
    QueryString.DistinctAppendAmong(base + from, callback, {"to", "text", "from", "req_feat"}, {"callback"});
    assert {"to", "text", "from", "req_feat"} + {"callback"} == {"to", "text", "from", "req_feat", "callback"};
    QueryString.DistinctAppendAmong(base + from + callback, climsgid,
                                    {"to", "text", "from", "req_feat", "callback"}, {"climsgid"});
    assert {"to", "text", "from", "req_feat", "callback"} + {"climsgid"}
           == {"to", "text", "from", "req_feat", "callback", "climsgid"};
    QueryString.DistinctAppendAmong(base + from + callback + climsgid, concat,
                                    {"to", "text", "from", "req_feat", "callback", "climsgid"}, {"concat"});
  }

  /** One recipient, at most 160 characters and no options: exactly `to` and `text`. */
  lemma PlainMessageParams(recipient: string, text: string)
    requires |text| <= SinglePartLength
    ensures MessageParams([recipient], text, []) == [("to", QueryString.Str(recipient)), ("text", QueryString.Str(text))]
  {
  }

  /** The recipients can be read back from the `to` parameter when none holds a comma. */
  lemma RecipientsRoundTrip(recipients: seq<string>)
    requires recipients != []
    requires forall i | 0 <= i < |recipients| :: ',' !in recipients[i]
    ensures QueryString.Split(QueryString.Join(recipients, ','), ',') == recipients
  {
    QueryString.SplitJoin(recipients, ',');
  }

  /** Texts of 161 to 306 characters go out in two parts; 180 is one of them. */
  lemma TwoParts(n: nat)
    requires SinglePartLength < n <= 2 * ConcatPartLength
    ensures Parts(n) == 2
  {
  }

  // ------------------------------------------------------------ reading replies

  /** The field `key` of a single-mapping reply, with the parser's error passed on. */
  function FieldOf(p: Result<Parsed, ApiError.Error>, key: string): Result<string, Failure> {
    match p
    case Failure(e) => Failure(Gateway(e))
    case Success(Bulk(_)) => Failure(UnexpectedBulk)
    case Success(Single(m)) => if key in m then Success(m[key]) else Failure(MissingField(key))
  }

  /** The `To` -> `ID` map of a bulk reply, one entry per line in order; a later line wins. */
  function BulkIds(es: seq<Fields>): Result<map<string, string>, Failure>
    decreases |es|
  {
    if es == [] then Success(map[])
    else
      match BulkIds(es[..|es| - 1])
      case Failure(f) => Failure(f)
      case Success(m) =>
        var e := es[|es| - 1];
        if "To" !in e then Failure(MissingField("To"))
        else if "ID" !in e then Failure(MissingField("ID"))
        else Success(m[e["To"] := e["ID"]])
  }

  /** The message ids of a `sendmsg` reply, by recipient. */
  function MessageIds(recipients: seq<string>, p: Result<Parsed, ApiError.Error>): Result<map<string, string>, Failure> {
    match p
    case Failure(e) => Failure(Gateway(e))
    case Success(Bulk(es)) => BulkIds(es)
    case Success(Single(m)) =>
      if "ID" !in m then Failure(MissingField("ID"))
      else if "To" in m then Success(map[m["To"] := m["ID"]])
      else if |recipients| == 1 then Success(map[recipients[0] := m["ID"]])
      else Failure(Uncorrelated)
  }

  predicate Complete(es: seq<Fields>) {
    forall i | 0 <= i < |es| :: "To" in es[i] && "ID" in es[i]
  }

  /** No two lines of a bulk reply name the same recipient. */
  predicate DistinctRecipients(es: seq<Fields>)
    requires Complete(es)
  {
    forall i, j | 0 <= i < j < |es| :: es[i]["To"] != es[j]["To"]
  }

  /** A bulk reply gives a map exactly when every line has `To` and `ID`. */
  lemma {:induction false} BulkIdsSucceed(es: seq<Fields>)
    ensures BulkIds(es).Success? <==> Complete(es)
    decreases |es|
  {
    if es != [] {
      var init := es[..|es| - 1];
      BulkIdsSucceed(init);
      assert forall i | 0 <= i < |init| :: init[i] == es[i];
    }
  }

  /** The keys of a bulk reply's map are the recipients its lines name. */
  lemma {:induction false} BulkIdsKeys(es: seq<Fields>)
    requires Complete(es)
    ensures BulkIds(es).Success?
    ensures BulkIds(es).value.Keys == (set i | 0 <= i < |es| :: es[i]["To"])
    decreases |es|
  {
    BulkIdsSucceed(es);
    if es != [] {
      var init := es[..|es| - 1];
      var e := es[|es| - 1];
      assert forall i | 0 <= i < |init| :: init[i] == es[i];
      BulkIdsKeys(init);
      var keys := set i | 0 <= i < |es| :: es[i]["To"];
      var initKeys := set i | 0 <= i < |init| :: init[i]["To"];
      assert keys == initKeys + {e["To"]} by {
        forall x | x in keys ensures x in initKeys + {e["To"]} {
          var i :| 0 <= i < |es| && es[i]["To"] == x;
          if i < |init| { assert init[i]["To"] == x; }
        }
        forall x | x in initKeys ensures x in keys {
          var i :| 0 <= i < |init| && init[i]["To"] == x;
          assert es[i]["To"] == x;
        }
        assert es[|es| - 1]["To"] in keys;
      }
    }
  }

  /** With distinct recipients, each maps to the `ID` of its own line. */
  lemma {:induction false} BulkIdsValues(es: seq<Fields>)
    requires Complete(es) && DistinctRecipients(es)
    ensures BulkIds(es).Success?
    ensures forall i | 0 <= i < |es| ::
              es[i]["To"] in BulkIds(es).value && BulkIds(es).value[es[i]["To"]] == es[i]["ID"]
    decreases |es|
  {
    BulkIdsKeys(es);
    if es != [] {
      var init := es[..|es| - 1];
      var e := es[|es| - 1];
      assert forall i | 0 <= i < |init| :: init[i] == es[i];
      assert Complete(init);
      BulkIdsValues(init);
      var m := BulkIds(init).value;
      assert BulkIds(es).value == m[e["To"] := e["ID"]];
      forall i | 0 <= i < |es|
        ensures es[i]["To"] in BulkIds(es).value && BulkIds(es).value[es[i]["To"]] == es[i]["ID"]
      {
        if i < |init| {
          assert es[i]["To"] != e["To"];
          assert init[i]["To"] in m && m[init[i]["To"]] == init[i]["ID"];
        }
      }
    }
  }

  /**
   * When the gateway answers each recipient on its own line, in order, the
   * result maps every recipient to the id on its line.
   */
  lemma MessageIdsPerRecipient(recipients: seq<string>, es: seq<Fields>)
    requires |es| == |recipients| && Complete(es)
    requires forall i | 0 <= i < |es| :: es[i]["To"] == recipients[i]
    requires forall i, j | 0 <= i < j < |recipients| :: recipients[i] != recipients[j]
    ensures MessageIds(recipients, Success(Bulk(es))).Success?
    ensures var ids := MessageIds(recipients, Success(Bulk(es))).value;
            && ids.Keys == (set r | r in recipients)
            && forall i | 0 <= i < |recipients| :: ids[recipients[i]] == es[i]["ID"]
  {
    BulkIdsKeys(es);
    BulkIdsValues(es);
    var ids := BulkIds(es).value;
    assert (set i | 0 <= i < |es| :: es[i]["To"]) == set r | r in recipients by {
      forall r | r in recipients ensures r in set i | 0 <= i < |es| :: es[i]["To"] {
        var i :| 0 <= i < |recipients| && recipients[i] == r;
        assert es[i]["To"] == r;
      }
    }
  }

  /** A text over 160 characters with no explicit `concat` goes out with its part count. */
  lemma LongTextConcat(recipients: seq<string>, text: string, options: QueryString.Params)
    requires |text| > SinglePartLength && "concat" !in QueryString.Keys(options)
    ensures QueryString.Lookup(MessageParams(recipients, text, options), "concat") == Some(QueryString.Num(Parts(|text|)))
  {
    LookupMessageParams(recipients, text, options, "concat");
  }

  /** A text of at most 160 characters gets no `concat` unless the caller gives one. */
  lemma ShortTextNoConcat(recipients: seq<string>, text: string, options: QueryString.Params)
    requires |text| <= SinglePartLength && "concat" !in QueryString.Keys(options)
    ensures "concat" !in QueryString.Keys(MessageParams(recipients, text, options))
  {
    LookupMessageParams(recipients, text, options, "concat");
  }

  /** An explicit `concat` always goes out as given, whatever the length. */
  lemma ExplicitConcat(recipients: seq<string>, text: string, options: QueryString.Params)
    requires "concat" in QueryString.Keys(options)
    ensures QueryString.Lookup(MessageParams(recipients, text, options), "concat") == QueryString.Lookup(options, "concat")
  {
    LookupMessageParams(recipients, text, options, "concat");
  }

  const Number1 := "4477791234567"
  const Number2 := "447779999999"
  const Greeting := "hello world & goodbye"

  /** Sending to one number: exactly `to` and `text`; a reply with `To` maps it to its id. */
  lemma SendToOneExample()
    ensures MessageParams([Number1], Greeting, []) == [("to", QueryString.Str(Number1)), ("text", QueryString.Str(Greeting))]
    ensures MessageIds([Number1], Success(Single(map["ID" := "message_id", "To" := Number1])))
            == Success(map[Number1 := "message_id"])
  {
    PlainMessageParams(Number1, Greeting);
  }

  /** Sending to two numbers: `to` joins them; a two-line reply maps each to its own id. */
  lemma SendToTwoExample()
    ensures MessageParams([Number1, Number2], Greeting, [])
            == [("to", QueryString.Str(Number1 + "," + Number2)), ("text", QueryString.Str(Greeting))]
    ensures MessageIds([Number1, Number2], Success(Bulk([map["ID" := "message_1_id", "To" := Number1],
                                                         map["ID" := "message_2_id", "To" := Number2]])))
            == Success(map[Number1 := "message_1_id", Number2 := "message_2_id"])
  {
    assert QueryString.Join([Number1, Number2], ',') == Number1 + "," + Number2;
    var es := [map["ID" := "message_1_id", "To" := Number1], map["ID" := "message_2_id", "To" := Number2]];
    assert es[..1] == [es[0]];
    assert es[..1][..0] == [];
    assert BulkIds(es[..1]) == Success(map[Number1 := "message_1_id"]);
    assert BulkIds(es) == Success(map[Number1 := "message_1_id"][Number2 := "message_2_id"]);
  }

  /** A reply without `To` for a single recipient maps that recipient to the id. */
  lemma SendWithoutToExample()
    ensures MessageIds([Number1], Success(Single(map["ID" := "message_id"]))) == Success(map[Number1 := "message_id"])
  {
  }

  /** `from` goes out with `req_feat` 48; an unknown option is dropped. */
  lemma FromExample()
    ensures var ps := MessageParams([Number1], "hello world",
                                    [("from", QueryString.Str("LUKE")), ("any_old_param", QueryString.Str("test"))]);
            && QueryString.Lookup(ps, "from") == Some(QueryString.Str("LUKE"))
            && QueryString.Lookup(ps, "req_feat") == Some(QueryString.Str("48"))
            && "any_old_param" !in QueryString.Keys(ps)
  {
    var options := [("from", QueryString.Str("LUKE")), ("any_old_param", QueryString.Str("test"))];
    LookupMessageParams([Number1], "hello world", options, "from");
    LookupMessageParams([Number1], "hello world", options, "req_feat");
    MessageParamsKeys([Number1], "hello world", options, "any_old_param");
  }

  /** `from` goes out exactly as given. */
  lemma FromPassThrough(recipients: seq<string>, text: string, options: QueryString.Params)
    ensures QueryString.Lookup(MessageParams(recipients, text, options), "from") == QueryString.Lookup(options, "from")
  {
    assert WireValue(recipients, text, options, "from") == QueryString.Lookup(options, "from");
    LookupMessageParams(recipients, text, options, "from");
  }

  /** `callback` goes out exactly as given. */
  lemma CallbackPassThrough(recipients: seq<string>, text: string, options: QueryString.Params)
    ensures QueryString.Lookup(MessageParams(recipients, text, options), "callback") == QueryString.Lookup(options, "callback")
  {
    assert WireValue(recipients, text, options, "callback") == QueryString.Lookup(options, "callback") by {
      assert "callback"[0] != "req_feat"[0];
    }
    LookupMessageParams(recipients, text, options, "callback");
  }

  /** `client_message_id` goes out exactly as given, under the wire key `climsgid`. */
  lemma ClientMessageIdPassThrough(recipients: seq<string>, text: string, options: QueryString.Params)
    ensures QueryString.Lookup(MessageParams(recipients, text, options), "climsgid")
            == QueryString.Lookup(options, "client_message_id")
  {
    assert WireValue(recipients, text, options, "climsgid") == QueryString.Lookup(options, "client_message_id") by {
      assert "climsgid"[0] != "req_feat"[0] && "climsgid"[1] != "callback"[1];
    }
    LookupMessageParams(recipients, text, options, "climsgid");
  }

  /** `callback`, `client_message_id` (as `climsgid`) and `concat` go out as given. */
  lemma OptionsExample()
    ensures var ps := MessageParams([Number1], "hello world",
                                    [("callback", QueryString.Num(1)), ("client_message_id", QueryString.Num(12345678)),
                                     ("concat", QueryString.Num(3))]);
            && QueryString.Lookup(ps, "callback") == Some(QueryString.Num(1))
            && QueryString.Lookup(ps, "climsgid") == Some(QueryString.Num(12345678))
            && QueryString.Lookup(ps, "concat") == Some(QueryString.Num(3))
  {
    var options := [("callback", QueryString.Num(1)), ("client_message_id", QueryString.Num(12345678)),
                    ("concat", QueryString.Num(3))];
    CallbackPassThrough([Number1], "hello world", options);
    ClientMessageIdPassThrough([Number1], "hello world", options);
    assert QueryString.Lookup(options, "concat") == Some(QueryString.Num(3));
    ExplicitConcat([Number1], "hello world", options);
  }

  /** A text of 180 characters goes out in two parts. */
  lemma LongTextExample()
    ensures QueryString.Lookup(MessageParams([Number1], seq(180, _ => 't'), []), "concat") == Some(QueryString.Num(2))
  {
    LongTextConcat([Number1], seq(180, _ => 't'), []);
  }

  /** An error the parser reports comes out of every reading unchanged. */
  lemma GatewayErrorPropagates(e: ApiError.Error, recipients: seq<string>, key: string)
    ensures FieldOf(Failure(e), key) == Failure(Gateway(e))
    ensures MessageIds(recipients, Failure(e)) == Failure(Gateway(e))
  {
  }

  /** The fields `authenticate`, `message_status` and `account_balance` read from their replies. */
  lemma ReplyFieldExamples()
    ensures FieldOf(Success(Single(map["OK" := "new_session_id"])), "OK") == Success("new_session_id")
    ensures FieldOf(Success(Single(map["ID" := "message_id", "Status" := "message_status"])), "Status")
            == Success("message_status")
    ensures FieldOf(Success(Single(map["Credit" := "10.0"])), "Credit") == Success("10.0")
  {
  }

  // ------------------------------------------------------------------ the API

  class Api {
    /** The authentication options merged into every command (e.g. `session_id`). */
    var authOptions: QueryString.Params
    /** Every call recorded in test mode, as one flat sequence. */
    var smsRequests: seq<CommandExecutor.SmsRequest>

    constructor (authOptions: QueryString.Params)
      ensures this.authOptions == authOptions && smsRequests == []
    {
      this.authOptions := authOptions;
      smsRequests := [];
    }

    /**
     * Runs one command through a new executor built from the authentication
     * options and `config`, and appends that executor's records to the log.
     */
    method ExecuteCommand(name: string, params: QueryString.Params, config: CommandExecutor.Config,
                          transport: CommandExecutor.HttpGet -> CommandExecutor.HttpResponse)
      returns (r: CommandExecutor.RawResponse)
      modifies this
      ensures authOptions == old(authOptions)
      ensures r == CommandExecutor.Execution(authOptions, config, name, "http", params, transport)
      ensures smsRequests == old(smsRequests) + CommandExecutor.Recorded(config, authOptions, name, "http", params)
    {
      var executor := new CommandExecutor.Executor(authOptions, config);
      r := executor.Execute(name, "http", params, transport);
      smsRequests := smsRequests + executor.smsRequests;
    }

    /** `authenticate`: sends `auth` with the credentials and returns the `OK` field, the new session id. */
    method Authenticate(apiId: string, user: string, password: string, config: CommandExecutor.Config,
                        transport: CommandExecutor.HttpGet -> CommandExecutor.HttpResponse,
                        parse: CommandExecutor.RawResponse -> Result<Parsed, ApiError.Error>)
      returns (r: Result<string, Failure>)
      modifies this
      ensures authOptions == old(authOptions)
      ensures r == FieldOf(parse(CommandExecutor.Execution(authOptions, config, "auth", "http",
                                                           AuthParams(apiId, user, password), transport)), "OK")
      ensures smsRequests == old(smsRequests)
                             + CommandExecutor.Recorded(config, authOptions, "auth", "http", AuthParams(apiId, user, password))
    {
      var raw := ExecuteCommand("auth", AuthParams(apiId, user, password), config, transport);
      r := FieldOf(parse(raw), "OK");
    }

    /** `ping`: sends `ping` with the session id and returns the response unparsed. */
    method Ping(sessionId: string, config: CommandExecutor.Config,
                transport: CommandExecutor.HttpGet -> CommandExecutor.HttpResponse)
      returns (r: CommandExecutor.RawResponse)
      modifies this
      ensures authOptions == old(authOptions)
      ensures r == CommandExecutor.Execution(authOptions, config, "ping", "http", PingParams(sessionId), transport)
      ensures smsRequests == old(smsRequests) + CommandExecutor.Recorded(config, authOptions, "ping", "http", PingParams(sessionId))
    {
      r := ExecuteCommand("ping", PingParams(sessionId), config, transport);
    }

    /**
     * `send_message`: sends `sendmsg` with MessageParams and returns the
     * message id of each recipient. An empty recipient list sends nothing.
     */
    method SendMessage(recipients: seq<string>, text: string, options: QueryString.Params,
                       config: CommandExecutor.Config,
                       transport: CommandExecutor.HttpGet -> CommandExecutor.HttpResponse,
                       parse: CommandExecutor.RawResponse -> Result<Parsed, ApiError.Error>)
      returns (r: Result<map<string, string>, Failure>)
      modifies this
      ensures authOptions == old(authOptions)
      ensures recipients == [] ==> r == Failure(NoRecipients) && smsRequests == old(smsRequests)
      ensures recipients != [] ==>
                && r == MessageIds(recipients, parse(CommandExecutor.Execution(authOptions, config, "sendmsg", "http",
                                                                               MessageParams(recipients, text, options), transport)))
                && smsRequests == old(smsRequests)
                                  + CommandExecutor.Recorded(config, authOptions, "sendmsg", "http",
                                                             MessageParams(recipients, text, options))
    {
      if recipients == [] {
        return Failure(NoRecipients);
      }
      var raw := ExecuteCommand("sendmsg", MessageParams(recipients, text, options), config, transport);
      r := MessageIds(recipients, parse(raw));
    }

    /** `message_status`: sends `querymsg` with `apimsgid` and returns the `Status` field. */
    method MessageStatus(messageId: string, config: CommandExecutor.Config,
                         transport: CommandExecutor.HttpGet -> CommandExecutor.HttpResponse,
                         parse: CommandExecutor.RawResponse -> Result<Parsed, ApiError.Error>)
      returns (r: Result<string, Failure>)
      modifies this
      ensures authOptions == old(authOptions)
      ensures r == FieldOf(parse(CommandExecutor.Execution(authOptions, config, "querymsg", "http",
                                                           StatusParams(messageId), transport)), "Status")
      ensures smsRequests == old(smsRequests) + CommandExecutor.Recorded(config, authOptions, "querymsg", "http", StatusParams(messageId))
    {
      var raw := ExecuteCommand("querymsg", StatusParams(messageId), config, transport);
      r := FieldOf(parse(raw), "Status");
    }

    /** `account_balance`: sends `getbalance` with no parameters and returns the `Credit` field as text. */
    method AccountBalance(config: CommandExecutor.Config,
                          transport: CommandExecutor.HttpGet -> CommandExecutor.HttpResponse,
                          parse: CommandExecutor.RawResponse -> Result<Parsed, ApiError.Error>)
      returns (r: Result<string, Failure>)
      modifies this
      ensures authOptions == old(authOptions)
      ensures r == FieldOf(parse(CommandExecutor.Execution(authOptions, config, "getbalance", "http", [], transport)), "Credit")
      ensures smsRequests == old(smsRequests) + CommandExecutor.Recorded(config, authOptions, "getbalance", "http", [])
    {
      var raw := ExecuteCommand("getbalance", [], config, transport);
      r := FieldOf(parse(raw), "Credit");
    }

    /**
     * The class-level `authenticate`: a new API without authentication
     * options authenticates, then takes the session id as its only
     * authentication option.
     */
    static method Login(apiId: string, user: string, password: string, config: CommandExecutor.Config,
                        transport: CommandExecutor.HttpGet -> CommandExecutor.HttpResponse,
                        parse: CommandExecutor.RawResponse -> Result<Parsed, ApiError.Error>)
      returns (r: Result<Api, Failure>)
      ensures var session := FieldOf(parse(CommandExecutor.Execution([], config, "auth", "http",
                                                                     AuthParams(apiId, user, password), transport)), "OK");
              && (r.Failure? <==> session.Failure?)
              && (r.Failure? ==> r.error == session.error)
              && (r.Success? ==> && fresh(r.value)
                                 && r.value.authOptions == [("session_id", QueryString.Str(session.value))]
                                 && r.value.smsRequests
                                    == CommandExecutor.Recorded(config, [], "auth", "http", AuthParams(apiId, user, password)))
    {
      var api := new Api([]);
      var session := api.Authenticate(apiId, user, password, config, transport, parse);
      match session {
        case Failure(f) =>
          r := Failure(f);
        case Success(id) =>
          api.authOptions := [("session_id", QueryString.Str(id))];
          r := Success(api);
      }
    }
  }

  /** The stand-in transport of test mode; test mode never calls it. */
  function NoTransport(g: CommandExecutor.HttpGet): CommandExecutor.HttpResponse {
    CommandExecutor.HttpResponse(0, "")
  }

  /**
   * In test mode one `ping` on a new API adds exactly one record to its
   * log, and that record is the ping call itself, not a nested list.
   */
  method TestModePing(sessionId: string, serviceHost: Option<string>) returns (count: nat, first: CommandExecutor.SmsRequest)
    ensures count == 1
    ensures first.command == "ping" && first.service == "http" && first.params == PingParams(sessionId)
  {
    var api := new Api([]);
    var config := CommandExecutor.Config(serviceHost, false, false, true);
    var _ := api.Ping(sessionId, config, NoTransport);
    CommandExecutor.MergeNothing(PingParams(sessionId));
    count := |api.smsRequests|;
    first := api.smsRequests[0];
  }
}
