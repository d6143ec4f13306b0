# Clickatell SMS gateway client — request building and reply reading

This project models the request-building core of the `clickatell` Ruby
client, the library behind the `Clickatell::API` class. Its behaviour is
pinned down by the RSpec suite `spec/api_spec.rb`. The model covers:

- **`API::Command#with_params`** (module `Command`). It turns a command
  name and an ordered list of parameters into the URL
  `scheme://host/http/<name>?k1=v1&k2=v2`.
  - The scheme is `https` exactly when the command is secure.
  - The host is the custom service host when that is non-empty, else
    `api.clickatell.com`.
  - Keys stay in the order given.
  - Keys and values are form-encoded (`application/x-www-form-urlencoded`
    as in section 17.13.4.1 of HTML 4.01). Text is encoded as UTF-8. The
    unreserved characters of section 2.3 of RFC 3986 stay as they are, a
    space becomes `+`, and every other octet becomes `%HH`.
  - The encoding is in `Utf8`, `FormEncoding` and `QueryString`, each with
    its decoder. The main theorem is that decoding the query gives back
    the pairs (`QueryString.ParseBuild`).
- **`API::CommandExecutor#execute`** (module `CommandExecutor`).
  - The call's parameters are merged with the authentication options
    (Ruby's `params.merge(auth)`: the call's keys keep their places, and an
    authentication value wins on a shared key).
  - The command is built with the secure flag.
  - Outside test mode, the GET for the URL goes to the transport, with TLS
    exactly when secure.
  - In test mode the transport is not called: one record is appended to
    the executor's `sms_requests` log and a stand-in response is returned.
- **The `API` façade** (module `Api`): `authenticate`, `ping`,
  `send_message`, `message_status`, `account_balance`, `sms_requests` and
  the class-level `API.authenticate`.
  - Each call runs through a new executor, and the API's log is the flat
    concatenation of those executors' logs.
  - `send_message` joins the recipients with commas into `to` and sends
    `text`. Of the options it keeps only `from` (adding `req_feat=48`),
    `callback`, `client_message_id` (sent as `climsgid`) and `concat`.
  - A text over 160 characters with no explicit `concat` gets
    `concat = ceil(length / 153)`.
  - The parsed reply, `Single(map)` or `Bulk(seq<map>)`, becomes a
    `To → ID` map.
- **`API::Error.parse`** (module `ApiError`). It splits
  `ERR: <code>, <message>` into a stripped code and a stripped message.

The HTTP transport and the response parser are passed in as function
parameters.

The process-wide settings are passed in as a `CommandExecutor.Config`
value:

- `api_service_host`;
- `secure_mode`;
- `debug_mode`;
- `test_mode`.

## Model

| member | source | states |
|---|---|---|
| Utf8.DecodeEncode | spec/api_spec.rb:26-28 | decoding the UTF-8 octets of any text gives back that text, so the encoding loses nothing |
| Utf8.EncodeAppend | spec/api_spec.rb:26-28 | the octets of a concatenation are the concatenation of the octets |
| Utf8.EncodeAscii | spec/api_spec.rb:26-28 | ASCII text encodes to one octet per character, each equal to its code |
| FormEncoding.UnescapeEscape | spec/api_spec.rb:26-28 | form-decoding the form-encoding of any text gives back that text |
| FormEncoding.EscapeIsEscapedText | spec/api_spec.rb:26-28 | an encoded value consists only of unreserved characters, `+` and `%` |
| FormEncoding.EscapeHasNoSeparators | spec/api_spec.rb:26-28 | no encoded key or value contains `&` or `=`, so the query's fields and pairs split unambiguously |
| FormEncoding.EscapeAppend | spec/api_spec.rb:26-28 | encoding distributes over concatenation |
| FormEncoding.EscapeUnreserved | spec/api_spec.rb:21-23 | text made only of unreserved characters (such as `param_one`, `abc`, `123`) is sent unchanged |
| FormEncoding.EscapeSpace | spec/api_spec.rb:26-28 | a space is sent as `+` |
| FormEncoding.EscapeReservedAscii | spec/api_spec.rb:26-28 | any other ASCII character is sent as `%` and two upper-case hex digits of its code |
| FormEncoding.HexDigitsRoundTrip | spec/api_spec.rb:26-28 | the two hex digits written for an octet read back as that octet |
| FormEncoding.UnescapeEscapeOctets | spec/api_spec.rb:26-28 | decoding the encoding of any octet string gives back the octets |
| QueryString.DigitsValueDigits | spec/api_spec.rb:140-160 | the decimal digits written for a natural number read back as that number |
| QueryString.IntegerValueRender | spec/api_spec.rb:140-160 | a numeric parameter (`concat => 2`, `callback => 1`) is rendered as decimal text that reads back as the same integer |
| QueryString.Lookup | spec/api_spec.rb:61-68 | a key is absent exactly when it is not among the keys; a found value is paired with the key in the list |
| QueryString.LookupAppend | spec/api_spec.rb:61-68 | a lookup in a concatenation finds the first list's value when that list has the key, else the second's |
| QueryString.LookupDistinct | spec/api_spec.rb:61-68 | in a parameter list with distinct keys, as every Ruby Hash has, each entry is found under its own key |
| QueryString.DistinctAppend | spec/api_spec.rb:61-68 | two lists with distinct keys and no key in common concatenate to a list with distinct keys |
| QueryString.SplitJoin | spec/api_spec.rb:124-127 | splitting a join at the separator gives back the parts when no part holds the separator |
| QueryString.ParseBuild | spec/api_spec.rb:21-29 | the query decodes to exactly the supplied key/value pairs, in the supplied order, with values rendered as text |
| Command.ServiceHost | spec/api_spec.rb:31-47 | a non-empty custom host is used; nil or `""` falls back to `api.clickatell.com`; the host is never empty |
| Command.WithParams | spec/api_spec.rb:21-58 | the scheme is `https` iff the command is secure; the host is the service host; the port is the scheme's; the path is `/<service>/<name>`; the query decodes to the supplied pairs |
| Command.WithParamsDefaultHost | spec/api_spec.rb:21-24 | `cmdname` with `param_one=abc`, `param_two=123` gives `http://api.clickatell.com/http/cmdname?param_one=abc&param_two=123` |
| Command.WithParamsSpecialCharacters | spec/api_spec.rb:26-29 | `hello world & goodbye cruel world <grin>` is sent as `hello+world+%26+goodbye+cruel+world+%3Cgrin%3E` |
| Command.EscapeSpecialPieces | spec/api_spec.rb:26-29 | space, `&`, `<` and `>` are sent as `+`, `%26`, `%3C` and `%3E` |
| Command.WithParamsCustomHost | spec/api_spec.rb:31-35 | with custom host `api.clickatell-custom.co.uk` the URL uses that host |
| Command.WithParamsEmptyHost | spec/api_spec.rb:43-47 | with custom host `""` the URL uses `api.clickatell.com` |
| Command.WithParamsSecure | spec/api_spec.rb:50-58 | a secure command gives the `https` URL on port 443 with the same path and query |
| CommandExecutor.LookupMerge | spec/api_spec.rb:61-68 | after the merge every key reads the authentication value if it has one, else the call's value; no other key appears |
| CommandExecutor.MergeKeys | spec/api_spec.rb:61-68 | the merged keys begin with the call's keys in their order, and are exactly the union of both key sets |
| CommandExecutor.MergeDistinctKeys | spec/api_spec.rb:61-68 | merging two parameter sets whose keys are distinct gives one whose keys are distinct, as `Hash#merge` does |
| CommandExecutor.FreshDistinctKeys | spec/api_spec.rb:61-68 | the authentication entries added by the merge have distinct keys when the options do |
| CommandExecutor.RecordedDistinctKeys | spec/api_spec.rb:239-248 | every test-mode record of a call whose parameters and options have distinct keys carries parameters with distinct keys |
| CommandExecutor.MergeNothing | spec/api_spec.rb:197-203 | with no authentication options the parameters go out unchanged |
| CommandExecutor.MergeSessionExample | spec/api_spec.rb:61-68 | `param_one => 'foo'` with `session_id => '12345'` gives exactly those two parameters |
| CommandExecutor.CommandRequest | spec/api_spec.rb:61-86 | the GET's query decodes to the merged parameters; TLS is on iff the URL is https; the port is 443 when secure and 80 otherwise; the target is path `?` query |
| CommandExecutor.ExecutionModes | spec/api_spec.rb:70-86 | in test mode the result does not depend on the transport and exactly one record is logged; otherwise the result is the transport's answer to the command's GET and nothing is logged |
| CommandExecutor.Executor.Execute | spec/api_spec.rb:61-86 | returns the executor's result for the call, and the log grows by exactly that call's records |
| Api.LookupMessageParams | spec/api_spec.rb:115-167 | for every key, the value `send_message` puts on the wire is given key by key: `to` is the comma-join, `text` the text, `from`/`callback` as given, `req_feat` `48` iff `from` is given, `climsgid` is `client_message_id`, `concat` is the explicit one or the automatic one |
| Api.MessageParamsKeys | spec/api_spec.rb:163-167 | no key outside `to`, `text`, `from`, `req_feat`, `callback`, `climsgid`, `concat` reaches the wire, whatever the options hold |
| Api.MessageParamsDistinctKeys | spec/api_spec.rb:115-167 | the wire parameters of `send_message` never repeat a key, whatever the options hold |
| Api.PlainMessageParams | spec/api_spec.rb:115-122 | one recipient, a text of at most 160 characters and no options give exactly `to` and `text` |
| Api.RecipientsRoundTrip | spec/api_spec.rb:124-127 | splitting `to` at commas gives back the recipient list when no number holds a comma |
| Api.Parts | spec/api_spec.rb:139-143 | the part count k of a non-empty text of n characters is the least with n ≤ 153·k |
| Api.TwoParts | spec/api_spec.rb:139-143 | texts of 161 to 306 characters go out in two parts |
| Api.LongTextConcat | spec/api_spec.rb:139-143 | a text over 160 characters with no explicit `concat` is sent with `concat` equal to its part count |
| Api.ShortTextNoConcat | spec/api_spec.rb:115-122 | a text of at most 160 characters gets no `concat` unless the caller gives one |
| Api.ExplicitConcat | spec/api_spec.rb:157-161 | an explicit `concat` is sent as given, whatever the text's length |
| Api.FromPassThrough | spec/api_spec.rb:133-137 | `from` is sent exactly as given |
| Api.CallbackPassThrough | spec/api_spec.rb:145-149 | `callback` is sent exactly as given |
| Api.ClientMessageIdPassThrough | spec/api_spec.rb:151-155 | `client_message_id` is sent as `climsgid` with the given value |
| Api.FromExample | spec/api_spec.rb:133-137 | `from => 'LUKE'` sends `from=LUKE` and `req_feat=48`, and `any_old_param` is not sent |
| Api.OptionsExample | spec/api_spec.rb:145-161 | `callback => 1`, `client_message_id => 12345678`, `concat => 3` send `callback=1`, `climsgid=12345678`, `concat=3` |
| Api.LongTextExample | spec/api_spec.rb:139-143 | a 180-character text is sent with `concat=2` |
| Api.SendToOneExample | spec/api_spec.rb:115-122 | one number and `hello world & goodbye` send exactly `to` and `text`; the reply `{ID, To}` gives `{number => message_id}` |
| Api.SendToTwoExample | spec/api_spec.rb:124-131 | two numbers are sent comma-joined; a two-line reply maps each number to its own id |
| Api.SendWithoutToExample | spec/api_spec.rb:133-137 | a single reply without `To` for one recipient maps that recipient to the reply's `ID` |
| Api.BulkIdsSucceed | spec/api_spec.rb:124-131 | a bulk reply yields a map exactly when every line has `To` and `ID` |
| Api.BulkIdsKeys | spec/api_spec.rb:124-131 | the map's keys are exactly the recipients named by the reply's lines |
| Api.BulkIdsValues | spec/api_spec.rb:124-131 | with distinct recipients, each line's recipient maps to that line's `ID` |
| Api.MessageIdsPerRecipient | spec/api_spec.rb:124-131 | when the gateway answers each requested number on its own line, the result has exactly the requested numbers as keys, each with its own line's id |
| Api.GatewayErrorPropagates | spec/api_spec.rb:181-185 | a parser error comes out of every operation's reading as that same gateway error |
| Api.ReplyFieldExamples | spec/api_spec.rb:100-108 | `authenticate` reads `OK`, `message_status` reads `Status` and `account_balance` reads `Credit` from their replies |
| Api.Api.ExecuteCommand | spec/api_spec.rb:89-98 | runs the command through a new executor built from the API's authentication options and configuration; the API's log grows by exactly that executor's records |
| Api.Api.Authenticate | spec/api_spec.rb:100-108 | sends `auth` with `api_id`, `user` and `password`, and returns the reply's `OK` field |
| Api.Api.Ping | spec/api_spec.rb:110-113 | sends `ping` with `session_id`, and returns the response unparsed |
| Api.Api.SendMessage | spec/api_spec.rb:115-167 | with recipients, sends `sendmsg` with the wire parameters and returns the `To → ID` map of the parsed reply; with none, sends nothing and fails |
| Api.Api.MessageStatus | spec/api_spec.rb:169-173 | sends `querymsg` with `apimsgid`, and returns the reply's `Status` field |
| Api.Api.AccountBalance | spec/api_spec.rb:175-179 | sends `getbalance` with no parameters, and returns the reply's `Credit` field |
| Api.Api.Login | spec/api_spec.rb:188-194 | authenticates with a new API that has no authentication options; on success the new API's only option is `session_id` set to the returned id |
| Api.TestModePing | spec/api_spec.rb:239-248 | in test mode one `ping` on a new API leaves exactly one record, which is the ping call itself |
| ApiError.ParseFormat | spec/api_spec.rb:216-222 | parsing `ERR: <code>, <message>` gives back the code and message of any well-formed error |
| ApiError.ParseAuthenticationError | spec/api_spec.rb:216-222 | `ERR: 001, Authentication error` parses to code `001` and message `Authentication error` |
| ApiError.IndexOf | spec/api_spec.rb:216-222 | the first position of a character, or none exactly when it does not occur |

Texts of 161 to 306 characters go out in two parts. From 307 characters
on, `ceil(length / 153)` gives three or more parts.

Key order: the query keeps keys in the order supplied. The tests use keys
that are already in alphabetical order, so they cannot tell the two
orders apart.

## Left out

- The real HTTP round trip (`Net::HTTP`, `use_ssl=`, `start`, `get`). The transport is a function parameter of `Execute`. The model does not cover transport failures or timeouts.
- `Response.parse`. The tests stub it everywhere, so its text format is not pinned down. The parsed reply (`Single` or `Bulk`) or a gateway error is taken as input from a parser function parameter. `ApiError.Parse` models only the `ERR:` line.
- `debug_mode` diagnostic output. It has no effect on results. The flag is carried in `Config` and otherwise ignored.
- The process-wide class attributes (`api_service_host`, `secure_mode`, `debug_mode`, `test_mode`). They are passed explicitly as a `Config` value instead of being modelled as global mutation.
- The test doubles and matchers (`stubs`, `expects`, `has_entries`, `Not(has_key(...))`). Their assertions are stated as postconditions and lemmas instead.
- The stand-in response test mode returns: it is the value `Fabricated`. Its contents are not modelled.
- Api.Api.AccountBalance: returns the `Credit` field as text rather than converting it to a floating-point number, because floating point is not modelled.
- Api.FieldOf: a reply that lacks the field being read gives `Failure(MissingField(key))` where Ruby would return `nil`.
- QueryString.Params: parameters are a list of key/value pairs, while Ruby passes Hashes, whose keys are unique. A list that repeats a key has no Hash counterpart and is outside the model. On such a list `QueryString.Lookup` reads the first entry and `CommandExecutor.Merge` keeps both entries, which a Hash never does. Distinct keys are preserved by `CommandExecutor.MergeDistinctKeys` and produced by `Api.MessageParamsDistinctKeys`.
- Api.MessageIds: a single reply without `To` when several numbers were requested gives `Failure(Uncorrelated)`; the tests do not pin this case.
- Api.MessageIds: a single reply that has `To` but no `ID` gives `Failure(MissingField("ID"))`, where a Hash-based correlation would store a `nil` id.
- Api.BulkIds: a bulk line without `To` or `ID` makes the whole reply `Failure(MissingField(..))`, where a Hash-based correlation would store a `nil` key or a `nil` id.
- Api.Api.SendMessage: an empty recipient list gives `Failure(NoRecipients)` and sends nothing; the tests do not pin this case.
- Utf8.Decode: rejects overlong forms, surrogates and truncated sequences. Only its agreement with `Encode` matters to the model.
