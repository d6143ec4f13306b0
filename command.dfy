/**
 * API::Command: a command name, the service path segment and the secure
 * flag; `with_params` turns them and a parameter hash into the request URL
 * `scheme://host/<service>/<name>?<query>`.
 */
module Command {
  import opened Wrappers
  import FormEncoding
  import QueryString

  /** The gateway host used when no custom host is configured. */
  const DefaultHost: string := "api.clickatell.com"

  datatype Command = Command(name: string, service: string := "http", secure: bool := false)

  datatype Url = Url(scheme: string, host: string, port: nat, path: string, query: string)

  /**
   * The configured custom host (`api_service_host`) when it is set and
   * non-empty; the default host when it is nil or empty.
   */
  function ServiceHost(custom: Option<string>): (h: string)
    ensures h != ""
    ensures custom.Some? && custom.value != "" ==> h == custom.value
    ensures custom == None || custom == Some("") ==> h == DefaultHost
  {
    if custom.Some? && custom.value != "" then custom.value else DefaultHost
  }

  function DefaultPort(scheme: string): nat {
    if scheme == "https" then 443 else 80
  }

  /**
   * The URL of `cmd` with parameters `ps`. Its query decodes back to the
   * pairs of `ps` in the order supplied.
   */
  function WithParams(cmd: Command, customHost: Option<string>, ps: QueryString.Params): (u: Url)
    ensures u.scheme == "https" <==> cmd.secure
    ensures u.scheme == "http" <==> !cmd.secure
    ensures u.host == ServiceHost(customHost)
    ensures u.port == DefaultPort(u.scheme)
    ensures u.path == "/" + cmd.service + "/" + cmd.name
    ensures QueryString.Parse(u.query) == Some(QueryString.Rendered(ps))
  {
    QueryString.ParseBuild(ps);
    var scheme := if cmd.secure then "https" else "http";
    Url(scheme, ServiceHost(customHost), DefaultPort(scheme),
        "/" + cmd.service + "/" + cmd.name, QueryString.Build(ps))
  }

  /** The path and query an HTTP GET asks for. */
  function RequestTarget(u: Url): string {
    u.path + "?" + u.query
  }

  lemma BuildTwo(k1: string, v1: string, k2: string, v2: string)
    ensures QueryString.Build([(k1, QueryString.Str(v1)), (k2, QueryString.Str(v2))])
            == QueryString.Field(k1, QueryString.Str(v1)) + "&" + QueryString.Field(k2, QueryString.Str(v2))
  {
    var ps := [(k1, QueryString.Str(v1)), (k2, QueryString.Str(v2))];
    var f1, f2 := QueryString.Field(k1, QueryString.Str(v1)), QueryString.Field(k2, QueryString.Str(v2));
    assert QueryString.Fields(ps) == [f1, f2];
    assert [f1, f2][1..] == [f2];
    assert QueryString.Join([f1, f2], '&') == f1 + ['&'] + QueryString.Join([f2], '&');
  }

  lemma UnreservedWord(w: string)
    requires FormEncoding.IsUnreservedText(w)
    ensures FormEncoding.Escape(w) == w
  {
    FormEncoding.EscapeUnreserved(w);
  }

  lemma ExampleWordsUnreserved()
    ensures FormEncoding.IsUnreservedText("param_one") && FormEncoding.IsUnreservedText("param_two")
    ensures FormEncoding.IsUnreservedText("abc") && FormEncoding.IsUnreservedText("123")
    ensures FormEncoding.IsUnreservedText("hello") && FormEncoding.IsUnreservedText("world")
    ensures FormEncoding.IsUnreservedText("goodbye") && FormEncoding.IsUnreservedText("cruel")
    ensures FormEncoding.IsUnreservedText("grin")
  {
  }

  /** The parameters of the URL examples below. */
  const ExampleParams: QueryString.Params :=
    [("param_one", QueryString.Str("abc")), ("param_two", QueryString.Str("123"))]

  lemma ExampleQuery()
    ensures QueryString.Build(ExampleParams) == "param_one=abc&param_two=123"
  {
    assert "param_one=abc&param_two=123" == "param_one" + "=" + "abc" + "&" + ("param_two" + "=" + "123");
    ExampleWordsUnreserved();
    BuildTwo("param_one", "abc", "param_two", "123");
    UnreservedWord("param_one");
    UnreservedWord("param_two");
    UnreservedWord("abc");
    UnreservedWord("123");
  }

  /** A plain command with no custom host. */
  lemma WithParamsDefaultHost()
    ensures WithParams(Command("cmdname"), None, ExampleParams)
            == Url("http", "api.clickatell.com", 80, "/http/cmdname", "param_one=abc&param_two=123")
  {
    assert "/" + "http" + "/" + "cmdname" == "/http/cmdname";
    ExampleQuery();
  }

  /** A custom host replaces the default one. */
  lemma WithParamsCustomHost()
    ensures WithParams(Command("cmdname"), Some("api.clickatell-custom.co.uk"), ExampleParams)
            == Url("http", "api.clickatell-custom.co.uk", 80, "/http/cmdname", "param_one=abc&param_two=123")
  {
    assert "/" + "http" + "/" + "cmdname" == "/http/cmdname";
    assert ServiceHost(Some("api.clickatell-custom.co.uk")) == "api.clickatell-custom.co.uk";
    ExampleQuery();
  }

  /** An empty custom host falls back to the default one. */
  lemma WithParamsEmptyHost()
    ensures WithParams(Command("cmdname"), Some(""), ExampleParams)
            == Url("http", "api.clickatell.com", 80, "/http/cmdname", "param_one=abc&param_two=123")
  {
    assert "/" + "http" + "/" + "cmdname" == "/http/cmdname";
    ExampleQuery();
  }

  /** A secure command is an https URL with the same host, path and query. */
  lemma WithParamsSecure()
    ensures WithParams(Command("cmdname", "http", secure := true), None, ExampleParams)
            == Url("https", "api.clickatell.com", 443, "/http/cmdname", "param_one=abc&param_two=123")
  {
    assert "/" + "http" + "/" + "cmdname" == "/http/cmdname";
    ExampleQuery();
  }

  lemma EscapeSpecialPieces()
    ensures FormEncoding.Escape(" ") == "+"
    ensures FormEncoding.Escape("&") == "%26"
    ensures FormEncoding.Escape("<") == "%3C"
    ensures FormEncoding.Escape(">") == "%3E"
  {
    FormEncoding.EscapeSpace();
    FormEncoding.EscapeReservedAscii('&');
    FormEncoding.EscapeReservedAscii('<');
    FormEncoding.EscapeReservedAscii('>');
  }

  /** `hello world & goodbye cruel world <grin>`, written piece by piece. */
  const SpecialText: string :=
    "hello" + " " + "world" + " " + "&" + " " + "goodbye" + " " + "cruel" + " " + "world" + " " + "<" + "grin" + ">"

  /** `hello+world+%26+goodbye+cruel+world+%3Cgrin%3E`, written piece by piece. */
  const EscapedSpecialText: string :=
    "hello" + "+" + "world" + "+" + "%26" + "+" + "goodbye" + "+" + "cruel" + "+" + "world" + "+" + "%3C" + "grin" + "%3E"

  /** Spaces become `+`, and `&`, `<` and `>` become `%26`, `%3C` and `%3E`. */
  lemma EscapeSpecialText()
    ensures FormEncoding.Escape(SpecialText) == EscapedSpecialText
  {
    ExampleWordsUnreserved();
    UnreservedWord("hello");
    UnreservedWord("world");
    UnreservedWord("goodbye");
    UnreservedWord("cruel");
    UnreservedWord("grin");
    EscapeSpecialPieces();
    var s1 := "hello" + " ";
    FormEncoding.EscapeAppend("hello", " ");
    var s2 := s1 + "world";    FormEncoding.EscapeAppend(s1, "world");
    var s3 := s2 + " ";        FormEncoding.EscapeAppend(s2, " ");
    var s4 := s3 + "&";        FormEncoding.EscapeAppend(s3, "&");
    var s5 := s4 + " ";        FormEncoding.EscapeAppend(s4, " ");
    var s6 := s5 + "goodbye";  FormEncoding.EscapeAppend(s5, "goodbye");
    var s7 := s6 + " ";        FormEncoding.EscapeAppend(s6, " ");
    var s8 := s7 + "cruel";    FormEncoding.EscapeAppend(s7, "cruel");
    var s9 := s8 + " ";        FormEncoding.EscapeAppend(s8, " ");
    var s10 := s9 + "world";   FormEncoding.EscapeAppend(s9, "world");
    var s11 := s10 + " ";      FormEncoding.EscapeAppend(s10, " ");
    var s12 := s11 + "<";      FormEncoding.EscapeAppend(s11, "<");
    var s13 := s12 + "grin";   FormEncoding.EscapeAppend(s12, "grin");
    FormEncoding.EscapeAppend(s13, ">");
  }

  lemma ExampleFirstField()
    ensures QueryString.Field("param_one", QueryString.Str("abc")) == "param_one=abc"
  {
    assert "param_one" + "=" + "abc" == "param_one=abc";
    ExampleWordsUnreserved();
    UnreservedWord("param_one");
    UnreservedWord("abc");
  }

  lemma SpecialQuery()
    ensures QueryString.Build([("param_one", QueryString.Str("abc")), ("param_two", QueryString.Str(SpecialText))])
            == "param_one=abc" + "&" + ("param_two" + "=" + EscapedSpecialText)
  {
    BuildTwo("param_one", "abc", "param_two", SpecialText);
    ExampleFirstField();
    ExampleWordsUnreserved();
    UnreservedWord("param_two");
    EscapeSpecialText();
  }

  /** The special characters in a URL: only the escaped value differs from the plain example. */
  lemma WithParamsSpecialCharacters()
    ensures WithParams(Command("cmdname"), None,
              [("param_one", QueryString.Str("abc")), ("param_two", QueryString.Str(SpecialText))])
            == Url("http", "api.clickatell.com", 80, "/http/cmdname",
                   "param_one=abc" + "&" + ("param_two" + "=" + EscapedSpecialText))
  {
    assert "/" + "http" + "/" + "cmdname" == "/http/cmdname";
    SpecialQuery();
  }
}
