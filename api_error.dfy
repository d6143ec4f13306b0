/**
 * API::Error: a failure the gateway reports in a body of the form
 * `ERR: <code>, <message>`.
 */
module ApiError {
  import opened Wrappers

  datatype Error = Error(code: string, message: string)

  /** The characters Ruby's `String#strip` removes. */
  predicate IsSpace(c: char) {
    c == ' ' || c == '\t' || c == '\n' || c == '\r' || c == '\U{B}' || c == '\U{C}' || c == '\0'
  }

  function StripLeft(s: string): (r: string)
    ensures r == [] || !IsSpace(r[0])
    decreases |s|
  {
    if s != [] && IsSpace(s[0]) then StripLeft(s[1..]) else s
  }

  function StripRight(s: string): (r: string)
    ensures r == [] || !IsSpace(r[|r| - 1])
    decreases |s|
  {
    if s != [] && IsSpace(s[|s| - 1]) then StripRight(s[..|s| - 1]) else s
  }

  /** `s` without leading or trailing white space. */
  function Strip(s: string): string {
    StripRight(StripLeft(s))
  }

  /** Neither end of `s` is white space. */
  predicate IsTrimmed(s: string) {
    s == [] || (!IsSpace(s[0]) && !IsSpace(s[|s| - 1]))
  }

  /** The index of the first `c` in `s`, if any. */
  function IndexOf(s: string, c: char): (r: Option<nat>)
    ensures r.None? <==> c !in s
    ensures r.Some? ==> r.value < |s| && s[r.value] == c && c !in s[..r.value]
  {
    if s == [] then None
    else if s[0] == c then Some(0)
    else
      match IndexOf(s[1..], c)
      case None => None
      case Some(i) =>
        assert s[..i + 1] == [s[0]] + s[1..][..i];
        Some(i + 1)
  }

  /**
   * Reads `ERR: <code>, <message>`: the text after the first `:` is split
   * at its first `,`; the code is what comes before, the message what comes
   * after, each without surrounding white space. Without a `,` the whole
   * text is the code and the message is empty.
   */
  function Parse(s: string): Error {
    var details := match IndexOf(s, ':') case Some(i) => s[i + 1..] case None => s;
    match IndexOf(details, ',')
    case Some(j) => Error(Strip(details[..j]), Strip(details[j + 1..]))
    case None => Error(Strip(details), "")
  }

  /** The body the gateway sends for an error. */
  function Format(e: Error): string {
    "ERR: " + e.code + ", " + e.message
  }

  /** The errors the gateway can send: a code without `,` or `:`, both parts trimmed. */
  predicate WellFormed(e: Error) {
    ',' !in e.code && ':' !in e.code && IsTrimmed(e.code) && IsTrimmed(e.message)
  }

  lemma StripOneSpace(x: string)
    requires IsTrimmed(x)
    ensures Strip(" " + x) == x
  {
    assert (" " + x)[1..] == x;
    assert StripLeft(" " + x) == StripLeft(x) == x;
  }

  lemma {:induction false} IndexOfAfter(a: string, c: char, b: string)
    requires c !in a
    ensures IndexOf(a + [c] + b, c) == Some(|a|)
  {
    if a != [] {
      assert (a + [c] + b)[1..] == a[1..] + [c] + b;
      IndexOfAfter(a[1..], c, b);
    }
  }

  /** Round trip: parsing an error body gives back its code and message. */
  lemma ParseFormat(e: Error)
    requires WellFormed(e)
    ensures Parse(Format(e)) == e
  {
    var head, tail := " " + e.code, " " + e.message;
    var details := head + [','] + tail;
    assert Format(e) == "ERR" + [':'] + details;
    IndexOfAfter("ERR", ':', details);
    assert ("ERR" + [':'] + details)[4..] == details;
    assert ',' !in head;
    IndexOfAfter(head, ',', tail);
    assert details[..|head|] == head && details[|head| + 1..] == tail;
    StripOneSpace(e.code);
    StripOneSpace(e.message);
  }

  lemma ExampleText()
    ensures "ERR: 001, Authentication error" == Format(Error("001", "Authentication error"))
  {
  }

  /** `ERR: 001, Authentication error` has code `001` and message `Authentication error`. */
  lemma ParseAuthenticationError()
    ensures Parse("ERR: 001, Authentication error") == Error("001", "Authentication error")
  {
    ExampleText();
    ParseFormat(Error("001", "Authentication error"));
  }
}
