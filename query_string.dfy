/**
 * Command parameters and the query string built from them:
 * `k1=v1&k2=v2`, keys in the order supplied, every key and value escaped
 * with FormEncoding.Escape.
 */
module QueryString {
  import opened Wrappers
  import FormEncoding

  /** A parameter value: the client passes strings and integers. */
  datatype Value = Str(text: string) | Num(n: int)

  /** An insertion-ordered hash of parameters, as a Ruby Hash keeps it. */
  type Params = seq<(string, Value)>

  predicate IsDigit(c: char) {
    '0' <= c <= '9'
  }

  /** Decimal digits of `n`, most significant first, with no leading zero. */
  function Digits(n: nat): (r: string)
    ensures |r| >= 1
    ensures forall i | 0 <= i < |r| :: IsDigit(r[i])
    decreases n
  {
    if n < 10 then ['0' + n as char]
    else
      var high := Digits(n / 10);
      var r := high + ['0' + (n % 10) as char];
      assert forall i | 0 <= i < |high| :: r[i] == high[i];
      r
  }

  /** What a value becomes on the wire before escaping (Ruby's `to_s`). */
  function Render(v: Value): string {
    match v
    case Str(t) => t
    case Num(n) => if n < 0 then "-" + Digits(-n) else Digits(n)
  }

  /** Reads a string of decimal digits. */
  function DigitsValue(s: string): (r: Option<nat>)
    ensures s == [] ==> r == None
  {
    if s == [] || !IsDigit(s[|s| - 1]) then None
    else if |s| == 1 then Some(s[0] as int - '0' as int)
    else
      match DigitsValue(s[..|s| - 1])
      case None => None
      case Some(high) => Some(high * 10 + (s[|s| - 1] as int - '0' as int))
  }

  /** Reads back an integer that Render wrote. */
  function IntegerValue(s: string): Option<int> {
    if |s| >= 1 && s[0] == '-' then
      match DigitsValue(s[1..])
      case None => None
      case Some(m) => Some(0 - m as int)
    else
      match DigitsValue(s)
      case None => None
      case Some(m) => Some(m)
  }

  lemma {:induction false} DigitsValueDigits(n: nat)
    ensures DigitsValue(Digits(n)) == Some(n)
    decreases n
  {
    if n >= 10 {
      var d := Digits(n);
      assert d[..|d| - 1] == Digits(n / 10);
      DigitsValueDigits(n / 10);
    }
  }

  /** Round trip: an integer written by Render reads back as the same integer. */
  lemma IntegerValueRender(n: int)
    ensures IntegerValue(Render(Num(n))) == Some(n)
  {
    if n < 0 {
      DigitsValueDigits(-n);
      assert Render(Num(n))[1..] == Digits(-n);
    } else {
      DigitsValueDigits(n);
    }
  }

  function Keys(ps: Params): (ks: seq<string>)
    ensures |ks| == |ps|
    ensures forall i | 0 <= i < |ps| :: ks[i] == ps[i].0
  {
    if ps == [] then [] else [ps[0].0] + Keys(ps[1..])
  }

  /** No key occurs twice, as in a Ruby Hash. */
  predicate DistinctKeys(ps: Params) {
    forall i, j | 0 <= i < j < |ps| :: ps[i].0 != ps[j].0
  }

  /** The value of the first entry under key `k`, if any. */
  function Lookup(ps: Params, k: string): (r: Option<Value>)
    ensures r.None? <==> k !in Keys(ps)
    ensures r.Some? ==> exists i | 0 <= i < |ps| :: ps[i] == (k, r.value)
  {
    if ps == [] then None
    else if ps[0].0 == k then Some(ps[0].1)
    else
      var r := Lookup(ps[1..], k);
      assert r.Some? ==> exists i | 0 <= i < |ps[1..]| :: ps[1..][i] == (k, r.value);
      assert Keys(ps) == [ps[0].0] + Keys(ps[1..]);
      r
  }

  lemma {:induction false} LookupAppend(a: Params, b: Params, k: string)
    ensures Lookup(a + b, k)
            == if k in Keys(a) then Lookup(a, k) else Lookup(b, k)
  {
    if a != [] {
      assert (a + b)[1..] == a[1..] + b;
      LookupAppend(a[1..], b, k);
      assert Keys(a) == [a[0].0] + Keys(a[1..]);
    } else {
      assert a + b == b;
    }
  }

  /** With distinct keys every entry is found under its own key, as in a Hash. */
  lemma {:induction false} LookupDistinct(ps: Params, i: nat)
    requires DistinctKeys(ps) && i < |ps|
    ensures Lookup(ps, ps[i].0) == Some(ps[i].1)
  {
    if i > 0 {
      assert ps[0].0 != ps[i].0;
      assert ps[1..][i - 1] == ps[i];
      LookupDistinct(ps[1..], i - 1);
    }
  }

  /** Two lists with distinct keys and no key in common concatenate to one with distinct keys. */
  lemma DistinctAppend(a: Params, b: Params)
    requires DistinctKeys(a) && DistinctKeys(b)
    requires forall i | 0 <= i < |a| :: a[i].0 !in Keys(b)
    ensures DistinctKeys(a + b)
  {
    forall i, j | 0 <= i < j < |a + b| ensures (a + b)[i].0 != (a + b)[j].0 {
      if j >= |a| && i < |a| {
        assert (a + b)[j].0 == Keys(b)[j - |a|];
      }
    }
  }

  /** Every key of `ps` is one of `ks`. */
  predicate KeysAmong(ps: Params, ks: set<string>) {
    forall i | 0 <= i < |ps| :: ps[i].0 in ks
  }

  /** Distinct keys drawn from disjoint sets stay distinct when the lists are concatenated. */
  lemma DistinctAppendAmong(a: Params, b: Params, ka: set<string>, kb: set<string>)
    requires DistinctKeys(a) && DistinctKeys(b) && KeysAmong(a, ka) && KeysAmong(b, kb) && ka !! kb
    ensures DistinctKeys(a + b) && KeysAmong(a + b, ka + kb)
  {
    DistinctAppend(a, b);
  }

  /** The key/value pairs exactly as a reader of the query sees them. */
  function Rendered(ps: Params): (r: seq<(string, string)>)
    ensures |r| == |ps|
    ensures forall i | 0 <= i < |ps| :: r[i] == (ps[i].0, Render(ps[i].1))
  {
    if ps == [] then [] else [(ps[0].0, Render(ps[0].1))] + Rendered(ps[1..])
  }

  function Join(parts: seq<string>, sep: char): string {
    if parts == [] then ""
    else if |parts| == 1 then parts[0]
    else parts[0] + [sep] + Join(parts[1..], sep)
  }

  /** The pieces of `s` between occurrences of `sep`; never empty. */
  function Split(s: string, sep: char): (r: seq<string>)
    ensures |r| >= 1
    decreases |s|
  {
    if s == [] then [""]
    else
      var rest := Split(s[1..], sep);
      if s[0] == sep then [""] + rest else [[s[0]] + rest[0]] + rest[1..]
  }

  lemma {:induction false} SplitNoSeparator(p: string, sep: char)
    requires sep !in p
    ensures Split(p, sep) == [p]
  {
    if p != [] {
      SplitNoSeparator(p[1..], sep);
      assert [p[0]] + p[1..] == p;
    }
  }

  lemma {:induction false} SplitAfterPiece(p: string, sep: char, q: string)
    requires sep !in p
    ensures Split(p + [sep] + q, sep) == [p] + Split(q, sep)
  {
    if p == [] {
      assert p + [sep] + q == [sep] + q;
      assert ([sep] + q)[1..] == q;
    } else {
      var s := p + [sep] + q;
      assert s[1..] == p[1..] + [sep] + q;
      SplitAfterPiece(p[1..], sep, q);
      assert [p[0]] + p[1..] == p;
    }
  }

  /** Splitting undoes joining when no piece holds the separator. */
  lemma {:induction false} SplitJoin(parts: seq<string>, sep: char)
    requires parts != []
    requires forall i | 0 <= i < |parts| :: sep !in parts[i]
    ensures Split(Join(parts, sep), sep) == parts
  {
    if |parts| == 1 {
      SplitNoSeparator(parts[0], sep);
    } else {
      SplitAfterPiece(parts[0], sep, Join(parts[1..], sep));
      SplitJoin(parts[1..], sep);
      assert [parts[0]] + parts[1..] == parts;
    }
  }

  /** One `key=value` field of the query. */
  function Field(k: string, v: Value): string {
    FormEncoding.Escape(k) + "=" + FormEncoding.Escape(Render(v))
  }

  function Fields(ps: Params): (fs: seq<string>)
    ensures |fs| == |ps|
    ensures forall i | 0 <= i < |ps| :: fs[i] == Field(ps[i].0, ps[i].1)
  {
    if ps == [] then [] else [Field(ps[0].0, ps[0].1)] + Fields(ps[1..])
  }

  /** The query string of a command URL. */
  function Build(ps: Params): string {
    Join(Fields(ps), '&')
  }

  function ParseField(f: string): Option<(string, string)> {
    var kv := Split(f, '=');
    if |kv| != 2 then None
    else
      match (FormEncoding.Unescape(kv[0]), FormEncoding.Unescape(kv[1]))
      case (Some(k), Some(v)) => Some((k, v))
      case _ => None
  }

  function ParseFields(fs: seq<string>): Option<seq<(string, string)>> {
    if fs == [] then Some([])
    else
      match (ParseField(fs[0]), ParseFields(fs[1..]))
      case (Some(kv), Some(rest)) => Some([kv] + rest)
      case _ => None
  }

  /** Decodes a query string into its key/value pairs, in order. */
  function Parse(q: string): Option<seq<(string, string)>> {
    if q == [] then Some([]) else ParseFields(Split(q, '&'))
  }

  lemma ParseFieldField(k: string, v: Value)
    ensures '&' !in Field(k, v)
    ensures ParseField(Field(k, v)) == Some((k, Render(v)))
  {
    var ek, ev := FormEncoding.Escape(k), FormEncoding.Escape(Render(v));
    FormEncoding.EscapeHasNoSeparators(k);
    FormEncoding.EscapeHasNoSeparators(Render(v));
    assert Field(k, v) == ek + ['='] + ev;
    SplitAfterPiece(ek, '=', ev);
    SplitNoSeparator(ev, '=');
    FormEncoding.UnescapeEscape(k);
    FormEncoding.UnescapeEscape(Render(v));
  }

  lemma {:induction false} ParseFieldsFields(ps: Params)
    ensures ParseFields(Fields(ps)) == Some(Rendered(ps))
  {
    if ps != [] {
      ParseFieldField(ps[0].0, ps[0].1);
      ParseFieldsFields(ps[1..]);
      assert Fields(ps)[1..] == Fields(ps[1..]);
    }
  }

  /**
   * Round trip: decoding the query gives back every pair, in the order
   * supplied, with each value as Render wrote it.
   */
  lemma ParseBuild(ps: Params)
    ensures Parse(Build(ps)) == Some(Rendered(ps))
  {
    var fs := Fields(ps);
    if ps == [] {
    } else {
      forall i | 0 <= i < |fs| ensures '&' !in fs[i] {
        ParseFieldField(ps[i].0, ps[i].1);
      }
      SplitJoin(fs, '&');
      ParseFieldField(ps[0].0, ps[0].1);
      assert Build(ps) != [];
      ParseFieldsFields(ps);
    }
  }
}
