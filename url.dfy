/** URL assembly of the abstract resource client (`getUrl`): the base URL, the
    API prefix and the resource path, then an optional action segment, then
    either a path-style numeric identifier or a query string. */
module Url {

  datatype Option<T> = None | Some(value: T)

  function GetOr<T>(o: Option<T>, default: T): T
  {
    match o
    case None => default
    case Some(v) => v
  }

  /** Query parameters in the order `Object.keys` lists them. */
  type Query = seq<(string, string)>

  /** A JavaScript value as the client's loosely typed (`any`) parameters
      receive it. `Obj` is a plain object with string-valued properties. */
  datatype Arg = Undefined | Null | Num(n: int) | Str(s: string) | Obj(entries: Query)

  /** The three protected fields a concrete resource client sets. */
  datatype Config = Config(baseUrl: string, pathVersionApi: string, path: string)

  /** The field initialisers of the abstract class. */
  function DefaultConfig(): Config
  {
    Config("", "api/", "")
  }

  /** Everything before the action segment. */
  function Prefix(cfg: Config): string
  {
    cfg.baseUrl + cfg.pathVersionApi + cfg.path
  }

  // ---------------------------------------------------------------------
  // Decimal text of integers: what `toString` gives for an integer of
  // magnitude below 10^21 that a double holds exactly
  // ---------------------------------------------------------------------

  predicate IsDigit(ch: char)
  {
    '0' <= ch <= '9'
  }

  predicate AllDigits(s: string)
  {
    forall i :: 0 <= i < |s| ==> IsDigit(s[i])
  }

  function DigitChar(d: nat): (ch: char)
    requires d < 10
    ensures IsDigit(ch)
  {
    ('0' as int + d) as char
  }

  function DigitValue(ch: char): (d: nat)
    requires IsDigit(ch)
    ensures d < 10 && DigitChar(d) == ch
  {
    ch as int - '0' as int
  }

  /** Shortest decimal numeral of `n`: digits only, no leading zero. */
  function NatToString(n: nat): (s: string)
    ensures |s| > 0 && AllDigits(s)
    ensures (s[0] == '0') == (n == 0)
    decreases n
  {
    if n < 10 then [DigitChar(n)] else NatToString(n / 10) + [DigitChar(n % 10)]
  }

  /** Text accepted by `ParseInt`: an optional minus sign, then digits. */
  predicate IsIntText(s: string)
  {
    if |s| > 0 && s[0] == '-' then |s| > 1 && AllDigits(s[1..]) else |s| > 0 && AllDigits(s)
  }

  function IntToString(n: int): (s: string)
    ensures IsIntText(s)
    ensures forall i :: 0 <= i < |s| ==> s[i] == '-' || IsDigit(s[i])
    ensures (s[0] == '-') == (n < 0)
  {
    if n < 0 then "-" + NatToString(-n) else NatToString(n)
  }

  function ParseNat(s: string): nat
    requires AllDigits(s)
  {
    if |s| == 0 then 0 else ParseNat(s[..|s| - 1]) * 10 + DigitValue(s[|s| - 1])
  }

  function ParseInt(s: string): int
    requires IsIntText(s)
  {
    if s[0] == '-' then -(ParseNat(s[1..]) as int) else ParseNat(s)
  }

  lemma {:induction false} ParseNatRoundTrip(n: nat)
    ensures ParseNat(NatToString(n)) == n
  {
    if n >= 10 {
      var s := NatToString(n);
      assert s[..|s| - 1] == NatToString(n / 10);
      ParseNatRoundTrip(n / 10);
    }
  }

  /** Decimal text is a faithful encoding: reading it back gives the number. */
  lemma IntRoundTrip(n: int)
    ensures ParseInt(IntToString(n)) == n
  {
    var s := IntToString(n);
    if n < 0 {
      assert s[1..] == NatToString(-n);
      ParseNatRoundTrip(-n);
    } else {
      ParseNatRoundTrip(n);
    }
  }

  /** Decimal text never holds a `?`, so it cannot start a query. */
  lemma NoQueryInNumber(n: int)
    ensures '?' !in IntToString(n)
  {
    var s := IntToString(n);
    assert forall i :: 0 <= i < |s| ==> s[i] != '?';
  }

  lemma IntToStringInjective(m: int, n: int)
    requires IntToString(m) == IntToString(n)
    ensures m == n
  {
    IntRoundTrip(m);
    IntRoundTrip(n);
  }

  // ---------------------------------------------------------------------
  // Query strings: rendering (no escaping) and a reader as its partner
  // ---------------------------------------------------------------------

  function PairText(p: (string, string)): string
  {
    p.0 + "=" + p.1
  }

  /** `key=value` for every entry, joined by `&`. */
  function JoinPairs(q: Query): (r: string)
    ensures (r == "") == (|q| == 0)
    decreases |q|
  {
    if |q| == 0 then ""
    else if |q| == 1 then PairText(q[0])
    else PairText(q[0]) + "&" + JoinPairs(q[1..])
  }

  /** Position of the first occurrence of `c`. */
  function IndexOf(s: string, c: char): (i: nat)
    requires c in s
    ensures i < |s| && s[i] == c && c !in s[..i]
  {
    if s[0] == c then 0
    else
      var j := IndexOf(s[1..], c);
      assert s[..j + 1] == [s[0]] + s[1..][..j];
      j + 1
  }

  lemma {:induction false} IndexOfSplice(a: string, c: char, b: string)
    requires c !in a
    ensures c in a + [c] + b && IndexOf(a + [c] + b, c) == |a|
    ensures (a + [c] + b)[..|a|] == a && (a + [c] + b)[|a| + 1..] == b
    decreases |a|
  {
    var s := a + [c] + b;
    assert s[|a|] == c;
    assert s[..|a|] == a && s[|a| + 1..] == b;
    if a != [] {
      assert s[0] == a[0];
      assert s[1..] == a[1..] + [c] + b;
      IndexOfSplice(a[1..], c, b);
    }
  }

  /** Reads one `key=value` item, splitting at its first `=`. */
  function ParsePair(s: string): (string, string)
  {
    if '=' in s then
      var i := IndexOf(s, '=');
      (s[..i], s[i + 1..])
    else (s, "")
  }

  /** Reads a query string back into its entries, splitting at each `&`. */
  function ParseQuery(s: string): Query
    decreases |s|
  {
    if s == "" then []
    else if '&' in s then
      var i := IndexOf(s, '&');
      [ParsePair(s[..i])] + ParseQuery(s[i + 1..])
    else [ParsePair(s)]
  }

  /** Entries that survive rendering without escaping: keys free of `&` and
      `=`, values free of `&`. */
  predicate Unambiguous(q: Query)
  {
    forall k :: 0 <= k < |q| ==> '&' !in q[k].0 && '=' !in q[k].0 && '&' !in q[k].1
  }

  lemma PairRoundTrip(p: (string, string))
    requires '=' !in p.0
    ensures ParsePair(PairText(p)) == p
  {
    var s := PairText(p);
    assert s == p.0 + ['='] + p.1;
    IndexOfSplice(p.0, '=', p.1);
    assert s[..|p.0|] == p.0;
    assert s[|p.0| + 1..] == p.1;
  }

  /** The first `&` of `a & b` is the one after `a` when `a` holds none. */
  lemma ParseQuerySplice(a: string, b: string)
    requires '&' !in a
    ensures ParseQuery(a + "&" + b) == [ParsePair(a)] + ParseQuery(b)
  {
    var s := a + "&" + b;
    IndexOfSplice(a, '&', b);
    assert s[..|a|] == a;
    assert s[|a| + 1..] == b;
  }

  /** Rendering loses nothing when no key or value needs escaping. */
  lemma {:induction false} QueryRoundTrip(q: Query)
    requires Unambiguous(q)
    ensures ParseQuery(JoinPairs(q)) == q
    decreases |q|
  {
    if |q| == 0 {
    } else {
      var head := PairText(q[0]);
      assert '&' !in head by {
        assert head == q[0].0 + "=" + q[0].1;
      }
      PairRoundTrip(q[0]);
      if |q| == 1 {
        assert head != "" by { assert head[|q[0].0|] == '='; }
      } else {
        ParseQuerySplice(head, JoinPairs(q[1..]));
        assert Unambiguous(q[1..]) by {
          forall k | 0 <= k < |q[1..]|
            ensures '&' !in q[1..][k].0 && '=' !in q[1..][k].0 && '&' !in q[1..][k].1
          {
            assert q[1..][k] == q[k + 1];
          }
        }
        QueryRoundTrip(q[1..]);
      }
    }
  }

  /** Rendering does no escaping, so a value holding `&` reads back as two
      entries: two different queries give the same text. */
  lemma UnescapedQueryCollides()
    ensures JoinPairs([("a", "1&b=2")]) == JoinPairs([("a", "1"), ("b", "2")])
    ensures [("a", "1&b=2")] != [("a", "1"), ("b", "2")]
  {
  }

  /** `Object.keys` of a string: the indices, each mapped to its character. */
  function StringEntries(s: string): Query
  {
    seq(|s|, i requires 0 <= i < |s| => (NatToString(i), [s[i]]))
  }

  /** The values of the entries, concatenated in order. */
  function Values(q: Query): string
    decreases |q|
  {
    if |q| == 0 then "" else Values(q[..|q| - 1]) + q[|q| - 1].1
  }

  /** The entries of a string lose nothing: each key is a decimal numeral
      that reads back as its position, so no two keys are equal, and the
      values in order spell the string again. */
  lemma {:induction false} StringEntriesReadBack(s: string)
    ensures var q := StringEntries(s);
            && |q| == |s|
            && (forall i :: 0 <= i < |q| ==> AllDigits(q[i].0) && ParseNat(q[i].0) == i)
            && (forall i, j :: 0 <= i < j < |q| ==> q[i].0 != q[j].0)
            && Values(q) == s
    decreases |s|
  {
    var q := StringEntries(s);
    forall i | 0 <= i < |q| ensures AllDigits(q[i].0) && ParseNat(q[i].0) == i {
      ParseNatRoundTrip(i);
    }
    if |s| > 0 {
      var init := s[..|s| - 1];
      assert q[..|q| - 1] == StringEntries(init);
      StringEntriesReadBack(init);
      assert s == init + [s[|s| - 1]];
    }
  }

  // ---------------------------------------------------------------------
  // getUrl
  // ---------------------------------------------------------------------

  lemma Regroup(a: string, b: string, c: string)
    ensures a + (b + c) == a + b + c
  {
  }

  /** What string concatenation and template literals make of a value. */
  function Text(a: Arg): string
  {
    match a
    case Undefined => "undefined"
    case Null => "null"
    case Num(n) => IntToString(n)
    case Str(s) => s
    case Obj(_) => "[object Object]"
  }

  /** `s` behind a single slash, or nothing when `s` is empty. */
  function Slashed(s: string): string
  {
    if s == "" then "" else "/" + s
  }

  /** The action segment: `action` defaults to `''`, and only the empty
      string (`action !== ''`) adds no segment. */
  function ActionSegment(action: Arg): string
  {
    if action.Undefined? then "" else Slashed(Text(action))
  }

  /** The parameter segment: `idOrQuery` defaults to `null`; a number is a
      path-style identifier; any other non-null value is read as a query. */
  function ParamSegment(idOrQuery: Arg): string
  {
    match idOrQuery
    case Undefined => ""
    case Null => ""
    case Num(n) => "/" + IntToString(n)
    case Str(s) => "?" + JoinPairs(StringEntries(s))
    case Obj(q) => "?" + JoinPairs(q)
  }

  /** Only the empty string prints as nothing; a string prints as itself and
      a number as text that reads back as the number. */
  lemma TextRules(a: Arg)
    ensures a.Str? ==> Text(a) == a.s
    ensures a.Num? ==> IsIntText(Text(a)) && ParseInt(Text(a)) == a.n
    ensures Text(a) == "" ==> a == Str("")
  {
    if a.Num? {
      IntRoundTrip(a.n);
    }
  }

  /** The action segment is empty exactly for an absent or empty action and
      is otherwise `/` and the action's text; the parameter segment is empty
      exactly for `null` and an absent value, starts with `/` exactly for a
      number, whose text reads back as that number, and with `?` otherwise. */
  lemma SegmentRules(action: Arg, idOrQuery: Arg)
    ensures var r := ActionSegment(action);
            && (r == "") == (action.Undefined? || action == Str(""))
            && (r != "" ==> r[0] == '/' && r[1..] == Text(action))
    ensures var r := ParamSegment(idOrQuery);
            && (r == "") == (idOrQuery.Undefined? || idOrQuery.Null?)
            && (r != "" ==> (r[0] == '/') == idOrQuery.Num? && (r[0] == '?') == !idOrQuery.Num?)
            && (idOrQuery.Num? ==> IsIntText(r[1..]) && ParseInt(r[1..]) == idOrQuery.n)
  {
    TextRules(action);
    if idOrQuery.Num? {
      var r := ParamSegment(idOrQuery);
      assert r[1..] == IntToString(idOrQuery.n);
      IntRoundTrip(idOrQuery.n);
    }
  }

  function GetUrl(cfg: Config, action: Arg, idOrQuery: Arg): (r: string)
  {
    Prefix(cfg) + (ActionSegment(action) + ParamSegment(idOrQuery))
  }

  /** Every URL starts with the configured prefix, and is the bare prefix
      exactly when neither an action nor an identifier or query is given. */
  lemma GetUrlShape(cfg: Config, action: Arg, idOrQuery: Arg)
    ensures Prefix(cfg) <= GetUrl(cfg, action, idOrQuery)
    ensures (GetUrl(cfg, action, idOrQuery) == Prefix(cfg))
        == ((action.Undefined? || action == Str("")) && (idOrQuery.Undefined? || idOrQuery.Null?))
  {
    var rest := ActionSegment(action) + ParamSegment(idOrQuery);
    assert GetUrl(cfg, action, idOrQuery)[..|Prefix(cfg)|] == Prefix(cfg);
    assert (GetUrl(cfg, action, idOrQuery) == Prefix(cfg)) == (rest == "") by {
      assert |GetUrl(cfg, action, idOrQuery)| == |Prefix(cfg)| + |rest|;
    }
  }

  /** With the field initialisers the prefix is `api/`, so an action lands
      behind a doubled slash. */
  lemma DefaultConfigUrl()
    ensures Prefix(DefaultConfig()) == "api/"
    ensures GetUrl(DefaultConfig(), Str("users"), Num(7)) == "api//users/7"
  {
    assert IntToString(7) == "7";
    assert ActionSegment(Str("users")) + ParamSegment(Num(7)) == "/users/7";
  }

  /** An absent action and the empty action add nothing; any other action
      string is inserted verbatim behind exactly one slash, with no slash
      normalisation. */
  lemma ActionSegmentRule(cfg: Config, a: string, idOrQuery: Arg)
    ensures GetUrl(cfg, Undefined, idOrQuery) == GetUrl(cfg, Str(""), idOrQuery)
    ensures GetUrl(cfg, Str(a), idOrQuery)
         == Prefix(cfg) + (Slashed(a) + GetUrl(cfg, Str(""), idOrQuery)[|Prefix(cfg)|..])
  {
    var rest := ParamSegment(idOrQuery);
    assert GetUrl(cfg, Str(""), idOrQuery) == Prefix(cfg) + rest by {
      assert ActionSegment(Str("")) + rest == rest;
    }
    assert (Prefix(cfg) + rest)[|Prefix(cfg)|..] == rest;
  }

  /** A numeric identifier is appended as `/<n>`, and the text after the
      action segment holds no `?`. */
  lemma NumericIdUrl(cfg: Config, a: string, n: int)
    ensures GetUrl(cfg, Str(a), Num(n)) == Prefix(cfg) + (Slashed(a) + "/" + IntToString(n))
    ensures '?' !in Prefix(cfg) && '?' !in a ==> '?' !in GetUrl(cfg, Str(a), Num(n))
  {
    var rest := Slashed(a) + "/" + IntToString(n);
    assert ActionSegment(Str(a)) + ParamSegment(Num(n)) == rest;
    if '?' !in Prefix(cfg) && '?' !in a {
      NoQueryInNumber(n);
      assert '?' !in rest;
      assert '?' !in Prefix(cfg) + rest;
    }
  }

  /** Different identifiers give different URLs. */
  lemma NumericIdInjective(cfg: Config, action: Arg, m: int, n: int)
    requires GetUrl(cfg, action, Num(m)) == GetUrl(cfg, action, Num(n))
    ensures m == n
  {
    var p := |Prefix(cfg) + ActionSegment(action) + "/"|;
    assert GetUrl(cfg, action, Num(m))[p..] == IntToString(m);
    assert GetUrl(cfg, action, Num(n))[p..] == IntToString(n);
    IntToStringInjective(m, n);
  }

  /** `null` and an absent value add nothing after the action segment. */
  lemma AbsentIdUrl(cfg: Config, a: string)
    ensures GetUrl(cfg, Str(a), Null) == Prefix(cfg) + Slashed(a)
    ensures GetUrl(cfg, Str(a), Undefined) == Prefix(cfg) + Slashed(a)
  {
  }

  /** A query object renders as `?` and its entries; an empty object still
      leaves a bare trailing `?`. */
  lemma QueryUrl(cfg: Config, a: string, q: Query)
    ensures GetUrl(cfg, Str(a), Obj(q)) == Prefix(cfg) + (Slashed(a) + "?" + JoinPairs(q))
    ensures GetUrl(cfg, Str(a), Obj([])) == Prefix(cfg) + (Slashed(a) + "?")
  {
    assert ActionSegment(Str(a)) + ParamSegment(Obj(q)) == Slashed(a) + "?" + JoinPairs(q);
    assert ActionSegment(Str(a)) + ParamSegment(Obj([])) == Slashed(a) + "?";
  }

  /** Splitting a query URL at its first `?` gives back the prefix with the
      action segment, and the query entries in order. */
  lemma QueryUrlRoundTrip(cfg: Config, a: string, q: Query)
    requires '?' !in Prefix(cfg) && '?' !in a
    requires Unambiguous(q)
    ensures var url := GetUrl(cfg, Str(a), Obj(q));
            '?' in url
            && url[..IndexOf(url, '?')] == Prefix(cfg) + Slashed(a)
            && ParseQuery(url[IndexOf(url, '?') + 1..]) == q
  {
    var head := Prefix(cfg) + Slashed(a);
    var url := GetUrl(cfg, Str(a), Obj(q));
    assert url == head + "?" + JoinPairs(q) by {
      Regroup(Prefix(cfg), Slashed(a), "?" + JoinPairs(q));
      Regroup(head, "?", JoinPairs(q));
    }
    assert '?' !in head by {
      assert forall i :: 0 <= i < |head| ==> head[i] == if i < |Prefix(cfg)| then Prefix(cfg)[i] else Slashed(a)[i - |Prefix(cfg)|];
    }
    IndexOfSplice(head, '?', JoinPairs(q));
    QueryRoundTrip(q);
  }

  /** A string where a query is expected expands character by character. */
  lemma StringQueryUrl(cfg: Config)
    ensures GetUrl(cfg, Str(""), Str("ab")) == Prefix(cfg) + "?0=a&1=b"
  {
    var q := StringEntries("ab");
    assert q == [("0", "a"), ("1", "b")];
  }
}
