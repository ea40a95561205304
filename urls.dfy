/**
 * The parts of Go's `net/url` that shape a data request: `url.Values` and
 * its `Encode` (keys sorted, `QueryEscape`d, `k=v` pairs joined by '&'),
 * and the conditions under which `url.Parse` (called by `http.NewRequest`)
 * refuses a URL built from a fixed origin, an endpoint and an encoded query.
 */
module Urls {
  import opened Text

  type Byte = x: int | 0 <= x < 256

  /** `url.Values`: each key maps to its list of values. */
  type Values = map<string, seq<string>>

  // ---------------------------------------------------------------------------
  // UTF-8 and percent-encoding
  // ---------------------------------------------------------------------------

  predicate IsContinuation(b: Byte)
  {
    0x80 <= b < 0xC0
  }

  /** The UTF-8 encoding of one Unicode scalar value. */
  function Utf8(c: char): (r: seq<Byte>)
    ensures 1 <= |r| <= 4
    ensures |r| == 1 <==> c as int < 0x80
    ensures |r| == 1 ==> r[0] == c as int
    ensures |r| > 1 ==> 0xC0 <= r[0] && forall i | 1 <= i < |r| :: IsContinuation(r[i])
  {
    var n := c as int;
    if n < 0x80 then [n]
    else if n < 0x800 then [0xC0 + n / 0x40, 0x80 + n % 0x40]
    else if n < 0x1_0000 then [0xE0 + n / 0x1000, 0x80 + (n / 0x40) % 0x40, 0x80 + n % 0x40]
    else [0xF0 + n / 0x4_0000, 0x80 + (n / 0x1000) % 0x40, 0x80 + (n / 0x40) % 0x40, 0x80 + n % 0x40]
  }

  /** `[]byte(s)`: the UTF-8 bytes of a string. */
  function Utf8String(s: string): (r: seq<Byte>)
    ensures |r| >= |s|
  {
    if s == [] then [] else Utf8(s[0]) + Utf8String(s[1..])
  }

  predicate IsAscii(s: string)
  {
    forall i | 0 <= i < |s| :: s[i] as int < 0x80
  }

  /** An ASCII string's bytes are its character codes, one per character. */
  lemma {:induction false} Utf8OfAscii(s: string)
    requires IsAscii(s)
    ensures |Utf8String(s)| == |s|
    ensures forall i | 0 <= i < |s| :: Utf8String(s)[i] == s[i] as int
  {
    if s != [] {
      Utf8OfAscii(s[1..]);
    }
  }

  lemma {:induction false} Utf8Append(a: string, b: string)
    ensures Utf8String(a + b) == Utf8String(a) + Utf8String(b)
  {
    if a == [] {
      assert a + b == b;
    } else {
      var head, tail := Utf8(a[0]), Utf8String(a[1..]);
      assert (a + b)[0] == a[0] && (a + b)[1..] == a[1..] + b;
      assert Utf8String(a + b) == head + Utf8String(a[1..] + b);
      Utf8Append(a[1..], b);
      ConcatAssoc(head, tail, Utf8String(b));
    }
  }

  lemma ConcatAssoc(a: seq<Byte>, b: seq<Byte>, c: seq<Byte>)
    ensures a + (b + c) == a + b + c
  {
  }

  /** The characters `QueryEscape` leaves alone: letters, digits and "-_.~". */
  predicate IsUnreserved(c: char)
  {
    ('A' <= c <= 'Z') || ('a' <= c <= 'z') || ('0' <= c <= '9') || c == '-' || c == '_' || c == '.' || c == '~'
  }

  function HexUpper(d: nat): (c: char)
    requires d < 16
    ensures IsHex(c)
  {
    if d < 10 then ('0' as int + d) as char else ('A' as int + d - 10) as char
  }

  predicate IsHex(c: char)
  {
    ('0' <= c <= '9') || ('a' <= c <= 'f') || ('A' <= c <= 'F')
  }

  /** "%XX" for each byte, upper-case hex. */
  function PercentBytes(bs: seq<Byte>): (r: string)
    ensures |r| == 3 * |bs|
  {
    if bs == [] then "" else ['%', HexUpper(bs[0] / 16), HexUpper(bs[0] % 16)] + PercentBytes(bs[1..])
  }

  /** `url.QueryEscape` on one character. */
  function EscapeChar(c: char): string
  {
    if IsUnreserved(c) then [c]
    else if c == ' ' then "+"
    else PercentBytes(Utf8(c))
  }

  /** `url.QueryEscape(s)`. */
  function QueryEscape(s: string): (r: string)
    ensures |r| >= |s|
  {
    if s == [] then "" else EscapeChar(s[0]) + QueryEscape(s[1..])
  }

  /**
   * Only '%', hex digits, '+' and unreserved characters come out of
   * `QueryEscape`: never the '=' and '&' that separate the fields of a query.
   */
  predicate IsQueryText(c: char)
  {
    IsUnreserved(c) || c == '+' || c == '%'
  }

  lemma {:induction false} PercentBytesAreQueryText(bs: seq<Byte>)
    ensures forall i | 0 <= i < |PercentBytes(bs)| :: IsQueryText(PercentBytes(bs)[i])
  {
    if bs != [] {
      PercentBytesAreQueryText(bs[1..]);
    }
  }

  lemma {:induction false} QueryEscapeIsQueryText(s: string)
    ensures forall i | 0 <= i < |QueryEscape(s)| :: IsQueryText(QueryEscape(s)[i])
  {
    if s != [] {
      QueryEscapeIsQueryText(s[1..]);
      if !IsUnreserved(s[0]) && s[0] != ' ' {
        PercentBytesAreQueryText(Utf8(s[0]));
      }
    }
  }

  /** An escaped value never holds the '=' and '&' that separate the fields of a query. */
  lemma QueryEscapeNoSeparators(s: string)
    ensures '=' !in QueryEscape(s) && '&' !in QueryEscape(s)
  {
    var r := QueryEscape(s);
    QueryEscapeIsQueryText(s);
    forall i | 0 <= i < |r|
      ensures r[i] != '=' && r[i] != '&'
    {
      assert IsQueryText(r[i]);
    }
  }

  predicate AllUnreserved(s: string)
  {
    forall i | 0 <= i < |s| :: IsUnreserved(s[i])
  }

  /** A string of unreserved characters escapes to itself. */
  lemma {:induction false} QueryEscapePlain(s: string)
    requires AllUnreserved(s)
    ensures QueryEscape(s) == s
  {
    if s != [] {
      QueryEscapePlain(s[1..]);
      assert s == [s[0]] + s[1..];
    }
  }

  // ---------------------------------------------------------------------------
  // url.Values.Encode
  // ---------------------------------------------------------------------------

  /** One `key=value` field, both sides escaped. */
  function Field(kv: (string, string)): string
  {
    QueryEscape(kv.0) + "=" + QueryEscape(kv.1)
  }

  /** The fields, separated by '&'. */
  function Join(kvs: seq<(string, string)>): (r: string)
    ensures kvs == [] <==> r == ""
  {
    if kvs == [] then ""
    else if |kvs| == 1 then Field(kvs[0])
    else Field(kvs[0]) + "&" + Join(kvs[1..])
  }

  /** A query of four fields. */
  lemma JoinFour(a: (string, string), b: (string, string), c: (string, string), d: (string, string))
    ensures Join([a, b, c, d]) == Field(a) + "&" + (Field(b) + "&" + (Field(c) + "&" + Field(d)))
  {
    assert [c, d][1..] == [d];
    assert Join([c, d]) == Field(c) + "&" + Field(d);
    assert [b, c, d][1..] == [c, d];
    assert Join([b, c, d]) == Field(b) + "&" + (Field(c) + "&" + Field(d));
    assert [a, b, c, d][1..] == [b, c, d];
  }

  /** A field whose key needs no escaping. */
  lemma FieldOfPlainKey(k: string, v: string)
    requires AllUnreserved(k)
    ensures Field((k, v)) == k + "=" + QueryEscape(v)
  {
    QueryEscapePlain(k);
  }

  /** One field per value of key `k`, in order. */
  function KeyPairs(k: string, vs: seq<string>): seq<(string, string)>
  {
    if vs == [] then [] else [(k, vs[0])] + KeyPairs(k, vs[1..])
  }

  /** The (key, value) pairs of `v`, key by key in the order of `keys`, each key's values in order. */
  function Pairs(v: Values, keys: seq<string>): seq<(string, string)>
    requires forall k | k in keys :: k in v
  {
    if keys == [] then [] else KeyPairs(keys[0], v[keys[0]]) + Pairs(v, keys[1..])
  }

  /** `v.Encode()`: the fields of all keys in sorted key order. */
  function Encode(v: Values): string
  {
    Join(Pairs(v, SortedElements(v.Keys)))
  }

  /** The query is empty exactly when no key holds a value. */
  lemma EncodeEmpty(v: Values)
    ensures Encode(v) == "" <==> forall k | k in v :: v[k] == []
  {
    PairsEmpty(v, SortedElements(v.Keys));
  }

  lemma {:induction false} PairsEmpty(v: Values, keys: seq<string>)
    requires forall k | k in keys :: k in v
    ensures Pairs(v, keys) == [] <==> forall k | k in keys :: v[k] == []
  {
    if keys != [] {
      PairsEmpty(v, keys[1..]);
      assert KeyPairs(keys[0], v[keys[0]]) == [] <==> v[keys[0]] == [];
    }
  }

  /** Where every key holds exactly one value, the pairs are the keys beside their values, in key order. */
  lemma {:induction false} PairsOfSingles(v: Values, keys: seq<string>, vals: seq<string>)
    requires |keys| == |vals|
    requires forall i | 0 <= i < |keys| :: keys[i] in v && v[keys[i]] == [vals[i]]
    ensures |Pairs(v, keys)| == |keys|
    ensures forall i | 0 <= i < |keys| :: Pairs(v, keys)[i] == (keys[i], vals[i])
  {
    if keys != [] {
      PairsOfSingles(v, keys[1..], vals[1..]);
      assert KeyPairs(keys[0], v[keys[0]]) == [(keys[0], vals[0])];
    }
  }

  // ---------------------------------------------------------------------------
  // url.Parse, as reached from http.NewRequest
  // ---------------------------------------------------------------------------

  /** `strings.Cut(s, sep)`: the text before the first `sep` and the text after it. */
  function Cut(s: string, sep: char): (r: (string, string))
    ensures sep !in s ==> r == (s, "")
    ensures sep in s ==> s == r.0 + [sep] + r.1 && sep !in r.0
  {
    if s == [] then ("", "")
    else if s[0] == sep then ("", s[1..])
    else
      var (before, after) := Cut(s[1..], sep);
      assert s == [s[0]] + s[1..];
      ([s[0]] + before, after)
  }

  /** No ASCII control character (below 0x20, or DEL). */
  predicate NoControl(s: string)
  {
    forall i | 0 <= i < |s| :: 0x20 <= s[i] as int && s[i] as int != 0x7f
  }

  /** Every '%' starts a two-hex-digit escape, as `url.unescape` demands. */
  predicate EscapesWellFormed(s: string)
  {
    forall i | 0 <= i < |s| && s[i] == '%' :: i + 2 < |s| && IsHex(s[i + 1]) && IsHex(s[i + 2])
  }

  /**
   * Whether `url.Parse` accepts "https://oauth.reddit.com" + endpoint + "?" + query.
   * The origin is fixed and well formed, and the query is `Encode` output, which
   * holds only unreserved characters, '+', '=', '&' and well-formed escapes; so the
   * verdict depends on the endpoint alone. `Parse` first cuts at '#'; the part
   * before it must hold no control character, and its path (up to the first '?')
   * and the fragment must hold only well-formed escapes.
   */
  predicate EndpointParses(endpoint: string)
  {
    var (head, fragment) := Cut(endpoint, '#');
    var (path, _) := Cut(head, '?');
    NoControl(head) && EscapesWellFormed(path) && EscapesWellFormed(fragment)
  }

  /** Path text that needs no escaping: no '%', '?', '#' or control character. */
  predicate PlainPath(s: string)
  {
    NoControl(s) && '%' !in s && '?' !in s && '#' !in s
  }

  /** A path segment that needs no escaping: plain path text without '/'. */
  predicate PlainSegment(s: string)
  {
    PlainPath(s) && '/' !in s
  }

  lemma PlainPathConcat(a: string, b: string)
    requires PlainPath(a) && PlainPath(b)
    ensures PlainPath(a + b)
  {
    var s := a + b;
    forall i | 0 <= i < |s|
      ensures 0x20 <= s[i] as int && s[i] as int != 0x7f
    {
      if i < |a| {
        assert s[i] == a[i];
      } else {
        assert s[i] == b[i - |a|];
      }
    }
  }

  /** An endpoint that begins with '/' and holds only plain path text always parses. */
  lemma PlainEndpointParses(endpoint: string)
    requires |endpoint| > 0 && endpoint[0] == '/'
    requires PlainPath(endpoint)
    ensures EndpointParses(endpoint)
  {
  }

  lemma BadEscapeRefused(endpoint: string, i: nat)
    requires '#' !in endpoint && '?' !in endpoint
    requires i + 1 < |endpoint| && endpoint[i] == '%' && !IsHex(endpoint[i + 1])
    ensures !EndpointParses(endpoint)
  {
  }
}
