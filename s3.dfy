/** The object-store manager: region-conditional bucket creation, an optional public-read
    policy, the creator tag, uploads, and the listing filtered by the creator tag.

    Provider replies are parameters and requests are returned as values. */
module S3 {
  import opened Wrappers
  import opened Tags

  /** The one region in which the creation request carries no location constraint. */
  const UsEast1 := "us-east-1"
  const CreatedByKey := "CreatedBy"

  datatype S3Request =
    | CreateBucketRequest(bucket: string, locationConstraint: Option<string>)
    /** The policy travels as the JSON text `PolicyText(policy)`. */
    | PutPolicyRequest(bucket: string, policy: BucketPolicy)
    | PutTaggingRequest(bucket: string, tagSet: seq<RequestTag>)
    | UploadRequest(filename: string, bucket: string, key: string)

  datatype Statement = Statement(effect: string, principal: string, action: string, resource: string)
  datatype BucketPolicy = BucketPolicy(version: string, statements: seq<Statement>)

  // ---------------------------------------------------------------------------
  // JSON text of the policy, as `json.dumps` writes it (ensure_ascii, ", " and ": " separators)

  function HexDigit(d: nat): (c: char)
    requires d < 16
    ensures '0' <= c <= '9' || 'a' <= c <= 'f'
  {
    if d < 10 then ('0' as int + d) as char else ('a' as int + d - 10) as char
  }

  /** Four lower-case hex digits. */
  function Hex4(n: nat): (h: string)
    requires n < 0x10000
    ensures |h| == 4 && AllPrintable(h)
  {
    [HexDigit(n / 16 / 16 / 16), HexDigit(n / 16 / 16 % 16), HexDigit(n / 16 % 16), HexDigit(n % 16)]
  }

  /** Printable ASCII, which `json.dumps` writes as it is unless it is '"' or '\\'. */
  predicate Printable(c: char) {
    ' ' <= c <= '~'
  }

  predicate PlainChar(c: char) {
    Printable(c) && c != '"' && c != '\\'
  }

  predicate PlainText(s: string) {
    forall k :: 0 <= k < |s| ==> PlainChar(s[k])
  }

  predicate AllPrintable(s: string) {
    forall k :: 0 <= k < |s| ==> Printable(s[k])
  }

  lemma PrintableJoin(a: string, b: string)
    requires AllPrintable(a) && AllPrintable(b)
    ensures AllPrintable(a + b)
  {
    forall k | 0 <= k < |a + b|
      ensures Printable((a + b)[k])
    {
      if k >= |a| {
        assert (a + b)[k] == b[k - |a|];
      }
    }
  }

  lemma PlainJoin(a: string, b: string)
    requires PlainText(a) && PlainText(b)
    ensures PlainText(a + b)
  {
    forall k | 0 <= k < |a + b|
      ensures PlainChar((a + b)[k])
    {
      if k >= |a| {
        assert (a + b)[k] == b[k - |a|];
      }
    }
  }

  /** The UTF-16 surrogate pair of a character above U+FFFF. */
  function HighSurrogate(c: char): (h: nat)
    requires c as int >= 0x10000
    ensures 0xd800 <= h < 0xdc00
  {
    0xd800 + (c as int - 0x10000) / 0x400
  }

  function LowSurrogate(c: char): (l: nat)
    requires c as int >= 0x10000
    ensures 0xdc00 <= l < 0xe000
  {
    0xdc00 + (c as int - 0x10000) % 0x400
  }

  lemma SurrogatesCombine(c: char)
    requires c as int >= 0x10000
    ensures 0x10000 + (HighSurrogate(c) - 0xd800) * 0x400 + (LowSurrogate(c) - 0xdc00) == c as int
  {
    var n := c as int - 0x10000;
    assert n == n / 0x400 * 0x400 + n % 0x400;
  }

  /** The `\\uXXXX` escape of a character outside printable ASCII, as a surrogate pair above U+FFFF. */
  function UnicodeEscape(c: char): (e: string)
    ensures AllPrintable(e)
  {
    if c as int < 0x10000 then
      PrintableJoin("\\u", Hex4(c as int));
      "\\u" + Hex4(c as int)
    else
      var high, low := Hex4(HighSurrogate(c)), Hex4(LowSurrogate(c));
      PrintableJoin("\\u", high);
      PrintableJoin("\\u" + high, "\\u");
      PrintableJoin("\\u" + high + "\\u", low);
      "\\u" + high + "\\u" + low
  }

  /** One character of a JSON string literal with every non-printable or non-ASCII character escaped. */
  function EscapeChar(c: char): (e: string)
    ensures AllPrintable(e)
    ensures PlainChar(c) ==> e == [c]
  {
    if c == '"' then "\\\""
    else if c == '\\' then "\\\\"
    else if c == '\n' then "\\n"
    else if c == '\r' then "\\r"
    else if c == '\t' then "\\t"
    else if c as int == 0x08 then "\\b"
    else if c as int == 0x0c then "\\f"
    else if Printable(c) then [c]
    else UnicodeEscape(c)
  }

  function EscapeText(s: string): (e: string)
    ensures AllPrintable(e)
    ensures PlainText(s) ==> e == s
  {
    if s == [] then []
    else
      PrintableJoin(EscapeChar(s[0]), EscapeText(s[1..]));
      EscapeChar(s[0]) + EscapeText(s[1..])
  }

  function JsonString(s: string): (j: string)
    ensures AllPrintable(j)
    ensures PlainText(s) ==> j == "\"" + s + "\""
  {
    PrintableJoin("\"", EscapeText(s));
    PrintableJoin("\"" + EscapeText(s), "\"");
    "\"" + EscapeText(s) + "\""
  }

  /** Escaping distributes over concatenation: each character is escaped on its own. */
  lemma {:induction false} EscapeTextJoin(a: string, b: string)
    ensures EscapeText(a + b) == EscapeText(a) + EscapeText(b)
  {
    if a == [] {
      assert a + b == b;
    } else {
      var ab := a + b;
      assert ab[0] == a[0] && ab[1..] == a[1..] + b;
      EscapeTextJoin(a[1..], b);
      calc {
        EscapeText(ab);
        EscapeChar(a[0]) + EscapeText(a[1..] + b);
        EscapeChar(a[0]) + (EscapeText(a[1..]) + EscapeText(b));
        (EscapeChar(a[0]) + EscapeText(a[1..])) + EscapeText(b);
      }
    }
  }

  // ---------------------------------------------------------------------------
  // Reading a JSON string body back, as a JSON decoder does, to show that escaping loses nothing

  function HexValue(c: char): Option<nat> {
    if '0' <= c <= '9' then Some(c as int - '0' as int)
    else if 'a' <= c <= 'f' then Some(c as int - 'a' as int + 10)
    else if 'A' <= c <= 'F' then Some(c as int - 'A' as int + 10)
    else None
  }

  function ParseHex4(h: string): (v: Option<nat>)
    requires |h| == 4
    ensures v.Some? ==> v.value < 0x10000
  {
    match (HexValue(h[0]), HexValue(h[1]), HexValue(h[2]), HexValue(h[3]))
    case (Some(a), Some(b), Some(c), Some(d)) =>
      if a < 16 && b < 16 && c < 16 && d < 16 then Some(((a * 16 + b) * 16 + c) * 16 + d) else None
    case _ => None
  }

  lemma HexDigitValue(d: nat)
    requires d < 16
    ensures HexValue(HexDigit(d)) == Some(d)
  {
  }

  lemma {:induction false} ParseHex4Inverts(n: nat)
    requires n < 0x10000
    ensures ParseHex4(Hex4(n)) == Some(n)
  {
    var q1 := n / 16;
    var q2 := q1 / 16;
    var q3 := q2 / 16;
    assert n == q1 * 16 + n % 16;
    assert q1 == q2 * 16 + q1 % 16;
    assert q2 == q3 * 16 + q2 % 16;
    assert q3 < 16;
    HexDigitValue(q3);
    HexDigitValue(q2 % 16);
    HexDigitValue(q1 % 16);
    HexDigitValue(n % 16);
  }

  function Prepend(c: char, rest: Option<string>): Option<string> {
    if rest.Some? then Some([c] + rest.value) else None
  }

  /** The text between the quotes of a JSON string: an unescaped quote or control character is
      refused, and so is a `\\u` escape that names a lone surrogate, which is not a character. */
  function Unescape(e: string): Option<string>
    decreases |e|
  {
    if e == [] then Some([])
    else if e[0] == '"' || e[0] < ' ' then None
    else if e[0] != '\\' then Prepend(e[0], Unescape(e[1..]))
    else if |e| < 2 then None
    else if e[1] == '"' then Prepend('"', Unescape(e[2..]))
    else if e[1] == '\\' then Prepend('\\', Unescape(e[2..]))
    else if e[1] == '/' then Prepend('/', Unescape(e[2..]))
    else if e[1] == 'n' then Prepend('\n', Unescape(e[2..]))
    else if e[1] == 'r' then Prepend('\r', Unescape(e[2..]))
    else if e[1] == 't' then Prepend('\t', Unescape(e[2..]))
    else if e[1] == 'b' then Prepend(0x08 as char, Unescape(e[2..]))
    else if e[1] == 'f' then Prepend(0x0c as char, Unescape(e[2..]))
    else if e[1] != 'u' || |e| < 6 then None
    else UnescapeUnicode(e)
  }

  /** A `\\uXXXX` escape at the head of `e`, or a pair of them forming a surrogate pair. */
  function UnescapeUnicode(e: string): Option<string>
    requires |e| >= 6 && e[0] == '\\' && e[1] == 'u'
    decreases |e|, 0
  {
    match ParseHex4(e[2..6])
    case None => None
    case Some(v) =>
      if 0xd800 <= v < 0xdc00 then
        if |e| >= 12 && e[6] == '\\' && e[7] == 'u' && ParseHex4(e[8..12]).Some? && 0xdc00 <= ParseHex4(e[8..12]).value < 0xe000 then
          var w := ParseHex4(e[8..12]).value;
          Prepend((0x10000 + (v - 0xd800) * 0x400 + (w - 0xdc00)) as char, Unescape(e[12..]))
        else None
      else if 0xdc00 <= v < 0xe000 then None
      else Prepend(v as char, Unescape(e[6..]))
  }

  lemma BmpEscapeInverts(c: char, rest: string)
    requires !Printable(c) && c as int < 0x10000
    ensures Unescape(UnicodeEscape(c) + rest) == Prepend(c, Unescape(rest))
  {
    var e := UnicodeEscape(c) + rest;
    ParseHex4Inverts(c as int);
    assert e[2..6] == Hex4(c as int);
    assert e[6..] == rest;
  }

  /** A high and a low surrogate escape in a row decode to the one character they encode. */
  lemma {:induction false} SurrogateEscapesDecode(h1: string, h2: string, rest: string, hi: nat, lo: nat)
    requires |h1| == 4 && |h2| == 4 && ParseHex4(h1) == Some(hi) && ParseHex4(h2) == Some(lo)
    requires 0xd800 <= hi < 0xdc00 && 0xdc00 <= lo < 0xe000
    ensures Unescape("\\u" + h1 + "\\u" + h2 + rest) == Prepend((0x10000 + (hi - 0xd800) * 0x400 + (lo - 0xdc00)) as char, Unescape(rest))
  {
    var e := "\\u" + h1 + "\\u" + h2 + rest;
    assert e[0] == '\\' && e[1] == 'u';
    assert e[2..6] == h1;
    assert e[6] == '\\' && e[7] == 'u';
    assert e[8..12] == h2;
    assert e[12..] == rest;
    assert Unescape(e) == UnescapeUnicode(e);
  }

  lemma SurrogatePairInverts(c: char, rest: string)
    requires c as int >= 0x10000
    ensures Unescape(UnicodeEscape(c) + rest) == Prepend(c, Unescape(rest))
  {
    var hi, lo := HighSurrogate(c), LowSurrogate(c);
    ParseHex4Inverts(hi);
    ParseHex4Inverts(lo);
    SurrogatesCombine(c);
    assert (0x10000 + (hi - 0xd800) * 0x400 + (lo - 0xdc00)) as char == c;
    SurrogateEscapesDecode(Hex4(hi), Hex4(lo), rest, hi, lo);
    assert UnicodeEscape(c) + rest == "\\u" + Hex4(hi) + "\\u" + Hex4(lo) + rest;
  }

  lemma QuoteEscapeInverts(c: char, rest: string)
    requires c == '"' || c == '\\'
    ensures Unescape(EscapeChar(c) + rest) == Prepend(c, Unescape(rest))
  {
    var e := EscapeChar(c) + rest;
    assert e[0] == '\\' && e[1] == c && e[2..] == rest;
  }

  lemma WhitespaceEscapeInverts(c: char, rest: string)
    requires c == '\n' || c == '\r' || c == '\t'
    ensures Unescape(EscapeChar(c) + rest) == Prepend(c, Unescape(rest))
  {
    var e := EscapeChar(c) + rest;
    assert e[0] == '\\' && e[2..] == rest;
  }

  lemma ControlEscapeInverts(c: char, rest: string)
    requires c as int == 0x08 || c as int == 0x0c
    ensures Unescape(EscapeChar(c) + rest) == Prepend(c, Unescape(rest))
  {
    var e := EscapeChar(c) + rest;
    assert e[0] == '\\' && e[2..] == rest;
  }

  lemma EscapeCharInverts(c: char, rest: string)
    ensures Unescape(EscapeChar(c) + rest) == Prepend(c, Unescape(rest))
  {
    if c == '"' || c == '\\' {
      QuoteEscapeInverts(c, rest);
    } else if c == '\n' || c == '\r' || c == '\t' {
      WhitespaceEscapeInverts(c, rest);
    } else if c as int == 0x08 || c as int == 0x0c {
      ControlEscapeInverts(c, rest);
    } else if Printable(c) {
      var e := EscapeChar(c) + rest;
      assert e[0] == c && e[1..] == rest;
    } else if c as int < 0x10000 {
      BmpEscapeInverts(c, rest);
    } else {
      SurrogatePairInverts(c, rest);
    }
  }

  /** Decoding the escaped text gives back the original string, whatever characters it holds. */
  lemma {:induction false} EscapeTextInverts(s: string)
    ensures Unescape(EscapeText(s)) == Some(s)
  {
    if s != [] {
      EscapeTextInverts(s[1..]);
      EscapeCharInverts(s[0], EscapeText(s[1..]));
      assert [s[0]] + s[1..] == s;
    }
  }

  /** `items` with `sep` between consecutive ones. */
  function Joined(items: seq<string>, sep: string): string {
    if items == [] then ""
    else if |items| == 1 then items[0]
    else items[0] + sep + Joined(items[1..], sep)
  }

  predicate EachPrintable(items: seq<string>) {
    forall i :: 0 <= i < |items| ==> AllPrintable(items[i])
  }

  lemma {:induction false} JoinedPrintable(items: seq<string>, sep: string)
    requires EachPrintable(items) && AllPrintable(sep)
    ensures AllPrintable(Joined(items, sep))
  {
    if |items| > 1 {
      assert EachPrintable(items[1..]) by {
        assert forall i :: 0 <= i < |items[1..]| ==> items[1..][i] == items[i + 1];
      }
      JoinedPrintable(items[1..], sep);
      PrintableJoin(items[0], sep);
      PrintableJoin(items[0] + sep, Joined(items[1..], sep));
    }
  }

  /** One `"key": value` member of a JSON object; `value` is already JSON text. The keys of a
      policy are fixed words that need no escaping, so they are written as they are. */
  function Member(key: string, value: string): (m: string)
    requires PlainText(key)
    ensures AllPrintable(value) ==> AllPrintable(m)
  {
    var k := "\"" + key + "\": ";
    assert AllPrintable(key);
    PrintableJoin("\"", key);
    PrintableJoin("\"" + key, "\": ");
    if AllPrintable(value) then PrintableJoin(k, value); k + value else k + value
  }

  /** A JSON object or array: the items between the brackets, separated by ", ". */
  function Bracketed(open: char, items: seq<string>, close: char): (j: string)
    requires Printable(open) && Printable(close)
    ensures EachPrintable(items) ==> AllPrintable(j)
  {
    var inner := Joined(items, ", ");
    if EachPrintable(items) then
      JoinedPrintable(items, ", ");
      PrintableJoin([open], inner);
      PrintableJoin([open] + inner, [close]);
      [open] + inner + [close]
    else [open] + inner + [close]
  }

  const VersionKey := "Version"
  const StatementKey := "Statement"
  const EffectKey := "Effect"
  const PrincipalKey := "Principal"
  const ActionKey := "Action"
  const ResourceKey := "Resource"

  lemma KeysArePlain()
    ensures PlainText(VersionKey) && PlainText(StatementKey) && PlainText(EffectKey)
    ensures PlainText(PrincipalKey) && PlainText(ActionKey) && PlainText(ResourceKey)
  {
  }

  const ArnPrefix := "arn:aws:s3:::"
  const AllObjects := "/*"

  lemma ArnPartsArePlain()
    ensures PlainText(ArnPrefix) && PlainText(AllObjects)
  {
  }

  function StatementJson(st: Statement): (j: string)
    ensures AllPrintable(j)
  {
    KeysArePlain();
    var items := [Member(EffectKey, JsonString(st.effect)), Member(PrincipalKey, JsonString(st.principal)),
                  Member(ActionKey, JsonString(st.action)), Member(ResourceKey, JsonString(st.resource))];
    assert EachPrintable(items);
    Bracketed('{', items, '}')
  }

  function StatementsJson(sts: seq<Statement>): (j: string)
    ensures AllPrintable(j)
  {
    Bracketed('[', seq(|sts|, i requires 0 <= i < |sts| => StatementJson(sts[i])), ']')
  }

  /** `json.dumps(policy)`: printable ASCII only. */
  function PolicyText(p: BucketPolicy): (text: string)
    ensures AllPrintable(text)
  {
    KeysArePlain();
    var items := [Member(VersionKey, JsonString(p.version)), Member(StatementKey, StatementsJson(p.statements))];
    assert EachPrintable(items);
    Bracketed('{', items, '}')
  }

  // ---------------------------------------------------------------------------
  // make_bucket_public

  const PolicyVersion := "2012-10-17"
  const Allow := "Allow"
  const Anyone := "*"
  const GetObject := "s3:GetObject"

  /** The policy `make_bucket_public` applies: anyone may read any object of the bucket. */
  function PublicReadPolicy(name: string): (p: BucketPolicy)
    ensures p.version == "2012-10-17"
    ensures |p.statements| == 1
    ensures p.statements[0].effect == "Allow" && p.statements[0].principal == "*"
    ensures p.statements[0].action == "s3:GetObject"
    ensures p.statements[0].resource == "arn:aws:s3:::" + name + "/*"
  {
    BucketPolicy(PolicyVersion, [Statement(Allow, Anyone, GetObject, ArnPrefix + name + AllObjects)])
  }

  /** `make_bucket_public`: the public-read policy request for the bucket. */
  function MakeBucketPublic(name: string): (r: S3Request)
    ensures r.PutPolicyRequest? && r.bucket == name
    ensures r.policy == PublicReadPolicy(name)
    ensures r.policy.version == "2012-10-17"
    ensures r.policy.statements == [Statement("Allow", "*", "s3:GetObject", "arn:aws:s3:::" + name + "/*")]
  {
    PutPolicyRequest(name, PublicReadPolicy(name))
  }

  // The policy's text, for names that need no escaping.

  /** For a bucket name that needs no escaping, the resource is written as it is, between quotes. */
  lemma PublicReadResourceText(name: string)
    requires PlainText(name)
    ensures JsonString(PublicReadPolicy(name).statements[0].resource) == "\"arn:aws:s3:::" + name + "/*\""
  {
    ArnPartsArePlain();
    PlainJoin(ArnPrefix, name);
    PlainJoin(ArnPrefix + name, AllObjects);
  }

  /** A statement whose values need no escaping, as `json.dumps` lays it out: the keys in
      insertion order, ": " after each key and ", " between members. */
  lemma StatementLayout(st: Statement)
    requires PlainText(st.effect) && PlainText(st.principal) && PlainText(st.action) && PlainText(st.resource)
    ensures StatementJson(st) ==
      "{\"Effect\": \"" + st.effect + "\", " + "\"Principal\": \"" + st.principal + "\", " +
      "\"Action\": \"" + st.action + "\", " + "\"Resource\": \"" + st.resource + "\"}"
  {
    KeysArePlain();
    var e := Member(EffectKey, JsonString(st.effect));
    var p := Member(PrincipalKey, JsonString(st.principal));
    var a := Member(ActionKey, JsonString(st.action));
    var r := Member(ResourceKey, JsonString(st.resource));
    assert StatementJson(st) == ['{'] + Joined([e, p, a, r], ", ") + ['}'];
    JoinedFour(e, p, a, r, ", ");
    PlainMember(EffectKey, st.effect);
    PlainMember(PrincipalKey, st.principal);
    PlainMember(ActionKey, st.action);
    PlainMember(ResourceKey, st.resource);
    RegroupFour(['{'], ", ", "\"", ['}'],
                "\"" + EffectKey + "\": \"", st.effect, "\"" + PrincipalKey + "\": \"", st.principal,
                "\"" + ActionKey + "\": \"", st.action, "\"" + ResourceKey + "\": \"", st.resource);
    StatementPieces();
  }

  /** A policy with a plain version and one statement, as `json.dumps` lays it out: "Version"
      before "Statement", ": " after each key and ", " between the members. */
  lemma PolicyLayout(p: BucketPolicy)
    requires PlainText(p.version) && |p.statements| == 1
    ensures PolicyText(p) ==
      "{\"Version\": \"" + p.version + "\", " + "\"Statement\": [" + StatementJson(p.statements[0]) + "]}"
  {
    var stText := StatementJson(p.statements[0]);
    assert StatementsJson(p.statements) == ['['] + stText + [']'] by {
      assert seq(1, i requires 0 <= i < 1 => StatementJson(p.statements[i])) == [stText];
    }
    KeysArePlain();
    PlainMember(VersionKey, p.version);
    var v := Member(VersionKey, JsonString(p.version));
    var sts := Member(StatementKey, StatementsJson(p.statements));
    assert PolicyText(p) == ['{'] + Joined([v, sts], ", ") + ['}'];
    JoinedTwo(v, sts, ", ");
    assert sts == ("\"" + StatementKey + "\": ") + (['['] + stText + [']']);
    RegroupPolicy(['{'], "\"" + VersionKey + "\": \"", p.version, "\"", ", ", "\"" + StatementKey + "\": ", ['['],
                  stText, [']'], ['}']);
    PolicyPieces();
  }

  /** The statement of the public-read policy, as `json.dumps` writes it. */
  lemma PublicReadStatementText(name: string)
    requires PlainText(name)
    ensures StatementJson(PublicReadPolicy(name).statements[0]) ==
      "{\"Effect\": \"Allow\", " + "\"Principal\": \"*\", " + "\"Action\": \"s3:GetObject\", " +
      "\"Resource\": \"arn:aws:s3:::" + name + "/*\"}"
  {
    PolicyValuesArePlain();
    ArnPartsArePlain();
    PlainJoin(ArnPrefix, name);
    PlainJoin(ArnPrefix + name, AllObjects);
    StatementLayout(Statement(Allow, Anyone, GetObject, ArnPrefix + name + AllObjects));
    RegroupStatement("{\"Effect\": \"", Allow, "\", ", "\"Principal\": \"", Anyone, "\"Action\": \"", GetObject,
                     "\"Resource\": \"", ArnPrefix, name, AllObjects, "\"}");
    PublicReadStatementPieces();
  }

  /** The whole text `make_bucket_public` sends for a bucket name that needs no escaping. */
  lemma PublicReadPolicyText(name: string)
    requires PlainText(name)
    ensures PolicyText(PublicReadPolicy(name)) ==
      "{\"Version\": \"2012-10-17\", " + "\"Statement\": [" +
      "{\"Effect\": \"Allow\", " + "\"Principal\": \"*\", " + "\"Action\": \"s3:GetObject\", " +
      "\"Resource\": \"arn:aws:s3:::" + name + "/*\"}]}"
  {
    PolicyValuesArePlain();
    PolicyLayout(PublicReadPolicy(name));
    PublicReadStatementText(name);
    RegroupPublicRead("{\"Version\": \"" + PolicyVersion + "\", ", "\"Statement\": [",
                      "{\"Effect\": \"Allow\", ", "\"Principal\": \"*\", ", "\"Action\": \"s3:GetObject\", ",
                      "\"Resource\": \"arn:aws:s3:::", name, "/*\"}", "]}");
    PublicReadPolicyPieces();
  }

  // ---------------------------------------------------------------------------
  // Proof helpers for the layout lemmas above: identities over concatenation and string
  // literals, split small so that the solver can check each one. A reader can skip them.

  lemma JoinedTwo(a: string, b: string, sep: string)
    ensures Joined([a, b], sep) == a + sep + b
  {
    assert [a, b][1..] == [b];
  }

  lemma JoinedFour(a: string, b: string, c: string, d: string, sep: string)
    ensures Joined([a, b, c, d], sep) == a + sep + b + sep + c + sep + d
  {
    assert [a, b, c, d][1..] == [b, c, d];
    assert [b, c, d][1..] == [c, d];
    JoinedTwo(c, d, sep);
  }

  /** A member whose value is a string that needs no escaping: the quoted key, ": " and the
      opening quote, then the value, then the closing quote. */
  lemma PlainMember(key: string, value: string)
    requires PlainText(key) && PlainText(value)
    ensures Member(key, JsonString(value)) == ("\"" + key + "\": \"") + value + "\""
  {
  }

  lemma PolicyValuesArePlain()
    ensures PlainText(PolicyVersion) && PlainText(Allow) && PlainText(Anyone) && PlainText(GetObject)
  {
  }

  /** Four members between braces, regrouped around their values. */
  lemma RegroupFour(open: string, sep: string, q: string, close: string,
                    a1: string, v1: string, a2: string, v2: string, a3: string, v3: string, a4: string, v4: string)
    ensures open + ((a1 + v1 + q) + sep + (a2 + v2 + q) + sep + (a3 + v3 + q) + sep + (a4 + v4 + q)) + close
      == (open + a1) + v1 + (q + sep) + a2 + v2 + (q + sep) + a3 + v3 + (q + sep) + a4 + v4 + (q + close)
  {
  }

  lemma StatementPieces()
    ensures ['{'] + ("\"" + EffectKey + "\": \"") == "{\"Effect\": \""
    ensures "\"" + ", " == "\", "
    ensures "\"" + PrincipalKey + "\": \"" == "\"Principal\": \""
    ensures "\"" + ActionKey + "\": \"" == "\"Action\": \""
    ensures "\"" + ResourceKey + "\": \"" == "\"Resource\": \""
    ensures "\"" + ['}'] == "\"}"
  {
  }

  /** Regrouping the statement text around the bucket name. */
  lemma RegroupStatement(a1: string, v1: string, qs: string, a2: string, v2: string, a3: string, v3: string,
                         a4: string, p: string, x: string, s: string, qc: string)
    ensures a1 + v1 + qs + a2 + v2 + qs + a3 + v3 + qs + a4 + (p + x + s) + qc
         == (a1 + v1 + qs) + (a2 + v2 + qs) + (a3 + v3 + qs) + (a4 + p) + x + (s + qc)
  {
  }

  lemma PublicReadStatementPieces()
    ensures "{\"Effect\": \"" + Allow + "\", " == "{\"Effect\": \"Allow\", "
    ensures "\"Principal\": \"" + Anyone + "\", " == "\"Principal\": \"*\", "
    ensures "\"Action\": \"" + GetObject + "\", " == "\"Action\": \"s3:GetObject\", "
    ensures "\"Resource\": \"" + ArnPrefix == "\"Resource\": \"arn:aws:s3:::"
    ensures AllObjects + "\"}" == "/*\"}"
  {
  }

  /** A policy object with its version member and its statement list, regrouped around the two values. */
  lemma RegroupPolicy(open: string, a: string, ver: string, q: string, sep: string, k: string, lb: string,
                      st: string, rb: string, close: string)
    ensures open + ((a + ver + q) + sep + (k + (lb + st + rb))) + close
         == (open + a) + ver + (q + sep) + (k + lb) + st + (rb + close)
  {
  }

  lemma PolicyPieces()
    ensures ['{'] + ("\"" + VersionKey + "\": \"") == "{\"Version\": \""
    ensures "\"" + ", " == "\", "
    ensures ("\"" + StatementKey + "\": ") + ['['] == "\"Statement\": ["
    ensures [']'] + ['}'] == "]}"
  {
  }

  /** Regrouping the public-read policy text around the bucket name. */
  lemma RegroupPublicRead(head: string, k: string, t1: string, t2: string, t3: string, t4: string, x: string,
                          t5: string, tail: string)
    ensures head + k + (t1 + t2 + t3 + t4 + x + t5) + tail == head + k + t1 + t2 + t3 + t4 + x + (t5 + tail)
  {
  }

  lemma PublicReadPolicyPieces()
    ensures "{\"Version\": \"" + PolicyVersion + "\", " == "{\"Version\": \"2012-10-17\", "
    ensures "/*\"}" + "]}" == "/*\"}]}"
  {
  }

  // ---------------------------------------------------------------------------
  // create_bucket

  /** Every request `create_bucket` makes when none fails, in order. */
  function BucketPlan(region: string, name: string, public: bool, user: Option<string>): (plan: seq<S3Request>)
    ensures |plan| == if public then 3 else 2
    ensures plan[0] == CreateBucketRequest(name, if region == UsEast1 then None else Some(region))
    ensures public ==> plan[1] == MakeBucketPublic(name)
    ensures plan[|plan| - 1] == PutTaggingRequest(name, [RequestTag(CreatedByKey, user)])
  {
    var create := CreateBucketRequest(name, if region == UsEast1 then None else Some(region));
    var tagging := PutTaggingRequest(name, [RequestTag(CreatedByKey, user)]);
    if public then [create, MakeBucketPublic(name), tagging] else [create, tagging]
  }

  datatype CreateBucketOutcome = CreateBucketOutcome(sent: seq<S3Request>, result: Option<string>)

  /** `create_bucket`: the requests of the plan are sent in order until one is refused; the
      bucket's name is returned when all succeed and None at the first refusal, and nothing
      already done is undone. `createOk`, `policyOk` and `taggingOk` are the provider's
      answers to the three requests. */
  function CreateBucket(region: string, name: string, public: bool, user: Option<string>,
                        createOk: bool, policyOk: bool, taggingOk: bool): (r: CreateBucketOutcome)
    ensures r.result.Some? <==> createOk && (public ==> policyOk) && taggingOk
    ensures r.result.Some? ==> r.result.value == name
    ensures !createOk ==> r.sent == BucketPlan(region, name, public, user)[..1]
    ensures createOk && public && !policyOk ==> r.sent == BucketPlan(region, name, public, user)[..2]
    ensures createOk && (public ==> policyOk) ==> r.sent == BucketPlan(region, name, public, user)
  {
    var plan := BucketPlan(region, name, public, user);
    if !createOk then CreateBucketOutcome(plan[..1], None)
    else if public && !policyOk then CreateBucketOutcome(plan[..2], None)
    else if !taggingOk then CreateBucketOutcome(plan, None)
    else CreateBucketOutcome(plan, Some(name))
  }

  // ---------------------------------------------------------------------------
  // list_buckets

  /** The provider's answer to `get_bucket_tagging` for one bucket. */
  datatype TaggingReply = TagSet(tags: seq<Tag>) | TaggingFailed(message: string)
  datatype Bucket = Bucket(name: string, tagging: TaggingReply)
  /** The provider's answer to `list_buckets`, each bucket with its tagging answer. */
  datatype ListReply = Listed(buckets: seq<Bucket>) | ListFailed(message: string)

  /** `{tag['Key']: tag['Value'] for tag in tags}`: a later tag overwrites an earlier one with the same key. */
  function TagsDict(tags: seq<Tag>): (d: map<string, string>)
    ensures forall k :: k in d <==> exists i :: 0 <= i < |tags| && tags[i].key == k
  {
    if tags == [] then map[] else TagsDict(tags[..|tags| - 1])[tags[|tags| - 1].key := tags[|tags| - 1].value]
  }

  /** With duplicate keys, the dictionary keeps the value of the LAST tag with that key. */
  lemma {:induction false} LastTagWins(tags: seq<Tag>, i: nat)
    requires i < |tags|
    requires forall j :: i < j < |tags| ==> tags[j].key != tags[i].key
    ensures tags[i].key in TagsDict(tags) && TagsDict(tags)[tags[i].key] == tags[i].value
  {
    if i < |tags| - 1 {
      var init := tags[..|tags| - 1];
      assert forall j :: i < j < |init| ==> init[j] == tags[j];
      LastTagWins(init, i);
      assert init[i] == tags[i];
    }
  }

  /** `tags_dict.get('CreatedBy')`. */
  function CreatedBy(tags: seq<Tag>): Option<string> {
    var d := TagsDict(tags);
    if CreatedByKey in d then Some(d[CreatedByKey]) else None
  }

  predicate OwnedBy(b: Bucket, user: string) {
    b.tagging.TagSet? && CreatedBy(b.tagging.tags) == Some(user)
  }

  /** The names of the buckets whose creator tag is `user`, in listing order. */
  function Owned(buckets: seq<Bucket>, user: string): (names: seq<string>)
    ensures |names| <= |buckets|
  {
    if buckets == [] then []
    else
      var last := buckets[|buckets| - 1];
      Owned(buckets[..|buckets| - 1], user) + if OwnedBy(last, user) then [last.name] else []
  }

  lemma OwnedStep(buckets: seq<Bucket>, b: Bucket, user: string)
    ensures Owned(buckets + [b], user) == Owned(buckets, user) + if OwnedBy(b, user) then [b.name] else []
  {
    assert (buckets + [b])[..|buckets|] == buckets;
  }

  /** Filtering keeps listing order: the result for a concatenation is the concatenation of the results. */
  lemma {:induction false} OwnedDistributes(a: seq<Bucket>, b: seq<Bucket>, user: string)
    ensures Owned(a + b, user) == Owned(a, user) + Owned(b, user)
    decreases |b|
  {
    if b == [] {
      assert a + b == a;
    } else {
      var init, last := b[..|b| - 1], b[|b| - 1];
      assert a + b == (a + init) + [last];
      OwnedStep(a + init, last, user);
      OwnedDistributes(a, init, user);
      assert b == init + [last];
      OwnedStep(init, last, user);
    }
  }

  /** A name is listed exactly when some bucket of that name carries the user's creator tag;
      buckets whose tagging call failed never are. */
  lemma {:induction false} OwnedMembers(buckets: seq<Bucket>, user: string, x: string)
    ensures x in Owned(buckets, user) <==> exists i :: 0 <= i < |buckets| && buckets[i].name == x && OwnedBy(buckets[i], user)
  {
    if buckets != [] {
      var init, last := buckets[..|buckets| - 1], buckets[|buckets| - 1];
      OwnedMembers(init, user, x);
      assert forall i :: 0 <= i < |init| ==> init[i] == buckets[i];
      if x in Owned(init, user) {
        var i :| 0 <= i < |init| && init[i].name == x && OwnedBy(init[i], user);
        assert buckets[i] == init[i];
      }
    }
  }

  /** `list_buckets`: a refused listing propagates; a bucket whose tagging call fails is skipped;
      otherwise the bucket is kept when its creator tag equals the configured username. Reading the
      username raises KeyError when the configuration has none and some tagging call succeeded. */
  method ListBuckets(username: Option<string>, listing: ListReply) returns (r: Completion<seq<string>>)
    ensures listing.ListFailed? ==> r == Raises(ClientError(listing.message))
    ensures listing.Listed? && username.Some? ==> r == Returns(Owned(listing.buckets, username.value))
    ensures listing.Listed? && username.None? && (exists i :: 0 <= i < |listing.buckets| && listing.buckets[i].tagging.TagSet?) ==>
      r == Raises(KeyError("username"))
    ensures listing.Listed? && username.None? && (forall i :: 0 <= i < |listing.buckets| ==> listing.buckets[i].tagging.TaggingFailed?) ==>
      r == Returns([])
  {
    if listing.ListFailed? {
      return Raises(ClientError(listing.message));
    }
    var buckets := listing.buckets;
    var names: seq<string> := [];
    var i := 0;
    while i < |buckets|
      invariant 0 <= i <= |buckets|
      invariant username.Some? ==> names == Owned(buckets[..i], username.value)
      invariant username.None? ==> names == [] && forall j :: 0 <= j < i ==> buckets[j].tagging.TaggingFailed?
    {
      var b := buckets[i];
      if b.tagging.TagSet? {
        if username.None? {
          return Raises(KeyError("username"));
        }
        if CreatedBy(b.tagging.tags) == username {
          names := names + [b.name];
        }
      }
      if username.Some? {
        assert buckets[..i + 1] == buckets[..i] + [b];
        OwnedStep(buckets[..i], b, username.value);
      }
      i := i + 1;
    }
    assert buckets[..i] == buckets;
    r := Returns(names);
  }

  // ---------------------------------------------------------------------------
  // upload_file

  datatype UploadOutcome = UploadOutcome(sent: S3Request, uploaded: bool)

  /** `upload_file`: the object key is the given name, else the whole file path (not its base
      name); the result is whether the provider accepted the upload. */
  function UploadFile(bucket: string, filePath: string, objectName: Option<string>, accepted: bool): (r: UploadOutcome)
    ensures r.sent.UploadRequest? && r.sent.filename == filePath && r.sent.bucket == bucket
    ensures objectName.None? ==> r.sent.key == filePath
    ensures objectName.Some? ==> r.sent.key == objectName.value
    ensures r.uploaded == accepted
  {
    UploadOutcome(UploadRequest(filePath, bucket, objectName.GetOr(filePath)), accepted)
  }
}
