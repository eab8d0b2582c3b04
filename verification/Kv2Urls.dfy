/** The KV version 2 request paths and the parser that reads them back. */
module Kv2Urls {
  import opened Common
  import opened PathEncoding

  // --- Decimal numbers ---

  function Decimal(n: nat): Bytes {
    if n < 10 then [(0x30 + n) as byte] else Decimal(n / 10) + [(0x30 + n % 10) as byte]
  }

  predicate IsDigit(b: byte) {
    0x30 <= b <= 0x39
  }

  function ParseDecimal(s: Bytes): Option<nat> {
    if s == [] || !IsDigit(s[|s| - 1]) then None
    else
      var d := s[|s| - 1] as int - 0x30;
      if |s| == 1 then Some(d)
      else match ParseDecimal(s[..|s| - 1])
        case None => None
        case Some(n) => Some(10 * n + d)
  }

  lemma {:induction false} DecimalRoundTrip(n: nat)
    ensures ParseDecimal(Decimal(n)) == Some(n)
    ensures forall i :: 0 <= i < |Decimal(n)| ==> IsDigit(Decimal(n)[i])
  {
    if n >= 10 {
      DecimalRoundTrip(n / 10);
      var s := Decimal(n);
      assert s[..|s| - 1] == Decimal(n / 10);
    }
  }

  // --- Building paths ---

  const EQUALS: byte := 0x3D
  const DATA: Bytes := [0x64, 0x61, 0x74, 0x61] // data
  const SUBKEYS: Bytes := [0x73, 0x75, 0x62, 0x6B, 0x65, 0x79, 0x73] // subkeys
  const VERSION: Bytes := [0x76, 0x65, 0x72, 0x73, 0x69, 0x6F, 0x6E] // version
  const DEPTH: Bytes := [0x64, 0x65, 0x70, 0x74, 0x68] // depth

  /** The optional `?key=number` tail of a path. */
  datatype Query = NoQuery | Query(key: Bytes, number: nat)

  /** `"{mount}/{op}/"`: the handler holds the mount already encoded. */
  function Head(mount: Bytes, op: Bytes): Bytes {
    Encode(mount) + [SLASH] + op + [SLASH]
  }

  function Tail(query: Query): Bytes {
    match query
    case NoQuery => []
    case Query(key, number) => [QUESTION] + (key + [EQUALS] + Decimal(number))
  }

  /**
   * `"{mount}/{op}/{path}"` with the query appended, as the handlers format it: `data` without
   * a query in `read`; `delete`, `undelete` and `destroy` in `version_op`.
   */
  function Url(mount: Bytes, op: Bytes, path: Bytes, query: Query): Bytes {
    Head(mount, op) + Encode(path) + Tail(query)
  }

  /** `read_version`. */
  function VersionUrl(mount: Bytes, path: Bytes, version: u64): Bytes {
    Url(mount, DATA, path, Query(VERSION, version as nat))
  }

  /** `read_subkeys`. */
  function SubkeysUrl(mount: Bytes, path: Bytes, depth: Option<u32>): Bytes {
    Url(mount, SUBKEYS, path, DepthQuery(depth))
  }

  function DepthQuery(depth: Option<u32>): Query {
    match depth case None => NoQuery case Some(d) => Query(DEPTH, d as nat)
  }

  // --- Reading them back ---

  /** The number of bytes before the first `b`. */
  function Before(s: Bytes, b: byte): (k: nat)
    ensures k <= |s|
    ensures forall i :: 0 <= i < k ==> s[i] != b
    ensures k < |s| ==> s[k] == b
  {
    if s == [] || s[0] == b then 0 else 1 + Before(s[1..], b)
  }

  /** The text after `prefix`, if `s` starts with it. */
  function StripPrefix(s: Bytes, prefix: Bytes): Option<Bytes> {
    if prefix <= s then Some(s[|prefix|..]) else None
  }

  function ParseQuery(s: Bytes): Option<Query> {
    var k := Before(s, EQUALS);
    if k == |s| then None
    else match ParseDecimal(s[k + 1..])
      case None => None
      case Some(n) => Some(Query(s[..k], n))
  }

  /** The text before the first `?`, and the text after it. */
  function Cut(url: Bytes): (Bytes, Option<Bytes>) {
    var k := Before(url, QUESTION);
    if k == |url| then (url, None) else (url[..k], Some(url[k + 1..]))
  }

  /** What a server that knows the part in front of the secret path reads out of a path. */
  function ParseAfter(head: Bytes, url: Bytes): Option<(Bytes, Query)> {
    match StripPrefix(Cut(url).0, head)
    case None => None
    case Some(path) =>
      match Cut(url).1
      case None => Some((Decode(path), NoQuery))
      case Some(text) =>
        match ParseQuery(text)
        case None => None
        case Some(q) => Some((Decode(path), q))
  }

  /** The server knows the mount and the operation. */
  function Parse(mount: Bytes, op: Bytes, url: Bytes): Option<(Bytes, Query)> {
    ParseAfter(Head(mount, op), url)
  }

  /** Operation names and query keys hold no delimiter. */
  predicate PlainWord(s: Bytes) {
    QUESTION !in s && EQUALS !in s
  }

  lemma BeforeUnique(left: Bytes, b: byte, right: Bytes)
    requires b !in left
    ensures Before(left + [b] + right, b) == |left|
    ensures Before(left, b) == |left|
  {
    var s := left + [b] + right;
    assert s[|left|] == b;
    assert forall i :: 0 <= i < |left| ==> s[i] == left[i];
  }

  lemma ParseQueryRoundTrip(key: Bytes, n: nat)
    requires PlainWord(key)
    ensures ParseQuery(key + [EQUALS] + Decimal(n)) == Some(Query(key, n))
    ensures QUESTION !in key + [EQUALS] + Decimal(n)
  {
    var s := key + [EQUALS] + Decimal(n);
    DecimalRoundTrip(n);
    BeforeUnique(key, EQUALS, Decimal(n));
    assert s[..|key|] == key;
    assert s[|key| + 1..] == Decimal(n);
  }

  lemma HeadIsPlain(mount: Bytes, op: Bytes, path: Bytes)
    requires PlainWord(op)
    ensures QUESTION !in Head(mount, op) + Encode(path)
  {
    EncodeAlphabet(mount);
    EncodeAlphabet(path);
  }

  /** A path holds at most one `?`: the one in front of its query. */
  lemma UrlHasOneQuestion(mount: Bytes, op: Bytes, path: Bytes, query: Query, i: nat, j: nat)
    requires PlainWord(op) && (query.Query? ==> PlainWord(query.key))
    requires i < |Url(mount, op, path, query)| && j < |Url(mount, op, path, query)|
    requires Url(mount, op, path, query)[i] == Url(mount, op, path, query)[j] == QUESTION
    ensures query.Query? && i == j == |Head(mount, op) + Encode(path)|
  {
    HeadIsPlain(mount, op, path);
    OnlyInTail(Head(mount, op) + Encode(path), query, i);
    OnlyInTail(Head(mount, op) + Encode(path), query, j);
  }

  lemma OnlyInTail(plain: Bytes, query: Query, i: nat)
    requires QUESTION !in plain && (query.Query? ==> PlainWord(query.key))
    requires i < |plain + Tail(query)| && (plain + Tail(query))[i] == QUESTION
    ensures query.Query? && i == |plain|
  {
    if query.Query? {
      ParseQueryRoundTrip(query.key, query.number);
    }
  }

  lemma ParseAfterHead(head: Bytes, encoded: Bytes, query: Query)
    requires QUESTION !in head + encoded && (query.Query? ==> PlainWord(query.key))
    ensures ParseAfter(head, head + encoded + Tail(query)) == Some((Decode(encoded), query))
  {
    var plain := head + encoded;
    assert StripPrefix(plain, head) == Some(encoded) by {
      assert plain[|head|..] == encoded;
    }
    CutPlain(plain);
    if query.Query? {
      ParseQueryRoundTrip(query.key, query.number);
      CutAt(plain, query.key + [EQUALS] + Decimal(query.number));
    } else {
      assert plain + [] == plain;
    }
  }

  lemma CutPlain(s: Bytes)
    requires QUESTION !in s
    ensures Cut(s) == (s, None)
  {
  }

  /** Parsing recovers the path and the query, for every mount, path and number. */
  lemma ParseUndoesUrl(mount: Bytes, op: Bytes, path: Bytes, query: Query)
    requires PlainWord(op) && (query.Query? ==> PlainWord(query.key))
    ensures Parse(mount, op, Url(mount, op, path, query)) == Some((path, query))
  {
    HeadIsPlain(mount, op, path);
    DecodeUndoesEncode(path);
    ParseAfterHead(Head(mount, op), Encode(path), query);
  }

  lemma CutAt(left: Bytes, right: Bytes)
    requires QUESTION !in left
    ensures Cut(left + ([QUESTION] + right)) == (left, Some(right))
  {
    var s := left + ([QUESTION] + right);
    BeforeUnique(left, QUESTION, right);
    assert s == left + [QUESTION] + right;
    assert s[..|left|] == left;
    assert s[|left| + 1..] == right;
  }

  /** The versioned read path determines the secret path and the version. */
  lemma VersionUrlRoundTrip(mount: Bytes, path: Bytes, version: u64)
    ensures Parse(mount, DATA, VersionUrl(mount, path, version)) == Some((path, Query(VERSION, version as nat)))
  {
    ParseUndoesUrl(mount, DATA, path, Query(VERSION, version as nat));
  }

  /** So does the subkeys path, with and without a depth. */
  lemma SubkeysUrlRoundTrip(mount: Bytes, path: Bytes, depth: Option<u32>)
    ensures Parse(mount, SUBKEYS, SubkeysUrl(mount, path, depth)) == Some((path, DepthQuery(depth)))
  {
    ParseUndoesUrl(mount, SUBKEYS, path, DepthQuery(depth));
  }

  // --- What the paths look like ---

  lemma UrlSegments(mount: Bytes, op: Bytes, path: Bytes, query: Query)
    requires PlainWord(op) && SLASH !in op
    ensures Segments(Cut(Url(mount, op, path, query)).0) ==
            EncodeAll(Segments(mount)) + [op] + EncodeAll(Segments(path))
    ensures Cut(Url(mount, op, path, query)).1 ==
            match query
            case NoQuery => None
            case Query(key, number) => Some(key + [EQUALS] + Decimal(number))
  {
    var plain := Head(mount, op) + Encode(path);
    HeadIsPlain(mount, op, path);
    match query {
      case NoQuery =>
        assert plain + [] == plain;
        CutPlain(plain);
      case Query(key, number) => CutAt(plain, key + [EQUALS] + Decimal(number));
    }
    assert plain == Encode(mount) + [SLASH] + (op + [SLASH] + Encode(path));
    SegmentsOfWord(op);
    SegmentsJoin(op, Encode(path));
    SegmentsJoin(Encode(mount), op + [SLASH] + Encode(path));
    EncodeKeepsSegments(mount);
    EncodeKeepsSegments(path);
  }

  /** In front of `?`: the mount, `data` and the secret path; behind it `version=` and the number. */
  lemma VersionUrlSegments(mount: Bytes, path: Bytes, version: u64)
    ensures var url := Cut(VersionUrl(mount, path, version));
            && Segments(url.0) == EncodeAll(Segments(mount)) + [[0x64, 0x61, 0x74, 0x61]] + EncodeAll(Segments(path))
            && url.1 == Some([0x76, 0x65, 0x72, 0x73, 0x69, 0x6F, 0x6E, 0x3D] + Decimal(version as nat))
  {
    UrlSegments(mount, DATA, path, Query(VERSION, version as nat));
    assert VERSION + [EQUALS] == [0x76, 0x65, 0x72, 0x73, 0x69, 0x6F, 0x6E, 0x3D];
  }

  /** In front of `?`: the mount, `subkeys` and the secret path; behind it `depth=` and the number, if any. */
  lemma SubkeysUrlSegments(mount: Bytes, path: Bytes, depth: Option<u32>)
    ensures var url := Cut(SubkeysUrl(mount, path, depth));
            && Segments(url.0) == EncodeAll(Segments(mount)) + [[0x73, 0x75, 0x62, 0x6B, 0x65, 0x79, 0x73]]
                                  + EncodeAll(Segments(path))
            && url.1 == match depth
                        case None => None
                        case Some(d) => Some([0x64, 0x65, 0x70, 0x74, 0x68, 0x3D] + Decimal(d as nat))
  {
    UrlSegments(mount, SUBKEYS, path, DepthQuery(depth));
    assert DEPTH + [EQUALS] == [0x64, 0x65, 0x70, 0x74, 0x68, 0x3D];
  }

  /** No two different requests to a mount share a path. */
  lemma UrlInjective(mount: Bytes, op: Bytes, path: Bytes, query: Query, op': Bytes, path': Bytes, query': Query)
    requires PlainWord(op) && SLASH !in op && (query.Query? ==> PlainWord(query.key))
    requires PlainWord(op') && SLASH !in op' && (query'.Query? ==> PlainWord(query'.key))
    requires Url(mount, op, path, query) == Url(mount, op', path', query')
    ensures op == op' && path == path' && query == query'
  {
    var front := Encode(mount) + [SLASH];
    var rest := Encode(path) + Tail(query);
    var rest' := Encode(path') + Tail(query');
    UrlParts(mount, op, path, query);
    UrlParts(mount, op', path', query');
    SameSuffix(front, op + [SLASH] + rest, op' + [SLASH] + rest');
    SameWord(op, rest, op', rest');
    ParseUndoesUrl(mount, op, path, query);
    ParseUndoesUrl(mount, op', path', query');
  }

  lemma UrlParts(mount: Bytes, op: Bytes, path: Bytes, query: Query)
    ensures Url(mount, op, path, query)
            == (Encode(mount) + [SLASH]) + (op + [SLASH] + (Encode(path) + Tail(query)))
  {
  }

  lemma SameSuffix(front: Bytes, a: Bytes, b: Bytes)
    requires front + a == front + b
    ensures a == b
  {
    assert (front + a)[|front|..] == a && (front + b)[|front|..] == b;
  }

  lemma SameWord(op: Bytes, rest: Bytes, op': Bytes, rest': Bytes)
    requires SLASH !in op && SLASH !in op' && op + [SLASH] + rest == op' + [SLASH] + rest'
    ensures op == op'
  {
    BeforeUnique(op, SLASH, rest);
    BeforeUnique(op', SLASH, rest');
    assert (op + [SLASH] + rest)[..|op|] == op;
    assert (op' + [SLASH] + rest')[..|op'|] == op';
  }
}
