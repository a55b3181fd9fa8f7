/**
 * LiveCheck models: the `SignalEvent` and `TestExecution` records, the header
 * mapping that carries a requested test execution on a message, and the
 * identifiers derived from a test execution.
 *
 * Header values are of a type parameter `V`: the mapping may hold any value,
 * and these operations pass header values through without looking at them.
 */
module LiveCheckModels {
  import opened Wrappers
  import PyStr

  const HEADER_TEST_ID: string := "LiveCheck-Test-Id"
  const HEADER_TEST_NAME: string := "LiveCheck-Test-Name"
  const HEADER_TEST_TIMESTAMP: string := "LiveCheck-Test-Timestamp"

  /** The three header keys a test execution is written to. */
  const HEADER_KEYS: set<string> := {HEADER_TEST_ID, HEADER_TEST_NAME, HEADER_TEST_TIMESTAMP}

  /** A signal sent to a running test case; a plain record without behaviour. */
  datatype SignalEvent<K, V> = SignalEvent(signalName: string, caseName: string, key: K, value: V)

  /**
   * A requested test execution.
   *
   * The declared fields are `id`, `case_name`, `timestamp`, `test_args` and
   * `test_kwargs`. `from_headers` and `as_headers` also use a `name` slot that
   * is not declared, and `from_headers` never supplies `case_name`; both are
   * kept here as they are: `caseName` is `None` when the record was built
   * without it, and `name` is a slot of its own. `timestamp` is opaque: it is
   * carried, never computed with.
   */
  datatype TestExecution<V> = TestExecution(
    id: V,
    caseName: Option<string>,
    name: Option<V>,
    timestamp: Option<V>,
    testArgs: seq<V>,
    testKwargs: map<string, V>)

  /**
   * `TestExecution.from_headers`: no record when the test-id header is
   * missing; otherwise a record whose id is that header, whose name and
   * timestamp are the other two headers or `None`, with no arguments.
   */
  function FromHeaders<V>(headers: map<string, V>): (r: Option<TestExecution<V>>)
    ensures r.None? <==> HEADER_TEST_ID !in headers
    ensures r.Some? ==> r.value.id == headers[HEADER_TEST_ID]
    ensures r.Some? ==> r.value.name == Get(headers, HEADER_TEST_NAME)
    ensures r.Some? ==> r.value.timestamp == Get(headers, HEADER_TEST_TIMESTAMP)
    ensures r.Some? ==> r.value.testArgs == [] && r.value.testKwargs == map[]
    ensures r.Some? ==> r.value.caseName.None?
  {
    if HEADER_TEST_ID !in headers then None
    else
      Some(TestExecution(
        id := headers[HEADER_TEST_ID],
        caseName := None,
        name := Get(headers, HEADER_TEST_NAME),
        timestamp := Get(headers, HEADER_TEST_TIMESTAMP),
        testArgs := [],
        testKwargs := map[]))
  }

  /**
   * `TestExecution.as_headers`: exactly the three header keys, holding the
   * id, the name and the timestamp (`None` where the record has none).
   */
  function AsHeaders<V>(t: TestExecution<V>): (h: map<string, Option<V>>)
    ensures h.Keys == HEADER_KEYS && |h| == 3
    ensures h[HEADER_TEST_ID] == Some(t.id)
    ensures h[HEADER_TEST_NAME] == t.name
    ensures h[HEADER_TEST_TIMESTAMP] == t.timestamp
  {
    var h := map[HEADER_TEST_ID := Some(t.id), HEADER_TEST_NAME := t.name, HEADER_TEST_TIMESTAMP := t.timestamp];
    assert |h.Keys| == |{HEADER_TEST_ID, HEADER_TEST_NAME}| + 1;
    h
  }

  /**
   * Decoding then encoding keeps the three LiveCheck headers (a missing name
   * or timestamp comes back as `None`) and drops every other header.
   */
  lemma HeadersRoundTrip<V>(headers: map<string, V>)
    requires HEADER_TEST_ID in headers
    ensures FromHeaders(headers).Some?
    ensures var h := AsHeaders(FromHeaders(headers).value);
      && h.Keys == HEADER_KEYS
      && forall k :: k in HEADER_KEYS ==> h[k] == Get(headers, k)
  {
  }

  /** With all three headers present the round trip gives them back unchanged. */
  lemma HeadersRoundTripComplete<V>(headers: map<string, V>)
    requires HEADER_KEYS <= headers.Keys
    ensures AsHeaders(FromHeaders(headers).value) == map k | k in HEADER_KEYS :: Some(headers[k])
  {
  }

  /**
   * Encoding then decoding keeps the id, name and timestamp and loses the
   * rest. A `None` header value reads back as `None` through `.get`, as an
   * absent key does, so the decoder is given the headers that hold a value.
   */
  lemma RecordRoundTrip<V>(t: TestExecution<V>)
    ensures var h := AsHeaders(t);
      var decoded := FromHeaders(map k | k in h && h[k].Some? :: h[k].value);
      && decoded.Some?
      && decoded.value == t.(caseName := None, testArgs := [], testKwargs := map[])
  {
  }

  /** `_build_ident`: the name, a colon, then the id. */
  function BuildIdent(name: string, id: string): (r: string)
    ensures ':' !in name ==> ParseIdent(r) == Some((name, id))
  {
    var r := name + ":" + id;
    assert r[|name|] == ':' && r[..|name|] == name && r[|name| + 1..] == id;
    r
  }

  /**
   * Reads a name and an id back from an identifier: everything before the
   * first colon, and everything after it.
   */
  function ParseIdent(s: string): (r: Option<(string, string)>)
    ensures r.None? <==> ':' !in s
    ensures r.Some? ==> ':' !in r.value.0 && s == r.value.0 + ":" + r.value.1
  {
    if ':' !in s then None
    else
      var i := PyStr.Find(s, ':');
      assert s == s[..i] + ":" + s[i + 1..];
      Some((s[..i], s[i + 1..]))
  }

  /** Two identifiers built from colon-free names are equal only for equal names and ids. */
  lemma BuildIdentInjective(n1: string, i1: string, n2: string, i2: string)
    requires ':' !in n1 && ':' !in n2
    requires BuildIdent(n1, i1) == BuildIdent(n2, i2)
    ensures n1 == n2 && i1 == i2
  {
  }

  /** The identifier starts with the name and a colon and ends with the id. */
  lemma BuildIdentParts(name: string, id: string)
    ensures var r := BuildIdent(name, id);
      && |r| == |name| + 1 + |id|
      && r[..|name| + 1] == name + ":"
      && r[|name| + 1..] == id
  {
  }

  /**
   * `ident`: the case name and the id joined by a colon. A record without a
   * case name has no identifier.
   */
  function Ident(t: TestExecution<string>): (r: Option<string>)
    ensures r.Some? <==> t.caseName.Some?
    ensures r.Some? ==> r.value == t.caseName.value + ":" + t.id
    ensures r.Some? && ':' !in t.caseName.value ==> ParseIdent(r.value) == Some((t.caseName.value, t.id))
  {
    match t.caseName
    case None => None
    case Some(caseName) => Some(BuildIdent(caseName, t.id))
  }

  /** `short_case_name`: the case name's segment after its last dot, `case_name.split('.')[-1]`. */
  function ShortCaseName(caseName: string): (r: string)
    ensures '.' !in r
    ensures |r| <= |caseName| && caseName[|caseName| - |r|..] == r
    ensures '.' !in caseName ==> r == caseName
    ensures '.' in caseName ==>
      |r| < |caseName| && caseName == caseName[..|caseName| - |r| - 1] + "." + r
  {
    var parts := PyStr.Split(caseName, '.');
    var r := parts[|parts| - 1];
    PyStr.JoinSplit(caseName, '.');
    if |parts| >= 2 then
      PyStr.JoinLast(parts, '.');
      var prefix := PyStr.Join(parts[..|parts| - 1], '.');
      assert caseName == prefix + "." + r;
      assert caseName[..|caseName| - |r| - 1] == prefix;
      r
    else
      r
  }

  /** The short case name agrees with the segment found by walking back from the end. */
  lemma ShortCaseNameIsLastSegment(caseName: string)
    ensures ShortCaseName(caseName) == PyStr.LastSegment(caseName, '.')
  {
    var r := ShortCaseName(caseName);
    PyStr.LastSegmentUnique(caseName, '.', r, PyStr.LastSegment(caseName, '.'));
  }

  /**
   * `shortident`: the short case name and the abbreviated id joined by a
   * colon. `abbr` stands for the text abbreviation helper, applied with a
   * maximum of 15 characters and the suffix `[...]`; nothing is assumed
   * about it.
   */
  function ShortIdent(t: TestExecution<string>, abbr: string -> string): (r: Option<string>)
    ensures r.Some? <==> t.caseName.Some?
    ensures r.Some? ==>
      var prefix := ShortCaseName(t.caseName.value) + ":";
      |prefix| <= |r.value| && r.value[..|prefix|] == prefix
    ensures r.Some? && ':' !in t.caseName.value ==>
      ParseIdent(r.value) == Some((ShortCaseName(t.caseName.value), abbr(t.id)))
  {
    match t.caseName
    case None => None
    case Some(caseName) =>
      var short := ShortCaseName(caseName);
      BuildIdentParts(short, abbr(t.id));
      assert ':' !in caseName ==> ':' !in short by {
        if ':' in short {
          var k :| 0 <= k < |short| && short[k] == ':';
          assert caseName[|caseName| - |short| + k] == ':';
        }
      }
      Some(BuildIdent(short, abbr(t.id)))
  }

  /**
   * For a case name without dots and an abbreviation that leaves the id
   * alone, the short identifier is the identifier.
   */
  lemma ShortIdentIsIdent(t: TestExecution<string>, abbr: string -> string)
    requires t.caseName.Some? && '.' !in t.caseName.value
    requires abbr(t.id) == t.id
    ensures ShortIdent(t, abbr) == Ident(t)
  {
  }
  /**
   * As written, the test-name header goes to the `name` slot and never
   * reaches `case_name`, so a record decoded from headers has no identifier
   * even when the name header is there.
   */
  lemma DecodedRecordHasNoIdent(headers: map<string, string>)
    requires HEADER_TEST_ID in headers
    ensures FromHeaders(headers).Some?
    ensures Ident(FromHeaders(headers).value).None?
    ensures ShortIdent(FromHeaders(headers).value, s => s).None?
  {
  }

  /** A concrete pair of headers that names the test case and still yields no identifier. */
  lemma DecodedRecordHasNoIdentExample()
    ensures var headers := map[HEADER_TEST_ID := "t1", HEADER_TEST_NAME := "orders.test_order"];
      && HEADER_TEST_NAME in headers
      && FromHeaders(headers).value.name == Some("orders.test_order")
      && Ident(FromHeaders(headers).value).None?
  {
  }

  /**
   * `from_headers` as evidently intended: the test-name header fills
   * `case_name`, the field that `ident` and `short_case_name` read.
   */
  function FromHeadersIntended(headers: map<string, string>): (r: Option<TestExecution<string>>)
    ensures r.None? <==> HEADER_TEST_ID !in headers
    ensures r.Some? ==> r.value.id == headers[HEADER_TEST_ID]
    ensures r.Some? ==> r.value.caseName == Get(headers, HEADER_TEST_NAME)
    ensures r.Some? ==> r.value.timestamp == Get(headers, HEADER_TEST_TIMESTAMP)
    ensures r.Some? ==> r.value.testArgs == [] && r.value.testKwargs == map[]
  {
    if HEADER_TEST_ID !in headers then None
    else
      Some(TestExecution(
        id := headers[HEADER_TEST_ID],
        caseName := Get(headers, HEADER_TEST_NAME),
        name := None,
        timestamp := Get(headers, HEADER_TEST_TIMESTAMP),
        testArgs := [],
        testKwargs := map[]))
  }

  /** `as_headers` as evidently intended: the test-name header carries `case_name`. */
  function AsHeadersIntended(t: TestExecution<string>): (h: map<string, Option<string>>)
    ensures h.Keys == HEADER_KEYS && |h| == 3
    ensures h[HEADER_TEST_ID] == Some(t.id)
    ensures h[HEADER_TEST_NAME] == t.caseName
    ensures h[HEADER_TEST_TIMESTAMP] == t.timestamp
  {
    var h := map[HEADER_TEST_ID := Some(t.id), HEADER_TEST_NAME := t.caseName, HEADER_TEST_TIMESTAMP := t.timestamp];
    assert |h.Keys| == |{HEADER_TEST_ID, HEADER_TEST_NAME}| + 1;
    h
  }

  /**
   * With the intended decoder, a record read from headers that name the test
   * case has an identifier and a short identifier built from those headers,
   * and encoding it gives the three headers back.
   */
  lemma IntendedHeadersGiveIdent(headers: map<string, string>, abbr: string -> string)
    requires HEADER_TEST_ID in headers && HEADER_TEST_NAME in headers
    ensures var t := FromHeadersIntended(headers).value;
      && Ident(t) == Some(headers[HEADER_TEST_NAME] + ":" + headers[HEADER_TEST_ID])
      && ShortIdent(t, abbr) == Some(ShortCaseName(headers[HEADER_TEST_NAME]) + ":" + abbr(headers[HEADER_TEST_ID]))
      && forall k :: k in HEADER_KEYS ==> AsHeadersIntended(t)[k] == Get(headers, k)
  {
  }
}
