/**
 * Access to request data (src/Common/HTTP/PHPServerRequest.php): body
 * values, request headers derived from the CGI meta-variables in the
 * server array (sections 4.1.2, 4.1.3 and 4.1.18 of RFC 3875), and
 * server values, each cached in a static property that is meant to be
 * filled on first use.
 */
module ServerRequest {
  import opened Wrappers
  import opened OrderedMaps
  import opened PhpStrings

  /** A PHP array of strings keyed by strings. */
  type StringArray = OrderedMap<string, string>

  /** PHP's `INPUT_*` constants, the keys of the `$values` cache. */
  const INPUT_POST: int := 0
  const INPUT_GET: int := 1
  const INPUT_REQUEST: int := 99

  /** The process inputs the class reads through superglobals, filters and streams. */
  datatype Environment = Environment(
    server: StringArray,           // $_SERVER
    query: StringArray,            // filter_input_array( INPUT_GET, FILTER_DEFAULT, false )
    form: StringArray,             // filter_input_array( INPUT_POST, FILTER_DEFAULT, false )
    rawBody: Option<StringArray>,  // parse_str of php://input; None when that is not an array
    apacheHeaders: StringArray)    // apache_request_headers(); empty when it gives nothing
  {
    ghost predicate Valid() {
      server.Valid() && query.Valid() && form.Valid() && apacheHeaders.Valid()
      && (rawBody.Some? ==> rawBody.value.Valid())
    }
  }

  /** `$_SERVER[ $name ] ?? ''`. */
  function ServerVariable(env: Environment, name: string): string {
    env.server.Get(name).GetOr("")
  }

  /** `array_merge( $a, $b )` on string keys: `$b` wins, `$a`'s keys stay first. */
  function ArrayMerge(a: StringArray, b: StringArray): (r: StringArray)
    requires a.Valid() && b.Valid()
    ensures r.Valid()
    ensures r.values == a.values + b.values
    ensures a.keys <= r.keys
  {
    PutAllValues(a, b);
    PutAll(a, b.Items())
  }

  /** The request method counts as POST: truthy and `POST` once upper-cased. */
  predicate IsPost(env: Environment)
    ensures IsPost(env) <==> ToUpper(ServerVariable(env, "REQUEST_METHOD")) == "POST"
  {
    var requestMethod := ServerVariable(env, "REQUEST_METHOD");
    Truthy(requestMethod) && ToUpper(requestMethod) == "POST"
  }

  /** What `ensure_values` stores when it runs: the per-input value arrays. */
  function RequestValues(env: Environment): (values: OrderedMap<int, StringArray>)
    requires env.Valid()
    ensures values.Valid()
    ensures |values.keys| > 0 && values.keys[0] == INPUT_GET && values.values[INPUT_GET] == env.query
    ensures INPUT_REQUEST in values.values
    ensures INPUT_POST in values.values <==> IsPost(env)
  {
    var withQuery := Empty().Put(INPUT_GET, env.query);
    var requestMethod := ServerVariable(env, "REQUEST_METHOD");
    if IsPost(env) then
      withQuery.Put(INPUT_POST, env.form).Put(INPUT_REQUEST, ArrayMerge(env.query, env.form))
    else if requestMethod == "GET" || ServerVariable(env, "CONTENT_TYPE") != "application/x-www-form-urlencoded" then
      withQuery.Put(INPUT_REQUEST, env.query)
    else
      match env.rawBody
      case Some(body) => withQuery.Put(INPUT_REQUEST, ArrayMerge(env.query, body))
      case None => withQuery.Put(INPUT_REQUEST, env.query)
  }

  /**
   * For a POST request the REQUEST values are the query merged with the
   * form, the form winning on shared names, and the form data is kept
   * under INPUT_POST.
   */
  lemma PostMergesQueryAndForm(env: Environment)
    requires env.Valid() && IsPost(env)
    ensures var values := RequestValues(env);
      && values.keys == [INPUT_GET, INPUT_POST, INPUT_REQUEST]
      && values.values[INPUT_GET] == env.query
      && values.values[INPUT_POST] == env.form
      && values.values[INPUT_REQUEST].values == env.query.values + env.form.values
      && env.query.keys <= values.values[INPUT_REQUEST].keys
  {
  }

  /** A GET request, or any other non-POST request that is not URL-encoded, has the query as REQUEST values. */
  lemma OtherRequestsUseQuery(env: Environment)
    requires env.Valid() && !IsPost(env)
    requires ServerVariable(env, "REQUEST_METHOD") == "GET"
      || ServerVariable(env, "CONTENT_TYPE") != "application/x-www-form-urlencoded"
    ensures var values := RequestValues(env);
      && values.keys == [INPUT_GET, INPUT_REQUEST]
      && values.values[INPUT_GET] == env.query
      && values.values[INPUT_REQUEST] == env.query
  {
  }

  /** A URL-encoded request with another method merges the decoded body into the query. */
  lemma UrlEncodedBodyMerged(env: Environment)
    requires env.Valid() && !IsPost(env)
    requires ServerVariable(env, "REQUEST_METHOD") != "GET"
    requires ServerVariable(env, "CONTENT_TYPE") == "application/x-www-form-urlencoded"
    ensures var values := RequestValues(env);
      && values.keys == [INPUT_GET, INPUT_REQUEST]
      && values.values[INPUT_REQUEST].values == env.query.values + (if env.rawBody.Some? then env.rawBody.value.values else map[])
  {
  }

  /** The header a server variable becomes, if any: `HTTP_FOO_BAR` gives `foo-bar`, `CONTENT_TYPE` gives `content-type`. */
  function HeaderName(key: string): (r: Option<string>)
    ensures r.Some? <==> HasPrefix(key, "HTTP_") || HasPrefix(key, "CONTENT_")
    ensures HasPrefix(key, "HTTP_") ==> r.Some? && |r.value| == |key| - 5 && forall i :: 0 <= i < |r.value| ==> r.value[i] != '_'
    ensures !HasPrefix(key, "HTTP_") && HasPrefix(key, "CONTENT_") ==> r.Some? && HasPrefix(r.value, "content-")
  {
    if HasPrefix(key, "HTTP_") then Some(ReplaceChar(ToLower(key[5..]), '_', '-'))
    else if HasPrefix(key, "CONTENT_") then Some("content-" + ToLower(key[8..]))
    else None
  }

  /** The assignment to `$headers` that server entry `(key, value)` makes in `ensure_headers`, if any. */
  function HeaderEntry(server: StringArray, item: (string, string)): (r: Option<(string, string)>)
    ensures r.Some? ==> r.value.1 == item.1 && Truthy(item.1)
  {
    var (rawKey, value) := item;
    var redirected := HasPrefix(rawKey, "REDIRECT_");
    var key := if redirected then rawKey[9..] else rawKey;
    if redirected && key in server.values then None
    else if !Truthy(value) then None
    else match HeaderName(key)
      case Some(name) => Some((name, value))
      case None => None
  }

  /** The headers derived from the first entries of a server array. */
  function HeadersFrom(server: StringArray, items: seq<(string, string)>): (headers: StringArray)
    ensures headers.Valid()
  {
    Fold(Empty(), items, item => HeaderEntry(server, item))
  }

  /** The request headers `ensure_headers` derives from a server array. */
  function RequestHeaders(server: StringArray): (headers: StringArray)
    requires server.Valid()
    ensures headers.Valid()
  {
    HeadersFrom(server, server.Items())
  }

  /** Server entry `i` produces header `name`. */
  ghost predicate ProducesHeader(server: StringArray, i: int, name: string)
    requires server.Valid()
  {
    0 <= i < |server.keys| && HeaderEntry(server, server.Items()[i]).Some? && HeaderEntry(server, server.Items()[i]).value.0 == name
  }

  lemma ProducesHeaderIsAssignment(server: StringArray, i: int, name: string)
    requires server.Valid()
    ensures ProducesHeader(server, i, name) <==> AssignsAt(server.Items(), item => HeaderEntry(server, item), i, name)
  {
  }

  /** Every derived header comes from a server entry with a truthy value whose key (without `REDIRECT_`) is an `HTTP_` or `CONTENT_` variable. */
  lemma HeadersComeFromMetaVariables(server: StringArray)
    requires server.Valid()
    ensures forall name :: name in RequestHeaders(server).values <==> exists i :: ProducesHeader(server, i, name)
    ensures forall i, name :: ProducesHeader(server, i, name) ==>
      var key := server.keys[i];
      var stripped := if HasPrefix(key, "REDIRECT_") then key[9..] else key;
      && Truthy(server.values[key])
      && (HasPrefix(stripped, "HTTP_") || HasPrefix(stripped, "CONTENT_"))
  {
    var f := item => HeaderEntry(server, item);
    FoldKeys(Empty(), server.Items(), f);
    forall name ensures name in RequestHeaders(server).values <==> exists i :: ProducesHeader(server, i, name) {
      if exists i :: ProducesHeader(server, i, name) {
        var i :| ProducesHeader(server, i, name);
        ProducesHeaderIsAssignment(server, i, name);
      }
      if exists i :: AssignsAt(server.Items(), f, i, name) {
        var i :| AssignsAt(server.Items(), f, i, name);
        ProducesHeaderIsAssignment(server, i, name);
      }
    }
  }

  /** The value of header `name` is that of the last server entry producing it. */
  lemma LastProducerWins(server: StringArray, i: nat, name: string)
    requires server.Valid() && ProducesHeader(server, i, name)
    requires forall j :: i < j < |server.keys| ==> !ProducesHeader(server, j, name)
    ensures name in RequestHeaders(server).values
    ensures RequestHeaders(server).values[name] == server.values[server.keys[i]]
  {
    var f := item => HeaderEntry(server, item);
    forall j | i < j < |server.keys| ensures !AssignsAt(server.Items(), f, j, name) {
      ProducesHeaderIsAssignment(server, j, name);
    }
    FoldLastWins(Empty(), server.Items(), f, i);
  }

  /** `HTTP_X` with a truthy value becomes header `x`, lower-cased with `_` turned into `-`. */
  lemma HttpVariableBecomesHeader(server: StringArray, i: nat, x: string)
    requires server.Valid() && i < |server.keys| && server.keys[i] == "HTTP_" + x
    requires Truthy(server.values[server.keys[i]])
    requires forall j :: i < j < |server.keys| ==> !ProducesHeader(server, j, ReplaceChar(ToLower(x), '_', '-'))
    ensures RequestHeaders(server).Get(ReplaceChar(ToLower(x), '_', '-')) == Some(server.values["HTTP_" + x])
  {
    var key := server.keys[i];
    assert key[0] == 'H';
    assert !HasPrefix(key, "REDIRECT_");
    assert HasPrefix(key, "HTTP_") && key[5..] == x;
    assert ProducesHeader(server, i, ReplaceChar(ToLower(x), '_', '-'));
    LastProducerWins(server, i, ReplaceChar(ToLower(x), '_', '-'));
  }

  /** `CONTENT_X` with a truthy value becomes header `content-x`, lower-cased. */
  lemma ContentVariableBecomesHeader(server: StringArray, i: nat, x: string)
    requires server.Valid() && i < |server.keys| && server.keys[i] == "CONTENT_" + x
    requires Truthy(server.values[server.keys[i]])
    requires forall j :: i < j < |server.keys| ==> !ProducesHeader(server, j, "content-" + ToLower(x))
    ensures RequestHeaders(server).Get("content-" + ToLower(x)) == Some(server.values["CONTENT_" + x])
  {
    var key := server.keys[i];
    assert key[0] == 'C';
    assert !HasPrefix(key, "REDIRECT_") && !HasPrefix(key, "HTTP_");
    assert HasPrefix(key, "CONTENT_") && key[8..] == x;
    assert ProducesHeader(server, i, "content-" + ToLower(x));
    LastProducerWins(server, i, "content-" + ToLower(x));
  }

  /**
   * A `REDIRECT_` variable loses its 9-character prefix; it yields nothing
   * when the unprefixed name is itself a server variable, and otherwise
   * yields what the unprefixed variable would.
   */
  lemma RedirectPrefixStripped(server: StringArray, key: string, value: string)
    ensures key in server.values ==> HeaderEntry(server, ("REDIRECT_" + key, value)) == None
    ensures key !in server.values && !HasPrefix(key, "REDIRECT_") ==>
      HeaderEntry(server, ("REDIRECT_" + key, value)) == HeaderEntry(server, (key, value))
  {
    assert HasPrefix("REDIRECT_" + key, "REDIRECT_");
    assert ("REDIRECT_" + key)[9..] == key;
  }

  /** A falsy value, or a key that is neither an `HTTP_` nor a `CONTENT_` variable, yields no header. */
  lemma OtherVariablesIgnored(server: StringArray, key: string, value: string)
    requires !Truthy(value) || (!HasPrefix(key, "REDIRECT_") && !HasPrefix(key, "HTTP_") && !HasPrefix(key, "CONTENT_"))
    ensures HeaderEntry(server, (key, value)) == None
  {
  }

  /** The derivation loop of `ensure_headers`, over an explicit server array. */
  method DeriveHeaders(server: StringArray) returns (headers: StringArray)
    requires server.Valid()
    ensures headers == RequestHeaders(server)
  {
    headers := Empty();
    var items := server.Items();
    for n := 0 to |items|
      invariant headers == HeadersFrom(server, items[..n])
    {
      assert items[..n + 1][..n] == items[..n];
      var (key, value) := items[n];
      // A `REDIRECT_` copy never overrides the unprefixed variable.
      if HasPrefix(key, "REDIRECT_") {
        key := key[9..];
        if key in server.values {
          continue;
        }
      }
      if Truthy(value) && HasPrefix(key, "HTTP_") {
        headers := headers.Put(ReplaceChar(ToLower(key[5..]), '_', '-'), value);
        continue;
      }
      if Truthy(value) && HasPrefix(key, "CONTENT_") {
        headers := headers.Put("content-" + ToLower(key[8..]), value);
        continue;
      }
    }
    assert items[..|items|] == items;
  }

  /** The assignment `array_change_key_case( .., CASE_UPPER )` makes for one entry. */
  function UpperCaseEntry(kv: (string, string)): Option<(string, string)> {
    Some((ToUpper(kv.0), kv.1))
  }

  /** The assignment `array_change_key_case( .., CASE_LOWER )` makes for one entry. */
  function LowerCaseEntry(kv: (string, string)): Option<(string, string)> {
    Some((ToLower(kv.0), kv.1))
  }

  /**
   * `array_change_key_case( $a, CASE_UPPER )`: the keys are the upper-cased
   * keys of `$a`, and colliding keys sit where the first of them was.
   */
  function UpperCaseKeys(a: StringArray): (r: StringArray)
    requires a.Valid()
    ensures r.Valid()
  {
    Fold(Empty(), a.Items(), UpperCaseEntry)
  }

  /** The keys of `array_change_key_case( $a, CASE_UPPER )` are the upper-cased keys of `$a`. */
  lemma UpperCasedKeys(a: StringArray)
    requires a.Valid()
    ensures forall k :: k in UpperCaseKeys(a).values <==> exists i :: 0 <= i < |a.keys| && ToUpper(a.keys[i]) == k
  {
    var items := a.Items();
    var r := UpperCaseKeys(a);
    FoldKeys(Empty(), items, UpperCaseEntry);
    forall k | k in r.values ensures exists i :: 0 <= i < |a.keys| && ToUpper(a.keys[i]) == k {
      var i :| AssignsAt(items, UpperCaseEntry, i, k);
    }
    forall i | 0 <= i < |a.keys| ensures ToUpper(a.keys[i]) in r.values {
      assert AssignsAt(items, UpperCaseEntry, i, ToUpper(a.keys[i]));
    }
  }

  /**
   * Keys that collide once upper-cased keep the position of the first of
   * them: the keys are in the order of their first occurrence.
   */
  lemma UpperCasedKeysOrder(a: StringArray)
    requires a.Valid()
    ensures forall p, q :: 0 <= p < q < |UpperCaseKeys(a).keys| ==>
      AssignedBefore(a.Items(), UpperCaseEntry, UpperCaseKeys(a).keys[p], UpperCaseKeys(a).keys[q])
  {
    var init: StringArray := Empty();
    var r := UpperCaseKeys(a);
    assert r == Fold(init, a.Items(), UpperCaseEntry) && |init.keys| == 0;
    FoldFirstAssignmentOrder(init, a.Items(), UpperCaseEntry);
    var m := Fold(init, a.Items(), UpperCaseEntry);
    forall p, q | 0 <= p < q < |r.keys| ensures AssignedBefore(a.Items(), UpperCaseEntry, r.keys[p], r.keys[q]) {
      assert |init.keys| <= p < q < |m.keys| && m.keys[p] == r.keys[p] && m.keys[q] == r.keys[q];
    }
  }

  /** `array_change_key_case( $a, CASE_LOWER )`: the keys are the lower-cased keys of `$a`. */
  function LowerCaseKeys(a: StringArray): (r: StringArray)
    requires a.Valid()
    ensures r.Valid()
  {
    Fold(Empty(), a.Items(), LowerCaseEntry)
  }

  /** The keys of `array_change_key_case( $a, CASE_LOWER )` are the lower-cased keys of `$a`. */
  lemma LowerCasedKeys(a: StringArray)
    requires a.Valid()
    ensures forall k :: k in LowerCaseKeys(a).values <==> exists i :: 0 <= i < |a.keys| && ToLower(a.keys[i]) == k
  {
    var items := a.Items();
    var r := LowerCaseKeys(a);
    FoldKeys(Empty(), items, LowerCaseEntry);
    forall k | k in r.values ensures exists i :: 0 <= i < |a.keys| && ToLower(a.keys[i]) == k {
      var i :| AssignsAt(items, LowerCaseEntry, i, k);
    }
    forall i | 0 <= i < |a.keys| ensures ToLower(a.keys[i]) in r.values {
      assert AssignsAt(items, LowerCaseEntry, i, ToLower(a.keys[i]));
    }
  }

  /** What `ensure_server` stores when it runs. */
  function ServerSnapshot(env: Environment): (server: StringArray)
    requires env.Valid()
    ensures server.Valid()
  {
    var server := UpperCaseKeys(env.server);
    if "HTTP_AUTHORIZATION" in env.server.values then server
    else if env.apacheHeaders.keys == [] then server
    else
      var apache := LowerCaseKeys(env.apacheHeaders);
      if "authorization" in apache.values then server.Put("HTTP_AUTHORIZATION", apache.values["authorization"])
      else server
  }

  /** Without an `HTTP_AUTHORIZATION` server variable, Apache's `Authorization` header (in any case) is copied in. */
  lemma AuthorizationFallback(env: Environment)
    requires env.Valid() && "HTTP_AUTHORIZATION" !in env.server.values
    requires "authorization" in LowerCaseKeys(env.apacheHeaders).values
    ensures ServerSnapshot(env).Get("HTTP_AUTHORIZATION") == Some(LowerCaseKeys(env.apacheHeaders).values["authorization"])
  {
  }

  /** A static property: `null`, or an array. */
  datatype Slot<T> = Null | Arr(contents: T)

  /** The three static properties of `PHPServerRequest`, shared by all its instances. */
  class StaticCaches {
    var values: Slot<OrderedMap<int, StringArray>>
    var headers: Slot<StringArray>
    var server: Slot<StringArray>

    ghost predicate Valid()
      reads this
    {
      && (values.Arr? ==> values.contents.Valid())
      && (server.Arr? ==> server.contents.Valid())
      && (headers.Arr? ==> headers.contents.Valid())
    }

    /** The properties as declared: each starts as an empty array. */
    constructor ()
      ensures Valid()
      ensures values == Arr(Empty()) && headers == Arr(Empty()) && server == Arr(Empty())
    {
      values := Arr(Empty());
      headers := Arr(Empty());
      server := Arr(Empty());
    }

    /** The properties as the guards expect them: each starts as `null`. */
    constructor Unset()
      ensures Valid()
      ensures values == Null && headers == Null && server == Null
    {
      values := Null;
      headers := Null;
      server := Null;
    }
  }

  /** A header parser; `TrimmingHeaderParser` is the default one. */
  datatype HeaderParser = TrimmingHeaderParser | OtherHeaderParser(name: string)

  /** What `$parser->parse( $header )` returns, for each parser. */
  type ParseFunction = (HeaderParser, string) -> seq<string>

  /** `header`'s answer once the headers are cached: the stored value, or `''`. */
  function CachedHeader(headers: Slot<StringArray>, name: string): string {
    match headers
    case Arr(h) => h.Get(name).GetOr("")
    case Null => ""
  }

  /** `body_value`'s answer once the values are cached: `null` when the input bucket or the name is missing. */
  function CachedBodyValue(values: Slot<OrderedMap<int, StringArray>>, name: string, input: int): Option<string> {
    match values
    case Arr(v) => if input in v.values then v.values[input].Get(name) else None
    case Null => None
  }

  /**
   * `server_value` as written: it upper-cases the name and looks it up in
   * `$values`, whose keys are the `INPUT_*` integers. Only a name that PHP
   * turns into one of those integers is found, and the array found there
   * reads as the string `'Array'`. `array_key_exists` on a `null` `$values`
   * throws a `TypeError` under strict types, given here as `None`.
   */
  function ServerValueAsWritten(values: Slot<OrderedMap<int, StringArray>>, name: string): (r: Option<string>)
    ensures r.None? <==> values.Null?
    ensures r.Some? ==> r.value == "" || r.value == "Array"
    ensures values.Arr? && IntegerKey(ToUpper(name)).None? ==> r == Some("")
  {
    match values
    case Null => None
    case Arr(v) =>
      match IntegerKey(ToUpper(name))
      case Some(k) => if k in v.values then Some("Array") else Some("")
      case None => Some("")
  }

  /** `server_value` as evidently intended: the upper-cased name looked up in the server array. */
  function ServerValueIntended(server: StringArray, name: string): (r: string)
    ensures ToUpper(name) in server.values ==> r == server.values[ToUpper(name)]
    ensures ToUpper(name) !in server.values ==> r == ""
  {
    server.Get(ToUpper(name)).GetOr("")
  }

  /**
   * `server_value` as intended is case-insensitive: it returns the last
   * server variable whose upper-cased name matches, except that the
   * `Authorization` fallback may supply `HTTP_AUTHORIZATION`.
   */
  lemma IntendedServerValueReadsServer(env: Environment, name: string, i: nat)
    requires env.Valid() && i < |env.server.keys|
    requires ToUpper(env.server.keys[i]) == ToUpper(name)
    requires ToUpper(name) != "HTTP_AUTHORIZATION" || "HTTP_AUTHORIZATION" in env.server.values
    requires forall j :: i < j < |env.server.keys| ==> ToUpper(env.server.keys[j]) != ToUpper(name)
    ensures ServerValueIntended(ServerSnapshot(env), name) == env.server.values[env.server.keys[i]]
  {
    var items := env.server.Items();
    forall j | i < j < |items| ensures !AssignsAt(items, UpperCaseEntry, j, ToUpper(name)) {
    }
    FoldLastWins(Empty(), items, UpperCaseEntry, i);
  }

  /**
   * `server_value` as intended answers `''` for a name that no server
   * variable carries in any letter case, `HTTP_AUTHORIZATION` aside.
   */
  lemma IntendedServerValueMissing(env: Environment, name: string)
    requires env.Valid() && ToUpper(name) != "HTTP_AUTHORIZATION"
    requires forall i :: 0 <= i < |env.server.keys| ==> ToUpper(env.server.keys[i]) != ToUpper(name)
    ensures ServerValueIntended(ServerSnapshot(env), name) == ""
  {
    var items := env.server.Items();
    FoldKeys(Empty(), items, UpperCaseEntry);
    forall i | 0 <= i < |items| ensures !AssignsAt(items, UpperCaseEntry, i, ToUpper(name)) {
    }
  }

  /** A server variable name is never found by `server_value` as written, whatever the caches hold. */
  lemma ServerValueMissesServerVariables(values: Slot<OrderedMap<int, StringArray>>, server: StringArray)
    requires values.Arr?
    requires server.Get("REQUEST_METHOD") == Some("GET")
    ensures ServerValueAsWritten(values, "request_method") == Some("")
    ensures ServerValueIntended(server, "request_method") == "GET"
  {
    assert ToUpper("request_method") == "REQUEST_METHOD";
  }

  /** `PHPServerRequest`, over the static caches and the process inputs it reads. */
  class PHPServerRequest {
    const caches: StaticCaches
    const env: Environment
    var defaultHeaderParser: Option<HeaderParser>

    constructor (caches: StaticCaches, env: Environment, defaultHeaderParser: Option<HeaderParser>)
      ensures this.caches == caches && this.env == env && this.defaultHeaderParser == defaultHeaderParser
    {
      this.caches := caches;
      this.env := env;
      this.defaultHeaderParser := defaultHeaderParser;
    }

    /** The server cache after `ensure_server`, from its state before. */
    function ServerAfter(server: Slot<StringArray>): (r: Slot<StringArray>)
      requires env.Valid() && (server.Arr? ==> server.contents.Valid())
      ensures r.Arr? && r.contents.Valid()
      ensures server.Null? ==> r.contents == ServerSnapshot(env)
    {
      if server.Arr? then server else Arr(ServerSnapshot(env))
    }

    /** The header cache after `ensure_headers`, from the header and server caches before. */
    function HeadersAfter(headers: Slot<StringArray>, server: Slot<StringArray>): Slot<StringArray>
      requires env.Valid() && (server.Arr? ==> server.contents.Valid())
    {
      if headers.Arr? then headers else Arr(RequestHeaders(ServerAfter(server).contents))
    }

    /** `ensure_values`: fill `$values` unless it is already non-`null`. */
    method EnsureValues()
      requires env.Valid() && caches.Valid()
      modifies caches`values
      ensures caches.Valid()
      ensures caches.values == if old(caches.values).Arr? then old(caches.values) else Arr(RequestValues(env))
    {
      if caches.values != Null {
        return;
      }
      caches.values := Arr(RequestValues(env));
    }

    /** `ensure_server`: fill `$server` unless it is already non-`null`. */
    method EnsureServer()
      requires env.Valid() && caches.Valid()
      modifies caches`server
      ensures caches.Valid()
      ensures caches.server == ServerAfter(old(caches.server))
    {
      if caches.server != Null {
        return;
      }
      var server := UpperCaseKeys(env.server);
      caches.server := Arr(server);
      if "HTTP_AUTHORIZATION" in env.server.values {
        return;
      }
      // Apache keeps `Authorization` out of the server array; ask it for its own header list.
      var apacheRequestHeaders := env.apacheHeaders;
      if apacheRequestHeaders.keys == [] {
        return;
      }
      apacheRequestHeaders := LowerCaseKeys(env.apacheHeaders);
      if "authorization" in apacheRequestHeaders.values {
        caches.server := Arr(server.Put("HTTP_AUTHORIZATION", apacheRequestHeaders.values["authorization"]));
        return;
      }
    }

    /** `ensure_headers`: derive `$headers` from `$server` unless it is already non-`null`. */
    method EnsureHeaders()
      requires env.Valid() && caches.Valid()
      modifies caches`headers, caches`server
      ensures caches.Valid()
      ensures old(caches.headers).Arr? ==> caches.server == old(caches.server)
      ensures old(caches.headers).Null? ==> caches.server == ServerAfter(old(caches.server))
      ensures caches.headers == HeadersAfter(old(caches.headers), old(caches.server))
    {
      if caches.headers != Null {
        return;
      }
      EnsureServer();
      var headers := DeriveHeaders(caches.server.contents);
      caches.headers := Arr(headers);
    }

    /** `header`: the cached header, or `''`. */
    method Header(name: string) returns (value: string)
      requires env.Valid() && caches.Valid()
      modifies caches`headers, caches`server
      ensures caches.Valid()
      ensures old(caches.headers).Arr? ==> caches.server == old(caches.server)
      ensures old(caches.headers).Null? ==> caches.server == ServerAfter(old(caches.server))
      ensures caches.headers == HeadersAfter(old(caches.headers), old(caches.server))
      ensures value == CachedHeader(caches.headers, name)
    {
      EnsureHeaders();
      value := if caches.headers.Arr? && name in caches.headers.contents.values then caches.headers.contents.values[name] else "";
    }

    /** `body_value` with the default filter `FILTER_UNSAFE_RAW`, which returns the value unchanged. */
    method BodyValue(name: string, input: int) returns (value: Option<string>)
      requires env.Valid() && caches.Valid()
      modifies caches`values
      ensures caches.Valid()
      ensures caches.values == if old(caches.values).Arr? then old(caches.values) else Arr(RequestValues(env))
      ensures value == CachedBodyValue(caches.values, name, input)
    {
      EnsureValues();
      var values := caches.values.contents;
      if input !in values.values || name !in values.values[input].values {
        return None;
      }
      value := Some(values.values[input].values[name]);
    }

    /**
     * `parsed_header`: parse the header with the given parser, or else with
     * the default one, creating and keeping a `TrimmingHeaderParser` when
     * there is none.
     */
    method ParsedHeader(name: string, parser: Option<HeaderParser>, parse: ParseFunction) returns (parsed: seq<string>)
      requires env.Valid() && caches.Valid()
      modifies this, caches`headers, caches`server
      ensures caches.Valid()
      ensures old(caches.headers).Arr? ==> caches.server == old(caches.server)
      ensures old(caches.headers).Null? ==> caches.server == ServerAfter(old(caches.server))
      ensures caches.headers == HeadersAfter(old(caches.headers), old(caches.server))
      ensures defaultHeaderParser == if parser.None? && old(defaultHeaderParser).None? then Some(TrimmingHeaderParser) else old(defaultHeaderParser)
      ensures parsed == parse(if parser.Some? then parser.value else defaultHeaderParser.value, CachedHeader(caches.headers, name))
    {
      EnsureHeaders();
      var header := Header(name);
      if parser.Some? {
        return parse(parser.value, header);
      }
      if defaultHeaderParser.None? {
        defaultHeaderParser := Some(TrimmingHeaderParser);
      }
      parsed := parse(defaultHeaderParser.value, header);
    }

    /** `server_value` as written (see `ServerValueAsWritten`). */
    method ServerValue(name: string) returns (value: Option<string>)
      requires env.Valid() && caches.Valid()
      modifies caches`server
      ensures caches.Valid()
      ensures caches.server == ServerAfter(old(caches.server))
      ensures value == ServerValueAsWritten(caches.values, name)
    {
      EnsureServer();
      var upper := ToUpper(name);
      if caches.values.Null? {
        return None;
      }
      var key := IntegerKey(upper);
      value := if key.Some? && key.value in caches.values.contents.values then Some("Array") else Some("");
    }

    /** `server_value` as evidently intended: the upper-cased name looked up in `$server`. */
    method IntendedServerValue(name: string) returns (value: string)
      requires env.Valid() && caches.Valid()
      modifies caches`server
      ensures caches.Valid()
      ensures caches.server == ServerAfter(old(caches.server))
      ensures value == ServerValueIntended(caches.server.contents, name)
    {
      EnsureServer();
      var upper := ToUpper(name);
      var server := caches.server.contents;
      value := if upper in server.values then server.values[upper] else "";
    }
  }

  /**
   * With the caches as declared, every guard returns at once: nothing is
   * cached, `body_value` answers `null` even for a name the query
   * carries, `header` answers `''` even for a header the server array
   * carries, and `server_value` answers `''`.
   */
  method DeclaredCachesStayEmpty(env: Environment, name: string, input: int)
    returns (bodyValue: Option<string>, header: string, serverValue: Option<string>)
    requires env.Valid()
    ensures bodyValue == None && header == "" && serverValue == Some("")
  {
    var caches := new StaticCaches();
    var request := new PHPServerRequest(caches, env, None);
    bodyValue := request.BodyValue(name, input);
    header := request.Header(name);
    serverValue := request.ServerValue(name);
    assert caches.values == Arr(Empty()) && caches.headers == Arr(Empty());
  }

  /**
   * With `null` caches, as the guards expect, `body_value`, `header` and
   * the intended `server_value` answer from the request.
   */
  method UnsetCachesServeRequest(env: Environment, name: string, input: int)
    returns (bodyValue: Option<string>, header: string, serverValue: string)
    requires env.Valid()
    ensures bodyValue == if input in RequestValues(env).values then RequestValues(env).values[input].Get(name) else None
    ensures header == RequestHeaders(ServerSnapshot(env)).Get(name).GetOr("")
    ensures serverValue == ServerValueIntended(ServerSnapshot(env), name)
  {
    var caches := new StaticCaches.Unset();
    var request := new PHPServerRequest(caches, env, None);
    bodyValue := request.BodyValue(name, input);
    header := request.Header(name);
    serverValue := request.IntendedServerValue(name);
  }
}
