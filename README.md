# MultilingualPress request core, in Dafny

This project models four pieces of the MultilingualPress WordPress plugin and proves properties of each.

- **Hreflang output.** `Mlp_Hreflang_Header_Output` asks the language API for the translations of the current page. It builds a map from HTTP language names to URLs and remembers a failed lookup. It advertises the map as `<link rel="alternate" hreflang=…>` elements in the HTML head and as `Link` headers in the HTTP response. Both renderings pass through a WordPress filter. (Module `HreflangHeader`, file `hreflang_header.dfy`.)
- **Request access.** `PHPServerRequest` gives access to:
  - body values per input (`INPUT_GET`, `INPUT_POST`, `INPUT_REQUEST`);
  - request headers derived from the CGI meta-variables of the server array;
  - parsed headers;
  - server values.

  Body values, headers and the server array are each kept in a static cache, shared by all instances, that is meant to be filled on first use. A parsed header is not cached: it is parsed again from the cached header on every call. Only the default parser is kept, on the instance. (Module `ServerRequest`, file `php_server_request.dfy`.)
- **Save-post validation.** `Mlp_Save_Post_Request_Validator` decides whether a `save_post` request should be processed. It checks autosave, real revision, edit capability and the nonce, in that order. (Module `SavePostRequestValidator`.)
- **Admin registry.** The admin script `Registry` keeps module data per route. It hands each route to the router. When a route fires, it creates the module instances and calls their callbacks. (Module `AdminRegistry`, file `registry.dfy`.)

Shared modules:
- `OrderedMaps` models PHP arrays and JavaScript objects as insertion-ordered maps.
  - `Put` overwrites in place or appends.
  - A generic `Fold` of keyed assignments comes with lemmas about its keys, last-write-wins values, first-insertion order and size. These are reused by the hreflang and request pieces. The registry uses only `Empty`, `Put` and `Get`.
- `PhpStrings` gives PHP string truthiness (`""` and `"0"` are falsy), ASCII case mapping, and PHP's integer-like array keys.
- `Wrappers` gives `Option`.

Outside effects are modelled as follows:
- The language API, the WordPress filters and the header parsers are function parameters.
- `echo`, `header()`, router calls and module callbacks are appended to logs held by the object.
- `$_SERVER`, the `filter_input_array` results, the decoded `php://input` body and `apache_request_headers()` are fields of an `Environment` value.
- The WordPress facts the validator consults (`DOING_AUTOSAVE`, `get_post`, `current_user_can`, the posted `original_post_status`, the nonce) are fields of the request or plain arguments.

The docblock of `get_translations` (inc/hreflang-header/Mlp_Hreflang_Header_Output.php:101) says it caches the result. The guard at line 107 tests only for the `array( 'failed' )` sentinel, so only failure is cached. After a successful lookup, every call queries the API again. `HreflangHeader.FetchOutcome` states this behaviour.

## Model

| member | source | states |
|---|---|---|
| HreflangHeader.Prepare | inc/hreflang-header/Mlp_Hreflang_Header_Output.php:119-130 | the prepared array is a well-formed ordered array, and every language in it is the HTTP name of a translation with a truthy URL |
| HreflangHeader.PreparedUrlsAreTruthy | inc/hreflang-header/Mlp_Hreflang_Header_Output.php:126-129 | only truthy URLs are stored in the prepared array |
| HreflangHeader.PrepareLanguages | inc/hreflang-header/Mlp_Hreflang_Header_Output.php:119-130 | a language is a key of the prepared array exactly when some translation with a truthy URL has that HTTP name |
| HreflangHeader.PrepareSize | inc/hreflang-header/Mlp_Hreflang_Header_Output.php:119-136 | the prepared array has one entry per distinct advertised language, and is empty exactly when no translation has a truthy URL |
| HreflangHeader.PrepareLastUrlWins | inc/hreflang-header/Mlp_Hreflang_Header_Output.php:127-128 | a language maps to the URL of the last translation that advertises it |
| HreflangHeader.PrepareFirstAdvertisedOrder | inc/hreflang-header/Mlp_Hreflang_Header_Output.php:121-130 | languages appear in the order of their first advertisement, so a later duplicate keeps the earlier position |
| HreflangHeader.DuplicateLanguageExample | inc/hreflang-header/Mlp_Hreflang_Header_Output.php:121-130 | two translations of one language leave a single entry holding the later URL |
| HreflangHeader.FetchResult | inc/hreflang-header/Mlp_Hreflang_Header_Output.php:105-141 | the array `get_translations` returns is well-formed and holds only truthy URLs; its contents are stated by FailureIsSticky and FetchOutcome |
| HreflangHeader.FetchState | inc/hreflang-header/Mlp_Hreflang_Header_Output.php:113-140 | the property after a call is the failure sentinel or a non-empty prepared array, namely the one returned; an empty prepared array is never stored |
| HreflangHeader.FetchQueries | inc/hreflang-header/Mlp_Hreflang_Header_Output.php:107-112 | a call keeps the earlier queries and adds at most one, and any query it adds asks for `include_base` |
| HreflangHeader.FailureIsSticky | inc/hreflang-header/Mlp_Hreflang_Header_Output.php:107-109 | once the failure sentinel is stored, a call returns an empty array, keeps the sentinel and makes no query |
| HreflangHeader.FetchOutcome | inc/hreflang-header/Mlp_Hreflang_Header_Output.php:105-141 | without the sentinel, a call queries the API with `include_base`; it stores the sentinel and returns empty exactly when no translation in the answer has a truthy URL (an empty answer included); otherwise it stores and returns the prepared array |
| HreflangHeader.HreflangHeaderOutput.constructor | inc/hreflang-header/Mlp_Hreflang_Header_Output.php:21-31 | keeps the language API and starts with an empty translations array and empty logs |
| HreflangHeader.HreflangHeaderOutput.GetTranslations | inc/hreflang-header/Mlp_Hreflang_Header_Output.php:105-141 | the result, the new translations property and the query log are FetchResult, FetchState and FetchQueries of the state before the call; nothing is echoed or sent |
| HreflangHeader.LinkElement | inc/hreflang-header/Mlp_Hreflang_Header_Output.php:48-52 | the element is 44 characters longer than the language and the URL together; LinkElementFields states where each sits |
| HreflangHeader.LinkElementFields | inc/hreflang-header/Mlp_Hreflang_Header_Output.php:48-52 | the element is `<link rel="alternate" hreflang="` followed by the language, `" href="` and the URL, all verbatim and unescaped |
| HreflangHeader.LinkHeader | inc/hreflang-header/Mlp_Hreflang_Header_Output.php:80-84 | the header line is truthy, so an unfiltered line is always sent, and is 38 characters longer than the URL and the language together |
| HreflangHeader.LinkHeaderFields | inc/hreflang-header/Mlp_Hreflang_Header_Output.php:80-84 | the line is `Link: <` followed by the URL, `>; rel="alternate"; hreflang="` and the language, all verbatim |
| HreflangHeader.HeadLines | inc/hreflang-header/Mlp_Hreflang_Header_Output.php:47-62 | one line per map entry, in map order: line `i` is the filter's answer for the `<link>` element of the `i`-th language and URL |
| HreflangHeader.SentHeaders | inc/hreflang-header/Mlp_Hreflang_Header_Output.php:79-97 | at most one header per entry; which ones are sent is stated by SentHeadersAreTruthyFilterResults |
| HreflangHeader.HreflangHeaderOutput.WpHead | inc/hreflang-header/Mlp_Hreflang_Header_Output.php:40-63 | echoes, after earlier output, one filtered `<link rel="alternate">` element per map entry in map order; with an empty map it echoes nothing; no header is sent |
| HreflangHeader.HreflangHeaderOutput.HttpHeader | inc/hreflang-header/Mlp_Hreflang_Header_Output.php:72-98 | sends, without replacing earlier headers, the filtered `Link` header of each map entry in map order when it is truthy; nothing is echoed |
| HreflangHeader.HreflangHeaderOutput.SendHeaders | inc/hreflang-header/Mlp_Hreflang_Header_Output.php:79-97 | the loop of `http_header` appends exactly SentHeaders of the entries to the headers sent before |
| HreflangHeader.SentHeadersAreTruthyFilterResults | inc/hreflang-header/Mlp_Hreflang_Header_Output.php:93-96 | every sent header is a truthy filter result for some entry, every truthy filter result is sent, and at most one header is sent per entry |
| HreflangHeader.UnfilteredHeadersAreLinkHeaders | inc/hreflang-header/Mlp_Hreflang_Header_Output.php:79-84 | with a filter that keeps its input, exactly one `Link: <url>; rel="alternate"; hreflang="lang"` header is sent per entry, in map order |
| HreflangHeader.TwoLanguageExample | inc/hreflang-header/Mlp_Hreflang_Header_Output.php:40-98 | for `en-US` and `de-DE`, both channels give two lines in map order; a filter that empties the `en-US` header leaves only the `de-DE` header sent |
| SavePostRequestValidator.IsValid | src/inc/post-translator/Mlp_Save_Post_Request_Validator.php:36-48 | a valid request is not an autosave, comes from a user who may edit the post, and carries a valid nonce; the full condition is IsValidExactly |
| SavePostRequestValidator.IsRealRevision | src/inc/post-translator/Mlp_Save_Post_Request_Validator.php:58-81 | a real revision is an existing post with status `inherit` and type `revision`; the full condition is RealRevisionExactly |
| SavePostRequestValidator.AutosaveIsInvalid | src/inc/post-translator/Mlp_Save_Post_Request_Validator.php:38-39 | an autosave is never valid |
| SavePostRequestValidator.RevisionOrNoCapabilityIgnoresNonce | src/inc/post-translator/Mlp_Save_Post_Request_Validator.php:41-45 | a real revision, or a user who may not edit the post, is refused whatever the nonce says |
| SavePostRequestValidator.NonceDecidesTheRest | src/inc/post-translator/Mlp_Save_Post_Request_Validator.php:47 | once the first three checks pass, validity is the nonce's verdict |
| SavePostRequestValidator.IsValidExactly | src/inc/post-translator/Mlp_Save_Post_Request_Validator.php:36-48 | valid exactly when not an autosave, not a real revision, editable by the user, and the nonce is valid |
| SavePostRequestValidator.SettledStatusIsNotRevision | src/inc/post-translator/Mlp_Save_Post_Request_Validator.php:65-67 | a published, draft, private or auto-draft post is never a real revision |
| SavePostRequestValidator.RealRevisionExactly | src/inc/post-translator/Mlp_Save_Post_Request_Validator.php:58-81 | a real revision is exactly an existing post with status `inherit` and type `revision` whose posted original status is not `auto-draft` |
| SavePostRequestValidator.PostRevisionCheckIsIgnored | src/inc/post-translator/Mlp_Save_Post_Request_Validator.php:60-61 | the answer does not depend on `wp_is_post_revision`, whose test has no `return` |
| ServerRequest.ArrayMerge | src/Common/HTTP/PHPServerRequest.php:146 | `array_merge` on string keys: the second array wins on shared keys and the first array's keys keep their leading positions |
| ServerRequest.IsPost | src/Common/HTTP/PHPServerRequest.php:139-142 | the request counts as POST exactly when its method upper-cases to `POST`; the truthiness test adds nothing |
| ServerRequest.RequestValues | src/Common/HTTP/PHPServerRequest.php:135-165 | the values always hold the query first, under GET, and a REQUEST bucket; they hold a POST bucket exactly for a POST request |
| ServerRequest.PostMergesQueryAndForm | src/Common/HTTP/PHPServerRequest.php:135-149 | for a truthy method that upper-cases to `POST`, values hold the query under GET, the form under POST and the query merged with the form (form winning) under REQUEST |
| ServerRequest.OtherRequestsUseQuery | src/Common/HTTP/PHPServerRequest.php:151-158 | for a non-POST request whose method is exactly `GET` or whose content type is not URL-encoded, REQUEST holds the query unchanged |
| ServerRequest.UrlEncodedBodyMerged | src/Common/HTTP/PHPServerRequest.php:160-165 | for another method with URL-encoded content, REQUEST is the query merged with the decoded body, or the query alone when the body does not decode to an array |
| ServerRequest.HeaderName | src/Common/HTTP/PHPServerRequest.php:190-198 | a name yields a header exactly when it starts with `HTTP_` or `CONTENT_`; an `HTTP_` header name is five characters shorter and holds no `_`; a `CONTENT_` one starts with `content-` |
| ServerRequest.HeaderEntry | src/Common/HTTP/PHPServerRequest.php:180-198 | a server entry yields a header only for a truthy value, and the header keeps that value unchanged |
| ServerRequest.RequestHeaders | src/Common/HTTP/PHPServerRequest.php:179-201 | the derived headers form a well-formed array; which names and values it holds is stated by HeadersComeFromMetaVariables and LastProducerWins |
| ServerRequest.HeadersComeFromMetaVariables | src/Common/HTTP/PHPServerRequest.php:179-199 | a header exists exactly when some server entry produces it, and every producing entry has a truthy value and an `HTTP_` or `CONTENT_` name once a `REDIRECT_` prefix is removed |
| ServerRequest.LastProducerWins | src/Common/HTTP/PHPServerRequest.php:180-199 | a header holds the value of the last server entry producing it |
| ServerRequest.HttpVariableBecomesHeader | src/Common/HTTP/PHPServerRequest.php:190-193 | `HTTP_X` with a truthy value gives header `x`, lower-cased with `_` turned into `-` |
| ServerRequest.ContentVariableBecomesHeader | src/Common/HTTP/PHPServerRequest.php:195-198 | `CONTENT_X` with a truthy value gives header `content-x`, lower-cased |
| ServerRequest.RedirectPrefixStripped | src/Common/HTTP/PHPServerRequest.php:182-188 | `REDIRECT_K` yields nothing when `K` is itself a server variable, and otherwise yields what `K` would |
| ServerRequest.OtherVariablesIgnored | src/Common/HTTP/PHPServerRequest.php:190-198 | a falsy value, or a name that is not `REDIRECT_`, `HTTP_` or `CONTENT_` prefixed, yields no header |
| ServerRequest.DeriveHeaders | src/Common/HTTP/PHPServerRequest.php:179-201 | the loop with its `continue`s computes exactly the header derivation the lemmas above describe |
| ServerRequest.UpperCaseKeys | src/Common/HTTP/PHPServerRequest.php:213 | the result is well-formed; its keys and their order are stated by UpperCasedKeys and UpperCasedKeysOrder, the last value winning by IntendedServerValueReadsServer |
| ServerRequest.UpperCasedKeys | src/Common/HTTP/PHPServerRequest.php:213 | the keys of `array_change_key_case( .., CASE_UPPER )` are exactly the upper-cased keys of the input |
| ServerRequest.UpperCasedKeysOrder | src/Common/HTTP/PHPServerRequest.php:213 | keys that collide once upper-cased sit where the first of them was: the keys are in order of first occurrence |
| ServerRequest.LowerCaseKeys | src/Common/HTTP/PHPServerRequest.php:225 | the result is well-formed; its keys are stated by LowerCasedKeys |
| ServerRequest.LowerCasedKeys | src/Common/HTTP/PHPServerRequest.php:225 | the keys of `array_change_key_case( .., CASE_LOWER )` are exactly the lower-cased keys of the input |
| ServerRequest.ServerSnapshot | src/Common/HTTP/PHPServerRequest.php:213-231 | the stored server array is well-formed; what it holds under each name is stated by IntendedServerValueReadsServer (present names, `HTTP_AUTHORIZATION` from `$_SERVER` included), IntendedServerValueMissing (absent names) and AuthorizationFallback |
| ServerRequest.AuthorizationFallback | src/Common/HTTP/PHPServerRequest.php:213-231 | without an `HTTP_AUTHORIZATION` server variable, an `Authorization` Apache header in any letter case becomes `HTTP_AUTHORIZATION` |
| ServerRequest.ServerValueAsWritten | src/Common/HTTP/PHPServerRequest.php:121-123 | `server_value` as written fails (the `TypeError`) exactly when `$values` is `null`; otherwise it answers `''` or `'Array'`, and `''` for every name that is not an integer-like key |
| ServerRequest.ServerValueIntended | src/Common/HTTP/PHPServerRequest.php:121-123 | the corrected lookup returns the value under the upper-cased name, or `''` when there is none |
| ServerRequest.IntendedServerValueReadsServer | src/Common/HTTP/PHPServerRequest.php:121-123 | the corrected `server_value` is case-insensitive: it returns the value of the last server variable whose upper-cased name matches; for `HTTP_AUTHORIZATION` this holds when `$_SERVER` carries it, as the early return at line 215 keeps it |
| ServerRequest.IntendedServerValueMissing | src/Common/HTTP/PHPServerRequest.php:121-123 | the corrected `server_value` answers `''` for a name that no server variable carries in any letter case, `HTTP_AUTHORIZATION` aside |
| ServerRequest.ServerValueMissesServerVariables | src/Common/HTTP/PHPServerRequest.php:121-123 | as written, `server_value( 'request_method' )` answers `''` on a GET request, where the intended lookup answers `GET` |
| ServerRequest.StaticCaches.constructor | src/Common/HTTP/PHPServerRequest.php:16-26 | the three static properties start, as declared, as empty arrays |
| ServerRequest.StaticCaches.Unset | src/Common/HTTP/PHPServerRequest.php:16-26 | the corrected declaration: the three static properties start as `null`, which is what the guards test for |
| ServerRequest.PHPServerRequest.constructor | src/Common/HTTP/PHPServerRequest.php:38-41 | keeps the optional default header parser |
| ServerRequest.PHPServerRequest.EnsureValues | src/Common/HTTP/PHPServerRequest.php:129-166 | a non-null cache is left alone; a null one is filled with the per-input values |
| ServerRequest.PHPServerRequest.EnsureServer | src/Common/HTTP/PHPServerRequest.php:207-232 | a non-null cache is left alone; a null one is filled with the upper-cased server array plus the Authorization fallback |
| ServerRequest.PHPServerRequest.EnsureHeaders | src/Common/HTTP/PHPServerRequest.php:171-202 | a non-null header cache leaves both caches alone; a null one fills the server cache first and then the headers derived from it |
| ServerRequest.PHPServerRequest.Header | src/Common/HTTP/PHPServerRequest.php:76-81 | after ensuring the headers, returns the cached header or `''` |
| ServerRequest.PHPServerRequest.BodyValue | src/Common/HTTP/PHPServerRequest.php:53-67 | after ensuring the values, returns the cached value, or `null` when the input or the name is missing |
| ServerRequest.PHPServerRequest.ParsedHeader | src/Common/HTTP/PHPServerRequest.php:93-108 | parses the header with the given parser, or else with the default one; a missing default becomes a `TrimmingHeaderParser` that is kept for later calls |
| ServerRequest.PHPServerRequest.ServerValue | src/Common/HTTP/PHPServerRequest.php:117-124 | as written: after ensuring the server cache, looks the upper-cased name up among the `$values` keys; a `null` `$values` is a `TypeError` |
| ServerRequest.PHPServerRequest.IntendedServerValue | src/Common/HTTP/PHPServerRequest.php:117-124 | corrected: after ensuring the server cache, returns the server value under the upper-cased name, or `''` |
| ServerRequest.DeclaredCachesStayEmpty | src/Common/HTTP/PHPServerRequest.php:129-133 | with the caches as declared, every guard returns at once: `body_value` gives `null`, `header` gives `''`, `server_value` gives `''`, whatever the request |
| ServerRequest.UnsetCachesServeRequest | src/Common/HTTP/PHPServerRequest.php:53-124 | with `null` caches, `body_value`, `header` and the corrected `server_value` answer from the request's values, derived headers and server array |
| AdminRegistry.Registry.constructor | resources/js/admin/core/Registry.js:11-29 | the route map and the instances start empty |
| AdminRegistry.Registered | resources/js/admin/core/Registry.js:76-79 | registering appends the module data to its route's list, creating the list for a new route at the end of the route order; other routes are unchanged |
| AdminRegistry.Registry.RegisterModuleForRoute | resources/js/admin/core/Registry.js:76-79 | the route map becomes `Registered` of the old one |
| AdminRegistry.Registry.CreateModule | resources/js/admin/core/Registry.js:35-42 | a new instance of the constructor with the options is stored under the constructor's name, and the callback, if any, is called with it |
| AdminRegistry.Registry.CreateModules | resources/js/admin/core/Registry.js:48-50 | creates the modules in list order: the instances are those of `Created`, one object per entry, callbacks as in `CallbackCalls` |
| AdminRegistry.Created | resources/js/admin/core/Registry.js:35-50 | creating a list keeps every earlier name, and every new name is the constructor name of some entry in the list |
| AdminRegistry.CallbackCalls | resources/js/admin/core/Registry.js:41 | at most one callback call per entry; which ones are made is stated by CallbackCallsExactly |
| AdminRegistry.CreatedNames | resources/js/admin/core/Registry.js:35-50 | after creating a list, the stored names are the earlier ones plus the constructor names in the list |
| AdminRegistry.CreatedLastWins | resources/js/admin/core/Registry.js:39 | a name holds the instance of the last list entry with that constructor name |
| AdminRegistry.CreatedKeepsOthers | resources/js/admin/core/Registry.js:39 | instances under names that no list entry carries are unchanged |
| AdminRegistry.CallbackCallsExactly | resources/js/admin/core/Registry.js:41 | exactly the entries with a callback have it called, each with the instance created for that entry |
| AdminRegistry.Registry.InitializeRoute | resources/js/admin/core/Registry.js:57-59 | one router call, with the route string as pattern and name |
| AdminRegistry.RouteCalls | resources/js/admin/core/Registry.js:65-69 | one router call per registered route, in route order, the route string as pattern and name |
| AdminRegistry.Registry.InitializeRoutes | resources/js/admin/core/Registry.js:65-69 | makes the router calls of `RouteCalls` and returns the current instances without creating any |
| AdminRegistry.Registry.FireRoute | resources/js/admin/core/Registry.js:58 | the router firing a route it was handed runs `createModules` on the route's list as it stands at that moment, the same array `registerModuleForRoute` pushes onto |
| AdminRegistry.RegisterInitializeThenFire | resources/js/admin/core/Registry.js:57-79 | registering for two routes, then initializing, makes two router calls in registration order and creates no module; a module registered for a route afterwards is still created when that route fires |

## Left out

- Mlp_Language_Manager_Controller, WPDBTableReplacer, the blog-duplication feature, NoredirectStorage and Script are not part of this model. They are thin calls into WordPress and the database.
- The translation objects, the language API, WordPress filters, nonces, capabilities and `get_post` are not modelled as code. They are parameters or request fields carrying the values the core reads.
- Real output is not modelled. `echo` and `header()` append to logs, and router calls and module callbacks are recorded rather than run.
- HreflangHeader.HreflangHeaderOutput.GetTranslations: the sentinel is a tagged value. A PHP prepared array equal to `[0 => 'failed']` would also compare identical to `array( 'failed' )`. That happens only for a language whose HTTP name is `"0"` and whose URL is `failed`, so it is not modelled.
- HreflangHeader.Prepare: PHP turns an integer-like language name into an integer key. Keys stay strings here, which changes nothing for the lookups and rendering modelled.
- PhpStrings.ToLower: `strtolower` and `strtoupper` map ASCII letters only, as PHP 8 does. Locale-dependent mapping under PHP 7 is not modelled.
- ServerRequest.ArrayMerge: does not renumber integer keys. `array_merge` does, but request names are modelled as string keys.
- Nested array values (`a[]=1`) are not modelled: request values are strings.
- Non-string `$_SERVER` values, such as `argv` or `REQUEST_TIME`, are not modelled: they are strings too.
- ServerRequest.PHPServerRequest.BodyValue: models only the default `FILTER_UNSAFE_RAW` filter, which returns the value unchanged. Other `filter_var` filters and their options are not modelled.
- ServerRequest.Environment: `parse_str` failing, or its result not being an array, is the `None` raw body. The two `apache_request_headers()` calls are taken to return the same array.
- PhpStrings.IntegerKey: no bound at `PHP_INT_MAX`. PHP keeps a larger decimal string as a string key.
- AdminRegistry.Registry: `this.modules` is an unordered map. The key order of the returned object, including JavaScript's listing of integer-like keys first, is not modelled.
- AdminRegistry.Registry.InitializeRoutes: returns a snapshot of the instances, not the live object. Later changes seen through that alias are not modelled.
- AdminRegistry.Registry.InitializeRoutes: `$.each` over `this.data` is taken in insertion order. Integer-like route names, which JavaScript lists first, and inherited properties such as `constructor` are not modelled.
- AdminRegistry.Registry.InitializeRoute: takes only the route. The callback it hands the router reads the route's live list from the route map, as it does when `initializeRoutes` passes `this.data[ route ]`. A direct call with some other array is not modelled.
- Module constructors are not run. Their effects, and the options beyond the values passed in, are not modelled.

## Findings

| source | as written | input that shows it | evidently intended | confidence | as-written member | corrected member |
|---|---|---|---|---|---|---|
| src/Common/HTTP/PHPServerRequest.php:16-26 | the static caches are declared as `[]`, but the guards at lines 131, 173 and 209 return when the cache is `!== null`, so nothing is ever filled | any request, say a GET whose server array holds `HTTP_HOST => example.org` and whose query holds `p => 1`: `header( 'host' )` gives `''` and `body_value( 'p' )` gives `null` | declare the caches as `null`, so that the first use fills them | not executed | ServerRequest.DeclaredCachesStayEmpty | ServerRequest.UnsetCachesServeRequest |
| src/Common/HTTP/PHPServerRequest.php:123 | `server_value` looks the upper-cased name up in `self::$values`, whose keys are the `INPUT_*` integers, right after filling `self::$server` | `server_value( 'request_method' )` on a GET request gives `''` | look the name up in `self::$server` | not executed | ServerRequest.ServerValueMissesServerVariables | ServerRequest.IntendedServerValueReadsServer |
