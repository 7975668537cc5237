/**
 The revision resolver of ember-cli-deploy-redis (index.js): given an application
 name, the request's query parameters and a Redis-like key-value store, it picks
 the stored HTML index document to serve, either the revision named by the
 request or the one the `<app>:current` pointer designates, and classifies the
 failures as critical (site down) or not (one bad revision requested).

 Every store read is recorded in a trace, in order; the store itself is a value
 that the resolver only reads.
 */
module IndexResolver {
  import opened Wrappers

  /* ---------------------------------------------------------------------------
     Options (index.js:7-14)
     ------------------------------------------------------------------------- */

  /** A plain options object: property name to value. */
  type Options = map<string, string>

  const RevisionQueryParam: string := "revisionQueryParam"

  /** The module-level defaults: the revision travels in `?index_key=...`. */
  const DefaultOpts: Options := map[RevisionQueryParam := "index_key"]

  /** `_getOpts`: the caller's options (None for a null or undefined argument)
      merged over the defaults; a property the caller gives always wins, and
      every default the caller leaves out is filled in. */
  function GetOpts(opts: Option<Options>): (r: Options)
    ensures RevisionQueryParam in r
    ensures opts.None? ==> r == DefaultOpts
    ensures opts.Some? ==> r.Keys == DefaultOpts.Keys + opts.value.Keys
    ensures opts.Some? ==> forall k :: k in opts.value ==> r[k] == opts.value[k]
    ensures opts.Some? ==> forall k :: k in DefaultOpts && k !in opts.value ==> r[k] == DefaultOpts[k]
  {
    var given := if opts.Some? then opts.value else map[];
    DefaultOpts + given
  }

  /** The name of the query parameter that carries the revision token: it falls
      back to "index_key" exactly when the caller gave none, and is the caller's
      own value otherwise. */
  function RevisionParam(opts: Option<Options>): (p: string)
    ensures opts.None? ==> p == "index_key"
    ensures opts.Some? && RevisionQueryParam !in opts.value ==> p == "index_key"
    ensures opts.Some? && RevisionQueryParam in opts.value ==> p == opts.value[RevisionQueryParam]
  {
    GetOpts(opts)[RevisionQueryParam]
  }

  /* ---------------------------------------------------------------------------
     Token sanitization (index.js:21)
     ------------------------------------------------------------------------- */

  /** The characters the pattern `[A-Za-z0-9]` matches. */
  predicate IsAlnum(c: char)
  {
    'A' <= c <= 'Z' || 'a' <= c <= 'z' || '0' <= c <= '9'
  }

  /** `replace(/[^A-Za-z0-9]/g, '')`: what is left is letters and digits only. */
  function Sanitize(s: string): (r: string)
    ensures |r| <= |s|
    ensures forall i :: 0 <= i < |r| ==> IsAlnum(r[i])
  {
    if s == [] then []
    else (if IsAlnum(s[0]) then [s[0]] else []) + Sanitize(s[1..])
  }

  /** Sanitization keeps every letter and digit of the token, as often as it
      occurs there, and no other character. */
  lemma {:induction false} SanitizeKeepsLettersAndDigits(s: string)
    ensures forall c :: IsAlnum(c) ==> multiset(Sanitize(s))[c] == multiset(s)[c]
    ensures forall c :: !IsAlnum(c) ==> multiset(Sanitize(s))[c] == 0
  {
    if s != [] {
      assert s == [s[0]] + s[1..];
      SanitizeKeepsLettersAndDigits(s[1..]);
    }
  }

  /** Sanitization works character by character and keeps the order: the result
      for a concatenation is the concatenation of the results. */
  lemma {:induction false} SanitizeConcat(a: string, b: string)
    ensures Sanitize(a + b) == Sanitize(a) + Sanitize(b)
  {
    if a == [] {
      assert a + b == b;
    } else {
      assert (a + b)[0] == a[0];
      assert (a + b)[1..] == a[1..] + b;
      SanitizeConcat(a[1..], b);
    }
  }

  /** One character survives exactly when it is a letter or a digit. */
  lemma SanitizeChar(c: char)
    ensures Sanitize([c]) == if IsAlnum(c) then [c] else []
  {
  }

  /** A token is left unchanged exactly when it has only letters and digits. */
  lemma {:induction false} SanitizeFixedPoint(s: string)
    ensures Sanitize(s) == s <==> forall i :: 0 <= i < |s| ==> IsAlnum(s[i])
  {
    if s != [] && forall i :: 0 <= i < |s| ==> IsAlnum(s[i]) {
      assert forall i :: 0 <= i < |s[1..]| ==> IsAlnum(s[1..][i]);
      SanitizeFixedPoint(s[1..]);
    }
  }

  /** Sanitizing twice is sanitizing once. */
  lemma SanitizeIdempotent(s: string)
    ensures Sanitize(Sanitize(s)) == Sanitize(s)
  {
    SanitizeFixedPoint(Sanitize(s));
  }

  /** A token without letters or digits sanitizes to the empty string. */
  lemma {:induction false} SanitizeNoAlnum(s: string)
    requires forall i :: 0 <= i < |s| ==> !IsAlnum(s[i])
    ensures Sanitize(s) == []
  {
    if s != [] {
      assert forall i :: 0 <= i < |s[1..]| ==> !IsAlnum(s[1..][i]);
      SanitizeNoAlnum(s[1..]);
    }
  }

  /** A run of letters and digits survives, and a run without any that follows
      it disappears. */
  lemma SanitizeRuns(a: string, n: string, b: string)
    requires forall i :: 0 <= i < |a| ==> IsAlnum(a[i])
    requires forall i :: 0 <= i < |n| ==> !IsAlnum(n[i])
    ensures Sanitize(a + n + b) == a + Sanitize(b)
  {
    SanitizeConcat(a + n, b);
    SanitizeConcat(a, n);
    SanitizeFixedPoint(a);
    SanitizeNoAlnum(n);
    assert a + [] == a;
  }

  /** The tokens of the tests: a space is dropped, and so is punctuation. */
  lemma SanitizeSpaceExample()
    ensures Sanitize("abc 123") == "abc123"
  {
  }

  lemma SanitizePunctuationExample()
    ensures Sanitize("ab@*#!c(@)123") == "abc123"
  {
    SanitizeRuns("ab", "@*#!", "c(@)123");
    SanitizeTailExample();
    assert "ab@*#!c(@)123" == "ab" + "@*#!" + "c(@)123";
    assert "ab" + "c123" == "abc123";
  }

  /** A step of the example above, proved on its own so that each proof unfolds
      only a short literal. */
  lemma SanitizeTailExample()
    ensures Sanitize("c(@)123") == "c123"
  {
  }

  /* ---------------------------------------------------------------------------
     Store keys (index.js:22, 30)
     ------------------------------------------------------------------------- */

  /** A store key: the application name, a colon, and a suffix. The parts can be
      read back from the key. */
  function Key(appName: string, suffix: string): (k: string)
    ensures |k| == |appName| + 1 + |suffix|
    ensures k[..|appName|] == appName && k[|appName|] == ':' && k[|appName| + 1..] == suffix
  {
    appName + ":" + suffix
  }

  /** The pointer key whose value names the current revision's content key. A
      sanitized token leads to this very key exactly when it is "current". */
  function CurrentKey(appName: string): (k: string)
    ensures forall token :: Key(appName, Sanitize(token)) == k <==> Sanitize(token) == "current"
  {
    Key(appName, "current")
  }

  /** For one application, different suffixes give different keys. */
  lemma KeyInjective(appName: string, s1: string, s2: string)
    ensures Key(appName, s1) == Key(appName, s2) <==> s1 == s2
  {
  }

  /* ---------------------------------------------------------------------------
     The store and the request
     ------------------------------------------------------------------------- */

  /** The key-value store as the resolver sees it: the stored strings, and the
      keys whose read is rejected (a connection failure, say). */
  datatype Store = Store(data: map<string, string>, failing: set<string>)

  /** What one `get` settles with: a string, nothing (nil), or a rejection. */
  datatype Reply = Value(s: string) | Nil | Rejected

  /** `redisClient.get`: a rejection for a failing key, else the stored string,
      else nil. */
  function Get(store: Store, key: string): (r: Reply)
    ensures r == Rejected <==> key in store.failing
    ensures r == Nil <==> key !in store.failing && key !in store.data
    ensures r.Value? ==> key in store.data && store.data[key] == r.s
  {
    if key in store.failing then Rejected
    else if key in store.data then Value(store.data[key])
    else Nil
  }

  /** Whether a reply gets past the `!result`/`!indexHtml` tests (index.js:31, 42).
      Nil and the empty string are the falsy values those tests reject. A rejected
      read skips those tests but reaches the same `.catch` (index.js:33, 44), so
      the model puts it with them. */
  predicate Truthy(r: Reply): (b: bool)
    ensures !b <==> r == Nil || r == Rejected || r == Value("")
  {
    r.Value? && r.s != ""
  }

  /** `req.query`: query-parameter name to value. */
  type Query = map<string, string>

  /** The revision token of a request (index.js:20): the value of the configured
      parameter when it is truthy, so an empty value counts as absent. */
  function Token(query: Query, opts: Option<Options>): (t: Option<string>)
    ensures t.Some? <==> RevisionParam(opts) in query && query[RevisionParam(opts)] != ""
    ensures t.Some? ==> t.value == query[RevisionParam(opts)]
  {
    var param := RevisionParam(opts);
    if param in query && query[param] != "" then Some(query[param]) else None
  }

  /** `indexkey` (index.js:19-23): the content key named by the request, if any.
      It is never empty, so testing it for truthiness (index.js:24, 27) is the
      same as asking whether a token was given. */
  function CustomIndexKey(appName: string, token: Option<string>): (k: Option<string>)
    ensures k.Some? <==> token.Some?
    ensures k.Some? ==> k.value == Key(appName, Sanitize(token.value)) && k.value != ""
  {
    if token.Some? then Some(Key(appName, Sanitize(token.value))) else None
  }

  /* ---------------------------------------------------------------------------
     Errors (index.js:33-34, 44-48)
     ------------------------------------------------------------------------- */

  /** The error messages, kept as their parameters: the application whose
      pointer is missing, or the content key that was not found. At index.js:48
      that key is the outer `indexkey`, undefined (None) on the pointer path. */
  datatype Message = NoCurrentRevision(appName: string) | NoRevision(indexKey: Option<string>)

  /** `EmberCliDeployError`: a message and the `critical` flag. */
  datatype DeployError = DeployError(message: Message, critical: bool)

  /** What travels down the promise chain when a step fails: an error already
      classified (`err.name === 'EmberCliDeployError'`) or a generic one. */
  datatype Failure = Classified(error: DeployError) | Unclassified

  /** A step of the chain: its outcome and the keys it read, in order. */
  datatype Outcome = Done(value: string) | Thrown(failure: Failure)
  datatype Step = Step(outcome: Outcome, trace: seq<string>)

  /** What the resolver settles with, and the keys it read, in order. */
  datatype Result = Served(html: string) | Failed(error: DeployError)
  datatype Resolution = Resolution(result: Result, trace: seq<string>)

  /* ---------------------------------------------------------------------------
     The resolver (index.js:16-51)
     ------------------------------------------------------------------------- */

  /** `retrieveIndexKey` (index.js:26-37): the request's own key without reading
      anything, or the value of the pointer key; a pointer that is missing, empty
      or unreadable ends the chain with a critical, classified error. */
  function RetrieveIndexKey(appName: string, indexkey: Option<string>, store: Store): (st: Step)
    ensures indexkey.Some? ==> st == Step(Done(indexkey.value), [])
    ensures indexkey.None? ==> st.trace == [CurrentKey(appName)]
    ensures indexkey.None? && st.outcome.Done? ==>
      Get(store, CurrentKey(appName)) == Value(st.outcome.value) && st.outcome.value != ""
    ensures indexkey.None? && st.outcome.Thrown? ==>
      !Truthy(Get(store, CurrentKey(appName)))
      && st.outcome.failure == Classified(DeployError(NoCurrentRevision(appName), true))
  {
    if indexkey.Some? then Step(Done(indexkey.value), [])
    else
      var reply := Get(store, CurrentKey(appName));
      if Truthy(reply) then Step(Done(reply.s), [CurrentKey(appName)])
      else Step(Thrown(Classified(DeployError(NoCurrentRevision(appName), true))), [CurrentKey(appName)])
  }

  /** The content read (index.js:39-43): a truthy value is the document; a
      missing or empty value, or a rejected read, is a generic failure. */
  function FetchContent(key: string, store: Store): (st: Step)
    ensures st.trace == [key]
    ensures st.outcome.Done? <==> Truthy(Get(store, key))
    ensures st.outcome.Done? ==> Get(store, key) == Value(st.outcome.value)
    ensures st.outcome.Thrown? ==> st.outcome.failure == Unclassified
  {
    var reply := Get(store, key);
    if Truthy(reply) then Step(Done(reply.s), [key]) else Step(Thrown(Unclassified), [key])
  }

  /** The outer catch (index.js:44-49): a classified error passes through as it
      is; any other failure becomes an error that is critical exactly when the
      request named no revision. */
  function Classify(failure: Failure, indexkey: Option<string>): (e: DeployError)
    ensures failure.Classified? ==> e == failure.error
    ensures failure.Unclassified? ==> e.critical == indexkey.None? && e.message == NoRevision(indexkey)
  {
    match failure
    case Classified(err) => err
    case Unclassified => DeployError(NoRevision(indexkey), indexkey.None?)
  }

  /** `fetchIndex`: resolve the index document for `appName` and a request. */
  function FetchIndex(appName: string, query: Query, store: Store, opts: Option<Options>): (r: Resolution)
    ensures 1 <= |r.trace| <= 2
    ensures r.trace[0] == if Token(query, opts).Some? then Key(appName, Sanitize(Token(query, opts).value))
                          else CurrentKey(appName)
    ensures r.result.Served? ==>
      r.result.html != "" && Get(store, r.trace[|r.trace| - 1]) == Value(r.result.html)
    ensures r.result.Failed? ==> (r.result.error.critical <==> Token(query, opts).None?)
  {
    var indexkey := CustomIndexKey(appName, Token(query, opts));
    var retrieved := RetrieveIndexKey(appName, indexkey, store);
    match retrieved.outcome
    case Thrown(f) =>
      Resolution(Failed(Classify(f, indexkey)), retrieved.trace)
    case Done(key) =>
      var fetched := FetchContent(key, store);
      var trace := retrieved.trace + fetched.trace;
      match fetched.outcome
      case Done(html) => Resolution(Served(html), trace)
      case Thrown(f) => Resolution(Failed(Classify(f, indexkey)), trace)
  }

  /* ---------------------------------------------------------------------------
     Properties of the resolver
     ------------------------------------------------------------------------- */

  /** With a revision token, exactly one read happens, at the sanitized key, and
      its value (when truthy) is served; otherwise the error is not critical. */
  lemma TokenReadsOnlyCustomKey(appName: string, query: Query, store: Store, opts: Option<Options>, t: string)
    requires Token(query, opts) == Some(t)
    ensures var r, key := FetchIndex(appName, query, store, opts), Key(appName, Sanitize(t));
      && r.trace == [key]
      && (Truthy(Get(store, key)) ==> r.result == Served(Get(store, key).s))
      && (!Truthy(Get(store, key)) ==> r.result == Failed(DeployError(NoRevision(Some(key)), false)))
  {
  }

  /** With a revision token, the pointer key is read only when the token
      sanitizes to "current", which turns the pointer itself into the content key. */
  lemma TokenReadsPointerOnlyIfNamedCurrent(appName: string, query: Query, store: Store, opts: Option<Options>, t: string)
    requires Token(query, opts) == Some(t)
    ensures CurrentKey(appName) in FetchIndex(appName, query, store, opts).trace <==> Sanitize(t) == "current"
  {
  }

  /** A token that has no letter or digit left after sanitization still counts
      as a requested revision: the key read is `appName + ":"`. */
  lemma TokenSanitizedAway(appName: string, query: Query, store: Store, opts: Option<Options>, t: string)
    requires Token(query, opts) == Some(t)
    requires forall i :: 0 <= i < |t| ==> !IsAlnum(t[i])
    ensures var r := FetchIndex(appName, query, store, opts);
      r.trace == [appName + ":"] && (r.result.Failed? ==> !r.result.error.critical)
  {
    SanitizeNoAlnum(t);
    assert Key(appName, Sanitize(t)) == appName + ":";
    TokenReadsOnlyCustomKey(appName, query, store, opts, t);
  }

  /** An empty query value is the same as no value at all. */
  lemma EmptyQueryValueIsAbsent(appName: string, query: Query, store: Store, opts: Option<Options>)
    requires RevisionParam(opts) in query && query[RevisionParam(opts)] == ""
    ensures FetchIndex(appName, query, store, opts)
         == FetchIndex(appName, query - {RevisionParam(opts)}, store, opts)
  {
  }

  /** Without a token, the pointer key is read first; a pointer that is missing,
      empty or unreadable fails critically, and nothing more is read. */
  lemma NoTokenPointerMissing(appName: string, query: Query, store: Store, opts: Option<Options>)
    requires Token(query, opts).None?
    requires !Truthy(Get(store, CurrentKey(appName)))
    ensures FetchIndex(appName, query, store, opts)
         == Resolution(Failed(DeployError(NoCurrentRevision(appName), true)), [CurrentKey(appName)])
  {
  }

  /** Without a token and with a pointer present, the second read is at the
      pointer's value exactly as stored; its truthy content is served, and
      anything else fails critically. */
  lemma NoTokenFollowsPointer(appName: string, query: Query, store: Store, opts: Option<Options>, p: string)
    requires Token(query, opts).None?
    requires Get(store, CurrentKey(appName)) == Value(p) && p != ""
    ensures var r := FetchIndex(appName, query, store, opts);
      && r.trace == [CurrentKey(appName), p]
      && (Truthy(Get(store, p)) ==> r.result == Served(Get(store, p).s))
      && (!Truthy(Get(store, p)) ==> r.result == Failed(DeployError(NoRevision(None), true)))
  {
  }

  /** A document is served exactly when the last key read holds a truthy value:
      every falsy or rejected read ends the resolution with an error. */
  lemma ServedIffLastReadTruthy(appName: string, query: Query, store: Store, opts: Option<Options>)
    ensures var r := FetchIndex(appName, query, store, opts);
      r.result.Served? <==> Truthy(Get(store, r.trace[|r.trace| - 1]))
  {
  }

  /** A pointer-stage error reaches the caller as the pointer stage classified
      it: the outer catch does not wrap it again. */
  lemma PointerErrorPassesThrough(appName: string, query: Query, store: Store, opts: Option<Options>)
    requires Token(query, opts).None?
    requires RetrieveIndexKey(appName, None, store).outcome.Thrown?
    ensures FetchIndex(appName, query, store, opts).result
         == Failed(RetrieveIndexKey(appName, None, store).outcome.failure.error)
  {
  }

  /** The trace is complete: two stores that answer the keys read alike give
      the same resolution, so nothing else in the store is consulted. */
  lemma ReadsDetermineResult(appName: string, query: Query, s1: Store, s2: Store, opts: Option<Options>)
    requires forall k :: k in FetchIndex(appName, query, s1, opts).trace ==> Get(s1, k) == Get(s2, k)
    ensures FetchIndex(appName, query, s1, opts) == FetchIndex(appName, query, s2, opts)
  {
  }

  /* ---------------------------------------------------------------------------
     The scenarios of the test suite
     ------------------------------------------------------------------------- */

  /** The keys of the tests, built from their parts. */
  lemma TestKeys()
    ensures Key("myapp", "abc123") == "myapp:abc123"
    ensures Key("myapp", "def456") == "myapp:def456"
    ensures CurrentKey("myapp") == "myapp:current"
  {
  }

  /** A request for revision "abc 123" or "ab@*#!c(@)123" reads `myapp:abc123`,
      and never the key spelled with the raw token. */
  lemma ScenarioTokenNormalized(token: string)
    requires token == "abc 123" || token == "ab@*#!c(@)123"
    ensures FetchIndex("myapp", map["index_key" := token], Store(map["myapp:abc123" := "foo"], {}), None)
         == Resolution(Served("foo"), ["myapp:abc123"])
    ensures Key("myapp", token) !in FetchIndex("myapp", map["index_key" := token], Store(map["myapp:abc123" := "foo"], {}), None).trace
  {
    var query, store := map["index_key" := token], Store(map["myapp:abc123" := "foo"], {});
    var key := Key("myapp", Sanitize(token));
    assert key == "myapp:abc123" by {
      TestKeys();
      SanitizeSpaceExample();
      SanitizePunctuationExample();
    }
    assert Get(store, key) == Value("foo");
    TokenReadsOnlyCustomKey("myapp", query, store, None, token);
    KeyInjective("myapp", token, "abc123");
  }

  /** No pointer and no token: a critical failure after reading the pointer key. */
  lemma ScenarioNoCurrent()
    ensures var r := FetchIndex("myapp", map[], Store(map[], {}), None);
      r.result.Failed? && r.result.error.critical && r.trace == ["myapp:current"]
  {
    TestKeys();
    NoTokenPointerMissing("myapp", map[], Store(map[], {}), None);
  }

  /** `myapp:current` refers to a missing revision: a critical failure after both reads. */
  lemma ScenarioPointerDangling()
    ensures var r := FetchIndex("myapp", map[], Store(map["myapp:current" := "myapp:abc123"], {}), None);
      r.result.Failed? && r.result.error.critical && r.trace == ["myapp:current", "myapp:abc123"]
  {
    TestKeys();
    NoTokenFollowsPointer("myapp", map[], Store(map["myapp:current" := "myapp:abc123"], {}), None, "myapp:abc123");
  }

  /** The requested revision is missing: a failure that is not critical. */
  lemma ScenarioRequestedMissing()
    ensures var r := FetchIndex("myapp", map["index_key" := "abc123"], Store(map[], {}), None);
      r.result.Failed? && !r.result.error.critical && r.trace == ["myapp:abc123"]
  {
    TestKeys();
    SanitizeFixedPoint("abc123");
    TokenReadsOnlyCustomKey("myapp", map["index_key" := "abc123"], Store(map[], {}), None, "abc123");
  }

  /** No token: the pointer is read, then the content it names, which is served. */
  lemma ScenarioServeCurrent()
    ensures var store := Store(map["myapp:current" := "myapp:abc123", "myapp:abc123" := "<html><body>1</body></html>"], {});
      FetchIndex("myapp", map[], store, None)
        == Resolution(Served("<html><body>1</body></html>"), ["myapp:current", "myapp:abc123"])
  {
    TestKeys();
    var store := Store(map["myapp:current" := "myapp:abc123", "myapp:abc123" := "<html><body>1</body></html>"], {});
    NoTokenFollowsPointer("myapp", map[], store, None, "myapp:abc123");
  }

  /** A requested revision is served without reading the pointer or its target. */
  lemma ScenarioServeRequested()
    ensures var store := Store(map["myapp:current" := "myapp:abc123",
                                   "myapp:abc123" := "<html><body>1</body></html>",
                                   "myapp:def456" := "<html><body>2</body></html>"], {});
      FetchIndex("myapp", map["index_key" := "def456"], store, None)
        == Resolution(Served("<html><body>2</body></html>"), ["myapp:def456"])
  {
    TestKeys();
    SanitizeFixedPoint("def456");
    var store := Store(map["myapp:current" := "myapp:abc123",
                           "myapp:abc123" := "<html><body>1</body></html>",
                           "myapp:def456" := "<html><body>2</body></html>"], {});
    TokenReadsOnlyCustomKey("myapp", map["index_key" := "def456"], store, None, "def456");
  }
}
