/** The request middleware: it lets the auth client mirror refreshed session
    cookies onto the request and the response, asks whether a user is signed
    in, and redirects between the login page and the journal. The auth
    client is an oracle here: it hands over the cookie batches it would
    write and whether a user is present. */
module Middleware {
  import opened Js

  // ------------------------------------------------------------ redirects

  datatype Decision = PassThrough | RedirectTo(location: string)

  /** Lines 44-53: signed out on a path that starts with `/journal` goes to
      the login page; signed in on exactly `/login` goes to the journal;
      anything else passes through. */
  function Decide(user: bool, pathname: string): (d: Decision)
    ensures d == RedirectTo("/login") <==> !user && StartsWith(pathname, "/journal")
    ensures d == RedirectTo("/journal") <==> user && pathname == "/login"
    ensures d.RedirectTo? ==> d.location == "/login" || d.location == "/journal"
  {
    if !user && StartsWith(pathname, "/journal") then RedirectTo("/login")
    else if user && pathname == "/login" then RedirectTo("/journal")
    else PassThrough
  }

  /** At most one redirect rule applies, and when neither does the request
      passes through. */
  lemma DecideCases(user: bool, pathname: string)
    ensures !(!user && StartsWith(pathname, "/journal") && user && pathname == "/login")
    ensures Decide(user, pathname) == PassThrough <==>
              !(!user && StartsWith(pathname, "/journal")) && !(user && pathname == "/login")
  {
  }

  /** A redirect never leads to another one: the page it names passes
      through for the same user. */
  lemma {:induction false} NoRedirectLoop(user: bool, pathname: string)
    requires Decide(user, pathname).RedirectTo?
    ensures Decide(user, Decide(user, pathname).location) == PassThrough
  {
    if !user {
      assert !StartsWith("/login", "/journal") by {
        assert "/login"[1] != "/journal"[1];
      }
    }
  }

  /** The journal test is a prefix test: `/journalx` is guarded too, while
      the login page is open to signed-out visitors. */
  lemma DecideExamples()
    ensures Decide(false, "/journal") == RedirectTo("/login")
    ensures Decide(false, "/journal/new") == RedirectTo("/login")
    ensures Decide(false, "/journalx") == RedirectTo("/login")
    ensures Decide(false, "/login") == PassThrough
    ensures Decide(true, "/login") == RedirectTo("/journal")
    ensures Decide(true, "/journal") == PassThrough
    ensures Decide(false, "/") == PassThrough
  {
    assert StartsWith("/journal/new", "/journal") by {
      assert "/journal/new"[..8] == "/journal";
    }
    assert StartsWith("/journalx", "/journal") by {
      assert "/journalx"[..8] == "/journal";
    }
    assert !StartsWith("/login", "/journal") by {
      assert "/login"[1] != "/journal"[1];
    }
  }

  // ------------------------------------------------------------ cookies

  type Options = map<string, string>

  /** One `{ name, value, options }` of a `setAll` batch. */
  datatype CookieToSet = CookieToSet(name: string, value: string, options: Options)

  /** What `response.cookies.set(name, value, options)` keeps per name. */
  datatype StoredCookie = StoredCookie(value: string, options: Options)

  /** Setting each `(name, value)` in order: later entries win. */
  function Assign<V>(m: map<string, V>, entries: seq<(string, V)>): (r: map<string, V>)
    ensures r.Keys == m.Keys + set i | 0 <= i < |entries| :: entries[i].0
    decreases |entries|
  {
    if entries == [] then m
    else
      var last := entries[|entries| - 1];
      var r := Assign(m, entries[..|entries| - 1])[last.0 := last.1];
      assert forall i :: 0 <= i < |entries| - 1 ==> entries[..|entries| - 1][i] == entries[i];
      r
  }

  /** A name set at position `k` and not again later holds the value from
      position `k`. */
  lemma {:induction false} AssignLastWins<V>(m: map<string, V>, entries: seq<(string, V)>, k: int)
    requires 0 <= k < |entries|
    requires forall j :: k < j < |entries| ==> entries[j].0 != entries[k].0
    ensures entries[k].0 in Assign(m, entries) && Assign(m, entries)[entries[k].0] == entries[k].1
    decreases |entries|
  {
    if k < |entries| - 1 {
      var init := entries[..|entries| - 1];
      assert init[k] == entries[k];
      assert forall j :: k < j < |init| ==> init[j] == entries[j];
      AssignLastWins(m, init, k);
    }
  }

  /** A name the entries never set keeps whatever it had. */
  lemma {:induction false} AssignUntouched<V>(m: map<string, V>, entries: seq<(string, V)>, n: string)
    requires forall j :: 0 <= j < |entries| ==> entries[j].0 != n
    ensures n in Assign(m, entries) <==> n in m
    ensures n in m ==> Assign(m, entries)[n] == m[n]
    decreases |entries|
  {
    if entries != [] {
      var init := entries[..|entries| - 1];
      assert forall j :: 0 <= j < |init| ==> init[j] == entries[j];
      AssignUntouched(m, init, n);
    }
  }

  /** The batch as `request.cookies.set(name, value)` sees it: options dropped. */
  function Values(batch: seq<CookieToSet>): (entries: seq<(string, string)>)
    ensures |entries| == |batch|
    ensures forall i :: 0 <= i < |batch| ==> entries[i] == (batch[i].name, batch[i].value)
  {
    seq(|batch|, i requires 0 <= i < |batch| => (batch[i].name, batch[i].value))
  }

  /** The batch as `response.cookies.set(name, value, options)` sees it. */
  function Full(batch: seq<CookieToSet>): (entries: seq<(string, StoredCookie)>)
    ensures |entries| == |batch|
    ensures forall i :: 0 <= i < |batch| ==> entries[i] == (batch[i].name, StoredCookie(batch[i].value, batch[i].options))
  {
    seq(|batch|, i requires 0 <= i < |batch| => (batch[i].name, StoredCookie(batch[i].value, batch[i].options)))
  }

  /** The cookie names a batch sets. */
  function Names(batch: seq<CookieToSet>): set<string> {
    set i | 0 <= i < |batch| :: batch[i].name
  }

  /** Whatever the two maps held before, after a batch the request and the
      response hold the same value for every name the batch sets. */
  lemma {:induction false} RequestAgreesWithResponse(req: map<string, string>, resp: map<string, StoredCookie>, batch: seq<CookieToSet>)
    ensures forall n :: n in Names(batch) ==>
              && n in Assign(req, Values(batch)) && n in Assign(resp, Full(batch))
              && Assign(req, Values(batch))[n] == Assign(resp, Full(batch))[n].value
    decreases |batch|
  {
    if batch != [] {
      var init := batch[..|batch| - 1];
      assert Values(batch)[..|batch| - 1] == Values(init);
      assert Full(batch)[..|batch| - 1] == Full(init);
      RequestAgreesWithResponse(req, resp, init);
      assert Names(batch) == Names(init) + {batch[|batch| - 1].name} by {
        assert forall i :: 0 <= i < |init| ==> init[i] == batch[i];
      }
    }
  }

  lemma FullKeys(batch: seq<CookieToSet>)
    ensures Assign(map[], Full(batch)).Keys == Names(batch)
  {
    assert forall i :: 0 <= i < |batch| ==> Full(batch)[i].0 == batch[i].name;
  }

  /** The request cookies after several `setAll` calls. */
  function AssignBatches(m: map<string, string>, batches: seq<seq<CookieToSet>>): (r: map<string, string>)
    ensures m.Keys <= r.Keys
    decreases |batches|
  {
    if batches == [] then m else AssignBatches(Assign(m, Values(batches[0])), batches[1..])
  }

  /** The cookies a pass-through response carries: those of the last batch,
      or none when the auth client wrote nothing. */
  function ResponseCookies(batches: seq<seq<CookieToSet>>): (r: map<string, StoredCookie>)
    ensures batches == [] ==> r == map[]
    ensures batches != [] ==> r.Keys == Names(batches[|batches| - 1])
  {
    if batches == [] then map[]
    else
      FullKeys(batches[|batches| - 1]);
      Assign(map[], Full(batches[|batches| - 1]))
  }

  /** A `NextResponse`: the cookies it will set, and the page it redirects
      to, if any. */
  class Response {
    var cookies: map<string, StoredCookie>
    const location: Option<string>

    /** `NextResponse.next(...)` */
    constructor Next()
      ensures cookies == map[] && location.None?
    {
      cookies := map[];
      location := None;
    }

    /** `NextResponse.redirect(new URL(to, request.url))` */
    constructor Redirect(to: string)
      ensures cookies == map[] && location == Some(to)
    {
      cookies := map[];
      location := Some(to);
    }

    /** `response.cookies.set(name, value, options)` */
    method Set(name: string, value: string, options: Options)
      modifies this
      ensures cookies == old(cookies)[name := StoredCookie(value, options)]
    {
      cookies := cookies[name := StoredCookie(value, options)];
    }
  }

  /** One run of `middleware(request)`: the request's cookies, its path,
      and the `response` variable the `setAll` callback reassigns. */
  class Middleware {
    var requestCookies: map<string, string>
    const pathname: string
    var response: Response

    /** Lines 11-15: the initial pass-through response. */
    constructor (cookies: map<string, string>, pathname: string)
      ensures requestCookies == cookies && this.pathname == pathname
      ensures fresh(response) && response.cookies == map[] && response.location.None?
    {
      requestCookies := cookies;
      this.pathname := pathname;
      response := new Response.Next();
    }

    /** Lines 25-35: copy the batch onto the request without options, then
        build a new response and copy the batch onto it with options. */
    method SetAll(batch: seq<CookieToSet>)
      modifies this
      ensures requestCookies == Assign(old(requestCookies), Values(batch))
      ensures fresh(response) && response.location.None?
      ensures response.cookies == Assign(map[], Full(batch))
      ensures response.cookies.Keys == Names(batch)
    {
      SetOnRequest(batch);
      response := ResponseWith(batch);
      FullKeys(batch);
    }

    /** Lines 26-28: `request.cookies.set(name, value)` for each cookie. */
    method SetOnRequest(batch: seq<CookieToSet>)
      modifies this
      ensures requestCookies == Assign(old(requestCookies), Values(batch))
      ensures response == old(response)
    {
      var i := 0;
      while i < |batch|
        invariant 0 <= i <= |batch|
        invariant requestCookies == Assign(old(requestCookies), Values(batch)[..i])
        invariant response == old(response)
      {
        assert Values(batch)[..i + 1][..i] == Values(batch)[..i];
        requestCookies := requestCookies[batch[i].name := batch[i].value];
        i := i + 1;
      }
      assert Values(batch)[..i] == Values(batch);
    }

    /** Lines 29-34: a new pass-through response, then
        `response.cookies.set(name, value, options)` for each cookie. */
    static method ResponseWith(batch: seq<CookieToSet>) returns (r: Response)
      ensures fresh(r) && r.location.None?
      ensures r.cookies == Assign(map[], Full(batch))
    {
      r := new Response.Next();
      var i := 0;
      while i < |batch|
        invariant 0 <= i <= |batch|
        invariant fresh(r) && r.location.None?
        invariant r.cookies == Assign(map[], Full(batch)[..i])
      {
        assert Full(batch)[..i + 1][..i] == Full(batch)[..i];
        r.Set(batch[i].name, batch[i].value, batch[i].options);
        i := i + 1;
      }
      assert Full(batch)[..i] == Full(batch);
    }

    /** Lines 43-53: a fresh redirect with no cookies, or the current
        response. */
    method Finish(user: bool) returns (r: Response)
      ensures Decide(user, pathname) == PassThrough ==> r == response
      ensures Decide(user, pathname).RedirectTo? ==>
                fresh(r) && r.cookies == map[] && r.location == Some(Decide(user, pathname).location)
    {
      var d := Decide(user, pathname);
      if d.PassThrough? {
        r := response;
      } else {
        r := new Response.Redirect(d.location);
      }
    }
  }

  /** The whole middleware with the auth client as an oracle: it calls
      `setAll` once per batch while refreshing the session, then reports
      whether a user is signed in. Returns the response and the request
      cookies forwarded to the page. */
  method Run(cookies: map<string, string>, pathname: string, batches: seq<seq<CookieToSet>>, user: bool)
    returns (r: Response, forwarded: map<string, string>)
    ensures forwarded == AssignBatches(cookies, batches)
    ensures Decide(user, pathname) == PassThrough ==> r.location.None? && r.cookies == ResponseCookies(batches)
    ensures Decide(user, pathname).RedirectTo? ==> r.location == Some(Decide(user, pathname).location) && r.cookies == map[]
  {
    var mw := new Middleware(cookies, pathname);
    var k := 0;
    while k < |batches|
      invariant 0 <= k <= |batches|
      invariant AssignBatches(mw.requestCookies, batches[k..]) == AssignBatches(cookies, batches)
      invariant mw.pathname == pathname && mw.response.location.None?
      invariant mw.response.cookies == ResponseCookies(batches[..k])
    {
      var batch := batches[k];
      assert AssignBatches(mw.requestCookies, batches[k..])
          == AssignBatches(Assign(mw.requestCookies, Values(batch)), batches[k + 1..]) by {
        assert batches[k..][1..] == batches[k + 1..];
      }
      mw.SetAll(batch);
      assert ResponseCookies(batches[..k + 1]) == Assign(map[], Full(batch)) by {
        assert batches[..k + 1][k] == batch;
      }
      k := k + 1;
    }
    assert batches[..k] == batches && batches[k..] == [];
    r := mw.Finish(user);
    forwarded := mw.requestCookies;
  }

  // ------------------------------------------------------------ matcher

  /** The characters the regular-expression `.` does not match. */
  predicate IsLineTerminator(c: char) {
    c == '\n' || c == '\r' || c == '\U{2028}' || c == '\U{2029}'
  }

  predicate NoLineTerminator(s: string) {
    forall i :: 0 <= i < |s| ==> !IsLineTerminator(s[i])
  }

  predicate HasStaticExtension(rest: string) {
    EndsWith(rest, ".svg") || EndsWith(rest, ".png") || EndsWith(rest, ".jpg")
    || EndsWith(rest, ".jpeg") || EndsWith(rest, ".gif") || EndsWith(rest, ".webp")
  }

  /** The lookahead alternative `favicon.ico` as the pattern spells it: its
      `.` is not escaped, so any character but a line terminator stands
      between `favicon` and `ico`. */
  predicate FaviconAsWritten(rest: string) {
    |rest| >= 11 && rest[..7] == "favicon" && !IsLineTerminator(rest[7]) && rest[8..11] == "ico"
  }

  /** `config.matcher` read as a regular expression over the whole path:
      a `/`, then a remainder without line terminators that the negative
      lookahead does not reject. */
  function IsMatchedAsWritten(pathname: string): (b: bool)
    ensures b ==> pathname != [] && pathname[0] == '/' && NoLineTerminator(pathname[1..])
    ensures b ==> !StartsWith(pathname[1..], "_next/static") && !StartsWith(pathname[1..], "_next/image")
    ensures b ==> !FaviconAsWritten(pathname[1..]) && !HasStaticExtension(pathname[1..])
  {
    if pathname == [] || pathname[0] != '/' then false
    else
      var rest := pathname[1..];
      NoLineTerminator(rest)
      && !StartsWith(rest, "_next/static") && !StartsWith(rest, "_next/image")
      && !FaviconAsWritten(rest) && !HasStaticExtension(rest)
  }

  /** The matcher as its comment describes it: `favicon.ico` with a literal
      dot. */
  function IsMatched(pathname: string): (b: bool)
    ensures b ==> pathname != [] && pathname[0] == '/' && NoLineTerminator(pathname[1..])
    ensures b ==> !StartsWith(pathname[1..], "_next/static") && !StartsWith(pathname[1..], "_next/image")
    ensures b ==> !StartsWith(pathname[1..], "favicon.ico") && !HasStaticExtension(pathname[1..])
  {
    if pathname == [] || pathname[0] != '/' then false
    else
      var rest := pathname[1..];
      NoLineTerminator(rest)
      && !StartsWith(rest, "_next/static") && !StartsWith(rest, "_next/image")
      && !StartsWith(rest, "favicon.ico") && !HasStaticExtension(rest)
  }

  lemma PrefixAfterSlash(pathname: string, p: string)
    requires pathname != [] && pathname[0] == '/'
    ensures StartsWith(pathname, "/" + p) <==> StartsWith(pathname[1..], p)
  {
    if StartsWith(pathname[1..], p) {
      assert pathname[..|p| + 1] == [pathname[0]] + pathname[1..][..|p|];
    }
    if StartsWith(pathname, "/" + p) {
      assert pathname[1..][..|p|] == pathname[..|p| + 1][1..];
    }
  }

  lemma SuffixAfterSlash(pathname: string, suffix: string)
    requires pathname != [] && pathname[0] == '/'
    requires suffix != [] && suffix[0] == '.'
    ensures EndsWith(pathname, suffix) <==> EndsWith(pathname[1..], suffix)
  {
    if |pathname| > |suffix| {
      assert pathname[|pathname| - |suffix|..] == pathname[1..][|pathname[1..]| - |suffix|..];
    } else if |pathname| == |suffix| {
      assert pathname[|pathname| - |suffix|..] == pathname;
    }
  }

  /** On whole paths: a path is matched exactly when it starts with `/`,
      has no line terminator, and is none of the framework's asset paths,
      the favicon, or an image file. */
  lemma MatchedPathname(pathname: string)
    ensures IsMatched(pathname) <==>
              && pathname != [] && pathname[0] == '/' && NoLineTerminator(pathname[1..])
              && !StartsWith(pathname, "/_next/static") && !StartsWith(pathname, "/_next/image")
              && !StartsWith(pathname, "/favicon.ico") && !HasStaticExtension(pathname)
  {
    if pathname != [] && pathname[0] == '/' {
      ExcludedPrefixesAfterSlash(pathname);
      StaticExtensionAfterSlash(pathname);
    }
  }

  /** The same on whole paths for the pattern as written, where the
      favicon alternative is the looser `FaviconAsWritten`. */
  lemma MatchedPathnameAsWritten(pathname: string)
    ensures IsMatchedAsWritten(pathname) <==>
              && pathname != [] && pathname[0] == '/' && NoLineTerminator(pathname[1..])
              && !StartsWith(pathname, "/_next/static") && !StartsWith(pathname, "/_next/image")
              && !FaviconAsWritten(pathname[1..]) && !HasStaticExtension(pathname)
  {
    if pathname != [] && pathname[0] == '/' {
      ExcludedPrefixesAfterSlash(pathname);
      StaticExtensionAfterSlash(pathname);
    }
  }

  lemma ExcludedPrefixesAfterSlash(pathname: string)
    requires pathname != [] && pathname[0] == '/'
    ensures StartsWith(pathname, "/_next/static") <==> StartsWith(pathname[1..], "_next/static")
    ensures StartsWith(pathname, "/_next/image") <==> StartsWith(pathname[1..], "_next/image")
    ensures StartsWith(pathname, "/favicon.ico") <==> StartsWith(pathname[1..], "favicon.ico")
  {
    StaticPrefixAfterSlash(pathname);
    ImagePrefixAfterSlash(pathname);
    FaviconPrefixAfterSlash(pathname);
  }

  lemma StaticPrefixAfterSlash(pathname: string)
    requires pathname != [] && pathname[0] == '/'
    ensures StartsWith(pathname, "/_next/static") <==> StartsWith(pathname[1..], "_next/static")
  {
    PrefixAfterSlash(pathname, "_next/static");
  }

  lemma ImagePrefixAfterSlash(pathname: string)
    requires pathname != [] && pathname[0] == '/'
    ensures StartsWith(pathname, "/_next/image") <==> StartsWith(pathname[1..], "_next/image")
  {
    PrefixAfterSlash(pathname, "_next/image");
  }

  lemma FaviconPrefixAfterSlash(pathname: string)
    requires pathname != [] && pathname[0] == '/'
    ensures StartsWith(pathname, "/favicon.ico") <==> StartsWith(pathname[1..], "favicon.ico")
  {
    PrefixAfterSlash(pathname, "favicon.ico");
  }

  lemma StaticExtensionAfterSlash(pathname: string)
    requires pathname != [] && pathname[0] == '/'
    ensures HasStaticExtension(pathname) <==> HasStaticExtension(pathname[1..])
  {
    SuffixAfterSlash(pathname, ".svg");
    SuffixAfterSlash(pathname, ".png");
    SuffixAfterSlash(pathname, ".jpg");
    SuffixAfterSlash(pathname, ".jpeg");
    SuffixAfterSlash(pathname, ".gif");
    SuffixAfterSlash(pathname, ".webp");
  }

  /** The written pattern skips every path the described one skips, and the
      two differ only on a `favicon?ico` path whose middle character is not
      a dot. */
  lemma MatcherDifference(pathname: string)
    ensures IsMatchedAsWritten(pathname) ==> IsMatched(pathname)
    ensures IsMatched(pathname) && !IsMatchedAsWritten(pathname) ==>
              FaviconAsWritten(pathname[1..]) && pathname[8] != '.'
  {
    if pathname != [] && pathname[0] == '/' {
      var rest := pathname[1..];
      if StartsWith(rest, "favicon.ico") {
        assert rest[..11] == "favicon.ico";
        assert rest[..7] == "favicon" && rest[8..11] == "ico";
        assert FaviconAsWritten(rest);
      }
      if FaviconAsWritten(rest) && rest[7] == '.' {
        assert rest[..11] == rest[..7] + [rest[7]] + rest[8..11];
        assert StartsWith(rest, "favicon.ico");
      }
    }
  }

  lemma FaviconXicoRest(rest: string)
    requires rest == "faviconXico"
    ensures NoLineTerminator(rest) && FaviconAsWritten(rest)
    ensures !StartsWith(rest, "_next/static") && !StartsWith(rest, "_next/image")
    ensures !StartsWith(rest, "favicon.ico") && !HasStaticExtension(rest)
  {
    assert rest[..7] == "favicon" && rest[8..11] == "ico";
    assert rest[0] != '_' && rest[7] != '.';
    assert rest[|rest| - 4] != '.' && rest[|rest| - 5] != '.';
  }

  /** `/faviconXico` reaches the middleware only under the described
      pattern. */
  lemma MatcherDotExample()
    ensures !IsMatchedAsWritten("/faviconXico")
    ensures IsMatched("/faviconXico")
  {
    var p := "/faviconXico";
    assert p != [] && p[0] == '/';
    assert p[1..] == "faviconXico";
    FaviconXicoRest(p[1..]);
  }

  /** Pages reach the middleware; framework assets, the favicon and images
      do not. */
  lemma MatcherExamples()
    ensures IsMatched("/journal")
    ensures !IsMatched("/_next/static/chunk.js")
    ensures !IsMatched("/favicon.ico")
    ensures !IsMatched("/images/logo.png")
  {
    JournalIsMatched();
    AssetsAreSkipped();
  }

  lemma JournalIsMatched()
    ensures IsMatched("/journal")
  {
    var j := "/journal"[1..];
    assert j == "journal";
    assert !StartsWith(j, "_next/static") && !StartsWith(j, "_next/image") && !StartsWith(j, "favicon.ico") by {
      assert j[0] != '_' && j[0] != 'f';
    }
    assert !HasStaticExtension(j) by {
      assert j[|j| - 4] != '.' && j[|j| - 5] != '.';
    }
  }

  lemma AssetsAreSkipped()
    ensures !IsMatched("/_next/static/chunk.js")
    ensures !IsMatched("/favicon.ico")
    ensures !IsMatched("/images/logo.png")
  {
    assert "/_next/static/chunk.js"[1..][..12] == "_next/static";
    assert "/favicon.ico"[1..][..11] == "favicon.ico";
    var l := "/images/logo.png"[1..];
    assert l[|l| - 4..] == ".png";
  }
}
