/** The start-up detection gate of public/src/main.js: `normalizeUrl`, the two manifest
    schemas read by `getManifestHomeAndImage`, and the acceptance tests `detectionGate`
    applies to the fetched manifest, the two launch meta tags and the embed image. JSON
    values are the parsed values; fetching and parsing are left to the caller. */
module Manifest {
  import opened Wrappers
  import opened Text

  /** The origin the app must be served from, with and without its trailing slash. */
  const Host: String := "https://rekt-runner.vercel.app"
  const ExpectedHome: String := Host + "/"
  const EmbedSuffix: String := "/assets/embed-3x2.png"

  /** A JavaScript value as far as the gate looks at it. A number carries its `String(x)`
      form; an object its members in source order. */
  datatype JsValue =
    | Undefined
    | Null
    | Bool(b: bool)
    | Num(repr: String)
    | Str(s: String)
    | Arr(items: seq<JsValue>)
    | Obj(members: seq<(String, JsValue)>)

  /** JavaScript truthiness. */
  predicate Truthy(v: JsValue) {
    match v
    case Undefined => false
    case Null => false
    case Bool(b) => b
    case Num(r) => r != "0" && r != "NaN"
    case Str(s) => s != ""
    case Arr(_) => true
    case Obj(_) => true
  }

  predicate Nullish(v: JsValue) {
    v.Undefined? || v.Null?
  }

  /** The value of the last member named `key` (the one `JSON.parse` keeps). */
  function Member(members: seq<(String, JsValue)>, key: String): (r: JsValue)
    ensures r != Undefined ==> exists i :: 0 <= i < |members| && members[i] == (key, r)
    ensures (forall i :: 0 <= i < |members| ==> members[i].0 != key) ==> r == Undefined
    decreases |members|
  {
    if |members| == 0 then Undefined
    else if members[|members| - 1].0 == key then members[|members| - 1].1
    else Member(members[..|members| - 1], key)
  }

  /** Optional chaining `v?.key`: undefined on null or undefined, and on anything but an
      object (the keys read here are not properties of strings, numbers or arrays). */
  function Get(v: JsValue, key: String): JsValue {
    if v.Obj? then Member(v.members, key) else Undefined
  }

  /** `a ?? b`. */
  function Coalesce(a: JsValue, b: JsValue): (r: JsValue)
    ensures !Nullish(a) ==> r == a
    ensures Nullish(a) ==> r == b
  {
    if Nullish(a) then b else a
  }

  /** `String(v)`; an array joins its elements with commas, null and undefined ones as
      empty strings. */
  function ToJsString(v: JsValue): String
    decreases v, 1
  {
    match v
    case Undefined => "undefined"
    case Null => "null"
    case Bool(b) => if b then "true" else "false"
    case Num(r) => r
    case Str(s) => s
    case Arr(items) => Join(items)
    case Obj(_) => "[object Object]"
  }

  /** `items.join(",")` as `Array.prototype.toString` does it. */
  function Join(items: seq<JsValue>): String
    decreases items, 0
  {
    if |items| == 0 then ""
    else
      var head := if Nullish(items[0]) then "" else ToJsString(items[0]);
      if |items| == 1 then head else head + "," + Join(items[1..])
  }

  /** The number of `/` at the end of `s`. */
  function TrailingSlashes(s: String): (k: nat)
    ensures k <= |s|
    decreases |s|
  {
    if |s| > 0 && s[|s| - 1] == '/' then TrailingSlashes(s[..|s| - 1]) + 1 else 0
  }

  /** What `TrailingSlashes` counts is the longest run of slashes ending the text. */
  lemma {:induction false} TrailingRun(s: String)
    ensures var k := TrailingSlashes(s);
            AllChar(s[|s| - k..], '/') && (k < |s| ==> s[|s| - k - 1] != '/')
    decreases |s|
  {
    if |s| > 0 && s[|s| - 1] == '/' {
      var t := s[..|s| - 1];
      TrailingRun(t);
      var k := TrailingSlashes(t);
      assert s[|s| - 1 - k..] == t[|t| - k..] + ['/'];
      assert s[|s| - (k + 1)..] == s[|s| - 1 - k..];
    }
  }

  /** `u.replace(/\/+$/, "/")`: a trailing run of slashes becomes one slash. */
  function CollapseSlashes(u: String): String {
    var k := TrailingSlashes(u);
    if k == 0 then u else u[..|u| - k] + "/"
  }

  /** `normalizeUrl(u)`: "" for anything falsy or not a string. */
  function NormalizeUrl(u: JsValue): (r: String)
    ensures !(Truthy(u) && u.Str?) ==> r == ""
  {
    if !Truthy(u) || !u.Str? then "" else CollapseSlashes(u.s)
  }

  /** Appending `n` slashes to text that does not end in one adds exactly `n` trailing
      slashes. */
  lemma {:induction false} SlashesCounted(p: String, n: nat)
    requires |p| == 0 || p[|p| - 1] != '/'
    ensures TrailingSlashes(p + Repeat('/', n)) == n
    decreases n
  {
    if n > 0 {
      var u := p + Repeat('/', n);
      assert u[..|u| - 1] == p + Repeat('/', n - 1);
      SlashesCounted(p, n - 1);
    }
  }

  /** Collapsing keeps everything before the trailing run and leaves at most one slash
      at the end: one if there was a run, none (nothing added) if there was not. */
  lemma CollapseShape(u: String)
    ensures var k := TrailingSlashes(u);
            var r := CollapseSlashes(u);
            r[..|u| - k] == u[..|u| - k]
            && TrailingSlashes(r) == (if k == 0 then 0 else 1)
            && |r| == |u| - k + (if k == 0 then 0 else 1)
  {
    var k := TrailingSlashes(u);
    if k > 0 {
      var p := u[..|u| - k];
      TrailingRun(u);
      assert |p| == 0 || p[|p| - 1] == u[|u| - k - 1];
      assert Repeat('/', 1) == "/";
      SlashesCounted(p, 1);
    }
  }

  /** Normalising twice is normalising once. */
  lemma CollapseIdempotent(u: String)
    ensures CollapseSlashes(CollapseSlashes(u)) == CollapseSlashes(u)
  {
    var r := CollapseSlashes(u);
    CollapseShape(u);
    if TrailingSlashes(u) > 0 {
      assert r[..|r| - 1] + "/" == r;
    }
  }

  lemma NormalizeIdempotent(u: JsValue)
    ensures NormalizeUrl(Str(NormalizeUrl(u))) == NormalizeUrl(u)
  {
    if Truthy(u) && u.Str? {
      var r := CollapseSlashes(u.s);
      assert |r| > 0 by {
        CollapseShape(u.s);
      }
      assert Truthy(Str(r));
      CollapseIdempotent(u.s);
    }
  }

  /** Collapsing gives `h + "/"`, for an `h` that does not end in a slash, exactly when the
      input is `h` followed by one or more slashes. */
  lemma CollapseToSlashed(u: String, h: String)
    requires |h| == 0 || h[|h| - 1] != '/'
    ensures CollapseSlashes(u) == h + "/" <==> exists n: nat :: n >= 1 && u == h + Repeat('/', n)
  {
    if CollapseSlashes(u) == h + "/" {
      CollapsedIsRun(u, h);
    }
    if exists n: nat :: n >= 1 && u == h + Repeat('/', n) {
      var n: nat :| n >= 1 && u == h + Repeat('/', n);
      RunCollapses(h, n);
    }
  }

  lemma CollapsedIsRun(u: String, h: String)
    requires |h| == 0 || h[|h| - 1] != '/'
    requires CollapseSlashes(u) == h + "/"
    ensures u == h + Repeat('/', TrailingSlashes(u)) && TrailingSlashes(u) >= 1
  {
    var k := TrailingSlashes(u);
    CollapseShape(u);
    TrailingRun(u);
    assert k != 0;
    var p := u[..|u| - k];
    assert p + "/" == h + "/";
    assert p == (p + "/")[..|p|];
    assert u[|u| - k..] == Repeat('/', k);
    assert u == p + u[|u| - k..];
  }

  lemma RunCollapses(h: String, n: nat)
    requires |h| == 0 || h[|h| - 1] != '/'
    requires n >= 1
    ensures CollapseSlashes(h + Repeat('/', n)) == h + "/"
  {
    var u := h + Repeat('/', n);
    SlashesCounted(h, n);
    assert u[..|h|] == h;
  }

  /** A url passes the home check exactly when it is the host followed by one or more
      slashes: a missing trailing slash is not added. */
  lemma HomeMatches(u: JsValue)
    ensures NormalizeUrl(u) == ExpectedHome <==> exists n: nat :: n >= 1 && u == Str(Host + Repeat('/', n))
  {
    assert Host[|Host| - 1] == 'p';
    if u.Str? {
      CollapseToSlashed(u.s, Host);
    }
  }

  /** The two fields the gate reads from the manifest. */
  datatype Embed = Embed(homeUrl: JsValue, imageUrl: JsValue)

  /** `getManifestHomeAndImage(j)`: each field from `miniapp` when set there, else from the
      top level, else "". */
  function HomeAndImage(j: JsValue): (r: Embed)
    ensures !Nullish(r.homeUrl) && !Nullish(r.imageUrl)
  {
    var app := Get(j, "miniapp");
    Embed(Coalesce(Get(app, "homeUrl"), Coalesce(Get(j, "homeUrl"), Str(""))),
          Coalesce(Get(app, "imageUrl"), Coalesce(Get(j, "imageUrl"), Str(""))))
  }

  /** Which schema supplies each field: the `miniapp` one wins whenever it is not null or
      undefined, the top-level one is the fallback, and "" is the default. */
  lemma HomeAndImageSources(j: JsValue)
    ensures var r := HomeAndImage(j);
            var app := Get(j, "miniapp");
            (!Nullish(Get(app, "homeUrl")) ==> r.homeUrl == Get(app, "homeUrl"))
            && (Nullish(Get(app, "homeUrl")) && !Nullish(Get(j, "homeUrl")) ==> r.homeUrl == Get(j, "homeUrl"))
            && (Nullish(Get(app, "homeUrl")) && Nullish(Get(j, "homeUrl")) ==> r.homeUrl == Str(""))
            && (!Nullish(Get(app, "imageUrl")) ==> r.imageUrl == Get(app, "imageUrl"))
            && (Nullish(Get(app, "imageUrl")) && !Nullish(Get(j, "imageUrl")) ==> r.imageUrl == Get(j, "imageUrl"))
            && (Nullish(Get(app, "imageUrl")) && Nullish(Get(j, "imageUrl")) ==> r.imageUrl == Str(""))
  {
  }

  /** A manifest in the new schema, `{ "miniapp": { "homeUrl": …, "imageUrl": … } }`. */
  function NewSchema(e: Embed): JsValue {
    Obj([("miniapp", Obj([("homeUrl", e.homeUrl), ("imageUrl", e.imageUrl)]))])
  }

  /** A manifest in the old schema, `{ "homeUrl": …, "imageUrl": … }`. */
  function OldSchema(e: Embed): JsValue {
    Obj([("homeUrl", e.homeUrl), ("imageUrl", e.imageUrl)])
  }

  /** Both schemas read back the fields they were written with. */
  lemma SchemasRoundTrip(e: Embed)
    requires !Nullish(e.homeUrl) && !Nullish(e.imageUrl)
    ensures HomeAndImage(NewSchema(e)) == e
    ensures HomeAndImage(OldSchema(e)) == e
  {
    var inner := [("homeUrl", e.homeUrl), ("imageUrl", e.imageUrl)];
    assert Member(inner, "homeUrl") == e.homeUrl by {
      assert inner[..1] == [("homeUrl", e.homeUrl)];
    }
    assert Member([("miniapp", Obj(inner))], "homeUrl") == Undefined;
    assert Member([("miniapp", Obj(inner))], "imageUrl") == Undefined;
  }

  /** Why the gate stops. */
  datatype GateError =
    | ManifestMissing
    | ManifestUnparsable(detail: String)
    | HomeMissing
    | HomeMismatch
    | ImageMissing
    | ImageIncorrect
    | TagMissing(name: String)
    | TagUnparsable(name: String)
    | NotLaunchFrame(name: String)
    | WrongActionUrl(name: String)
    | EmbedMissing

  /** The message each failure throws. */
  function Message(e: GateError): String {
    match e
    case ManifestMissing => "Missing /.well-known/farcaster.json"
    case ManifestUnparsable(d) => d
    case HomeMissing => "miniapp.homeUrl missing"
    case HomeMismatch => "homeUrl mismatch"
    case ImageMissing => "miniapp.imageUrl missing"
    case ImageIncorrect => "miniapp.imageUrl missing/incorrect"
    case TagMissing(n) => "Missing <meta name=\"" + n + "\">"
    case TagUnparsable(n) => n + " JSON parse failed"
    case NotLaunchFrame(n) => n + " action.type must be launch_frame"
    case WrongActionUrl(n) => n + " action.url must be " + ExpectedHome
    case EmbedMissing => "Missing " + EmbedSuffix
  }

  /** The checks on a fetched manifest `j`, in the source's order. */
  function CheckManifest(j: JsValue): (r: Result<(), GateError>)
    ensures r.Err? ==> r.error in {HomeMissing, HomeMismatch, ImageMissing, ImageIncorrect}
  {
    var e := HomeAndImage(j);
    if !Truthy(e.homeUrl) then Err(HomeMissing)
    else if NormalizeUrl(e.homeUrl) != ExpectedHome then Err(HomeMismatch)
    else if !Truthy(e.imageUrl) then Err(ImageMissing)
    else if !EndsWith(ToJsString(e.imageUrl), EmbedSuffix) then Err(ImageIncorrect)
    else Ok(())
  }

  /** A manifest passes exactly when its home url is the host followed by slashes and its
      image url is truthy and, as a string, ends with the embed path; the first failed
      check names the error. */
  lemma CheckManifestMeans(j: JsValue)
    ensures var e := HomeAndImage(j);
            CheckManifest(j).Ok? <==>
              (exists n: nat :: n >= 1 && e.homeUrl == Str(Host + Repeat('/', n)))
              && Truthy(e.imageUrl) && EndsWith(ToJsString(e.imageUrl), EmbedSuffix)
    ensures var e := HomeAndImage(j);
            CheckManifest(j) == Err(HomeMismatch) <==> Truthy(e.homeUrl) && NormalizeUrl(e.homeUrl) != ExpectedHome
  {
    var e := HomeAndImage(j);
    HomeMatches(e.homeUrl);
    if NormalizeUrl(e.homeUrl) == ExpectedHome {
      assert Truthy(e.homeUrl);
    }
  }

  /** A launch meta tag: absent, present with content that does not parse, or present with
      the parsed content. */
  datatype MetaTag = Absent | Unparsable | Parsed(content: JsValue)

  /** The checks on the meta tag called `name`. */
  function CheckTag(name: String, tag: MetaTag): (r: Result<(), GateError>)
    ensures r.Err? ==> r.error in {TagMissing(name), TagUnparsable(name), NotLaunchFrame(name), WrongActionUrl(name)}
  {
    match tag
    case Absent => Err(TagMissing(name))
    case Unparsable => Err(TagUnparsable(name))
    case Parsed(p) =>
      var action := Get(Get(p, "button"), "action");
      if Get(action, "type") != Str("launch_frame") then Err(NotLaunchFrame(name))
      else if NormalizeUrl(Get(action, "url")) != ExpectedHome then Err(WrongActionUrl(name))
      else Ok(())
  }

  /** A tag passes exactly when its content parses to an object whose `button.action` has
      the type "launch_frame" and a url that is the host followed by slashes. */
  lemma CheckTagMeans(name: String, tag: MetaTag)
    ensures CheckTag(name, tag).Ok? <==>
              tag.Parsed? && tag.content.Obj?
              && var action := Get(Get(tag.content, "button"), "action");
                 action.Obj? && Member(action.members, "type") == Str("launch_frame")
                 && exists n: nat :: n >= 1 && Member(action.members, "url") == Str(Host + Repeat('/', n))
  {
    if tag.Parsed? {
      var action := Get(Get(tag.content, "button"), "action");
      HomeMatches(Get(action, "url"));
    }
  }

  /** What the manifest fetch gives: a failed response, a body `res.json()` cannot parse
      (its SyntaxError message is engine-defined, so it is carried as `detail`), or the
      parsed body. */
  datatype Fetched = NotOk | Malformed(detail: String) | Body(json: JsValue)

  const TagNames: seq<String> := ["fc:miniapp", "fc:frame"]

  /** `detectionGate()`, with the manifest fetch, the two tags in the order `fc:miniapp`,
      `fc:frame`, and whether the embed image answers. */
  function Gate(manifest: Fetched, miniappTag: MetaTag, frameTag: MetaTag, embedFound: bool): (r: Result<(), GateError>)
  {
    if manifest.NotOk? then Err(ManifestMissing)
    else if manifest.Malformed? then Err(ManifestUnparsable(manifest.detail))
    else if CheckManifest(manifest.json).Err? then CheckManifest(manifest.json)
    else if CheckTag(TagNames[0], miniappTag).Err? then CheckTag(TagNames[0], miniappTag)
    else if CheckTag(TagNames[1], frameTag).Err? then CheckTag(TagNames[1], frameTag)
    else if !embedFound then Err(EmbedMissing)
    else Ok(())
  }

  /** The gate opens exactly when every check passes, and a failure is reported by the
      earliest check that fails. */
  lemma GateMeans(manifest: Fetched, miniappTag: MetaTag, frameTag: MetaTag, embedFound: bool)
    ensures Gate(manifest, miniappTag, frameTag, embedFound).Ok? <==>
              manifest.Body? && CheckManifest(manifest.json).Ok?
              && CheckTag("fc:miniapp", miniappTag).Ok? && CheckTag("fc:frame", frameTag).Ok? && embedFound
    ensures var r := Gate(manifest, miniappTag, frameTag, embedFound);
            (manifest.Malformed? ==> r == Err(ManifestUnparsable(manifest.detail)))
            && (r.Err? && r.error.TagMissing? ==> manifest.Body? && CheckManifest(manifest.json).Ok?)
            && (r == Err(EmbedMissing) ==> CheckTag("fc:frame", frameTag).Ok? && CheckTag("fc:miniapp", miniappTag).Ok?)
  {
  }
}
