/**
  The two request handlers of server.js that carry logic: `POST /api/shorten`
  (URL checks, custom-name normalisation, collision check, random-code loop,
  save) and the catch-all `GET /:shortCode` (static-file filter, read-through
  lookup, redirect).

  `new URL(originalUrl)` is the parameter `parses`: true when the WHATWG URL
  parser accepts the string. `crypto.randomBytes(4)` is the sequence `draws`,
  consumed from the front; if it runs out before a fresh code turns up the
  handler answers `NoFreshCode`, which the unbounded loop of the source never
  does.
 */
module Server {
  import opened Wrappers
  import opened JsStrings
  import opened ShortCode
  import opened Store

  /** The JSON body of a shorten request; an absent field is `None`. */
  datatype ShortenRequest = ShortenRequest(originalUrl: Option<string>, customName: Option<string>)

  /** The four 400 answers of the shorten handler. */
  datatype ShortenError = UrlRequired | InvalidUrlFormat | ClashesWithStaticFile | NameInUse

  /** The code the handler settles on, or why it stopped. */
  datatype Allocation = Allocated(code: string) | Refused(error: ShortenError) | DrawsExhausted

  datatype ShortenResponse =
    | Created(originalUrl: string, shortUrl: string, shortCode: string)
    | BadRequest(error: ShortenError)
    | NoFreshCode

  /** The answers of the catch-all route: the static-file 404, the lookup 404, or a redirect. */
  datatype RedirectResponse = FileNotFound | UrlNotFound | RedirectTo(url: string)

  /** `customName && customName.trim()`: a name that is present and not blank. */
  predicate HasCustomName(req: ShortenRequest) {
    req.customName.Some? && Trim(req.customName.value) != ""
  }

  /** `${req.protocol}://${req.get('host')}/${shortCode}` */
  function ShortUrl(protocol: string, host: string, code: string): string {
    protocol + "://" + host + "/" + code
  }

  // ---------------------------------------------------------------------------
  // Code allocation
  // ---------------------------------------------------------------------------

  /** The index of the first draw whose hex spelling is not a key. */
  function FirstFresh(keys: set<string>, draws: seq<Draw>): (r: Option<nat>)
    ensures r.Some? ==> r.value < |draws| && HexEncode(draws[r.value]) !in keys
    ensures r.Some? ==> forall j :: 0 <= j < r.value ==> HexEncode(draws[j]) in keys
    ensures r.None? <==> forall j :: 0 <= j < |draws| ==> HexEncode(draws[j]) in keys
  {
    if draws == [] then None
    else if HexEncode(draws[0]) !in keys then Some(0)
    else match FirstFresh(keys, draws[1..])
      case None => None
      case Some(i) => Some(i + 1)
  }

  /** The code the random loop ends on (server.js lines 178-183). */
  function FreshCode(keys: set<string>, draws: seq<Draw>): (r: Option<string>)
    ensures r.Some? ==> IsHexCode(r.value) && r.value !in keys
  {
    match FirstFresh(keys, draws)
    case None => None
    case Some(i) => RandomCodesAreHexCodes(draws[i], ""); Some(HexEncode(draws[i]))
  }

  /** What the shorten handler decides, given the memory keys at the time of the request. */
  function Allocate(keys: set<string>, req: ShortenRequest, parses: string -> bool, draws: seq<Draw>): (a: Allocation)
    ensures a.Allocated? ==> Truthy(req.originalUrl) && parses(req.originalUrl.value)
    ensures a.Allocated? ==> a.code != "" && a.code !in keys && !HasForbiddenExtension(a.code)
  {
    if !Truthy(req.originalUrl) then Refused(UrlRequired)
    else if !parses(req.originalUrl.value) then Refused(InvalidUrlFormat)
    else if HasCustomName(req) then
      var name := Normalise(req.customName.value);
      if name == "" && draws == [] then DrawsExhausted
      else
        var code := if name != "" then name else HexEncode(draws[0]);
        if HasForbiddenExtension(code) then Refused(ClashesWithStaticFile)
        else if code in keys then Refused(NameInUse)
        else Allocated(code)
    else
      match FreshCode(keys, draws)
      case None => DrawsExhausted
      case Some(code) => HexCodeIsRoutable(code); Allocated(code)
  }

  /** The random-code loop: draw until the code is not a key of the memory map. */
  method RandomCode(store: UrlStore, draws: seq<Draw>) returns (code: Option<string>)
    ensures code == FreshCode(store.mem.Keys, draws)
  {
    if draws == [] {
      return None;
    }
    var i := 0;
    var candidate := HexEncode(draws[0]);
    while candidate in store.mem
      invariant 0 <= i < |draws| && candidate == HexEncode(draws[i])
      invariant forall j :: 0 <= j < i ==> HexEncode(draws[j]) in store.mem
      decreases |draws| - i
    {
      if i + 1 == |draws| {
        return None;
      }
      i := i + 1;
      candidate := HexEncode(draws[i]);
    }
    code := Some(candidate);
  }

  /** `POST /api/shorten`. Nothing is written unless a code is allocated. */
  method Shorten(store: UrlStore, req: ShortenRequest, parses: string -> bool, draws: seq<Draw>,
                 writeFails: bool, protocol: string, host: string)
    returns (resp: ShortenResponse)
    modifies store
    ensures match Allocate(old(store.mem).Keys, req, parses, draws)
      case Allocated(c) =>
        && resp == Created(req.originalUrl.value, ShortUrl(protocol, host, c), c)
        && store.State() == AfterSave(old(store.State()), c, req.originalUrl.value, writeFails)
      case Refused(e) => resp == BadRequest(e) && store.State() == old(store.State())
      case DrawsExhausted => resp == NoFreshCode && store.State() == old(store.State())
  {
    if req.originalUrl.None? || req.originalUrl.value == "" {
      return BadRequest(UrlRequired);
    }
    var url := req.originalUrl.value;
    if !parses(url) {
      return BadRequest(InvalidUrlFormat);
    }
    var code: string;
    if req.customName.Some? && Trim(req.customName.value) != "" {
      code := Normalise(req.customName.value);
      if code == "" {
        if draws == [] {
          return NoFreshCode;
        }
        code := HexEncode(draws[0]);
      }
      if HasForbiddenExtension(code) {
        return BadRequest(ClashesWithStaticFile);
      }
      if code in store.mem {
        return BadRequest(NameInUse);
      }
    } else {
      var drawn := RandomCode(store, draws);
      if drawn.None? {
        return NoFreshCode;
      }
      code := drawn.value;
      HexCodeIsRoutable(code);
    }
    store.SaveUrl(code, url, writeFails);
    resp := Created(url, ShortUrl(protocol, host, code), code);
  }

  // ---------------------------------------------------------------------------
  // Redirect
  // ---------------------------------------------------------------------------

  /** What `GET /:shortCode` answers and the state it leaves: the file 404
      exactly for filtered codes, which leave the store alone; a redirect only
      to a non-empty URL one of the tiers holds for the code; the lookup 404
      exactly when neither tier yields a non-empty URL. */
  function Resolve(t: Tiers, code: string, readFails: bool): (r: (RedirectResponse, Tiers))
    ensures r.0 == FileNotFound <==> IsStaticRequest(code)
    ensures IsStaticRequest(code) ==> r.1 == t
    ensures r.0.RedirectTo? ==>
      r.0.url != "" && ((code in t.mem && t.mem[code] == r.0.url) || (DurableHit(t, code, readFails) && t.durable.value[code] == r.0.url))
    ensures r.0 == UrlNotFound <==> !IsStaticRequest(code) && !(code in t.mem && t.mem[code] != "")
                                     && !(DurableHit(t, code, readFails) && t.durable.value[code] != "")
    ensures r.1.durable == t.durable
    ensures !IsStaticRequest(code) && code in t.mem && t.mem[code] != "" ==> r == (RedirectTo(t.mem[code]), t)
    ensures !IsStaticRequest(code) && !(code in t.mem && t.mem[code] != "") && DurableHit(t, code, readFails) ==>
      var url := t.durable.value[code];
      r == (if url != "" then RedirectTo(url) else UrlNotFound, t.(mem := t.mem[code := url]))
    ensures !IsStaticRequest(code) && !(code in t.mem && t.mem[code] != "") && !DurableHit(t, code, readFails) ==>
      r == (UrlNotFound, t)
  {
    if IsStaticRequest(code) then (FileNotFound, t)
    else
      var (url, t') := Read(t, code, readFails);
      (if Truthy(url) then RedirectTo(url.value) else UrlNotFound, t')
  }

  /** `GET /:shortCode`. The static-file filter runs before any store access. */
  method Redirect(store: UrlStore, code: string, readFails: bool) returns (resp: RedirectResponse)
    modifies store
    ensures (resp, store.State()) == Resolve(old(store.State()), code, readFails)
    ensures IsStaticRequest(code) ==> resp == FileNotFound && store.State() == old(store.State())
  {
    if IsStaticRequest(code) {
      return FileNotFound;
    }
    var url := store.GetUrl(code, readFails);
    if !Truthy(url) {
      return UrlNotFound;
    }
    resp := RedirectTo(url.value);
  }

  // ---------------------------------------------------------------------------
  // Properties of allocation and resolution
  // ---------------------------------------------------------------------------

  /** A missing or empty URL, then an unparsable one, is refused before the
      custom name or the random source is looked at. */
  lemma UrlChecksComeFirst(keys: set<string>, req: ShortenRequest, parses: string -> bool, draws: seq<Draw>)
    ensures !Truthy(req.originalUrl) ==> Allocate(keys, req, parses, draws) == Refused(UrlRequired)
    ensures Truthy(req.originalUrl) && !parses(req.originalUrl.value) ==>
      Allocate(keys, req, parses, draws) == Refused(InvalidUrlFormat)
  {
  }

  /** A usable custom name is taken as normalised: refused when it ends in a
      forbidden extension, else refused when memory already holds it, else allocated. */
  lemma CustomNameOutcome(keys: set<string>, req: ShortenRequest, parses: string -> bool, draws: seq<Draw>)
    requires Truthy(req.originalUrl) && parses(req.originalUrl.value) && HasCustomName(req)
    requires Normalise(req.customName.value) != ""
    ensures var name := Normalise(req.customName.value);
      Allocate(keys, req, parses, draws) ==
        if HasForbiddenExtension(name) then Refused(ClashesWithStaticFile)
        else if name in keys then Refused(NameInUse)
        else Allocated(name)
  {
  }

  /** An absent or blank custom name takes the random path: the first draw
      that is not a memory key. */
  lemma BlankNameFallsBack(keys: set<string>, req: ShortenRequest, parses: string -> bool, draws: seq<Draw>)
    requires Truthy(req.originalUrl) && parses(req.originalUrl.value) && !HasCustomName(req)
    ensures var a := Allocate(keys, req, parses, draws);
      match FirstFresh(keys, draws)
      case None => a == DrawsExhausted
      case Some(i) => a == Allocated(HexEncode(draws[i])) && forall j :: 0 <= j < i ==> HexEncode(draws[j]) in keys
  {
  }

  /** A custom name that strips to nothing falls back to one random draw,
      which is refused as a name in use if it collides: it is not redrawn. */
  lemma StrippedNameFallsBack(keys: set<string>, req: ShortenRequest, parses: string -> bool, draws: seq<Draw>)
    requires Truthy(req.originalUrl) && parses(req.originalUrl.value) && HasCustomName(req)
    requires Normalise(req.customName.value) == "" && draws != []
    ensures Allocate(keys, req, parses, draws) ==
      if HexEncode(draws[0]) in keys then Refused(NameInUse) else Allocated(HexEncode(draws[0]))
  {
    HexCodeIsRoutable(HexEncode(draws[0])) by {
      RandomCodesAreHexCodes(draws[0], "");
    }
  }

  /** Every allocated code is a normalised custom name or eight hex digits, and
      is neither a memory key nor a forbidden-extension name. */
  lemma AllocatedCodeShape(keys: set<string>, req: ShortenRequest, parses: string -> bool, draws: seq<Draw>)
    requires Allocate(keys, req, parses, draws).Allocated?
    ensures var c := Allocate(keys, req, parses, draws).code;
      && c !in keys && !HasForbiddenExtension(c)
      && ((HasCustomName(req) && c == Normalise(req.customName.value)) || IsHexCode(c))
      && IsCodeString(c)
  {
    var c := Allocate(keys, req, parses, draws).code;
    if !(HasCustomName(req) && c == Normalise(req.customName.value)) {
      if HasCustomName(req) {
        RandomCodesAreHexCodes(draws[0], "");
      }
      assert IsHexCode(c);
      assert forall i :: 0 <= i < |c| ==> IsHexDigit(c[i]);
    }
  }

  /** Shorten then resolve: an allocated code that the redirect filter lets
      through redirects to the URL that was given, whether or not either
      durable call throws. */
  lemma ShortenThenRedirect(t: Tiers, req: ShortenRequest, parses: string -> bool, draws: seq<Draw>,
                            writeFails: bool, readFails: bool)
    requires Allocate(t.mem.Keys, req, parses, draws).Allocated?
    requires !IsStaticRequest(Allocate(t.mem.Keys, req, parses, draws).code)
    ensures var c := Allocate(t.mem.Keys, req, parses, draws).code;
      var t' := AfterSave(t, c, req.originalUrl.value, writeFails);
      Resolve(t', c, readFails) == (RedirectTo(req.originalUrl.value), t')
  {
  }

  /** A random code always passes the redirect filter, so shortening without a
      custom name always yields a working short link. */
  lemma RandomCodeRedirects(t: Tiers, req: ShortenRequest, parses: string -> bool, draws: seq<Draw>,
                            writeFails: bool, readFails: bool)
    requires !HasCustomName(req) && Allocate(t.mem.Keys, req, parses, draws).Allocated?
    ensures var c := Allocate(t.mem.Keys, req, parses, draws).code;
      var t' := AfterSave(t, c, req.originalUrl.value, writeFails);
      Resolve(t', c, readFails).0 == RedirectTo(req.originalUrl.value)
  {
    var c := Allocate(t.mem.Keys, req, parses, draws).code;
    HexCodeIsRoutable(c);
  }

  /** When memory covers the durable tier, an allocated code is absent from
      both tiers, so the durable upsert inserts and never replaces; and a
      successful shorten keeps the cover. */
  lemma CoveredStoreNeverReassigns(t: Tiers, req: ShortenRequest, parses: string -> bool, draws: seq<Draw>,
                                   writeFails: bool)
    requires Covers(t) && Allocate(t.mem.Keys, req, parses, draws).Allocated?
    ensures var c := Allocate(t.mem.Keys, req, parses, draws).code;
      && (t.durable.Some? ==> c !in t.durable.value)
      && Covers(AfterSave(t, c, req.originalUrl.value, writeFails))
  {
  }

  /** A name already in normal form is allocated exactly as written when it
      has no forbidden extension and memory does not hold it. */
  lemma NormalNameAllocated(keys: set<string>, req: ShortenRequest, parses: string -> bool, draws: seq<Draw>)
    requires Truthy(req.originalUrl) && parses(req.originalUrl.value) && req.customName.Some?
    requires var name := req.customName.value;
      name != "" && IsCodeString(name) && !HasForbiddenExtension(name) && name !in keys
    ensures Allocate(keys, req, parses, draws) == Allocated(req.customName.value)
  {
    var name := req.customName.value;
    assert forall i :: 0 <= i < |name| ==> !IsTrimmable(name[i]) by {
      forall i | 0 <= i < |name| ensures !IsTrimmable(name[i]) {
        assert IsCodeChar(name[i]);
      }
    }
    TrimOfUntrimmable(name);
    NormaliseFixedPoints(name);
    CustomNameOutcome(keys, req, parses, draws);
  }

  /** The collision check reads memory only: a code that exists only in the
      durable tier (say, after a failed bulk load) is handed out again, and the
      upsert replaces the URL it pointed to. */
  lemma DurableOnlyCodeIsReassigned(parses: string -> bool)
    requires parses("https://new.example")
    ensures Allocate({}, ShortenRequest(Some("https://new.example"), Some("ex1")), parses, []) == Allocated("ex1")
    ensures AfterSave(Tiers(map[], Some(map["ex1" := "https://old.example"])), "ex1", "https://new.example", false)
      == Tiers(map["ex1" := "https://new.example"], Some(map["ex1" := "https://new.example"]))
  {
    Ex1Allocated(parses);
    Ex1Replaced();
  }

  lemma Ex1Replaced()
    ensures AfterSave(Tiers(map[], Some(map["ex1" := "https://old.example"])), "ex1", "https://new.example", false)
      == Tiers(map["ex1" := "https://new.example"], Some(map["ex1" := "https://new.example"]))
  {
    var m: map<string, string> := map[];
    assert m["ex1" := "https://new.example"] == map["ex1" := "https://new.example"];
    assert map["ex1" := "https://old.example"]["ex1" := "https://new.example"] == map["ex1" := "https://new.example"];
  }

  lemma Ex1Allocated(parses: string -> bool)
    requires parses("https://new.example")
    ensures Allocate({}, ShortenRequest(Some("https://new.example"), Some("ex1")), parses, []) == Allocated("ex1")
  {
    assert IsCodeString("ex1");
    DotFreeIsNotStatic("ex1");
    NormalNameAllocated({}, ShortenRequest(Some("https://new.example"), Some("ex1")), parses, []);
  }

  /** The shorten handler forbids only eight extensions while the redirect
      filter drops five file names and eleven extensions: `robots.txt` and
      `logo.woff2` are allocated and saved but every visit answers 404. */
  lemma StaticNameAllocatedButUnreachable(name: string, parses: string -> bool, writeFails: bool, readFails: bool)
    requires name == "robots.txt" || name == "logo.woff2"
    requires parses("https://example.com")
    ensures var req := ShortenRequest(Some("https://example.com"), Some(name));
      var t' := AfterSave(Tiers(map[], None), name, "https://example.com", writeFails);
      && Allocate({}, req, parses, []) == Allocated(name)
      && Resolve(t', name, readFails) == (FileNotFound, t')
  {
    assert IsCodeString(name);
    forall i | 0 <= i < |ForbiddenExtensions|
      ensures !EndsWith(name, ForbiddenExtensions[i])
    {
      var ext := ForbiddenExtensions[i];
      assert ext[|ext| - 1] != name[|name| - 1];
      if |ext| <= |name| {
        assert name[|name| - |ext|..][|ext| - 1] == name[|name| - 1];
      }
    }
    if name == "logo.woff2" {
      assert EndsWith(name, AssetExtensions[9]);
    }
    NormalNameAllocated({}, ShortenRequest(Some("https://example.com"), Some(name)), parses, []);
  }

  /** The server sets no length limit on custom names: a 51-character name,
      which the browser script would not send, is allocated as it is. */
  lemma ServerAcceptsLongName(parses: string -> bool)
    requires parses("https://example.com")
    ensures var name := seq(51, _ => 'a');
      Allocate({}, ShortenRequest(Some("https://example.com"), Some(name)), parses, []) == Allocated(name)
  {
    var name := seq(51, _ => 'a');
    assert IsCodeString(name);
    DotFreeIsNotStatic(name);
    NormalNameAllocated({}, ShortenRequest(Some("https://example.com"), Some(name)), parses, []);
  }
}
