/**
  The hybrid store of server.js: the module-level `urlDatabase` Map (the
  memory tier) in front of an optional MongoDB collection (the durable tier),
  modelled as a map from short code to original URL. The durable tier is
  `None` when no connection was made. Whether a driver call throws is a
  parameter of each operation.
 */
module Store {
  import opened Wrappers

  /** Both tiers at one moment. */
  datatype Tiers = Tiers(mem: map<string, string>, durable: Option<map<string, string>>)

  /** JavaScript truthiness of a looked-up URL: `undefined` and `""` are both false. */
  predicate Truthy(url: Option<string>) {
    url.Some? && url.value != ""
  }

  /** A durable document exists for `code` and the driver call reading it did not throw. */
  predicate DurableHit(t: Tiers, code: string, readFails: bool) {
    t.durable.Some? && !readFails && code in t.durable.value
  }

  // ---------------------------------------------------------------------------
  // Specification functions: the new state and the answer of each operation
  // ---------------------------------------------------------------------------

  /** `saveUrl(code, url)`: memory is written first; the durable upsert either
      succeeds or throws, and the catch block writes memory again. */
  function AfterSave(t: Tiers, code: string, url: string, writeFails: bool): (r: Tiers)
    ensures code in r.mem && r.mem[code] == url
    ensures r.durable.Some? <==> t.durable.Some?
    ensures r.durable.Some? ==> r.durable.value.Keys == t.durable.value.Keys + (if writeFails then {} else {code})
  {
    Tiers(t.mem[code := url],
          if t.durable.Some? && !writeFails then Some(t.durable.value[code := url]) else t.durable)
  }

  /** `getUrl(code)`: the memory value, unless it is falsy and the durable tier
      holds a document, whose URL is then copied into memory and returned. */
  function Read(t: Tiers, code: string, readFails: bool): (r: (Option<string>, Tiers))
    ensures r.0.Some? <==> code in r.1.mem
    ensures r.0.Some? ==> r.1.mem[code] == r.0.value
    ensures r.1.durable == t.durable && r.1.mem.Keys == t.mem.Keys + (if r.0.Some? then {code} else {})
  {
    var cached := if code in t.mem then Some(t.mem[code]) else None;
    if !Truthy(cached) && DurableHit(t, code, readFails) then
      var url := t.durable.value[code];
      (Some(url), t.(mem := t.mem[code := url]))
    else
      (cached, t)
  }

  /** `loadUrls()`: every durable document is copied into memory, unless the find throws. */
  function Load(t: Tiers, findFails: bool): (r: Tiers)
    ensures r.durable == t.durable
    ensures r.mem.Keys == t.mem.Keys + (if t.durable.Some? && !findFails then t.durable.value.Keys else {})
  {
    if t.durable.Some? && !findFails then t.(mem := t.mem + t.durable.value) else t
  }

  /** Every durable code is also a memory key: the condition under which the
      memory-only collision check of the shorten handler sees every code in use. */
  predicate Covers(t: Tiers) {
    t.durable.Some? ==> t.durable.value.Keys <= t.mem.Keys
  }

  // ---------------------------------------------------------------------------
  // The store object
  // ---------------------------------------------------------------------------

  class UrlStore {
    var mem: map<string, string>
    var durable: Option<map<string, string>>

    function State(): Tiers
      reads this
    {
      Tiers(mem, durable)
    }

    /** A fresh process: empty memory, and the durable collection if the
        connection attempt succeeded. */
    constructor (connected: Option<map<string, string>>)
      ensures State() == Tiers(map[], connected)
    {
      mem := map[];
      durable := connected;
    }

    method SaveUrl(code: string, url: string, writeFails: bool)
      modifies this
      ensures State() == AfterSave(old(State()), code, url, writeFails)
    {
      mem := mem[code := url];
      if durable.Some? {
        if writeFails {
          mem := mem[code := url];
        } else {
          durable := Some(durable.value[code := url]);
        }
      }
    }

    method GetUrl(code: string, readFails: bool) returns (url: Option<string>)
      modifies this
      ensures (url, State()) == Read(old(State()), code, readFails)
    {
      url := if code in mem then Some(mem[code]) else None;
      if !Truthy(url) && durable.Some? && !readFails && code in durable.value {
        url := Some(durable.value[code]);
        mem := mem[code := url.value];
      }
    }

    /** Copies the durable documents into memory one at a time, in an order the
        model leaves open. */
    method LoadUrls(findFails: bool)
      modifies this
      ensures State() == Load(old(State()), findFails)
    {
      if durable.Some? && !findFails {
        var docs := durable.value;
        var pending := docs.Keys;
        while pending != {}
          invariant pending <= docs.Keys && durable == old(durable)
          invariant mem.Keys == old(mem).Keys + (docs.Keys - pending)
          invariant forall k :: k in mem ==> mem[k] == if k in docs && k !in pending then docs[k] else old(mem)[k]
          decreases pending
        {
          var k :| k in pending;
          mem := mem[k := docs[k]];
          pending := pending - {k};
        }
        assert mem == old(mem) + docs;
      }
    }
  }

  // ---------------------------------------------------------------------------
  // Properties of the specification functions
  // ---------------------------------------------------------------------------

  /** After `saveUrl(c, u)` memory maps `c` to `u` whether or not the durable
      write threw; every other key keeps its value in both tiers; the durable
      tier holds `u` exactly when it exists and the write succeeded. */
  lemma SaveEffect(t: Tiers, c: string, u: string, writeFails: bool)
    ensures var t' := AfterSave(t, c, u, writeFails);
      && c in t'.mem && t'.mem[c] == u
      && (forall k :: k != c ==> (k in t'.mem <==> k in t.mem))
      && (forall k :: k != c && k in t.mem ==> t'.mem[k] == t.mem[k])
      && t'.durable.Some? == t.durable.Some?
      && (t.durable.Some? ==> (forall k :: k != c ==> (k in t'.durable.value <==> k in t.durable.value)))
      && (t.durable.Some? ==> (forall k :: k != c && k in t.durable.value ==> t'.durable.value[k] == t.durable.value[k]))
      && (t.durable.Some? && !writeFails ==> c in t'.durable.value && t'.durable.value[c] == u)
      && (writeFails ==> t'.durable == t.durable)
  {
  }

  /** A following `getUrl(c)` returns what was saved, whatever the durable tier does. */
  lemma SaveThenRead(t: Tiers, c: string, u: string, writeFails: bool, readFails: bool)
    requires u != ""
    ensures Read(AfterSave(t, c, u, writeFails), c, readFails) == (Some(u), AfterSave(t, c, u, writeFails))
  {
  }

  /** On a memory hit the durable tier is not consulted: the answer and the new
      state are the same whatever it holds and whether it fails. */
  lemma ReadMemoryHit(t: Tiers, c: string, other: Option<map<string, string>>, readFails: bool, otherFails: bool)
    requires c in t.mem && t.mem[c] != ""
    ensures Read(t, c, readFails) == (Some(t.mem[c]), t)
    ensures Read(t.(durable := other), c, otherFails).0 == Some(t.mem[c])
  {
  }

  /** On a memory miss with a durable hit the durable URL is returned and copied
      into memory; nothing else changes. */
  lemma ReadThrough(t: Tiers, c: string, readFails: bool)
    requires c !in t.mem && DurableHit(t, c, readFails)
    ensures var (url, t') := Read(t, c, readFails);
      url == Some(t.durable.value[c]) && t'.mem == t.mem[c := t.durable.value[c]] && t'.durable == t.durable
  {
  }

  /** `getUrl` returns nothing exactly when both tiers miss. */
  lemma ReadNothingIff(t: Tiers, c: string, readFails: bool)
    ensures Read(t, c, readFails).0.None? <==> c !in t.mem && !DurableHit(t, c, readFails)
  {
  }

  /** The redirect answers 404 exactly when neither tier yields a non-empty URL. */
  lemma ReadFalsyIff(t: Tiers, c: string, readFails: bool)
    ensures !Truthy(Read(t, c, readFails).0) <==>
      !(c in t.mem && t.mem[c] != "") && !(DurableHit(t, c, readFails) && t.durable.value[c] != "")
  {
  }

  /** Reading never changes the durable tier and never drops a memory key. */
  lemma ReadKeepsEntries(t: Tiers, c: string, readFails: bool)
    ensures var t' := Read(t, c, readFails).1;
      t'.durable == t.durable && t.mem.Keys <= t'.mem.Keys
      && (forall k :: k in t.mem && k != c ==> t'.mem[k] == t.mem[k])
  {
  }

  /** A successful bulk load makes memory cover the durable tier, with the
      durable URL winning for a code present in both. */
  lemma LoadCovers(t: Tiers)
    requires t.durable.Some?
    ensures var t' := Load(t, false);
      Covers(t') && t'.durable == t.durable
      && (forall k :: k in t.durable.value ==> t'.mem[k] == t.durable.value[k])
      && (forall k :: k in t.mem && k !in t.durable.value ==> t'.mem[k] == t.mem[k])
  {
  }

  /** Saving and reading keep memory covering the durable tier. */
  lemma CoversPreserved(t: Tiers, c: string, u: string, writeFails: bool, readFails: bool)
    requires Covers(t)
    ensures Covers(AfterSave(t, c, u, writeFails))
    ensures Covers(Read(t, c, readFails).1)
  {
  }
}
