/** The token-source cache: one source per connector, rebuilt exactly when the credential changes.
    Strings stand for byte strings, so a length counts bytes. */
module TokenSources {
  import opened Wrappers
  import opened Decimal

  datatype OAuthConfig = OAuthConfig(clientId: string, clientSecret: string, refreshToken: string)

  /** A stored credential; the service account is its key JSON, of which the parsed key is a function. */
  datatype Credential = Credential(oauth: Option<OAuthConfig>, serviceAccount: Option<string>)

  /** What a source is built from. */
  datatype Material = ServiceAccount(keyJson: string) | OAuth(config: OAuthConfig) | NoCredential

  /** A service account wins over OAuth. */
  function MaterialOf(cred: Credential): Material {
    if cred.serviceAccount.Some? then ServiceAccount(cred.serviceAccount.value)
    else if cred.oauth.Some? then OAuth(cred.oauth.value)
    else NoCredential
  }

  /** What a credential builds: a service account if it has one, else its OAuth client, else nothing. */
  ghost predicate Builds(cred: Credential, m: Material) {
    match m
    case ServiceAccount(key) => cred.serviceAccount == Some(key)
    case OAuth(config) => cred.serviceAccount.None? && cred.oauth == Some(config)
    case NoCredential => cred.serviceAccount.None? && cred.oauth.None?
  }

  /** Two credentials build the same source: the same service account, or without one the same OAuth
      client, secret and refresh token. */
  predicate SameSource(c: Credential, d: Credential) {
    c.serviceAccount == d.serviceAccount && (c.serviceAccount.None? ==> c.oauth == d.oauth)
  }

  lemma {:induction false} MaterialExactly(c: Credential, d: Credential)
    ensures forall m :: Builds(c, m) <==> m == MaterialOf(c)
    ensures SameSource(c, d) <==> MaterialOf(c) == MaterialOf(d)
  {
  }

  function Fields(m: Material): seq<string> {
    match m
    case ServiceAccount(key) => ["service_account", key]
    case OAuth(c) => ["oauth", c.clientId, c.clientSecret, c.refreshToken]
    case NoCredential => ["none"]
  }

  // ----- the length-prefixed encoding -----

  function Encode(fields: seq<string>): string {
    if fields == [] then [] else Format(|fields[0]|) + ":" + (fields[0] + Encode(fields[1..]))
  }

  method WriteFingerprintFields(fields: seq<string>) returns (written: string)
    ensures written == Encode(fields)
  {
    written := [];
    var i := 0;
    while i < |fields|
      invariant 0 <= i <= |fields|
      invariant written + Encode(fields[i..]) == Encode(fields)
    {
      assert fields[i..][1..] == fields[i + 1..];
      written := written + (Format(|fields[i]|) + ":" + fields[i]);
      i := i + 1;
    }
  }

  /** A digit string ends at the first colon, whatever follows. */
  lemma {:induction false} NumeralEnds(a: string, b: string, x: string, y: string)
    requires AllDigits(a) && AllDigits(b) && a + ":" + x == b + ":" + y
    ensures a == b && x == y
  {
    var s, t := a + ":" + x, b + ":" + y;
    assert s[|a|] == ':' && forall i :: 0 <= i < |a| ==> s[i] == a[i];
    assert t[|b|] == ':' && forall i :: 0 <= i < |b| ==> t[i] == b[i];
    assert |a| == |b|;
    PrefixesEqual(a + ":", b + ":", x, y);
    assert (a + ":")[..|a|] == a && (b + ":")[..|b|] == b;
  }

  lemma {:induction false} PrefixesEqual(a: string, b: string, x: string, y: string)
    requires |a| == |b| && a + x == b + y
    ensures a == b && x == y
  {
    assert (a + x)[..|a|] == a && (b + y)[..|b|] == b;
    assert (a + x)[|a|..] == x && (b + y)[|b|..] == y;
  }

  lemma {:induction false} FirstFieldEqual(a: string, b: string, x: string, y: string)
    requires Format(|a|) + ":" + (a + x) == Format(|b|) + ":" + (b + y)
    ensures a == b && x == y
  {
    NumeralEnds(Format(|a|), Format(|b|), a + x, b + y);
    ValueOfFormat(|a|);
    ValueOfFormat(|b|);
    PrefixesEqual(a, b, x, y);
  }

  /** Two field lists, of any lengths and contents, are written alike only if they are the same. */
  lemma {:induction false} EncodeInjective(a: seq<string>, b: seq<string>)
    requires Encode(a) == Encode(b)
    ensures a == b
  {
    if a == [] || b == [] {
      assert a == b == [];
    } else {
      FirstFieldEqual(a[0], b[0], Encode(a[1..]), Encode(b[1..]));
      EncodeInjective(a[1..], b[1..]);
      assert a == [a[0]] + a[1..] && b == [b[0]] + b[1..];
    }
  }

  /** What is hashed tells apart exactly the credentials that build different sources. */
  lemma {:induction false} EncodingIdentifiesSource(c: Credential, d: Credential)
    ensures Encode(Fields(MaterialOf(c))) == Encode(Fields(MaterialOf(d))) <==> SameSource(c, d)
  {
    MaterialExactly(c, d);
    var f, g := Fields(MaterialOf(c)), Fields(MaterialOf(d));
    if Encode(f) == Encode(g) {
      EncodeInjective(f, g);
      assert f[0] == g[0];
      FieldsInjective(MaterialOf(c), MaterialOf(d));
    }
  }

  lemma {:induction false} FieldsInjective(m: Material, n: Material)
    requires Fields(m) == Fields(n)
    ensures m == n
  {
    assert |Fields(m)| == |Fields(n)|;
    assert forall i :: 0 <= i < |Fields(m)| ==> Fields(m)[i] == Fields(n)[i];
  }

  // ----- the cache -----

  /** A token source object: its identity, and what it was built from. */
  datatype Source = Source(serial: nat, material: Material)

  datatype Entry<D> = Entry(source: Source, fingerprint: D)

  function Fingerprint<D>(digest: string -> D, cred: Credential): D {
    digest(Encode(Fields(MaterialOf(cred))))
  }

  /** The digest tells these two credentials apart if their sources differ. */
  ghost predicate NoCollision<D>(digest: string -> D, m: Material, n: Material) {
    digest(Encode(Fields(m))) == digest(Encode(Fields(n))) ==> Encode(Fields(m)) == Encode(Fields(n))
  }

  datatype Call = Get(id: string, cred: Credential) | Delete(id: string)

  type Cache<D> = map<string, Entry<D>>

  function AfterCall<D(==)>(digest: string -> D, cache: Cache<D>, built: nat, call: Call)
    : (Cache<D>, nat, Option<Source>)
  {
    match call
    case Delete(id) => (cache - {id}, built, None)
    case Get(id, cred) =>
      var fp := Fingerprint(digest, cred);
      if id in cache && cache[id].fingerprint == fp then (cache, built, Some(cache[id].source))
      else
        var source := Source(built, MaterialOf(cred));
        (cache[id := Entry(source, fp)], built + 1, Some(source))
  }

  class TokenSourceCache<D(==)> {
    const digest: string -> D
    var sources: map<string, Entry<D>>
    var built: nat

    /** Each entry carries the fingerprint of what its source was built from, and is a source of its own. */
    ghost predicate Valid()
      reads this
    {
      && (forall id :: id in sources ==> sources[id].fingerprint == digest(Encode(Fields(sources[id].source.material))))
      && (forall id :: id in sources ==> sources[id].source.serial < built)
      && (forall a, b :: a in sources && b in sources && a != b ==>
           sources[a].source.serial != sources[b].source.serial)
    }

    constructor (digest: string -> D)
      ensures Valid() && this.digest == digest && sources == map[]
    {
      this.digest := digest;
      sources, built := map[], 0;
    }

    /** The source for a connector: the cached one if the credential's fingerprint is unchanged, else a
        new one. Short of a collision with the cached credential, it is built from exactly this one. */
    method Get(id: string, cred: Credential) returns (source: Source)
      requires Valid()
      modifies this`sources, this`built
      ensures Valid()
      ensures AfterCall(digest, old(sources), old(built), Call.Get(id, cred)) == (sources, built, Some(source))
      ensures Builds(cred, source.material)
              || (id in old(sources) && !NoCollision(digest, old(sources)[id].source.material, MaterialOf(cred)))
      ensures id in old(sources) && Builds(cred, old(sources)[id].source.material) ==> source == old(sources)[id].source
    {
      var written := WriteFingerprintFields(Fields(MaterialOf(cred)));
      var fp := digest(written);
      if id in sources && sources[id].fingerprint == fp {
        source := sources[id].source;
        if NoCollision(digest, source.material, MaterialOf(cred)) {
          EncodeInjective(Fields(source.material), Fields(MaterialOf(cred)));
          FieldsInjective(source.material, MaterialOf(cred));
        }
        return;
      }
      source := Source(built, MaterialOf(cred));
      built := built + 1;
      sources := sources[id := Entry(source, fp)];
    }

    method Delete(id: string)
      requires Valid()
      modifies this`sources
      ensures Valid() && AfterCall(digest, old(sources), built, Call.Delete(id)) == (sources, built, None)
    {
      sources := sources - {id};
    }
  }

  /** A connector whose credential builds another source than before gets a new one, and any other keeps
      the one it has, digest collisions between the two aside. */
  lemma {:induction false} RebuildsExactlyOnChange<D>(digest: string -> D, cache: Cache<D>, built: nat, id: string,
                                                       was: Credential, cred: Credential)
    requires NoCollision(digest, MaterialOf(was), MaterialOf(cred))
    ensures var (cache', built', first) := AfterCall(digest, cache - {id}, built, Call.Get(id, was));
            var (_, _, second) := AfterCall(digest, cache', built', Call.Get(id, cred));
            && first.Some? && second.Some?
            && Builds(was, first.value.material) && Builds(cred, second.value.material)
            && (second == first <==> SameSource(was, cred))
            && (second != first ==> second.value.serial == built' > first.value.serial)
  {
    MaterialExactly(was, cred);
    MaterialExactly(cred, was);
    EncodingIdentifiesSource(was, cred);
  }

  // ----- any sequence of calls -----

  /** The sources a sequence of calls returns, in order; a Delete returns none. */
  function Returned<D(==)>(digest: string -> D, cache: Cache<D>, built: nat, calls: seq<Call>): seq<Option<Source>>
    decreases |calls|
  {
    if calls == [] then []
    else
      var (cache', built', source) := AfterCall(digest, cache, built, calls[0]);
      [source] + Returned(digest, cache', built', calls[1..])
  }

  /** What building fresh at every Get would return. */
  function Fresh(calls: seq<Call>): seq<Option<Material>> {
    if calls == [] then []
    else [match calls[0] case Get(_, cred) => Some(MaterialOf(cred)) case Delete(_) => None] + Fresh(calls[1..])
  }

  function Materials(sources: seq<Option<Source>>): seq<Option<Material>> {
    if sources == [] then []
    else [match sources[0] case Some(s) => Some(s.material) case None => None] + Materials(sources[1..])
  }

  /** Every entry was built from a credential of the given ones, and carries its fingerprint. */
  ghost predicate BuiltFrom<D>(digest: string -> D, cache: Cache<D>, known: set<Material>) {
    forall id :: id in cache ==>
                   cache[id].source.material in known
                   && cache[id].fingerprint == digest(Encode(Fields(cache[id].source.material)))
  }

  /** The digest is free of collisions on the credentials in play. */
  ghost predicate CollisionFree<D>(digest: string -> D, known: set<Material>) {
    forall m, n :: m in known && n in known ==> NoCollision(digest, m, n)
  }

  /** The cache is transparent: whatever is got and deleted, every Get returns a source built from
      exactly the credential it was given, as if there were no cache. */
  lemma {:induction false} CacheIsTransparent<D>(digest: string -> D, cache: Cache<D>, built: nat, calls: seq<Call>,
                                                 known: set<Material>)
    requires BuiltFrom(digest, cache, known) && CollisionFree(digest, known)
    requires forall i :: 0 <= i < |calls| && calls[i].Get? ==> MaterialOf(calls[i].cred) in known
    ensures Materials(Returned(digest, cache, built, calls)) == Fresh(calls)
    decreases |calls|
  {
    if calls != [] {
      var (cache', built', source) := AfterCall(digest, cache, built, calls[0]);
      CallIsTransparent(digest, cache, built, calls[0], known);
      CacheIsTransparent(digest, cache', built', calls[1..], known);
      var returned := Returned(digest, cache, built, calls);
      assert returned[0] == source && returned[1..] == Returned(digest, cache', built', calls[1..]);
    }
  }

  lemma {:induction false} CallIsTransparent<D>(digest: string -> D, cache: Cache<D>, built: nat, call: Call,
                                                 known: set<Material>)
    requires BuiltFrom(digest, cache, known) && CollisionFree(digest, known)
    requires call.Get? ==> MaterialOf(call.cred) in known
    ensures BuiltFrom(digest, AfterCall(digest, cache, built, call).0, known)
    ensures call.Get? ==> AfterCall(digest, cache, built, call).2.Some?
                          && AfterCall(digest, cache, built, call).2.value.material == MaterialOf(call.cred)
  {
    if call.Get? && call.id in cache && cache[call.id].fingerprint == Fingerprint(digest, call.cred) {
      var m := cache[call.id].source.material;
      assert NoCollision(digest, m, MaterialOf(call.cred));
      EncodeInjective(Fields(m), Fields(MaterialOf(call.cred)));
      FieldsInjective(m, MaterialOf(call.cred));
    }
  }
}
