/** The candidate record, its normalisation and its identity (internal/core/types.go). */
module Candidates {
  import opened Text

  /** SHA-256 and its hex form stand for the pre-hash string they are computed from. */
  datatype Fingerprint = NotComputed | Sha256(preHash: string)

  /** NoStatus is the empty string a freshly parsed candidate carries. */
  datatype Status = NoStatus | Available | Unavailable

  /** A point in time; zero is the zero time, which no clock reading equals. */
  type Time = nat
  type Instant = t: int | t > 0 witness 1

  const PROTOCOL_HTTP := "http"
  const PROTOCOL_SOCKS5 := "socks5"
  const PROTOCOL_SINGBOX := "singbox"

  datatype Candidate = Candidate(
    fingerprint: Fingerprint,
    protocol: string,
    host: string,
    port: int,
    username: string,
    password: string,
    source: string,
    name: string,
    status: Status,
    failureCount: int,
    lastValidation: Time,
    latency: int,
    lastError: string,
    metadata: map<string, string>,
    createdAt: Time,
    updatedAt: Time)
  {
    /** A missing metadata key reads as the empty string. */
    function Meta(key: string): string {
      if key in metadata then metadata[key] else ""
    }

    predicate MatchesRoute(plugin: string, region: string) {
      && (plugin != "" ==> EqualFold(source, plugin))
      && (region != "" ==> EqualFold(TrimSpace(Meta("country_code")), region))
    }

    predicate IsSingBox() {
      protocol == PROTOCOL_SINGBOX
    }
  }

  // ---------------------------------------------------------------- identity

  /** The metadata keys that take part in a sing-box identity, in sorted order. */
  const IDENTITY_KEYS: seq<string> := ["config_hash", "node_id", "raw_hash", "tag"]

  /** "key=value" for each of the keys present, in the order of keys. */
  function KeyedParts(metadata: map<string, string>, keys: seq<string>): seq<string> {
    if keys == [] then []
    else (if keys[0] in metadata then [keys[0] + "=" + metadata[keys[0]]] else []) + KeyedParts(metadata, keys[1..])
  }

  function BaseParts(c: Candidate): seq<string> {
    [ToLower(c.protocol), ToLower(c.host), Sprint(c.port), c.username, c.password]
  }

  function IdentityParts(c: Candidate): seq<string> {
    BaseParts(c) + (if c.IsSingBox() then KeyedParts(c.metadata, IDENTITY_KEYS) else [])
  }

  function PreHash(c: Candidate): string {
    Join(IdentityParts(c), '\0')
  }

  function CanonicalFingerprint(c: Candidate): Fingerprint {
    Sha256(PreHash(c))
  }

  /** Under this key both sing-box candidates carry the same value, or neither carries one. */
  predicate AlikeAt(a: Candidate, b: Candidate, key: string) {
    && (a.protocol == "singbox" && key in a.metadata <==> b.protocol == "singbox" && key in b.metadata)
    && (a.protocol == "singbox" && key in a.metadata && key in b.metadata ==> a.metadata[key] == b.metadata[key])
  }

  predicate NulFree(c: Candidate) {
    && '\0' !in c.protocol && '\0' !in c.host && '\0' !in c.username && '\0' !in c.password
    && forall k :: k in c.metadata && k in IDENTITY_KEYS ==> '\0' !in c.metadata[k]
  }

  // ------------------------------------------------- sorted keys of a Go map

  /** Byte-wise string order, the one sort.Strings uses. */
  predicate StrLess(a: string, b: string) {
    b != [] && (a == [] || a[0] < b[0] || (a[0] == b[0] && StrLess(a[1..], b[1..])))
  }

  lemma {:induction false} StrLessOrder(a: string, b: string, c: string)
    ensures !StrLess(a, a)
    ensures StrLess(a, b) && StrLess(b, c) ==> StrLess(a, c)
    ensures StrLess(a, b) || StrLess(b, a) || a == b
  {
    if a != [] && b != [] && c != [] {
      StrLessOrder(a[1..], b[1..], c[1..]);
      assert a == [a[0]] + a[1..] && b == [b[0]] + b[1..];
    } else if a != [] && b != [] {
      StrLessOrder(a[1..], b[1..], []);
      assert a == [a[0]] + a[1..] && b == [b[0]] + b[1..];
    } else if a != [] {
      StrLessOrder(a[1..], [], []);
    }
  }

  predicate Ascending(keys: seq<string>) {
    forall i, j :: 0 <= i < j < |keys| ==> StrLess(keys[i], keys[j])
  }

  function Insert(k: string, keys: seq<string>): seq<string> {
    if keys == [] || StrLess(k, keys[0]) then [k] + keys else [keys[0]] + Insert(k, keys[1..])
  }

  function SortStrings(keys: seq<string>): seq<string> {
    if keys == [] then [] else Insert(keys[0], SortStrings(keys[1..]))
  }

  lemma {:induction false} InsertAscends(k: string, keys: seq<string>)
    requires Ascending(keys) && k !in keys
    ensures Ascending(Insert(k, keys))
    ensures forall x :: x in Insert(k, keys) <==> x == k || x in keys
  {
    if keys == [] {
    } else if StrLess(k, keys[0]) {
      forall j | 0 <= j < |keys| ensures StrLess(k, keys[j]) {
        StrLessOrder(k, keys[0], keys[j]);
      }
    } else {
      StrLessOrder(k, keys[0], k);
      InsertAscends(k, keys[1..]);
      var rest := Insert(k, keys[1..]);
      forall j | 0 <= j < |rest| ensures StrLess(keys[0], rest[j]) {
        assert rest[j] in rest;
      }
    }
  }

  lemma {:induction false} SortAscends(keys: seq<string>)
    requires forall i, j :: 0 <= i < j < |keys| ==> keys[i] != keys[j]
    ensures Ascending(SortStrings(keys))
    ensures forall x :: x in SortStrings(keys) <==> x in keys
  {
    if keys != [] {
      SortAscends(keys[1..]);
      InsertAscends(keys[0], SortStrings(keys[1..]));
    }
  }

  /** An ascending list is determined by its elements. */
  lemma {:induction false} AscendingUnique(a: seq<string>, b: seq<string>)
    requires Ascending(a) && Ascending(b)
    requires forall x :: x in a <==> x in b
    ensures a == b
  {
    assert a != [] ==> a[0] in a;
    assert b != [] ==> b[0] in b;
    if a != [] && b != [] {
      var i :| 0 <= i < |b| && b[i] == a[0];
      var j :| 0 <= j < |a| && a[j] == b[0];
      StrLessOrder(a[0], b[0], a[0]);
      assert i == 0 && j == 0;
      forall x ensures x in a[1..] <==> x in b[1..] {
        StrLessOrder(a[0], a[0], a[0]);
        if x in a[1..] { assert x in a && x != a[0]; }
        if x in b[1..] { assert x in b && x != b[0]; }
      }
      AscendingUnique(a[1..], b[1..]);
      assert a == [a[0]] + a[1..] && b == [b[0]] + b[1..];
    }
  }

  /** KeyedParts over a list depends only on the keys the metadata holds. */
  function Present(metadata: map<string, string>, keys: seq<string>): seq<string> {
    if keys == [] then [] else (if keys[0] in metadata then [keys[0]] else []) + Present(metadata, keys[1..])
  }

  lemma {:induction false} PresentElements(metadata: map<string, string>, keys: seq<string>)
    ensures forall x :: x in Present(metadata, keys) <==> x in keys && x in metadata
    ensures Ascending(keys) ==> Ascending(Present(metadata, keys))
    ensures KeyedParts(metadata, keys) == KeyedParts(metadata, Present(metadata, keys))
  {
    if keys != [] {
      PresentElements(metadata, keys[1..]);
      var rest := Present(metadata, keys[1..]);
      if keys[0] in metadata {
        var p := Present(metadata, keys);
        assert p == [keys[0]] + rest && p[1..] == rest && p[0] == keys[0];
        if Ascending(keys) {
          forall j | 0 <= j < |rest| ensures StrLess(keys[0], rest[j]) {
            assert rest[j] in rest;
          }
        }
      } else {
        assert Present(metadata, keys) == rest;
      }
    }
  }

  lemma IdentityKeysAscend()
    ensures Ascending(IDENTITY_KEYS)
  {
  }

  /** Collects the keys of a map in whatever order the runtime yields them. */
  method MapKeys(m: map<string, string>) returns (keys: seq<string>)
    ensures forall i, j :: 0 <= i < j < |keys| ==> keys[i] != keys[j]
    ensures forall x :: x in keys <==> x in m
  {
    keys := [];
    var left := m.Keys;
    while left != {}
      invariant forall i, j :: 0 <= i < j < |keys| ==> keys[i] != keys[j]
      invariant left <= m.Keys
      invariant forall x :: x in keys <==> x in m && x !in left
      decreases left
    {
      var k :| k in left;
      keys := keys + [k];
      left := left - {k};
    }
  }

  lemma IdentityKeysAre(k: string)
    ensures k in IDENTITY_KEYS <==> k == "tag" || k == "node_id" || k == "config_hash" || k == "raw_hash"
  {
    assert IDENTITY_KEYS[0] == "config_hash" && IDENTITY_KEYS[1] == "node_id";
    assert IDENTITY_KEYS[2] == "raw_hash" && IDENTITY_KEYS[3] == "tag";
  }

  /** The sort-and-filter loop over the metadata keys. */
  method ComputeKeyedParts(metadata: map<string, string>) returns (parts: seq<string>)
    ensures parts == KeyedParts(metadata, IDENTITY_KEYS)
  {
    var keys := MapKeys(metadata);
    SortAscends(keys);
    keys := SortStrings(keys);
    parts := [];
    ghost var kept: seq<string> := [];
    for i := 0 to |keys|
      invariant Ascending(kept)
      invariant forall x :: x in kept <==> x in keys[..i] && x in IDENTITY_KEYS
      invariant parts == KeyedParts(metadata, kept)
    {
      var k := keys[i];
      assert keys[..i + 1] == keys[..i] + [k];
      IdentityKeysAre(k);
      if k == "tag" || k == "node_id" || k == "config_hash" || k == "raw_hash" {
        parts := parts + [k + "=" + metadata[k]];
        KeyedPartsAppend(metadata, kept, k);
        forall j | 0 <= j < |kept| ensures StrLess(kept[j], k) {
          assert kept[j] in kept;
          assert kept[j] in keys[..i];
        }
        kept := kept + [k];
      }
    }
    assert keys[..|keys|] == keys;
    IdentityKeysAscend();
    PresentElements(metadata, IDENTITY_KEYS);
    AscendingUnique(kept, Present(metadata, IDENTITY_KEYS));
  }

  /** CanonicalFingerprint as the program computes it; the map's iteration order does not matter. */
  method ComputeFingerprint(c: Candidate) returns (fp: Fingerprint)
    ensures fp == CanonicalFingerprint(c)
  {
    var parts := BaseParts(c);
    if c.protocol == PROTOCOL_SINGBOX {
      var keyed := ComputeKeyedParts(c.metadata);
      parts := parts + keyed;
    } else {
      assert parts + [] == parts;
    }
    fp := Sha256(Join(parts, '\0'));
  }

  lemma {:induction false} KeyedPartsAppend(metadata: map<string, string>, keys: seq<string>, k: string)
    requires k in metadata
    ensures KeyedParts(metadata, keys + [k]) == KeyedParts(metadata, keys) + [k + "=" + metadata[k]]
  {
    if keys == [] {
      assert (keys + [k])[1..] == [];
      assert KeyedParts(metadata, []) == [];
    } else {
      KeyedPartsAppend(metadata, keys[1..], k);
      assert (keys + [k])[1..] == keys[1..] + [k];
    }
  }

  // -------------------------------------------------------------- theorems

  predicate DistinctHeads(keys: seq<string>) {
    && (forall i :: 0 <= i < |keys| ==> keys[i] != [] && '\0' !in keys[i])
    && (forall i, j :: 0 <= i < j < |keys| ==> keys[i][0] != keys[j][0])
  }

  lemma {:induction false} KeyedPartsHeads(metadata: map<string, string>, keys: seq<string>)
    requires DistinctHeads(keys)
    ensures forall p :: p in KeyedParts(metadata, keys) ==>
              p != [] && exists i :: 0 <= i < |keys| && p[0] == keys[i][0]
    ensures (forall k :: k in metadata && k in keys ==> '\0' !in metadata[k]) ==>
              forall p :: p in KeyedParts(metadata, keys) ==> '\0' !in p
  {
    if keys != [] {
      KeyedPartsHeads(metadata, keys[1..]);
      forall p | p in KeyedParts(metadata, keys)
        ensures p != [] && exists i :: 0 <= i < |keys| && p[0] == keys[i][0]
      {
        if p in KeyedParts(metadata, keys[1..]) {
          var i :| 0 <= i < |keys[1..]| && p[0] == keys[1..][i][0];
          assert p[0] == keys[i + 1][0];
        } else {
          assert p[0] == keys[0][0];
        }
      }
    }
  }

  /** Parts built from the later keys cannot start like the first key. */
  lemma HeadApart(parts: seq<string>, keys: seq<string>)
    requires DistinctHeads(keys) && keys != []
    requires forall p :: p in parts ==> p != [] && exists i :: 0 <= i < |keys[1..]| && p[0] == keys[1..][i][0]
    ensures parts != [] ==> parts[0] != [] && parts[0][0] != keys[0][0]
  {
    if parts != [] {
      assert parts[0] in parts;
      var i :| 0 <= i < |keys[1..]| && parts[0][0] == keys[1..][i][0];
      assert keys[1..][i] == keys[i + 1];
    }
  }

  predicate AgreeAt(a: map<string, string>, b: map<string, string>, k: string) {
    (k in a <==> k in b) && (k in a ==> a[k] == b[k])
  }

  predicate AgreeOn(a: map<string, string>, b: map<string, string>, keys: seq<string>) {
    forall k :: k in keys ==> AgreeAt(a, b, k)
  }

  /** One key, in front of parts that cannot be mistaken for it. */
  lemma FrontPartDecides(a: map<string, string>, b: map<string, string>, k: string, pa: seq<string>, pb: seq<string>)
    requires k != []
    requires pa != [] ==> pa[0] != [] && pa[0][0] != k[0]
    requires pb != [] ==> pb[0] != [] && pb[0][0] != k[0]
    ensures (if k in a then [k + "=" + a[k]] else []) + pa == (if k in b then [k + "=" + b[k]] else []) + pb <==>
            AgreeAt(a, b, k) && pa == pb
  {
    var la := (if k in a then [k + "=" + a[k]] else []) + pa;
    var lb := (if k in b then [k + "=" + b[k]] else []) + pb;
    assert k in a ==> la[0] == k + "=" + a[k] && la[1..] == pa && la[0][|k| + 1..] == a[k];
    assert k in b ==> lb[0] == k + "=" + b[k] && lb[1..] == pb && lb[0][|k| + 1..] == b[k];
    assert k !in a ==> la == pa;
    assert k !in b ==> lb == pb;
  }

  /** The parts of two maps are equal exactly when the maps agree on every key. */
  lemma {:induction false} KeyedPartsInjective(a: map<string, string>, b: map<string, string>, keys: seq<string>)
    requires DistinctHeads(keys)
    ensures KeyedParts(a, keys) == KeyedParts(b, keys) <==> AgreeOn(a, b, keys)
  {
    hide AgreeAt;
    if keys != [] {
      var k, rest := keys[0], keys[1..];
      KeyedPartsInjective(a, b, rest);
      KeyedPartsHeads(a, rest);
      KeyedPartsHeads(b, rest);
      HeadApart(KeyedParts(a, rest), keys);
      HeadApart(KeyedParts(b, rest), keys);
      FrontPartDecides(a, b, k, KeyedParts(a, rest), KeyedParts(b, rest));
      assert keys == [k] + rest;
    }
  }

  lemma PartsNulFree(c: Candidate)
    requires NulFree(c)
    ensures forall i :: 0 <= i < |IdentityParts(c)| ==> '\0' !in IdentityParts(c)[i]
  {
    SprintInjective(c.port, c.port);
    KeyedPartsHeads(c.metadata, IDENTITY_KEYS);
    var keyed := KeyedParts(c.metadata, IDENTITY_KEYS);
    forall i | 0 <= i < |IdentityParts(c)| ensures '\0' !in IdentityParts(c)[i] {
      if i >= 5 {
        assert IdentityParts(c)[i] == keyed[i - 5];
        assert keyed[i - 5] in keyed;
      }
    }
  }

  function KeyedMap(c: Candidate): map<string, string> {
    if c.IsSingBox() then c.metadata else map[]
  }

  lemma IdentityPartsSplit(c: Candidate)
    ensures IdentityParts(c) == BaseParts(c) + KeyedParts(KeyedMap(c), IDENTITY_KEYS)
  {
    NoKeyedParts(IDENTITY_KEYS);
  }

  lemma AgreementIs(a: Candidate, b: Candidate)
    ensures AgreeOn(KeyedMap(a), KeyedMap(b), IDENTITY_KEYS) <==>
            && AlikeAt(a, b, "tag") && AlikeAt(a, b, "node_id")
            && AlikeAt(a, b, "config_hash") && AlikeAt(a, b, "raw_hash")
  {
    forall k ensures AgreeAt(KeyedMap(a), KeyedMap(b), k) <==> AlikeAt(a, b, k) {
    }
    hide AgreeAt, AlikeAt, KeyedMap;
    IdentityKeysAre("tag");
    IdentityKeysAre("node_id");
    IdentityKeysAre("config_hash");
    IdentityKeysAre("raw_hash");
    forall k | k in IDENTITY_KEYS ensures k == "tag" || k == "node_id" || k == "config_hash" || k == "raw_hash" {
      IdentityKeysAre(k);
    }
  }

  /** Two candidates free of NUL have the same pre-hash string exactly when they are the same proxy: protocol and host
      up to letter case, port, user, password, and for sing-box the four keys that name a node. */
  lemma PreHashIsIdentity(a: Candidate, b: Candidate)
    requires NulFree(a) && NulFree(b)
    ensures PreHash(a) == PreHash(b) <==>
            && ToLower(a.protocol) == ToLower(b.protocol) && ToLower(a.host) == ToLower(b.host)
            && a.port == b.port && a.username == b.username && a.password == b.password
            && AlikeAt(a, b, "tag") && AlikeAt(a, b, "node_id")
            && AlikeAt(a, b, "config_hash") && AlikeAt(a, b, "raw_hash")
  {
    hide AlikeAt, AgreeOn, KeyedParts, NulFree, KeyedMap, ToLower;
    PartsNulFree(a);
    PartsNulFree(b);
    SplitJoin(IdentityParts(a), '\0');
    SplitJoin(IdentityParts(b), '\0');
    IdentityPartsSplit(a);
    IdentityPartsSplit(b);
    KeyedPartsInjective(KeyedMap(a), KeyedMap(b), IDENTITY_KEYS);
    AgreementIs(a, b);
    PartsApart(BaseParts(a), BaseParts(b),
               KeyedParts(KeyedMap(a), IDENTITY_KEYS), KeyedParts(KeyedMap(b), IDENTITY_KEYS));
    BasePartsAre(a, b);
  }

  lemma BasePartsAre(a: Candidate, b: Candidate)
    ensures BaseParts(a) == BaseParts(b) <==>
            && ToLower(a.protocol) == ToLower(b.protocol) && ToLower(a.host) == ToLower(b.host)
            && a.port == b.port && a.username == b.username && a.password == b.password
  {
    hide ToLower;
    SprintInjective(a.port, b.port);
    assert BaseParts(a)[0] == ToLower(a.protocol) && BaseParts(a)[1] == ToLower(a.host);
    assert BaseParts(a)[2] == Sprint(a.port) && BaseParts(a)[3] == a.username && BaseParts(a)[4] == a.password;
  }

  /** The string that is hashed, for a candidate without a node: five fields with NULs in between. */
  lemma PreHashText(c: Candidate)
    requires c.protocol != "singbox"
    ensures PreHash(c) == ToLower(c.protocol) + "\0" + ToLower(c.host) + "\0" + Sprint(c.port)
                          + "\0" + c.username + "\0" + c.password
  {
    hide ToLower, Sprint;
    var p, h, n, u, w := ToLower(c.protocol), ToLower(c.host), Sprint(c.port), c.username, c.password;
    assert IdentityParts(c) == [p, h, n, u, w];
    assert Join([w], '\0') == w;
    assert [u, w][1..] == [w] && [n, u, w][1..] == [u, w] && [h, n, u, w][1..] == [n, u, w];
    assert [p, h, n, u, w][1..] == [h, n, u, w];
    assert Join([u, w], '\0') == u + "\0" + w;
    assert Join([n, u, w], '\0') == n + "\0" + (u + "\0" + w);
    assert Join([h, n, u, w], '\0') == h + "\0" + (n + "\0" + (u + "\0" + w));
    assert Join([p, h, n, u, w], '\0') == p + "\0" + (h + "\0" + (n + "\0" + (u + "\0" + w)));
  }

  lemma PartsApart(a: seq<string>, b: seq<string>, ka: seq<string>, kb: seq<string>)
    requires |a| == |b|
    ensures a + ka == b + kb <==> a == b && ka == kb
  {
    assert (a + ka)[..|a|] == a && (b + kb)[..|b|] == b;
    assert (a + ka)[|a|..] == ka && (b + kb)[|b|..] == kb;
  }

  lemma {:induction false} NoKeyedParts(keys: seq<string>)
    ensures KeyedParts(map[], keys) == []
  {
    if keys != [] { NoKeyedParts(keys[1..]); }
  }

  /** Metadata outside the identity keys, such as what validation records, does not change the pre-hash. */
  lemma MetadataOutsideIdentity(c: Candidate, more: map<string, string>)
    requires forall k :: k in IDENTITY_KEYS ==> k !in more
    ensures PreHash(c.(metadata := c.metadata + more)) == PreHash(c)
  {
    assert AgreeOn(c.metadata + more, c.metadata, IDENTITY_KEYS);
    KeyedPartsInjective(c.metadata + more, c.metadata, IDENTITY_KEYS);
  }

  // ---------------------------------------------------------- normalisation

  function Normalize(c: Candidate, now: Instant): Candidate {
    var d := c.(protocol := ToLower(TrimSpace(c.protocol)),
                host := TrimSpace(c.host),
                source := TrimSpace(c.source),
                status := if c.status == NoStatus then Available else c.status,
                createdAt := if c.createdAt == 0 then now else c.createdAt,
                updatedAt := now);
    d.(fingerprint := CanonicalFingerprint(d))
  }

  predicate Normalized(c: Candidate) {
    && Trimmed(c.protocol) && ToLower(c.protocol) == c.protocol && Trimmed(c.host) && Trimmed(c.source)
    && c.status != NoStatus && c.createdAt != 0
    && c.fingerprint == CanonicalFingerprint(c)
  }

  /** Normalize reaches a normal form, and changes nothing but the update time of a normal form. */
  lemma NormalizeIsStable(c: Candidate, now: Instant)
    ensures Normalized(Normalize(c, now))
    ensures Normalized(c) ==> Normalize(c, now) == c.(updatedAt := now)
  {
    TrimSpaceTrims(c.protocol);
    TrimSpaceTrims(c.host);
    TrimSpaceTrims(c.source);
    LowerKeepsTrimmed(TrimSpace(c.protocol));
    if Normalized(c) {
      var d := Normalize(c, now).(fingerprint := c.fingerprint);
      assert d == c.(updatedAt := now);
      assert PreHash(d) == PreHash(c);
    }
  }

  /** What normalizing makes of each field; all the others stay. */
  lemma NormalizeFields(c: Candidate, now: Instant)
    ensures var d := Normalize(c, now);
            && d.protocol == ToLower(TrimSpace(c.protocol)) && d.host == TrimSpace(c.host)
            && d.source == TrimSpace(c.source)
            && d.status == (if c.status == NoStatus then Available else c.status)
            && d.createdAt == (if c.createdAt == 0 then now else c.createdAt) && d.updatedAt == now
            && d.fingerprint == Sha256(PreHash(d))
            && d == c.(fingerprint := d.fingerprint, protocol := d.protocol, host := d.host, source := d.source,
                       status := d.status, createdAt := d.createdAt, updatedAt := d.updatedAt)
  {
    hide ToLower, TrimSpace;
    var d := Normalize(c, now);
    assert IdentityParts(d) == IdentityParts(d.(fingerprint := c.fingerprint));
  }

  lemma {:induction false} TrimmedPart(s: string)
    ensures forall c :: c in TrimSpace(s) ==> c in s
  {
    TrimLeftPart(s);
    TrimRightEnds(TrimLeft(s));
  }

  lemma {:induction false} TrimLeftPart(s: string)
    ensures forall c :: c in TrimLeft(s) ==> c in s
  {
    if s != [] && IsSpace(s[0]) {
      TrimLeftPart(s[1..]);
    }
  }

  lemma LowerNulFree(s: string)
    requires '\0' !in s
    ensures '\0' !in ToLower(s)
  {
    forall i | 0 <= i < |s| ensures ToLower(s)[i] != '\0' {
      assert s[i] in s;
    }
  }

  lemma NormalizeNulFree(c: Candidate, now: Instant)
    requires NulFree(c)
    ensures NulFree(Normalize(c, now))
  {
    hide ToLower, TrimSpace;
    NormalizeFields(c, now);
    hide Normalize;
    TrimmedPart(c.protocol);
    TrimmedPart(c.host);
    LowerNulFree(TrimSpace(c.protocol));
  }

  /** Which candidates end up as one entry of the pool, from what the plugins deliver: spaces around protocol and host
      and their letter case do not matter, and whether they are sing-box nodes is decided after that. */
  lemma StoredTogetherIff(a: Candidate, b: Candidate, at: Instant, later: Instant)
    requires NulFree(a) && NulFree(b)
    ensures Normalize(a, at).fingerprint == Normalize(b, later).fingerprint <==>
            && ToLower(TrimSpace(a.protocol)) == ToLower(TrimSpace(b.protocol))
            && ToLower(TrimSpace(a.host)) == ToLower(TrimSpace(b.host))
            && a.port == b.port && a.username == b.username && a.password == b.password
            && (ToLower(TrimSpace(a.protocol)) == "singbox" ==>
                  && AgreeAt(a.metadata, b.metadata, "tag") && AgreeAt(a.metadata, b.metadata, "node_id")
                  && AgreeAt(a.metadata, b.metadata, "config_hash") && AgreeAt(a.metadata, b.metadata, "raw_hash"))
  {
    hide ToLower, TrimSpace, NulFree, PreHash;
    var c, d := Normalize(a, at), Normalize(b, later);
    NormalizeFields(a, at);
    NormalizeFields(b, later);
    NormalizeNulFree(a, at);
    NormalizeNulFree(b, later);
    hide Normalize;
    PreHashIsIdentity(c, d);
    LowerKeepsTrimmed(TrimSpace(a.protocol));
    LowerKeepsTrimmed(TrimSpace(b.protocol));
  }

  /** The keys ip-api validation writes (internal/validation/validation.go). */
  function RecordCountry(c: Candidate, countryCode: string, country: string, query: string): Candidate {
    var m := c.metadata["country_code" := ToUpper(TrimSpace(countryCode))];
    var m := if TrimSpace(country) != "" then m["country" := TrimSpace(country)] else m;
    var m := if TrimSpace(query) != "" then m["query_ip" := TrimSpace(query)] else m;
    c.(metadata := m)
  }

  /** A validated candidate is on the route of the country found, in any letter case, and of no other; name and address
      are recorded when there are any, and nothing else changes. */
  lemma ValidationRoutes(c: Candidate, countryCode: string, country: string, query: string, region: string)
    ensures var d := RecordCountry(c, countryCode, country, query);
            && (d.MatchesRoute("", region) <==> region == "" || ToLower(TrimSpace(countryCode)) == ToLower(region))
            && d.Meta("country") == (if TrimSpace(country) != "" then TrimSpace(country) else c.Meta("country"))
            && d.Meta("query_ip") == (if TrimSpace(query) != "" then TrimSpace(query) else c.Meta("query_ip"))
            && d == c.(metadata := d.metadata)
            && forall key :: key != "country_code" && key != "country" && key != "query_ip" ==>
                 AgreeAt(d.metadata, c.metadata, key)
  {
    hide ToLower, ToUpper, TrimSpace;
    var d, code := RecordCountry(c, countryCode, country, query), TrimSpace(countryCode);
    assert |"country"| == 7 && |"query_ip"| == 8 && |"country_code"| == 12;
    assert d.Meta("country_code") == ToUpper(code);
    TrimSpaceTrims(countryCode);
    LowerKeepsTrimmed(code);
    TrimSpaceTrims(ToUpper(code));
  }

  /** Validation writes neither the identity of a candidate nor the source labels refreshes match on. */
  lemma ValidationKeepsIdentity(c: Candidate, countryCode: string, country: string, query: string)
    ensures PreHash(RecordCountry(c, countryCode, country, query)) == PreHash(c)
    ensures forall key :: key == "query" || key == "source" ==>
              RecordCountry(c, countryCode, country, query).Meta(key) == c.Meta(key)
  {
    var d := RecordCountry(c, countryCode, country, query);
    forall k | k in IDENTITY_KEYS ensures AgreeAt(d.metadata, c.metadata, k) {
      IdentityKeysAre(k);
    }
    KeyedPartsInjective(d.metadata, c.metadata, IDENTITY_KEYS);
    assert IdentityParts(d) == IdentityParts(c);
    assert |"query"| == 5 && |"source"| == 6 && |"country"| == 7 && |"query_ip"| == 8 && |"country_code"| == 12;
  }
}
