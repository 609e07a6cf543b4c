/** The trusted key registry: loading it, and finding the one key that may check a signature. */
module KeyRegistry {
  import opened Wrappers
  import opened Trimming
  import opened ReceiptContract
  import opened ReceiptPipelines

  datatype TrustedKey = TrustedKey(
    role: string, keyId: string, keyVersion: int, algorithm: Algorithm,
    notBefore: string, notAfter: string, active: bool, publicKey: string)

  datatype Registry = Registry(version: int, entries: seq<TrustedKey>)

  const KEY_REGISTRY_SCHEMA := "shield.key_registry.v1"
  const ORCHESTRATOR_ROLE := "shield_orchestrator"
  const MAX_REGISTRY_ENTRIES: nat := 64
  const REGISTRY_FIELDS := {"schema_version", "registry_version", "entries"}
  const KEY_FIELDS :=
    {"role", "key_id", "key_version", "algorithm", "not_before", "not_after", "status", "public_key"}

  /** _parse_utc: an instant, or nothing when the text is blank or no UTC time. */
  function ParseUtc(s: string, env: Oracles): Option<int> {
    if Strip(s) == "" then None else env.instant(Strip(s))
  }

  predicate SupportedRole(role: string) {
    role == ORCHESTRATOR_ROLE || role in COMPONENT_ROLES.Values
  }

  predicate ValidWindow(notBefore: string, notAfter: string, env: Oracles) {
    match (ParseUtc(notBefore, env), ParseUtc(notAfter, env))
    case (Some(start), Some(end)) => start < end
    case _ => false
  }

  /** What one registry entry says, or nothing when it breaks the schema. */
  function ReadKey(e: Wire, env: Oracles): Option<TrustedKey> {
    if !HasExactly(e, KEY_FIELDS) then None
    else
      var role, id := NonEmpty(e.fields["role"]), NonEmpty(e.fields["key_id"]);
      var name, status := NonEmpty(e.fields["algorithm"]), NonEmpty(e.fields["status"]);
      var start, end := NonEmpty(e.fields["not_before"]), NonEmpty(e.fields["not_after"]);
      var publicKey := NonEmpty(e.fields["public_key"]);
      if role.None? || !SupportedRole(role.value) || id.None? || !PositiveInt(e.fields["key_version"])
        || name.None? || AlgorithmOf(name.value).None?
        || start.None? || end.None? || !ValidWindow(start.value, end.value, env)
        || !(status == Some("active") || status == Some("revoked")) || publicKey.None?
      then None
      else Some(TrustedKey(role.value, id.value, e.fields["key_version"].n, AlgorithmOf(name.value).value,
                           start.value, end.value, status == Some("active"), publicKey.value))
  }

  /** Whether an unreadable entry is refused for its times or for anything else. */
  predicate TimesUnreadable(e: Wire, env: Oracles) {
    && HasExactly(e, KEY_FIELDS)
    && NonEmpty(e.fields["role"]).Some? && SupportedRole(NonEmpty(e.fields["role"]).value)
    && NonEmpty(e.fields["key_id"]).Some? && PositiveInt(e.fields["key_version"])
    && NonEmpty(e.fields["algorithm"]).Some? && AlgorithmOf(NonEmpty(e.fields["algorithm"]).value).Some?
    && NonEmpty(e.fields["not_before"]).Some? && NonEmpty(e.fields["not_after"]).Some?
    && (ParseUtc(NonEmpty(e.fields["not_before"]).value, env).None?
        || ParseUtc(NonEmpty(e.fields["not_after"]).value, env).None?)
  }

  /** start and end are instants, in this order, of the two texts. */
  predicate WindowOf(notBefore: string, notAfter: string, env: Oracles) {
    match (env.instant(notBefore), env.instant(notAfter))
    case (Some(start), Some(end)) => start < end
    case _ => false
  }

  /** The entry names this key field by field, and its status says whether the key is active. */
  ghost predicate EntryNames(e: Wire, k: TrustedKey) {
    && e.WDict? && e.fields.Keys
      == {"role", "key_id", "key_version", "algorithm", "not_before", "not_after", "status", "public_key"}
    && Trims(e.fields["role"], k.role) && Trims(e.fields["key_id"], k.keyId)
    && e.fields["key_version"] == WInt(k.keyVersion) && 0 < k.keyVersion <= 0x7FFF_FFFF_FFFF_FFFF
    && (exists name :: Trims(e.fields["algorithm"], name) && AlgorithmOf(name) == Some(k.algorithm))
    && Trims(e.fields["not_before"], k.notBefore) && Trims(e.fields["not_after"], k.notAfter)
    && Trims(e.fields["status"], if k.active then "active" else "revoked")
    && Trims(e.fields["public_key"], k.publicKey)
  }

  /** What is read from a registry entry is what it says, no more and no less. */
  lemma ReadKeyExactly(e: Wire, env: Oracles, k: TrustedKey)
    ensures ReadKey(e, env) == Some(k) <==>
      && EntryNames(e, k) && WindowOf(k.notBefore, k.notAfter, env)
      && (k.role == "shield_orchestrator" || exists id :: id in COMPONENT_ROLES && COMPONENT_ROLES[id] == k.role)
  {
    hide NonEmpty, Trims, AlgorithmOf, Strip, ReadKey, EntryNames, WindowOf;
    if ReadKey(e, env) == Some(k) { KeyReadIsNamed(e, env, k); }
    if EntryNames(e, k) && WindowOf(k.notBefore, k.notAfter, env)
      && (k.role == "shield_orchestrator" || exists id :: id in COMPONENT_ROLES && COMPONENT_ROLES[id] == k.role)
    {
      KeyNamedIsRead(e, env, k);
    }
  }

  lemma KeyReadIsNamed(e: Wire, env: Oracles, k: TrustedKey)
    requires ReadKey(e, env) == Some(k)
    ensures EntryNames(e, k) && WindowOf(k.notBefore, k.notAfter, env)
    ensures k.role == "shield_orchestrator" || exists id :: id in COMPONENT_ROLES && COMPONENT_ROLES[id] == k.role
  {
    hide NonEmpty, Trims, AlgorithmOf, Strip;
    var f := e.fields;
    NonEmptyExactly(f["role"], k.role);
    NonEmptyExactly(f["key_id"], k.keyId);
    NonEmptyExactly(f["algorithm"], NonEmpty(f["algorithm"]).value);
    NonEmptyExactly(f["not_before"], k.notBefore);
    NonEmptyExactly(f["not_after"], k.notAfter);
    NonEmptyExactly(f["status"], if k.active then "active" else "revoked");
    NonEmptyExactly(f["public_key"], k.publicKey);
    TrimmedIs(f["not_before"], k.notBefore);
    TrimmedIs(f["not_after"], k.notAfter);
  }

  lemma KeyNamedIsRead(e: Wire, env: Oracles, k: TrustedKey)
    requires EntryNames(e, k) && WindowOf(k.notBefore, k.notAfter, env)
    requires k.role == "shield_orchestrator" || exists id :: id in COMPONENT_ROLES && COMPONENT_ROLES[id] == k.role
    ensures ReadKey(e, env) == Some(k)
  {
    hide NonEmpty, Trims, AlgorithmOf, Strip;
    var f := e.fields;
    var name :| Trims(f["algorithm"], name) && AlgorithmOf(name) == Some(k.algorithm);
    NonEmptyExactly(f["role"], k.role);
    NonEmptyExactly(f["key_id"], k.keyId);
    NonEmptyExactly(f["algorithm"], name);
    NonEmptyExactly(f["not_before"], k.notBefore);
    NonEmptyExactly(f["not_after"], k.notAfter);
    NonEmptyExactly(f["status"], if k.active then "active" else "revoked");
    NonEmptyExactly(f["public_key"], k.publicKey);
    TrimmedIs(f["not_before"], k.notBefore);
    TrimmedIs(f["not_after"], k.notAfter);
    assert SupportedRole(k.role);
    StatusesDiffer();
  }

  lemma StatusesDiffer()
    ensures "active" != "revoked"
  {
    assert |"active"| == 6 && |"revoked"| == 7;
  }

  lemma TrimmedIs(v: Wire, s: string)
    requires Trims(v, s)
    ensures s != "" && Strip(s) == s
  {
    StripFixes(s);
  }

  datatype TrustFault = RegistryFault | TimeFault

  predicate SameIdentity(a: TrustedKey, b: TrustedKey) {
    a.role == b.role && a.keyVersion == b.keyVersion && a.algorithm == b.algorithm && a.keyId == b.keyId
  }

  predicate IdentitiesDistinct(ks: seq<TrustedKey>) {
    forall i, j :: 0 <= i < j < |ks| ==> !SameIdentity(ks[i], ks[j])
  }

  predicate RegistryHeader(raw: Wire) {
    && HasExactly(raw, REGISTRY_FIELDS)
    && raw.fields["schema_version"] == WText(KEY_REGISTRY_SCHEMA) && PositiveInt(raw.fields["registry_version"])
    && raw.fields["entries"].WList? && 0 < |raw.fields["entries"].items| <= MAX_REGISTRY_ENTRIES
  }

  ghost predicate RegistryReads(raw: Wire, reg: Registry, env: Oracles) {
    && RegistryHeader(raw) && reg.version == raw.fields["registry_version"].n
    && var items := raw.fields["entries"].items;
      && |reg.entries| == |items|
      && forall i :: 0 <= i < |items| ==> ReadKey(items[i], env) == Some(reg.entries[i])
  }

  ghost predicate RegistryHolds(raw: Wire, reg: Registry, env: Oracles) {
    RegistryReads(raw, reg, env) && IdentitiesDistinct(reg.entries)
  }

  predicate IsRole(role: string) {
    role == "shield_orchestrator" || exists id :: id in COMPONENT_ROLES && COMPONENT_ROLES[id] == role
  }

  /** raw lists reg's keys, 1 to 64 of them, and no two for the same role, key, version and algorithm. */
  ghost predicate RegistrySays(raw: Wire, items: seq<Wire>, reg: Registry, env: Oracles) {
    && raw == WDict(map["schema_version" := WText("shield.key_registry.v1"), "registry_version" := WInt(reg.version),
                        "entries" := WList(items)])
    && 0 < reg.version <= 0x7FFF_FFFF_FFFF_FFFF && 0 < |items| == |reg.entries| <= 64
    && (forall i :: 0 <= i < |items| ==>
          var k := reg.entries[i];
          EntryNames(items[i], k) && WindowOf(k.notBefore, k.notAfter, env) && IsRole(k.role))
    && forall i, j :: 0 <= i < j < |items| ==>
         var k, l := reg.entries[i], reg.entries[j];
         (k.role, k.keyId, k.keyVersion, k.algorithm) != (l.role, l.keyId, l.keyVersion, l.algorithm)
  }

  lemma HeaderExactly(raw: Wire, items: seq<Wire>, version: int)
    ensures RegistryHeader(raw) && raw.fields["entries"].items == items && raw.fields["registry_version"].n == version <==>
      && raw == WDict(map["schema_version" := WText("shield.key_registry.v1"), "registry_version" := WInt(version),
                          "entries" := WList(items)])
      && 0 < version <= 0x7FFF_FFFF_FFFF_FFFF && 0 < |items| <= 64
  {
    if RegistryHeader(raw) && raw.fields["entries"].items == items && raw.fields["registry_version"].n == version {
      assert raw.fields == map["schema_version" := WText("shield.key_registry.v1"), "registry_version" := WInt(version),
                               "entries" := WList(items)];
    }
  }

  lemma RegistrySaid(raw: Wire, reg: Registry, env: Oracles)
    requires RegistryHolds(raw, reg, env)
    ensures RegistrySays(raw, Entries(raw), reg, env)
  {
    hide ReadKey, EntryNames, WindowOf, RegistryHeader, IsRole;
    HeaderParts(raw);
    HeaderExactly(raw, Entries(raw), reg.version);
    forall i | 0 <= i < |reg.entries| {
      ReadNamed(Entries(raw)[i], env, reg.entries[i]);
    }
  }

  lemma SaidHolds(raw: Wire, items: seq<Wire>, reg: Registry, env: Oracles)
    requires RegistrySays(raw, items, reg, env)
    ensures RegistryHolds(raw, reg, env)
  {
    hide ReadKey, EntryNames, WindowOf, RegistryHeader, IsRole;
    HeaderExactly(raw, items, reg.version);
    forall i | 0 <= i < |reg.entries| ensures ReadKey(items[i], env) == Some(reg.entries[i]) {
      ReadNamed(items[i], env, reg.entries[i]);
    }
  }

  /** A registry holds exactly when it says so, header and entries. */
  lemma RegistryExactly(raw: Wire, reg: Registry, env: Oracles)
    ensures RegistryHolds(raw, reg, env) <==> exists items :: RegistrySays(raw, items, reg, env)
  {
    hide RegistryHolds, RegistrySays;
    if RegistryHolds(raw, reg, env) { RegistrySaid(raw, reg, env); }
    if items :| RegistrySays(raw, items, reg, env) { SaidHolds(raw, items, reg, env); }
  }

  function Entries(raw: Wire): seq<Wire> {
    if raw.WDict? && "entries" in raw.fields && raw.fields["entries"].WList? then raw.fields["entries"].items else []
  }

  function Version(raw: Wire): int {
    if raw.WDict? && "registry_version" in raw.fields && raw.fields["registry_version"].WInt?
    then raw.fields["registry_version"].n else 0
  }

  lemma HeaderParts(raw: Wire)
    ensures RegistryHeader(raw) ==>
      && raw.WDict? && "entries" in raw.fields && raw.fields["entries"].WList? && "registry_version" in raw.fields
      && raw.fields["registry_version"].WInt? && raw.fields["entries"].items == Entries(raw)
      && raw.fields["registry_version"].n == Version(raw)
  {
  }

  lemma ReadNamed(e: Wire, env: Oracles, k: TrustedKey)
    ensures ReadKey(e, env) == Some(k) <==> EntryNames(e, k) && WindowOf(k.notBefore, k.notAfter, env) && IsRole(k.role)
  {
    hide ReadKey, EntryNames, WindowOf;
    ReadKeyExactly(e, env, k);
  }

  /** Readable, and naming no key that an entry before it names. */
  predicate GoodEntry(items: seq<Wire>, k: nat, env: Oracles)
    requires k < |items|
  {
    && ReadKey(items[k], env).Some?
    && forall j :: 0 <= j < k && ReadKey(items[j], env).Some? ==>
         !SameIdentity(ReadKey(items[j], env).value, ReadKey(items[k], env).value)
  }

  /** The first entry that is no good decides what is reported: its times, or anything else. */
  predicate LoadFault(raw: Wire, env: Oracles, f: TrustFault) {
    if !RegistryHeader(raw) then f == RegistryFault
    else
      var items := raw.fields["entries"].items;
      exists k :: 0 <= k < |items| && FirstBad(items, k, env)
        && f == if TimesUnreadable(items[k], env) then TimeFault else RegistryFault
  }

  predicate FirstBad(items: seq<Wire>, k: nat, env: Oracles)
    requires k < |items|
  {
    !GoodEntry(items, k, env) && forall j :: 0 <= j < k ==> GoodEntry(items, j, env)
  }

  lemma LoadFaultUnique(raw: Wire, env: Oracles, f: TrustFault, g: TrustFault)
    requires LoadFault(raw, env, f) && LoadFault(raw, env, g)
    ensures f == g
  {
    hide GoodEntry, TimesUnreadable;
  }

  lemma ReadableTimes(e: Wire, env: Oracles)
    requires ReadKey(e, env).Some?
    ensures !TimesUnreadable(e, env)
  {
  }

  /** load_trusted_shield_v4_key_registry, after the bounded snapshot. */
  method LoadRegistry(raw: Wire, env: Oracles) returns (r: Result<Registry, TrustFault>)
    ensures r.Ok? ==> RegistryHolds(raw, r.value, env)
    ensures r.Err? ==> forall reg :: !RegistryHolds(raw, reg, env)
    ensures r.Err? ==> LoadFault(raw, env, r.error)
  {
    hide ReadKey, TimesUnreadable;
    if !RegistryHeader(raw) { return Err(RegistryFault); }
    var items := raw.fields["entries"].items;
    var seen: set<(string, int, Algorithm, string)> := {};
    var entries: seq<TrustedKey> := [];
    var i := 0;
    while i < |items|
      invariant i <= |items| && |entries| == i
      invariant forall j :: 0 <= j < i ==> ReadKey(items[j], env) == Some(entries[j])
      invariant seen == set j | 0 <= j < i :: Identity(entries[j])
      invariant IdentitiesDistinct(entries)
      invariant forall j :: 0 <= j < i ==> GoodEntry(items, j, env)
    {
      var k := ReadKey(items[i], env);
      if k.None? {
        assert FirstBad(items, i, env);
        return Err(if TimesUnreadable(items[i], env) then TimeFault else RegistryFault);
      }
      if Identity(k.value) in seen {
        var j :| 0 <= j < i && Identity(entries[j]) == Identity(k.value);
        forall reg | RegistryReads(raw, reg, env) ensures SameIdentity(reg.entries[j], reg.entries[i]) {}
        ReadableTimes(items[i], env);
        assert SameIdentity(ReadKey(items[j], env).value, ReadKey(items[i], env).value);
        assert FirstBad(items, i, env);
        return Err(RegistryFault);
      }
      seen := seen + {Identity(k.value)};
      entries := entries + [k.value];
      i := i + 1;
    }
    r := Ok(Registry(raw.fields["registry_version"].n, entries));
  }

  function Identity(k: TrustedKey): (string, int, Algorithm, string) {
    (k.role, k.keyVersion, k.algorithm, k.keyId)
  }

  /** What a signature needs its key for: who signed, with what, and when. */
  datatype KeyQuery = KeyQuery(
    role: string, keyId: string, keyVersion: int, algorithm: Algorithm,
    now: string, artifactStart: string, artifactEnd: string)

  predicate Matches(k: TrustedKey, q: KeyQuery) {
    k.role == q.role && k.keyId == q.keyId && k.keyVersion == q.keyVersion && k.algorithm == q.algorithm
  }

  predicate Within(k: TrustedKey, s: string, env: Oracles) {
    match (ParseUtc(k.notBefore, env), ParseUtc(s, env), ParseUtc(k.notAfter, env))
    case (Some(start), Some(t), Some(end)) => start <= t <= end
    case _ => false
  }

  /** Active, and valid at verification time and over the artifact's whole window. */
  predicate Usable(k: TrustedKey, q: KeyQuery, env: Oracles) {
    k.active && Within(k, q.now, env) && Within(k, q.artifactStart, env) && Within(k, q.artifactEnd, env)
  }

  predicate QueryTimed(q: KeyQuery, env: Oracles) {
    ParseUtc(q.now, env).Some? && ValidWindow(q.artifactStart, q.artifactEnd, env)
  }

  /** The registry a snapshot holds is unique. */
  lemma RegistryUnique(raw: Wire, a: Registry, b: Registry, env: Oracles)
    requires RegistryHolds(raw, a, env) && RegistryHolds(raw, b, env)
    ensures a == b
  {
    hide ReadKey;
    assert forall i :: 0 <= i < |a.entries| ==> Some(a.entries[i]) == Some(b.entries[i]);
  }

  /** The first entry with the right identity decides. */
  function Lookup(ks: seq<TrustedKey>, q: KeyQuery, env: Oracles): Option<TrustedKey> {
    if !QueryTimed(q, env) || ks == [] then None
    else if Matches(ks[0], q) then (if Usable(ks[0], q, env) then Some(ks[0]) else None)
    else Lookup(ks[1..], q, env)
  }

  /** _find_key. */
  method FindKey(reg: Registry, q: KeyQuery, env: Oracles) returns (r: Result<TrustedKey, TrustFault>)
    ensures Lookup(reg.entries, q, env) == if r.Ok? then Some(r.value) else None
    ensures r.Err? && r.error == TimeFault <==> !QueryTimed(q, env)
  {
    hide Usable, QueryTimed;
    if !QueryTimed(q, env) { return Err(TimeFault); }
    var i := 0;
    while i < |reg.entries|
      invariant i <= |reg.entries| && Lookup(reg.entries, q, env) == Lookup(reg.entries[i..], q, env)
    {
      if Matches(reg.entries[i], q) {
        return if Usable(reg.entries[i], q, env) then Ok(reg.entries[i]) else Err(RegistryFault);
      }
      assert reg.entries[i..][1..] == reg.entries[i + 1..];
      i := i + 1;
    }
    return Err(RegistryFault);
  }

  /** In a loaded registry the key found is the only usable match, wherever it stands in the list. */
  lemma {:induction false} LookupExact(ks: seq<TrustedKey>, q: KeyQuery, env: Oracles, k: TrustedKey)
    requires IdentitiesDistinct(ks)
    ensures Lookup(ks, q, env) == Some(k) <==> k in ks && Matches(k, q) && Usable(k, q, env) && QueryTimed(q, env)
  {
    hide Usable, QueryTimed;
    if ks != [] {
      LookupExact(ks[1..], q, env, k);
      assert ks == [ks[0]] + ks[1..];
    }
  }

  lemma LookupIgnoresOrder(ks: seq<TrustedKey>, ls: seq<TrustedKey>, q: KeyQuery, env: Oracles)
    requires IdentitiesDistinct(ks) && IdentitiesDistinct(ls) && forall k :: k in ks <==> k in ls
    ensures Lookup(ks, q, env) == Lookup(ls, q, env)
  {
    hide Usable, QueryTimed, Lookup, IdentitiesDistinct;
    var found, other := Lookup(ks, q, env), Lookup(ls, q, env);
    if found.Some? {
      LookupExact(ks, q, env, found.value);
      LookupExact(ls, q, env, found.value);
    } else if other.Some? {
      LookupExact(ks, q, env, other.value);
      LookupExact(ls, q, env, other.value);
    }
  }

  // ------------------------------------------------------ windows, spelled out

  /** The text, trimmed, is a time, and this instant. */
  ghost predicate At(s: string, n: int, env: Oracles) {
    exists t :: Trims(WText(s), t) && env.instant(t) == Some(n)
  }

  lemma AtExactly(s: string, n: int, env: Oracles)
    ensures ParseUtc(s, env) == Some(n) <==> At(s, n, env)
  {
    hide Trims, Strip;
    forall t ensures NonEmpty(WText(s)) == Some(t) <==> Trims(WText(s), t) { NonEmptyExactly(WText(s), t); }
    if ParseUtc(s, env) == Some(n) { assert Trims(WText(s), Strip(s)); }
  }

  /** The key is in force from its first to its last instant, and that covers now and the artifact's whole window. */
  ghost predicate Covers(k: TrustedKey, now: string, start: string, end: string, env: Oracles) {
    exists n, s, e, from, to ::
      && At(now, n, env) && At(start, s, env) && At(end, e, env) && At(k.notBefore, from, env) && At(k.notAfter, to, env)
      && s < e && from <= n <= to && from <= s && e <= to
  }

  /** A key may be used exactly when it is active and covers what it is used for. */
  lemma UsableExactly(k: TrustedKey, q: KeyQuery, env: Oracles)
    ensures QueryTimed(q, env) && Usable(k, q, env) <==> k.active && Covers(k, q.now, q.artifactStart, q.artifactEnd, env)
  {
    hide ParseUtc, At;
    forall s, n ensures ParseUtc(s, env) == Some(n) <==> At(s, n, env) { AtExactly(s, n, env); }
    if QueryTimed(q, env) && Usable(k, q, env) {
      var n, s, e := ParseUtc(q.now, env).value, ParseUtc(q.artifactStart, env).value, ParseUtc(q.artifactEnd, env).value;
      var from, to := ParseUtc(k.notBefore, env).value, ParseUtc(k.notAfter, env).value;
      assert At(q.now, n, env) && At(q.artifactStart, s, env) && At(q.artifactEnd, e, env);
      assert At(k.notBefore, from, env) && At(k.notAfter, to, env);
    }
  }

  /** An entry that is fine but for a time that cannot be read. */
  ghost predicate OnlyTimesBad(e: Wire, role: string, id: string, name: string, from: string, to: string, env: Oracles) {
    && e.WDict? && e.fields.Keys
      == {"role", "key_id", "key_version", "algorithm", "not_before", "not_after", "status", "public_key"}
    && Trims(e.fields["role"], role) && SupportedRole(role) && Trims(e.fields["key_id"], id)
    && PositiveInt(e.fields["key_version"]) && Trims(e.fields["algorithm"], name) && AlgorithmOf(name).Some?
    && Trims(e.fields["not_before"], from) && Trims(e.fields["not_after"], to)
    && (env.instant(from).None? || env.instant(to).None?)
  }

  /** A time fault is reported only of entries up to whose times everything is fine. */
  lemma TimesUnreadableExactly(e: Wire, env: Oracles)
    ensures TimesUnreadable(e, env) <==> exists role, id, name, from, to :: OnlyTimesBad(e, role, id, name, from, to, env)
  {
    hide Trims, NonEmpty, Strip, SupportedRole, AlgorithmOf, PositiveInt;
    forall v, s ensures NonEmpty(v) == Some(s) <==> Trims(v, s) { NonEmptyExactly(v, s); }
    forall v, s | Trims(v, s) ensures s != "" && Strip(s) == s { TrimmedIs(v, s); }
    if TimesUnreadable(e, env) {
      var f := e.fields;
      assert OnlyTimesBad(e, NonEmpty(f["role"]).value, NonEmpty(f["key_id"]).value, NonEmpty(f["algorithm"]).value,
                          NonEmpty(f["not_before"]).value, NonEmpty(f["not_after"]).value, env);
    }
  }
}
