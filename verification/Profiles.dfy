/** The catalog of TLS profiles: every profile of the emulation library, then a fixed list of aliases. */
module Profiles {
  import opened Wrappers
  import opened Text

  /** The library's profiles. The ones an alias refers to have a name here. */
  datatype Profile = Chrome149 | Firefox151 | Firefox128 | Safari17_5 | Edge122 | SafariIos17_2 | Other(id: nat)

  datatype Platform = IOS | Android

  /** What the emulation library offers: its list of profiles and how it prints profiles and platforms. */
  datatype Library = Library(variants: seq<Profile>, profileName: Profile -> string, platformName: Platform -> string)

  datatype TlsProfile = TlsProfile(name: string, wreqProfile: Option<Profile>, platform: Option<Platform>)

  /** Everything the emulation of a client depends on. */
  datatype Emulation = Emulation(profile: Profile, platform: Option<Platform>)

  const PASS_THROUGH := "pass-through"
  const FALLBACK := "rustls_default"

  const NAMED_ALIASES: seq<TlsProfile> := [
    TlsProfile("chrome_149_stable", Some(Chrome149), None),
    TlsProfile("firefox_current", Some(Firefox151), None),
    TlsProfile("firefox_130", Some(Firefox128), None),
    TlsProfile("safari_17", Some(Safari17_5), None),
    TlsProfile("edge_120", Some(Edge122), None),
    TlsProfile("ios_safari_17", Some(SafariIos17_2), Some(IOS)),
    TlsProfile("android_chrome", Some(Chrome149), Some(Android))]

  const DEFAULT_ALIASES: seq<TlsProfile> := [
    TlsProfile("python_urllib3", None, None),
    TlsProfile("rustls_default", None, None),
    TlsProfile("curl_8", None, None)]

  function FromLibrary(lib: Library, p: Profile): TlsProfile {
    TlsProfile(lib.profileName(p), Some(p), None)
  }

  function Listed(lib: Library): seq<TlsProfile> {
    seq(|lib.variants|, i requires 0 <= i < |lib.variants| => FromLibrary(lib, lib.variants[i]))
  }

  function Catalog(lib: Library): seq<TlsProfile> {
    Listed(lib) + (NAMED_ALIASES + DEFAULT_ALIASES)
  }

  /** The first profile of that name, whatever its case. */
  function Find(profiles: seq<TlsProfile>, name: string): Option<TlsProfile> {
    if profiles == [] then None
    else if EqIgnoreCase(profiles[0].name, name) then Some(profiles[0])
    else Find(profiles[1..], name)
  }

  function ByName(lib: Library, name: string): Option<TlsProfile> {
    Find(Catalog(lib), name)
  }

  function EmulationOf(p: TlsProfile): Option<Emulation> {
    match p.wreqProfile
    case None => None
    case Some(profile) => Some(Emulation(profile, p.platform))
  }

  function PoolKey(lib: Library, p: TlsProfile): string {
    match (p.wreqProfile, p.platform)
    case (Some(profile), Some(platform)) => lib.profileName(profile) + "@" + lib.platformName(platform)
    case (Some(profile), None) => lib.profileName(profile)
    case (None, _) => "default"
  }

  /**
   What the catalog relies on the library for: profile names and platform names tell apart what they name, a profile
   name is not empty, is trimmed, has no '@' and is not "default", and no listed profile takes the name of the
   pass-through or the fallback.
   */
  ghost predicate WellNamed(lib: Library) {
    && (forall p, q :: lib.profileName(p) == lib.profileName(q) ==> p == q)
    && (forall p, q :: lib.platformName(p) == lib.platformName(q) ==> p == q)
    && (forall p :: '@' !in lib.profileName(p) && lib.profileName(p) != "default")
    && (forall p :: lib.profileName(p) != "" && Trimmed(lib.profileName(p)))
    && (forall p :: p in lib.variants ==>
          !EqIgnoreCase(lib.profileName(p), PASS_THROUGH) && !EqIgnoreCase(lib.profileName(p), FALLBACK))
  }

  // ----- Lookup -----

  lemma {:induction false} FindIgnoresCase(profiles: seq<TlsProfile>, m: string, n: string)
    requires EqIgnoreCase(m, n)
    ensures Find(profiles, m) == Find(profiles, n)
  {
    if profiles != [] {
      FindIgnoresCase(profiles[1..], m, n);
    }
  }

  lemma {:induction false} FindMatches(profiles: seq<TlsProfile>, name: string)
    ensures Find(profiles, name).Some? ==>
      Find(profiles, name).value in profiles && EqIgnoreCase(Find(profiles, name).value.name, name)
    ensures Find(profiles, name).None? ==> forall p :: p in profiles ==> !EqIgnoreCase(p.name, name)
  {
    if profiles != [] {
      FindMatches(profiles[1..], name);
      assert forall p :: p in profiles ==> p == profiles[0] || p in profiles[1..];
    }
  }

  /** Looking up the name of what was found finds the same profile again, in any catalog. */
  lemma LookupIsStable(lib: Library, name: string)
    ensures ByName(lib, name).Some? ==> ByName(lib, ByName(lib, name).value.name) == ByName(lib, name)
  {
    FindMatches(Catalog(lib), name);
    if ByName(lib, name).Some? {
      FindIgnoresCase(Catalog(lib), ByName(lib, name).value.name, name);
    }
  }

  ghost predicate AllTrimmed(profiles: seq<TlsProfile>) {
    forall p :: p in profiles ==> Trimmed(p.name)
  }

  ghost predicate Avoids(profiles: seq<TlsProfile>, name: string) {
    forall p :: p in profiles ==> !EqIgnoreCase(p.name, name)
  }

  lemma {:induction false} FindSkips(before: seq<TlsProfile>, after: seq<TlsProfile>, name: string)
    requires Avoids(before, name)
    ensures Find(before + after, name) == Find(after, name)
  {
    if before == [] {
      assert before + after == after;
    } else {
      assert before[0] in before && (before + after)[1..] == before[1..] + after;
      FindSkips(before[1..], after, name);
    }
  }

  lemma {:induction false} FindInParts(before: seq<TlsProfile>, after: seq<TlsProfile>, name: string)
    ensures Find(before + after, name) == if Find(before, name).Some? then Find(before, name) else Find(after, name)
  {
    if before == [] {
      assert before + after == after;
    } else {
      assert (before + after)[1..] == before[1..] + after;
      FindInParts(before[1..], after, name);
    }
  }

  lemma {:induction false} AvoidsFindsNothing(profiles: seq<TlsProfile>, name: string)
    requires Avoids(profiles, name)
    ensures Find(profiles, name) == None
  {
    FindSkips(profiles, [], name);
    assert profiles + [] == profiles;
  }

  lemma NamedAliasEdges(p: TlsProfile)
    requires p in NAMED_ALIASES
    ensures Trimmed(p.name) && !EqIgnoreCase(p.name, FALLBACK) && !EqIgnoreCase(p.name, PASS_THROUGH)
  {
    var i :| 0 <= i < |NAMED_ALIASES| && p == NAMED_ALIASES[i];
    assert |p.name| > 0 && LowerChar(p.name[0]) != 'r' && LowerChar(p.name[0]) != 'p';
  }

  lemma DefaultAliasEdges(p: TlsProfile)
    requires p in DEFAULT_ALIASES
    ensures Trimmed(p.name) && !EqIgnoreCase(p.name, PASS_THROUGH)
  {
    var i :| 0 <= i < |DEFAULT_ALIASES| && p == DEFAULT_ALIASES[i];
    assert |p.name| != |PASS_THROUGH|;
  }

  lemma ListedEdges(lib: Library)
    requires WellNamed(lib)
    ensures AllTrimmed(Listed(lib)) && Avoids(Listed(lib), FALLBACK) && Avoids(Listed(lib), PASS_THROUGH)
  {
    forall p | p in Listed(lib)
      ensures Trimmed(p.name) && !EqIgnoreCase(p.name, FALLBACK) && !EqIgnoreCase(p.name, PASS_THROUGH)
    {
      var i :| 0 <= i < |lib.variants| && p == FromLibrary(lib, lib.variants[i]);
      assert lib.variants[i] in lib.variants;
    }
  }

  lemma AliasEdges()
    ensures AllTrimmed(NAMED_ALIASES) && Avoids(NAMED_ALIASES, FALLBACK) && Avoids(NAMED_ALIASES, PASS_THROUGH)
    ensures AllTrimmed(DEFAULT_ALIASES) && Avoids(DEFAULT_ALIASES, PASS_THROUGH)
  {
    forall p | p in NAMED_ALIASES
      ensures Trimmed(p.name) && !EqIgnoreCase(p.name, FALLBACK) && !EqIgnoreCase(p.name, PASS_THROUGH)
    {
      NamedAliasEdges(p);
    }
    forall p | p in DEFAULT_ALIASES ensures Trimmed(p.name) && !EqIgnoreCase(p.name, PASS_THROUGH) {
      DefaultAliasEdges(p);
    }
  }

  /** Joining three lists, stated apart from what the lists are. */
  lemma EdgesOfThree(a: seq<TlsProfile>, b: seq<TlsProfile>, c: seq<TlsProfile>, name: string)
    ensures AllTrimmed(a) && AllTrimmed(b) && AllTrimmed(c) ==> AllTrimmed(a + (b + c))
    ensures Avoids(a, name) && Avoids(b, name) && Avoids(c, name) ==> Avoids(a + (b + c), name)
    ensures Avoids(a, name) && Avoids(b, name) ==> Find(a + (b + c), name) == Find(c, name)
  {
    if Avoids(a, name) && Avoids(b, name) {
      FindSkips(a, b + c, name);
      FindSkips(b, c, name);
    }
  }

  lemma FallbackIsListed()
    ensures Find(DEFAULT_ALIASES, FALLBACK) == Some(TlsProfile(FALLBACK, None, None))
  {
    assert LowerChar(DEFAULT_ALIASES[0].name[0]) != LowerChar(FALLBACK[0]);
    assert DEFAULT_ALIASES[1..][0].name == FALLBACK;
  }

  lemma CatalogIsTrimmed(lib: Library)
    requires WellNamed(lib)
    ensures AllTrimmed(Catalog(lib))
  {
    ListedEdges(lib);
    AliasEdges();
    EdgesOfThree(Listed(lib), NAMED_ALIASES, DEFAULT_ALIASES, FALLBACK);
  }

  /** The fallback is the alias without an identity, and nothing in the catalog is called pass-through. */
  lemma SpecialNames(lib: Library)
    requires WellNamed(lib)
    ensures ByName(lib, FALLBACK) == Some(TlsProfile(FALLBACK, None, None))
    ensures ByName(lib, PASS_THROUGH) == None
  {
    ListedEdges(lib);
    AliasEdges();
    FallbackIsListed();
    EdgesOfThree(Listed(lib), NAMED_ALIASES, DEFAULT_ALIASES, FALLBACK);
    EdgesOfThree(Listed(lib), NAMED_ALIASES, DEFAULT_ALIASES, PASS_THROUGH);
    AvoidsFindsNothing(Catalog(lib), PASS_THROUGH);
  }

  // ----- Pool keys -----

  lemma {:induction false} FirstSeparator(a: string, b: string, x: string, y: string)
    requires '@' !in a && '@' !in x && a + "@" + b == x + "@" + y
    ensures a == x && b == y
  {
    SplitOnceAt(a, '@', b);
    SplitOnceAt(x, '@', y);
  }

  /** A key has a separator exactly when it names a platform, and no named key is "default". */
  lemma KeyShape(lib: Library, p: TlsProfile)
    requires WellNamed(lib)
    ensures '@' in PoolKey(lib, p) <==> p.wreqProfile.Some? && p.platform.Some?
    ensures PoolKey(lib, p) == "default" <==> p.wreqProfile.None?
  {
    if p.wreqProfile.Some? && p.platform.Some? {
      assert PoolKey(lib, p)[|lib.profileName(p.wreqProfile.value)|] == '@';
    }
  }

  /** Profiles share a pool exactly if they have the same emulation. */
  lemma PoolKeyDeterminesEmulation(lib: Library, p: TlsProfile, q: TlsProfile)
    requires WellNamed(lib)
    ensures PoolKey(lib, p) == PoolKey(lib, q) <==> EmulationOf(p) == EmulationOf(q)
  {
    KeyShape(lib, p);
    KeyShape(lib, q);
    if PoolKey(lib, p) == PoolKey(lib, q) && p.wreqProfile.Some? && p.platform.Some? {
      FirstSeparator(lib.profileName(p.wreqProfile.value), lib.platformName(p.platform.value),
                     lib.profileName(q.wreqProfile.value), lib.platformName(q.platform.value));
    }
  }
}
