/** The pool of upstream clients: which pool a profile name selects, and the cache that callers share. */
module ClientPool {
  import opened Wrappers
  import opened Text
  import opened Profiles

  /** A client is identified by when it was built; requests only see its emulation. */
  datatype Client = Client(id: nat, emulation: Option<Emulation>)

  // ----- From a name to a pool -----

  function Resolve(lib: Library, name: string): Option<TlsProfile> {
    if EqIgnoreCase(name, PASS_THROUGH) then None
    else match ByName(lib, name)
      case Some(p) => Some(p)
      case None => ByName(lib, FALLBACK)
  }

  function CanonicalName(lib: Library, name: string): string {
    match Resolve(lib, name)
    case Some(p) => p.name
    case None => PASS_THROUGH
  }

  function Key(lib: Library, name: string): string {
    match Resolve(lib, name)
    case Some(p) => PoolKey(lib, p)
    case None => "default"
  }

  /** The emulation a build uses: the canonical name is looked up once more. */
  function BuildEmulation(lib: Library, canonical: string): Option<Emulation> {
    match ByName(lib, canonical)
    case Some(p) => EmulationOf(p)
    case None => None
  }

  /** The emulation the caller asked for by that name. */
  function RequestedEmulation(lib: Library, name: string): Option<Emulation> {
    match Resolve(lib, name)
    case Some(p) => EmulationOf(p)
    case None => None
  }

  /** Building for the canonical name gives what was requested. */
  lemma BuildIsFaithful(lib: Library, name: string)
    requires WellNamed(lib)
    ensures BuildEmulation(lib, CanonicalName(lib, name)) == RequestedEmulation(lib, name)
  {
    SpecialNames(lib);
    LookupIsStable(lib, name);
    LookupIsStable(lib, FALLBACK);
  }

  /** Names that select one pool request one emulation. */
  lemma KeyDeterminesEmulation(lib: Library, m: string, n: string)
    requires WellNamed(lib) && Key(lib, m) == Key(lib, n)
    ensures RequestedEmulation(lib, m) == RequestedEmulation(lib, n)
  {
    var p, q := Resolve(lib, m), Resolve(lib, n);
    if p.Some? && q.Some? {
      PoolKeyDeterminesEmulation(lib, p.value, q.value);
    } else if p.Some? {
      KeyShape(lib, p.value);
    } else if q.Some? {
      KeyShape(lib, q.value);
    }
  }

  // ----- The two ways in -----

  /** The pool of a direct client, which trims the name and rejects unknown ones. */
  function DirectKey(lib: Library, name: string): Option<string> {
    var trimmed := Trim(name);
    if EqIgnoreCase(trimmed, PASS_THROUGH) then Some(Key(lib, PASS_THROUGH))
    else match ByName(lib, trimmed)
      case Some(p) => Some(Key(lib, p.name))
      case None => None
  }

  lemma UntrimmedIsUnknown(lib: Library, name: string)
    requires WellNamed(lib) && !Trimmed(name)
    ensures ByName(lib, name) == None && !EqIgnoreCase(name, PASS_THROUGH)
  {
    FindMatches(Catalog(lib), name);
    if ByName(lib, name).Some? {
      CatalogIsTrimmed(lib);
      TrimmedIgnoresCase(ByName(lib, name).value.name, name);
    }
    if EqIgnoreCase(name, PASS_THROUGH) {
      TrimmedIgnoresCase(PASS_THROUGH, name);
    }
  }

  lemma DirectKeyOfTrimmed(lib: Library, name: string)
    requires WellNamed(lib) && Trimmed(name)
    ensures DirectKey(lib, name) ==
      if EqIgnoreCase(name, PASS_THROUGH) || ByName(lib, name).Some? then Some(Key(lib, name)) else None
  {
    TrimIsTrimmed(name);
    SpecialNames(lib);
    if !EqIgnoreCase(name, PASS_THROUGH) && ByName(lib, name).Some? {
      var p := ByName(lib, name).value;
      LookupIsStable(lib, name);
      FindMatches(Catalog(lib), name);
      if EqIgnoreCase(p.name, PASS_THROUGH) {
        FindMatches(Catalog(lib), PASS_THROUGH);
      }
    }
  }

  /**
   The direct client and the proxy select the same pool for an accepted name exactly when the name comes trimmed or
   selects the default pool anyway; whatever the direct client rejects selects the default pool in the proxy.
   */
  lemma EntryPathsAgree(lib: Library, name: string)
    requires WellNamed(lib)
    ensures match DirectKey(lib, name)
            case Some(key) => Key(lib, name) == key <==> (Trimmed(name) || key == "default")
            case None => Key(lib, name) == "default" && Key(lib, Trim(name)) == "default"
  {
    SpecialNames(lib);
    TrimIsTrimmed(name);
    DirectKeyOfTrimmed(lib, Trim(name));
    TrimIsTrimmed(Trim(name));
    assert DirectKey(lib, Trim(name)) == DirectKey(lib, name);
    if !Trimmed(name) {
      UntrimmedIsUnknown(lib, name);
    }
  }

  /** No listed profile takes the name, so that an alias of that name is found. */
  ghost predicate Unlisted(lib: Library, name: string) {
    forall p :: p in lib.variants ==> !EqIgnoreCase(lib.profileName(p), name)
  }

  lemma UnlistedIsSkipped(lib: Library, name: string)
    requires Unlisted(lib, name)
    ensures ByName(lib, name) == Find(NAMED_ALIASES + DEFAULT_ALIASES, name)
  {
    forall p | p in Listed(lib) ensures !EqIgnoreCase(p.name, name) {
      var i :| 0 <= i < |lib.variants| && p == FromLibrary(lib, lib.variants[i]);
      assert lib.variants[i] in lib.variants;
    }
    FindSkips(Listed(lib), NAMED_ALIASES + DEFAULT_ALIASES, name);
  }

  lemma {:induction false} FindAt(profiles: seq<TlsProfile>, name: string, i: nat)
    requires i < |profiles| && EqIgnoreCase(profiles[i].name, name)
    requires forall k :: 0 <= k < i ==> !EqIgnoreCase(profiles[k].name, name)
    ensures Find(profiles, name) == Some(profiles[i])
  {
    if i > 0 {
      assert forall k :: 0 <= k < |profiles[1..]| ==> profiles[1..][k] == profiles[k + 1];
      FindAt(profiles[1..], name, i - 1);
    }
  }

  const ALIASES := NAMED_ALIASES + DEFAULT_ALIASES

  lemma AliasNamesDiffer(i: nat, k: nat)
    requires k < i < |ALIASES|
    ensures !EqIgnoreCase(ALIASES[k].name, ALIASES[i].name)
  {
    AliasMarks();
    assert Mark(ALIASES[k].name) != Mark(ALIASES[i].name);
    if EqIgnoreCase(ALIASES[k].name, ALIASES[i].name) {
      SameMark(ALIASES[k].name, ALIASES[i].name);
    }
  }

  /** The length and the ninth character, which tell the aliases apart. */
  function Mark(name: string): (nat, char) {
    (|name|, if |name| > 8 then LowerChar(name[8]) else ' ')
  }

  lemma SameMark(a: string, b: string)
    requires EqIgnoreCase(a, b)
    ensures Mark(a) == Mark(b)
  {
  }

  lemma AliasMarks()
    ensures |ALIASES| == 10
    ensures Mark(ALIASES[0].name) == (17, '4') && Mark(ALIASES[1].name) == (15, 'c') &&
      Mark(ALIASES[2].name) == (11, '1')
    ensures Mark(ALIASES[3].name) == (9, '7') && Mark(ALIASES[4].name) == (8, ' ') && Mark(ALIASES[5].name) == (13, 'r')
    ensures Mark(ALIASES[6].name) == (14, 'c') && Mark(ALIASES[7].name) == (14, 'r')
    ensures Mark(ALIASES[8].name) == (14, 'e') && Mark(ALIASES[9].name) == (6, ' ')
  {
  }

  lemma AliasRequests(lib: Library, name: string, i: nat)
    requires WellNamed(lib) && Unlisted(lib, name) && i < |ALIASES| && ALIASES[i].name == name && name != PASS_THROUGH
    ensures RequestedEmulation(lib, name) == EmulationOf(ALIASES[i]) && Resolve(lib, name) == Some(ALIASES[i])
  {
    forall k | 0 <= k < i ensures !EqIgnoreCase(ALIASES[k].name, name) {
      AliasNamesDiffer(i, k);
    }
    UnlistedIsSkipped(lib, name);
    FindAt(ALIASES, name, i);
    AliasEdges();
    assert !EqIgnoreCase(name, PASS_THROUGH) by {
      assert ALIASES[i] in NAMED_ALIASES || ALIASES[i] in DEFAULT_ALIASES;
    }
  }

  /** What the aliases stand for, if the library lists no profile of the name. */
  lemma AliasEmulations(lib: Library)
    requires WellNamed(lib)
    ensures Unlisted(lib, "chrome_149_stable") ==>
      RequestedEmulation(lib, "chrome_149_stable") == Some(Emulation(Chrome149, None))
    ensures Unlisted(lib, "firefox_current") ==>
      RequestedEmulation(lib, "firefox_current") == Some(Emulation(Firefox151, None))
    ensures Unlisted(lib, "firefox_130") ==> RequestedEmulation(lib, "firefox_130") == Some(Emulation(Firefox128, None))
    ensures Unlisted(lib, "safari_17") ==> RequestedEmulation(lib, "safari_17") == Some(Emulation(Safari17_5, None))
    ensures Unlisted(lib, "edge_120") ==> RequestedEmulation(lib, "edge_120") == Some(Emulation(Edge122, None))
    ensures Unlisted(lib, "ios_safari_17") ==>
      RequestedEmulation(lib, "ios_safari_17") == Some(Emulation(SafariIos17_2, Some(IOS)))
    ensures Unlisted(lib, "android_chrome") ==>
      RequestedEmulation(lib, "android_chrome") == Some(Emulation(Chrome149, Some(Android)))
    ensures Unlisted(lib, "python_urllib3") ==> RequestedEmulation(lib, "python_urllib3") == None
    ensures Unlisted(lib, "curl_8") ==> RequestedEmulation(lib, "curl_8") == None
    ensures RequestedEmulation(lib, "rustls_default") == RequestedEmulation(lib, "pass-through") == None
  {
    AliasContents();
    forall i | 0 <= i < |ALIASES| && Unlisted(lib, ALIASES[i].name) && ALIASES[i].name != PASS_THROUGH
      ensures RequestedEmulation(lib, ALIASES[i].name) == EmulationOf(ALIASES[i])
    {
      AliasRequests(lib, ALIASES[i].name, i);
    }
    SpecialNames(lib);
  }

  lemma AliasContents()
    ensures |ALIASES| == 10
    ensures ALIASES[0] == TlsProfile("chrome_149_stable", Some(Chrome149), None)
    ensures ALIASES[1] == TlsProfile("firefox_current", Some(Firefox151), None)
    ensures ALIASES[2] == TlsProfile("firefox_130", Some(Firefox128), None)
    ensures ALIASES[3] == TlsProfile("safari_17", Some(Safari17_5), None)
    ensures ALIASES[4] == TlsProfile("edge_120", Some(Edge122), None)
    ensures ALIASES[5] == TlsProfile("ios_safari_17", Some(SafariIos17_2), Some(IOS))
    ensures ALIASES[6] == TlsProfile("android_chrome", Some(Chrome149), Some(Android))
    ensures ALIASES[7] == TlsProfile("python_urllib3", None, None)
    ensures ALIASES[8] == TlsProfile("rustls_default", None, None)
    ensures ALIASES[9] == TlsProfile("curl_8", None, None)
    ensures forall i :: 0 <= i < |ALIASES| ==> ALIASES[i].name != PASS_THROUGH
  {
    AliasMarks();
    assert Mark(PASS_THROUGH) == (12, 'o');
  }

  /** A profile of the library is requested by its own name, in any case, with no platform. */
  lemma ListedEmulation(lib: Library, p: Profile, name: string)
    requires WellNamed(lib) && p in lib.variants && EqIgnoreCase(lib.profileName(p), name)
    requires forall q :: q in lib.variants && EqIgnoreCase(lib.profileName(q), name) ==> q == p
    ensures RequestedEmulation(lib, name) == Some(Emulation(p, None)) && Key(lib, name) == lib.profileName(p)
  {
    FindInParts(Listed(lib), NAMED_ALIASES + DEFAULT_ALIASES, name);
    FindMatches(Listed(lib), name);
    var i :| 0 <= i < |lib.variants| && lib.variants[i] == p;
    assert Listed(lib)[i] == FromLibrary(lib, p);
    var found := Find(Listed(lib), name).value;
    var k :| 0 <= k < |lib.variants| && found == FromLibrary(lib, lib.variants[k]);
    assert lib.variants[k] == p;
    assert !EqIgnoreCase(lib.profileName(p), PASS_THROUGH);
  }

  /** An alias with an identity is found by its name, in the library's list or after it. */
  lemma AliasHasIdentity(lib: Library)
    ensures ByName(lib, "chrome_149_stable").Some? && ByName(lib, "chrome_149_stable").value.wreqProfile.Some?
  {
    FindInParts(Listed(lib), NAMED_ALIASES + DEFAULT_ALIASES, "chrome_149_stable");
    FindMatches(Listed(lib), "chrome_149_stable");
    assert (NAMED_ALIASES + DEFAULT_ALIASES)[0] == NAMED_ALIASES[0];
  }

  /** With a blank before it the direct client still accepts the name, and the proxy takes the default pool for it. */
  lemma UntrimmedAliasDiffers(lib: Library)
    requires WellNamed(lib)
    ensures DirectKey(lib, " chrome_149_stable").Some? &&
      Key(lib, " chrome_149_stable") != DirectKey(lib, " chrome_149_stable").value
  {
    var alias := "chrome_149_stable";
    assert " " + alias == " chrome_149_stable";
    SpaceBeforeTrims(alias);
    AliasHasIdentity(lib);
    SpecialNames(lib);
    LookupIsStable(lib, alias);
    DirectKeyOfTrimmed(lib, alias);
    KeyShape(lib, ByName(lib, alias).value);
    EntryPathsAgree(lib, " chrome_149_stable");
    assert !EqIgnoreCase(alias, PASS_THROUGH);
    assert Key(lib, alias) == PoolKey(lib, ByName(lib, alias).value);
    assert !Trimmed(" chrome_149_stable");
  }

  // ----- The cache under concurrent callers -----

  datatype Caller =
    | Called(name: string)
    | Missed(name: string)
    | Built(name: string, client: Client)
    | Returned(name: string, client: Client)
    | Failed(name: string)

  datatype Pool = Pool(cache: map<string, Client>, callers: map<nat, Caller>, built: nat)

  /** Each step holds the cache lock, or none: the lock is free between the lookup and the insertion. */
  datatype Step =
    | Call(caller: nat, name: string)
    | Lookup(caller: nat)
    | Build(caller: nat)
    | BuildFails(caller: nat)
    | Insert(caller: nat)

  const EMPTY := Pool(map[], map[], 0)

  predicate Enabled(s: Pool, step: Step) {
    match step
    case Call(c, _) => c !in s.callers
    case Lookup(c) => c in s.callers && s.callers[c].Called?
    case Build(c) => c in s.callers && s.callers[c].Missed?
    case BuildFails(c) => c in s.callers && s.callers[c].Missed?
    case Insert(c) => c in s.callers && s.callers[c].Built?
  }

  function Apply(lib: Library, s: Pool, step: Step): Pool
    requires Enabled(s, step)
  {
    match step
    case Call(c, name) => s.(callers := s.callers[c := Called(name)])
    case Lookup(c) =>
      var name := s.callers[c].name;
      var key := Key(lib, name);
      s.(callers := s.callers[c := if key in s.cache then Returned(name, s.cache[key]) else Missed(name)])
    case Build(c) =>
      var name := s.callers[c].name;
      s.(callers := s.callers[c := Built(name, Client(s.built, BuildEmulation(lib, CanonicalName(lib, name))))],
        built := s.built + 1)
    case BuildFails(c) => s.(callers := s.callers[c := Failed(s.callers[c].name)])
    case Insert(c) =>
      var name, client := s.callers[c].name, s.callers[c].client;
      var key := Key(lib, name);
      if key in s.cache then s.(callers := s.callers[c := Returned(name, s.cache[key])])
      else s.(cache := s.cache[key := client], callers := s.callers[c := Returned(name, client)])
  }

  /** Every cached client has the emulation requested by some name of its pool. */
  ghost predicate Faithful(lib: Library, cache: map<string, Client>) {
    forall key :: key in cache ==>
      exists name :: key == Key(lib, name) && cache[key].emulation == RequestedEmulation(lib, name)
  }

  /** Clients on their way into the cache are faithful too, and every caller served has the cached one. */
  ghost predicate Inv(lib: Library, s: Pool) {
    && Faithful(lib, s.cache)
    && (forall c :: c in s.callers && s.callers[c].Built? ==>
          s.callers[c].client.emulation == RequestedEmulation(lib, s.callers[c].name))
    && (forall c :: c in s.callers && s.callers[c].Returned? ==>
          Key(lib, s.callers[c].name) in s.cache && s.cache[Key(lib, s.callers[c].name)] == s.callers[c].client)
  }

  lemma FaithfulUpdate(lib: Library, cache: map<string, Client>, name: string, client: Client)
    requires Faithful(lib, cache) && client.emulation == RequestedEmulation(lib, name)
    ensures Faithful(lib, cache[Key(lib, name) := client])
  {
    var next := cache[Key(lib, name) := client];
    forall key | key in next
      ensures exists n :: key == Key(lib, n) && next[key].emulation == RequestedEmulation(lib, n)
    {
      if key == Key(lib, name) {
        assert key == Key(lib, name) && next[key].emulation == RequestedEmulation(lib, name);
      } else {
        var n :| key == Key(lib, n) && cache[key].emulation == RequestedEmulation(lib, n);
        assert key == Key(lib, n) && next[key].emulation == RequestedEmulation(lib, n);
      }
    }
  }

  lemma FaithfulUnion(lib: Library, a: map<string, Client>, b: map<string, Client>)
    requires Faithful(lib, a) && Faithful(lib, b)
    ensures Faithful(lib, a + b)
  {
    forall key | key in a + b
      ensures exists name :: key == Key(lib, name) && (a + b)[key].emulation == RequestedEmulation(lib, name)
    {
      var source := if key in b then b else a;
      var name :| key == Key(lib, name) && source[key].emulation == RequestedEmulation(lib, name);
      assert key == Key(lib, name) && (a + b)[key].emulation == RequestedEmulation(lib, name);
    }
  }

  /** Whatever a faithful cache holds for a name is what the name requests. */
  lemma FaithfulEntry(lib: Library, cache: map<string, Client>, name: string)
    requires WellNamed(lib) && Faithful(lib, cache) && Key(lib, name) in cache
    ensures cache[Key(lib, name)].emulation == RequestedEmulation(lib, name)
  {
    var other :| Key(lib, name) == Key(lib, other) && cache[Key(lib, name)].emulation == RequestedEmulation(lib, other);
    KeyDeterminesEmulation(lib, name, other);
  }

  lemma InsertStep(lib: Library, s: Pool, c: nat)
    requires Inv(lib, s) && Enabled(s, Insert(c))
    ensures Inv(lib, Apply(lib, s, Insert(c)))
  {
    FaithfulUpdate(lib, s.cache, s.callers[c].name, s.callers[c].client);
  }

  lemma InvStep(lib: Library, s: Pool, step: Step)
    requires WellNamed(lib) && Inv(lib, s) && Enabled(s, step)
    ensures Inv(lib, Apply(lib, s, step))
  {
    match step
    case Build(c) => BuildIsFaithful(lib, s.callers[c].name);
    case Insert(c) => InsertStep(lib, s, c);
    case _ => assert Apply(lib, s, step).cache == s.cache;
  }

  predicate Runs(lib: Library, s: Pool, steps: seq<Step>)
    decreases |steps|
  {
    steps == [] || (Enabled(s, steps[0]) && Runs(lib, Apply(lib, s, steps[0]), steps[1..]))
  }

  function Final(lib: Library, s: Pool, steps: seq<Step>): Pool
    requires Runs(lib, s, steps)
    decreases |steps|
  {
    if steps == [] then s else Final(lib, Apply(lib, s, steps[0]), steps[1..])
  }

  lemma {:induction false} InvOverRun(lib: Library, s: Pool, steps: seq<Step>)
    requires WellNamed(lib) && Inv(lib, s) && Runs(lib, s, steps)
    ensures Inv(lib, Final(lib, s, steps))
    decreases |steps|
  {
    if steps != [] {
      InvStep(lib, s, steps[0]);
      InvOverRun(lib, Apply(lib, s, steps[0]), steps[1..]);
    }
  }

  /** All callers served from one pool hold the same client, however their lookups, builds and insertions interleave. */
  lemma CallersAgree(lib: Library, steps: seq<Step>, c: nat, d: nat)
    requires WellNamed(lib) && Runs(lib, EMPTY, steps)
    requires var s := Final(lib, EMPTY, steps);
      c in s.callers && d in s.callers && s.callers[c].Returned? && s.callers[d].Returned?
    ensures var s := Final(lib, EMPTY, steps);
      Key(lib, s.callers[c].name) == Key(lib, s.callers[d].name) ==> s.callers[c].client == s.callers[d].client
  {
    InvOverRun(lib, EMPTY, steps);
  }

  /** The cache cannot be told from building afresh: the client returned has the emulation requested, pooled or not. */
  lemma CacheIsTransparent(lib: Library, steps: seq<Step>, c: nat)
    requires WellNamed(lib) && Runs(lib, EMPTY, steps)
    requires c in Final(lib, EMPTY, steps).callers && Final(lib, EMPTY, steps).callers[c].Returned?
    ensures var caller := Final(lib, EMPTY, steps).callers[c];
      && caller.client.emulation == RequestedEmulation(lib, caller.name)
      && caller.client.emulation == BuildEmulation(lib, CanonicalName(lib, caller.name))
  {
    InvOverRun(lib, EMPTY, steps);
    var s := Final(lib, EMPTY, steps);
    FaithfulEntry(lib, s.cache, s.callers[c].name);
    BuildIsFaithful(lib, s.callers[c].name);
  }

  /** Clients are told apart: no two of those cached or on their way into the cache are the same. */
  ghost predicate Distinct(s: Pool) {
    && (forall key :: key in s.cache ==> s.cache[key].id < s.built)
    && (forall c :: c in s.callers && s.callers[c].Built? ==> s.callers[c].client.id < s.built)
    && (forall j, k :: j in s.cache && k in s.cache && j != k ==> s.cache[j].id != s.cache[k].id)
    && (forall c, k :: c in s.callers && s.callers[c].Built? && k in s.cache ==>
         s.callers[c].client.id != s.cache[k].id)
    && (forall c, d :: c in s.callers && d in s.callers && c != d && s.callers[c].Built? && s.callers[d].Built? ==>
          s.callers[c].client.id != s.callers[d].client.id)
  }

  lemma DistinctBuild(lib: Library, s: Pool, c: nat)
    requires Distinct(s) && Enabled(s, Build(c))
    ensures Distinct(Apply(lib, s, Build(c)))
  {
  }

  /** No client appears. */
  lemma DistinctOther(s: Pool, t: Pool)
    requires Distinct(s) && t.cache == s.cache && t.built == s.built
    requires forall c :: c in t.callers && t.callers[c].Built? ==> c in s.callers && s.callers[c] == t.callers[c]
    ensures Distinct(t)
  {
  }

  /** A client moves from a caller into the cache. */
  lemma DistinctMove(s: Pool, t: Pool, c: nat, key: string)
    requires Distinct(s) && c in s.callers && s.callers[c].Built? && key !in s.cache
    requires t.cache == s.cache[key := s.callers[c].client] && t.built == s.built
    requires forall d :: d in t.callers && t.callers[d].Built? ==>
      d != c && d in s.callers && s.callers[d] == t.callers[d]
    ensures Distinct(t)
  {
  }

  lemma DistinctInsert(lib: Library, s: Pool, c: nat)
    requires Distinct(s) && Enabled(s, Insert(c))
    ensures Distinct(Apply(lib, s, Insert(c)))
  {
    var key, t := Key(lib, s.callers[c].name), Apply(lib, s, Insert(c));
    if key in s.cache {
      DistinctOther(s, t);
    } else {
      DistinctMove(s, t, c, key);
    }
  }

  lemma DistinctStep(lib: Library, s: Pool, step: Step)
    requires Distinct(s) && Enabled(s, step)
    ensures Distinct(Apply(lib, s, step))
  {
    match step
    case Build(c) => DistinctBuild(lib, s, c);
    case Insert(c) => DistinctInsert(lib, s, c);
    case _ => DistinctOther(s, Apply(lib, s, step));
  }

  lemma {:induction false} DistinctOverRun(lib: Library, s: Pool, steps: seq<Step>)
    requires Distinct(s) && Runs(lib, s, steps)
    ensures Distinct(Final(lib, s, steps))
    decreases |steps|
  {
    if steps != [] {
      DistinctStep(lib, s, steps[0]);
      DistinctOverRun(lib, Apply(lib, s, steps[0]), steps[1..]);
    }
  }

  /** Different pools never share a client, even if they request the same emulation. */
  lemma PoolsAreSeparate(lib: Library, steps: seq<Step>, j: string, k: string)
    requires Runs(lib, EMPTY, steps) && j != k && j in Final(lib, EMPTY, steps).cache &&
      k in Final(lib, EMPTY, steps).cache
    ensures Final(lib, EMPTY, steps).cache[j] != Final(lib, EMPTY, steps).cache[k]
  {
    DistinctOverRun(lib, EMPTY, steps);
  }

  /** An entry, once present, stays as it is; only an insertion adds one, and a failed build adds none. */
  lemma {:induction false} EntriesArePermanent(lib: Library, s: Pool, steps: seq<Step>)
    requires Runs(lib, s, steps)
    ensures var t := Final(lib, s, steps);
      && (forall key :: key in s.cache ==> key in t.cache && t.cache[key] == s.cache[key])
      && ((forall step :: step in steps ==> !step.Insert?) ==> t.cache == s.cache)
    decreases |steps|
  {
    if steps != [] {
      assert steps[0] in steps && forall step :: step in steps[1..] ==> step in steps;
      EntriesArePermanent(lib, Apply(lib, s, steps[0]), steps[1..]);
    }
  }

  /** A caller that arrives when its pool has a client gets that client and never builds, whatever the others do. */
  lemma {:induction false} CachedIsReused(lib: Library, s: Pool, steps: seq<Step>, c: nat)
    requires Runs(lib, s, steps) && c in s.callers && Key(lib, s.callers[c].name) in s.cache
    requires var client := s.cache[Key(lib, s.callers[c].name)];
      s.callers[c].Called? || s.callers[c] == Returned(s.callers[c].name, client)
    ensures var t, name := Final(lib, s, steps), s.callers[c].name;
      c in t.callers && (t.callers[c] == Called(name) || t.callers[c] == Returned(name, s.cache[Key(lib, name)]))
    ensures (exists i :: 0 <= i < |steps| && steps[i] == Lookup(c)) ==> Final(lib, s, steps).callers[c].Returned?
    decreases |steps|
  {
    if steps != [] {
      assert forall i :: 0 <= i < |steps[1..]| ==> steps[1..][i] == steps[i + 1];
      if i :| 0 < i < |steps| && steps[i] == Lookup(c) {
        assert steps[1..][i - 1] == Lookup(c);
      }
      CachedIsReused(lib, Apply(lib, s, steps[0]), steps[1..], c);
      if steps[0] == Lookup(c) {
        ReturnedIsFinal(lib, Apply(lib, s, steps[0]), steps[1..], c);
      }
    }
  }

  lemma {:induction false} ReturnedIsFinal(lib: Library, s: Pool, steps: seq<Step>, c: nat)
    requires Runs(lib, s, steps) && c in s.callers && s.callers[c].Returned?
    ensures c in Final(lib, s, steps).callers && Final(lib, s, steps).callers[c] == s.callers[c]
    decreases |steps|
  {
    if steps != [] {
      ReturnedIsFinal(lib, Apply(lib, s, steps[0]), steps[1..], c);
    }
  }

  // ----- One call, as the program runs it -----

  class ClientCache {
    var entries: map<string, Client>
    var built: nat

    constructor ()
      ensures entries == map[] && built == 0
    {
      entries, built := map[], 0;
    }

    /** `entry(key).or_insert(client)`. */
    method InsertOrKeep(key: string, client: Client) returns (kept: Client)
      modifies this`entries
      ensures key in entries && entries[key] == kept
      ensures entries == if key in old(entries) then old(entries) else old(entries)[key := client]
    {
      if key !in entries {
        entries := entries[key := client];
      }
      kept := entries[key];
    }

    /**
     Look the key up, release the lock, build, take the lock again and insert unless somebody was faster.
     `others` is what other callers inserted while the lock was free; `builds` is whether the build succeeds.
     */
    method GetClient(lib: Library, name: string, others: map<string, Client>, builds: bool)
          returns (r: Result<Client, string>)
      requires WellNamed(lib)
      modifies this
      ensures forall key :: key in old(entries) ==> key in entries && entries[key] == old(entries)[key]
      ensures var key := Key(lib, name);
        if key in old(entries) then r == Ok(old(entries)[key]) && entries == old(entries)
        else if !builds then r == Err(name) && entries == others + old(entries)
        else if key in others then r == Ok(others[key]) && entries == others + old(entries)
        else
          && r == Ok(Client(old(built), RequestedEmulation(lib, name)))
          && entries == (others + old(entries))[key := r.value]
      ensures built == old(built) + if Key(lib, name) in old(entries) || !builds then 0 else 1
      ensures Faithful(lib, old(entries)) && Faithful(lib, others) ==>
        Faithful(lib, entries) && (r.Ok? ==> r.value.emulation == RequestedEmulation(lib, name))
    {
      if Faithful(lib, entries) && Faithful(lib, others) {
        FaithfulUnion(lib, others, entries);
        FaithfulUpdate(lib, others + entries, name, Client(built, RequestedEmulation(lib, name)));
        if Key(lib, name) in entries { FaithfulEntry(lib, entries, name); }
        if Key(lib, name) in others { FaithfulEntry(lib, others, name); }
      }
      var key := Key(lib, name);
      if key in entries {
        return Ok(entries[key]);
      }
      BuildIsFaithful(lib, name);
      entries := others + entries;
      if !builds {
        return Err(name);
      }
      var client := Client(built, BuildEmulation(lib, CanonicalName(lib, name)));
      built := built + 1;
      var kept := InsertOrKeep(key, client);
      r := Ok(kept);
    }
  }
}
