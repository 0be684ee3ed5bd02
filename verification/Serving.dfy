/** internal/a2a/serving.go with the path resolution of internal/mcp-router/a2a.go: which paths the
    gateway serves cards on, which it advertises, and which agent a path leads to. */
module Serving {

  import opened Text
  import opened Config
  import opened CardCache
  import V = Validation

  predicate WellFormed(name: string) {
    name != "" && '/' !in name
  }

  datatype Name = Name(namespace: string, prefix: string)

  function CardPath(n: Name): string {
    V.A2A + Key(n.namespace, n.prefix) + WELL_KNOWN
  }

  /** What lies between a prefix and a suffix of s. */
  function Between(s: string, head: string, tail: string): Option<string> {
    if head <= s && HasSuffix(s[|head|..], tail) then Some(s[|head|..|s| - |tail|]) else None
  }

  lemma BetweenIs(s: string, head: string, tail: string, mid: string)
    ensures Between(s, head, tail) == Some(mid) <==> s == head + mid + tail
  {
    if s == head + mid + tail {
      assert s[|head|..] == mid + tail;
    } else if head <= s && HasSuffix(s[|head|..], tail) {
      assert s == head + s[|head|..|s| - |tail|] + tail;
    }
  }

  function ParseKey(key: string): Option<Name> {
    var c := Cut(key, '/');
    if !c.found || c.before == "" || c.after == "" || '/' in c.after then None else Some(Name(c.before, c.after))
  }

  lemma ParseKeyIs(key: string, n: Name)
    ensures ParseKey(key) == Some(n) <==> key == Key(n.namespace, n.prefix) && WellFormed(n.namespace) && WellFormed(n.prefix)
  {
    assert Key(n.namespace, n.prefix) == n.namespace + ['/'] + n.prefix;
    CutJoin(n.namespace, '/', n.prefix);
  }

  function ParseCardPath(path: string): (r: Option<Name>) {
    match Between(path, V.A2A, WELL_KNOWN)
    case None => None
    case Some(key) => ParseKey(key)
  }

  /** parseCardPath accepts exactly the card paths of well-formed names, and finds the name. */
  lemma ParseCardPathIs(path: string, n: Name)
    ensures ParseCardPath(path) == Some(n) <==> path == CardPath(n) && WellFormed(n.namespace) && WellFormed(n.prefix)
  {
    BetweenIs(path, V.A2A, WELL_KNOWN, Key(n.namespace, n.prefix));
    ParseKeyIs(Key(n.namespace, n.prefix), n);
    match Between(path, V.A2A, WELL_KNOWN) {
      case None =>
      case Some(key) => ParseKeyIs(key, n);
    }
  }

  datatype Answer = NotFound | Unavailable | Card(raw: Bytes, etag: string)

  /** ServeAgentCard. */
  function ServeCard(b: Broker, path: string): Answer {
    match ParseCardPath(path)
    case None => NotFound
    case Some(n) =>
      var k := Key(n.namespace, n.prefix);
      if k !in b.agents then NotFound
      else if k in b.invalid then Unavailable
      else if k !in b.cards then Unavailable
      else Card(b.cards[k].raw, b.cards[k].etag)
  }

  /** Every answer: a card path of a well-formed name gets the cached bytes and ETag of its agent's card,
      404 when there is no such agent, and 503 when the agent's card is rejected or not there; any
      other path gets 404. */
  lemma ServeCardMeans(b: Broker, path: string, n: Name)
    ensures path == CardPath(n) && WellFormed(n.namespace) && WellFormed(n.prefix) ==>
              var k := n.namespace + "/" + n.prefix;
              ServeCard(b, path) == if k !in b.agents then NotFound
                                    else if k in b.invalid || k !in b.cards then Unavailable
                                    else Card(b.cards[k].raw, b.cards[k].etag)
    ensures (forall m: Name :: path == CardPath(m) ==> !(WellFormed(m.namespace) && WellFormed(m.prefix))) ==> ServeCard(b, path) == NotFound
  {
    ParseCardPathIs(path, n);
    if ParseCardPath(path).Some? {
      ParseCardPathIs(path, ParseCardPath(path).value);
    }
  }

  /** In every run, the bytes of every 200 were, at some moment, cached for the agent they are now
      served for, then registered, and conforming under the gateway host of that moment. */
  lemma ServedBytesWereVetted(lib: Library, host: string, ca: string, es: seq<Event>, path: string)
    requires ServeCard(Exec(lib, Initial(host, ca), es).broker, path).Card?
    ensures ParseCardPath(path).Some?
    ensures var n := ParseCardPath(path).value; var raw := ServeCard(Exec(lib, Initial(host, ca), es).broker, path).raw;
            path == CardPath(n) && Justified(lib, Initial(host, ca), es, Key(n.namespace, n.prefix), raw)
  {
    ParseCardPathIs(path, ParseCardPath(path).value);
    Provenance(lib, host, ca, es);
  }

  // ---- the catalog ----

  predicate Sorted(items: seq<string>) {
    forall i, j :: 0 <= i < j < |items| ==> Less(items[i], items[j])
  }

  predicate Servable(b: Broker, key: string) {
    key in b.agents && key !in b.invalid && key in b.cards
  }

  /** Ascending hrefs, without repetition, of exactly the agents with a servable card. */
  ghost predicate IsCatalog(b: Broker, items: seq<string>) {
    && Sorted(items)
    && (forall k :: Servable(b, k) <==> V.A2A + k in items)
    && (forall h :: h in items ==> V.A2A <= h)
  }

  /** sort.Slice by href. */
  method SortHrefs(items: seq<string>) returns (r: seq<string>)
    requires forall i, j :: 0 <= i < j < |items| ==> items[i] != items[j]
    ensures Sorted(r) && forall h :: h in r <==> h in items
  {
    r := [];
    for i := 0 to |items|
      invariant Sorted(r)
      invariant forall h :: h in r <==> h in items[..i]
    {
      var h := items[i];
      assert h !in items[..i];
      var k := 0;
      while k < |r| && Less(r[k], h)
        invariant 0 <= k <= |r|
        invariant forall j :: 0 <= j < k ==> Less(r[j], h)
      {
        k := k + 1;
      }
      InsertSorted(r, h, k);
      assert items[..i + 1] == items[..i] + [h];
      ghost var before := r;
      r := r[..k] + [h] + r[k..];
      assert before == before[..k] + before[k..];
    }
    assert items[..|items|] == items;
  }

  lemma InsertSorted(r: seq<string>, h: string, k: nat)
    requires Sorted(r) && h !in r && k <= |r|
    requires forall j :: 0 <= j < k ==> Less(r[j], h)
    requires k < |r| ==> !Less(r[k], h)
    ensures Sorted(r[..k] + [h] + r[k..])
  {
    forall j | k <= j < |r|
      ensures Less(h, r[j])
    {
      LessTotal(h, r[k]);
      assert r[k] in r;
      if k < j {
        LessTransitive(h, r[k], r[j]);
      }
    }
  }

  lemma HrefKey(k: string)
    ensures (V.A2A + k)[|V.A2A|..] == k
  {
  }

  method ListHrefs(b: Broker) returns (items: seq<string>)
    requires forall k :: k in b.agents ==> '/' in k
    ensures forall h :: h in items ==> V.A2A <= h && Servable(b, h[|V.A2A|..])
    ensures forall k :: Servable(b, k) ==> V.A2A + k in items
    ensures forall i, j :: 0 <= i < j < |items| ==> items[i] != items[j]
  {
    items := [];
    var keys := b.agents.Keys;
    while keys != {}
      invariant keys <= b.agents.Keys
      invariant forall h :: h in items ==> V.A2A <= h && Servable(b, h[|V.A2A|..]) && h[|V.A2A|..] !in keys
      invariant forall k :: Servable(b, k) && k !in keys ==> V.A2A + k in items
      invariant forall i, j :: 0 <= i < j < |items| ==> items[i] != items[j]
      decreases keys
    {
      var key :| key in keys;
      HrefKey(key);
      assert V.A2A + key !in items;
      keys := keys - {key};
      if key !in b.invalid {
        var c := Cut(key, '/');
        assert Key(c.before, c.after) == key;
        if Key(c.before, c.after) in b.cards {
          items := items + [V.A2A + key];
        }
      }
    }
  }

  method ServeAPICatalog(b: Broker) returns (items: seq<string>)
    requires forall k :: k in b.agents ==> '/' in k
    ensures IsCatalog(b, items)
  {
    var listed := ListHrefs(b);
    items := SortHrefs(listed);
    forall k
      ensures Servable(b, k) <==> V.A2A + k in items
    {
      HrefKey(k);
      assert V.A2A + k in items <==> V.A2A + k in listed;
    }
  }

  /** The catalog never advertises a card that a GET would not find, and misses none: a path answers
      200 iff it is the card path of a well-formed name whose href the catalog lists. */
  lemma CatalogIsExactlyWhatIsServed(b: Broker, items: seq<string>, path: string)
    requires IsCatalog(b, items)
    ensures ServeCard(b, path).Card? <==>
              exists n: Name :: path == CardPath(n) && WellFormed(n.namespace) && WellFormed(n.prefix)
                                && V.A2A + Key(n.namespace, n.prefix) in items
  {
    if ServeCard(b, path).Card? {
      var n := ParseCardPath(path).value;
      ParseCardPathIs(path, n);
      assert Servable(b, Key(n.namespace, n.prefix));
    }
    if n: Name :| path == CardPath(n) && WellFormed(n.namespace) && WellFormed(n.prefix)
                  && V.A2A + Key(n.namespace, n.prefix) in items {
      ParseCardPathIs(path, n);
      assert Servable(b, Key(n.namespace, n.prefix));
    }
  }

  /** A name that is not well formed is where the two part: it can be listed but is never served. */
  lemma IllFormedIsNeverServed(b: Broker, n: Name)
    requires !(WellFormed(n.namespace) && WellFormed(n.prefix))
    ensures !ServeCard(b, CardPath(n)).Card?
  {
    var key := Key(n.namespace, n.prefix);
    BetweenIs(CardPath(n), V.A2A, WELL_KNOWN, key);
    if ParseKey(key).Some? {
      var m := ParseKey(key).value;
      ParseKeyIs(key, m);
      SameKeySameName(m, n);
    }
  }

  /** A listed name is served exactly when it is well formed. */
  lemma ListedIsServedIff(b: Broker, items: seq<string>, n: Name)
    requires IsCatalog(b, items) && V.A2A + Key(n.namespace, n.prefix) in items
    ensures ServeCard(b, CardPath(n)).Card? <==> WellFormed(n.namespace) && WellFormed(n.prefix)
  {
    if WellFormed(n.namespace) && WellFormed(n.prefix) {
      CatalogIsExactlyWhatIsServed(b, items, CardPath(n));
    } else {
      IllFormedIsNeverServed(b, n);
    }
  }

  /** Some run of the broker reaches a state whose catalog lists the key. */
  ghost predicate Listable(lib: Library, key: string) {
    exists host, ca, es :: Servable(Exec(lib, Initial(host, ca), es).broker, key)
  }

  /** Some card within the size limit conforms for the key under some host. */
  ghost predicate HasCard(lib: Library, key: string) {
    exists host, body :: |body| <= MAX_CARD_BYTES && V.Conforms(lib.codec, body, host, V.A2A + key)
  }

  /** Which names a catalog can come to list, well formed or not: those for which a conforming card
      exists. */
  lemma ListableIff(lib: Library, n: Name)
    ensures Listable(lib, Key(n.namespace, n.prefix)) <==> HasCard(lib, Key(n.namespace, n.prefix))
  {
    var key := Key(n.namespace, n.prefix);
    if host, ca, es :| Servable(Exec(lib, Initial(host, ca), es).broker, key) {
      var b := Exec(lib, Initial(host, ca), es).broker;
      Provenance(lib, host, ca, es);
      assert Justified(lib, Initial(host, ca), es, key, b.cards[key].raw);
      var i :| 0 <= i <= |es| && Vetted(lib, Exec(lib, Initial(host, ca), es[..i]).broker, key, b.cards[key].raw);
      CardsFit(lib, host, ca, es);
    }
    if host, body :| |body| <= MAX_CARD_BYTES && V.Conforms(lib.codec, body, host, V.A2A + key) {
      GetsListed(lib, n, host, body);
    }
  }

  /** A key that ends in a slash, as with an empty prefix, is never one: the card's paths are compared
      without trailing slashes. */
  lemma NoCardForTrailingSlash(lib: Library, key: string)
    requires key != "" && key[|key| - 1] == '/'
    ensures !HasCard(lib, key)
  {
    if host, body :| |body| <= MAX_CARD_BYTES && V.Conforms(lib.codec, body, host, V.A2A + key) {
      ConformingPathEnds(lib.codec, body, host, V.A2A + key);
    }
  }

  lemma ConformingPathEnds(codec: V.Codec, body: Bytes, host: string, path: string)
    requires V.Conforms(codec, body, host, path)
    ensures path == "" || path[|path| - 1] != '/'
  {
    var i := V.Interfaces(codec.parseCard(body).value)[0];
    assert i in V.Interfaces(codec.parseCard(body).value);
    assert V.TrimRight(codec.parseURL(i.url).value.path, '/') == path;
  }

  lemma ExecFour(lib: Library, s: System, a: CardCache.Event, b: CardCache.Event, c: CardCache.Event, d: CardCache.Event)
    ensures Exec(lib, s, [a, b, c, d]) == Apply(lib, Apply(lib, Apply(lib, Apply(lib, s, a), b), c), d)
  {
    var es := [a, b, c, d];
    assert es[..4] == es && es[..0] == [];
    ExecTo(lib, s, es, 1);
    ExecTo(lib, s, es, 2);
    ExecTo(lib, s, es, 3);
    ExecTo(lib, s, es, 4);
  }

  /** Register an agent in an empty broker, fetch, and get a conforming card. */
  lemma FirstFetchIsListed(lib: Library, a: A2AAgent, f: Fetch, body: Bytes)
    requires Enabled(a) && PathKey(a) == KeyOf(f) && f.agent == a && f.gwCA == "" && f.prev == Read(None)
    requires |body| <= MAX_CARD_BYTES && V.Conforms(lib.codec, body, f.host, V.A2A + KeyOf(f))
    ensures var s1 := Apply(lib, Initial(f.host, ""), Swap(0, [a]));
            var s2 := Apply(lib, s1, Begin(0, f.namespace, f.prefix, a));
            var s3 := Apply(lib, s2, ReadPrev(0));
            Servable(Apply(lib, s3, Complete(0, OK(body, "", ""), 0)).broker, KeyOf(f))
  {
    var s1 := Apply(lib, Initial(f.host, ""), Swap(0, [a]));
    assert [a][..0] == [];
    assert Index([a]) == map[KeyOf(f) := a];
    assert s1.broker == Broker(map[KeyOf(f) := a], map[], map[], f.host, "") && s1.fetches == map[];
    var s2 := Apply(lib, s1, Begin(0, f.namespace, f.prefix, a));
    var s3 := Apply(lib, s2, ReadPrev(0));
    assert s3.broker == s1.broker && s3.fetches[0] == f;
    CommitMeans(lib, s3.broker, f, None, OK(body, "", ""), 0);
  }

  lemma GetsListed(lib: Library, n: Name, host: string, body: Bytes)
    requires |body| <= MAX_CARD_BYTES && V.Conforms(lib.codec, body, host, V.A2A + Key(n.namespace, n.prefix))
    ensures Listable(lib, Key(n.namespace, n.prefix))
  {
    var key := Key(n.namespace, n.prefix);
    var c := Cut(key, '/');
    assert c.found by {
      assert key[|n.namespace|] == '/';
    }
    assert Key(c.before, c.after) == key;
    var f0 := Fetch(c.before, c.after, A2AAgent("", "", "", "", None, "", "", "", ""), "", host, Read(None));
    var f := f0.(agent := Stand(f0));
    FirstFetchLists(lib, f, body);
  }

  lemma FirstFetchLists(lib: Library, f: Fetch, body: Bytes)
    requires Enabled(f.agent) && PathKey(f.agent) == KeyOf(f) && f.gwCA == "" && f.prev == Read(None)
    requires |body| <= MAX_CARD_BYTES && V.Conforms(lib.codec, body, f.host, V.A2A + KeyOf(f))
    ensures Listable(lib, KeyOf(f))
  {
    FirstFetchIsListed(lib, f.agent, f, body);
    ExecFour(lib, Initial(f.host, ""), Swap(0, [f.agent]), Begin(0, f.namespace, f.prefix, f.agent), ReadPrev(0), Complete(0, OK(body, "", ""), 0));
  }

  /** The key of a well-formed name has one slash, so no other name shares it. */
  lemma SameKeySameName(m: Name, n: Name)
    requires WellFormed(m.namespace) && WellFormed(m.prefix) && Key(m.namespace, m.prefix) == Key(n.namespace, n.prefix)
    ensures m == n
  {
    var key := Key(m.namespace, m.prefix);
    assert forall k :: 0 <= k < |key| && key[k] == '/' ==> k == |m.namespace|;
    assert key[|n.namespace|] == '/';
    assert m.namespace == key[..|m.namespace|] && n.namespace == key[..|n.namespace|];
    assert m.prefix == key[|m.namespace| + 1..] && n.prefix == key[|n.namespace| + 1..];
  }

  // ---- path resolution in the router ----

  function Split(s: string, c: char): (r: seq<string>)
    ensures r != []
    decreases |s|
  {
    var cut := Cut(s, c);
    if cut.found then [cut.before] + Split(cut.after, c) else [s]
  }

  function TrimLeft(s: string, c: char): string {
    if s != "" && s[0] == c then TrimLeft(s[1..], c) else s
  }

  function ResolvePath(path: string): Option<Name> {
    ResolveRest(CutPrefix(path, V.A2A))
  }

  /** What follows /a2a/, without a query, split at slashes. */
  function ResolveRest(rest: string): Option<Name> {
    var rest' := rest[..IndexOf(rest, '?')];
    var segments := Split(V.TrimRight(TrimLeft(rest', '/'), '/'), '/');
    if |segments| < 2 || segments[0] == "" || segments[1] == "" then None
    else Some(Name(segments[0], segments[1]))
  }

  predicate Slashes(s: string, k: int) {
    0 <= k <= |s| && forall i :: 0 <= i < k ==> s[i] == '/'
  }

  /** s is the name's key, up to the end or a further slash. */
  predicate Starts(s: string, n: Name) {
    var key := Key(n.namespace, n.prefix);
    key <= s && (|key| == |s| || s[|key|] == '/')
  }

  /** The parts of a path in the router's eyes: after any number of slashes the namespace, one slash, the
      prefix, and then the end, a further slash or a query. */
  ghost predicate Leads(rest: string, k: int, n: Name) {
    var key := n.namespace + "/" + n.prefix;
    && WellFormed(n.namespace) && WellFormed(n.prefix) && '?' !in n.namespace && '?' !in n.prefix
    && Slashes(rest, k) && key <= rest[k..] && (|key| == |rest| - k || rest[k + |key|] in {'/', '?'})
  }

  /** resolveA2APath finds a name exactly where a path leads to it: more segments and a query do not
      matter, an empty segment or a missing one does. */
  lemma ResolveRestIff(rest: string, n: Name)
    ensures ResolveRest(rest) == Some(n) <==> exists k :: Leads(rest, k, n)
  {
    var q := IndexOf(rest, '?');
    var cut := rest[..q];
    var left := TrimLeft(cut, '/');
    var t := V.TrimRight(left, '/');
    SegmentsMean(t, n);
    if WellFormed(n.namespace) && WellFormed(n.prefix) {
      TrimRightKeeps(left, t, n);
      TrimLeftMeans(cut, '/');
      TrimLeftKeeps(cut, left, n);
      forall k
        ensures Leads(rest, k, n) <==> Slashes(cut, k) && Starts(cut[k..], n)
      {
        QueryKeeps(rest, q, k, n);
      }
    }
  }

  lemma {:induction false} TrimLeftMeans(s: string, c: char)
    ensures var t := TrimLeft(s, c);
            && |t| <= |s| && t == s[|s| - |t|..] && (t == "" || t[0] != c)
            && forall i :: 0 <= i < |s| - |t| ==> s[i] == c
  {
    if s != "" && s[0] == c {
      TrimLeftMeans(s[1..], c);
      var t := TrimLeft(s[1..], c);
      assert forall i :: 1 <= i < |s| - |t| ==> s[i] == s[1..][i - 1];
    }
  }

  predicate HaveName(segments: seq<string>, n: Name) {
    |segments| >= 2 && segments[0] == n.namespace != "" && segments[1] == n.prefix != ""
  }

  /** The first two segments are a well-formed name exactly where the text starts with its key. */
  lemma SegmentsMean(t: string, n: Name)
    ensures HaveName(Split(t, '/'), n) <==> WellFormed(n.namespace) && WellFormed(n.prefix) && Starts(t, n)
  {
    var c := Cut(t, '/');
    var d := Cut(c.after, '/');
    if WellFormed(n.namespace) && WellFormed(n.prefix) && Starts(t, n) {
      KeyIsCut(t, n);
    } else if c.found && c.before == n.namespace && d.before == n.prefix && c.before != "" && d.before != "" {
      CutIsKey(t, n);
    }
  }

  lemma KeyIsCut(t: string, n: Name)
    requires WellFormed(n.namespace) && WellFormed(n.prefix) && Starts(t, n)
    ensures var c := Cut(t, '/'); c.found && c.before == n.namespace && Cut(c.after, '/').before == n.prefix
  {
    var key := Key(n.namespace, n.prefix);
    var more := t[|n.namespace| + 1..];
    assert t[..|key|] == key;
    assert t == n.namespace + ['/'] + more;
    CutJoin(n.namespace, '/', more);
    var end := more[|n.prefix|..];
    assert more == n.prefix + end;
    assert end != "" ==> end[0] == t[|key|];
    CutBefore(n.prefix, end);
  }

  lemma CutBefore(p: string, end: string)
    requires '/' !in p && (end == "" || end[0] == '/')
    ensures Cut(p + end, '/').before == p
  {
    if end == "" {
      assert p + end == p;
    } else {
      assert p + end == p + ['/'] + end[1..];
      CutJoin(p, '/', end[1..]);
    }
  }

  lemma CutIsKey(t: string, n: Name)
    requires var c := Cut(t, '/'); c.found && c.before == n.namespace && Cut(c.after, '/').before == n.prefix
    ensures Starts(t, n)
  {
    var c := Cut(t, '/');
    var d := Cut(c.after, '/');
    var key := Key(n.namespace, n.prefix);
    assert c.after == n.prefix + if d.found then ['/'] + d.after else "";
    assert t == key + c.after[|n.prefix|..];
  }

  lemma TrimRightKeeps(s: string, t: string, n: Name)
    requires t <= s && (t == "" || t[|t| - 1] != '/') && (forall i :: |t| <= i < |s| ==> s[i] == '/')
    requires WellFormed(n.namespace) && WellFormed(n.prefix)
    ensures Starts(s, n) <==> Starts(t, n)
  {
    var key := Key(n.namespace, n.prefix);
    assert key[|key| - 1] == n.prefix[|n.prefix| - 1];
    if key <= s {
      assert s[|key| - 1] == key[|key| - 1];
      assert |key| <= |t|;
      assert t[..|key|] == s[..|key|];
    }
  }

  lemma TrimLeftKeeps(s: string, t: string, n: Name)
    requires |t| <= |s| && t == s[|s| - |t|..] && (t == "" || t[0] != '/') && Slashes(s, |s| - |t|)
    requires WellFormed(n.namespace) && WellFormed(n.prefix)
    ensures (exists k :: Slashes(s, k) && Starts(s[k..], n)) <==> Starts(t, n)
  {
    var key := Key(n.namespace, n.prefix);
    assert key[0] == n.namespace[0];
    if k :| Slashes(s, k) && Starts(s[k..], n) {
      assert s[k] == key[0];
      assert k >= |s| - |t|;
      assert k <= |s| - |t|;
    }
  }

  lemma QueryKeeps(s: string, q: nat, k: int, n: Name)
    requires q <= |s| && '?' !in s[..q] && (q < |s| ==> s[q] == '?')
    requires WellFormed(n.namespace) && WellFormed(n.prefix)
    ensures Leads(s, k, n) <==> Slashes(s[..q], k) && Starts(s[..q][k..], n)
  {
    var key, cut := Key(n.namespace, n.prefix), s[..q];
    assert forall x :: x in key <==> x in n.namespace || x in n.prefix || x == '/';
    if Leads(s, k, n) {
      assert forall i :: 0 <= i < |key| ==> s[k + i] == key[i];
      assert forall i :: k <= i < k + |key| ==> s[i] == key[i - k] != '?';
      assert q >= k + |key|;
      assert cut[k..][..|key|] == s[k..][..|key|];
    }
    if Slashes(cut, k) && Starts(cut[k..], n) {
      assert s[k..][..|key|] == cut[k..][..|key|];
      assert forall i :: 0 <= i < |key| ==> key[i] == cut[k + i];
      assert '?' !in key;
    }
  }

  lemma TrimRightIs(s: string, c: char, w: string)
    requires w <= s && w != "" && w[|w| - 1] != c
    requires forall i :: |w| <= i < |s| ==> s[i] == c
    ensures V.TrimRight(s, c) == w
  {
    var r := V.TrimRight(s, c);
    assert |r| >= |w| by {
      assert s[|w| - 1] == w[|w| - 1];
    }
    assert |r| <= |w| by {
      assert r != "" ==> r[|r| - 1] == s[|r| - 1];
    }
    assert r == s[..|r|] && w == s[..|w|];
  }

  /** Any path that trims to an agent's gateway path leads to that agent's name. */
  lemma GatewayPathResolves(path: string, n: Name)
    requires WellFormed(n.namespace) && WellFormed(n.prefix) && '?' !in n.namespace && '?' !in n.prefix
    requires V.TrimRight(path, '/') == V.A2A + Key(n.namespace, n.prefix)
    ensures ResolvePath(path) == Some(n)
  {
    PathTail(path, V.A2A, Key(n.namespace, n.prefix));
    RestResolves(CutPrefix(path, V.A2A), n);
  }

  lemma PathTail(path: string, head: string, key: string)
    requires V.TrimRight(path, '/') == head + key
    ensures var rest := CutPrefix(path, head); key <= rest && forall i :: |key| <= i < |rest| ==> rest[i] == '/'
  {
    var want := head + key;
    assert want == path[..|want|];
    assert path[..|head|] == want[..|head|] == head;
    assert path[|head|..][..|key|] == want[|head|..] == key;
  }

  lemma NoQuery(s: string)
    requires '?' !in s
    ensures s[..IndexOf(s, '?')] == s
  {
  }

  lemma RestResolves(rest: string, n: Name)
    requires WellFormed(n.namespace) && WellFormed(n.prefix) && '?' !in n.namespace && '?' !in n.prefix
    requires var key := Key(n.namespace, n.prefix); key <= rest && forall i :: |key| <= i < |rest| ==> rest[i] == '/'
    ensures ResolveRest(rest) == Some(n)
  {
    var key := Key(n.namespace, n.prefix);
    assert '?' !in rest by {
      assert forall i :: 0 <= i < |key| ==> rest[i] == key[i];
      assert '?' !in key;
    }
    NoQuery(rest);
    assert rest[0] == key[0] == n.namespace[0];
    assert key[|key| - 1] == n.prefix[|n.prefix| - 1];
    TrimRightIs(rest, '/', key);
    SplitKey(n);
  }

  lemma SplitKey(n: Name)
    requires WellFormed(n.namespace) && WellFormed(n.prefix)
    ensures Split(Key(n.namespace, n.prefix), '/') == [n.namespace, n.prefix]
  {
    assert Key(n.namespace, n.prefix) == n.namespace + ['/'] + n.prefix;
    CutJoin(n.namespace, '/', n.prefix);
    SplitWhole(n.prefix, '/');
  }

  lemma SplitWhole(s: string, c: char)
    requires c !in s
    ensures Split(s, c) == [s]
  {
    assert !Cut(s, c).found;
  }

  /** The router's step from a request path to an agent. */
  function AgentAt(b: Broker, path: string): Option<A2AAgent> {
    match ResolvePath(path)
    case None => None
    case Some(n) =>
      var k := Key(n.namespace, n.prefix);
      if k in b.agents then Some(b.agents[k]) else None
  }

  lemma AgentAtGatewayPath(b: Broker, path: string, n: Name)
    requires WellFormed(n.namespace) && WellFormed(n.prefix) && '?' !in n.namespace && '?' !in n.prefix
    requires V.TrimRight(path, '/') == V.A2A + Key(n.namespace, n.prefix)
    ensures var k := Key(n.namespace, n.prefix); AgentAt(b, path) == if k in b.agents then Some(b.agents[k]) else None
  {
    GatewayPathResolves(path, n);
  }

  /** The href the catalog lists and every interface of a conforming card lead a client back, through
      the router, to the very agent they were listed or validated for. */
  lemma AdvertisedPathsLeadHome(lib: Library, b: Broker, n: Name, raw: Bytes, host: string, i: V.Interface)
    requires WellFormed(n.namespace) && WellFormed(n.prefix) && '?' !in n.namespace && '?' !in n.prefix
    requires Key(n.namespace, n.prefix) in b.agents
    requires V.Conforms(lib.codec, raw, host, V.A2A + Key(n.namespace, n.prefix))
    requires i in V.Interfaces(lib.codec.parseCard(raw).value)
    ensures var home := Some(b.agents[Key(n.namespace, n.prefix)]);
            && AgentAt(b, V.A2A + Key(n.namespace, n.prefix)) == home
            && lib.codec.parseURL(i.url).Some?
            && AgentAt(b, lib.codec.parseURL(i.url).value.path) == home
  {
    var want := V.A2A + Key(n.namespace, n.prefix);
    assert want[|want| - 1] == n.prefix[|n.prefix| - 1];
    TrimRightIs(want, '/', want);
    GatewayPathResolves(want, n);
    assert V.Fronted(lib.codec, i, want, host);
    GatewayPathResolves(lib.codec.parseURL(i.url).value.path, n);
  }
}
