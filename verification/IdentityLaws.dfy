/** What every registered identity keeps over any sequence of reconfigurations and setups. */
module IdentityLaws {
  import opened Wrappers
  import opened Identity

  // Which prefixes can be told apart

  /** Neither begins the other, or they are the same. */
  predicate Apart(p: string, q: string) {
    q == p || (!(q <= p) && !(p <= q))
  }

  lemma PrefixesComparable(p: string, q: string, s: string)
    requires p <= s && q <= s
    ensures p <= q || q <= p
  {
  }

  /** A renaming that can only take one prefix swaps it for the new one and keeps the rest. */
  lemma RenamedOnly(p: string, suffix: string, former: set<string>, newPrefix: string, r: string)
    requires p in former && forall q :: q in former ==> Apart(p, q)
    requires Renamed(p + suffix, former, newPrefix, r)
    ensures r == newPrefix + suffix
  {
    var id := p + suffix;
    assert p <= id && id[|p|..] == suffix;
    assert Matched(id, former);
    var q :| q in former && q <= id && r == newPrefix + id[|q|..];
    PrefixesComparable(p, q, id);
    assert Apart(p, q);
  }

  lemma NotRenamed(p: string, suffix: string, former: set<string>, newPrefix: string, r: string)
    requires p !in former && forall q :: q in former ==> Apart(p, q)
    requires Renamed(p + suffix, former, newPrefix, r)
    ensures r == p + suffix
  {
    var id := p + suffix;
    if Matched(id, former) {
      var q :| q in former && q <= id;
      PrefixesComparable(p, q, id);
      assert false;
    }
  }

  /** What a prefix's ids become: with the current prefix among the former ones left out of the set, they stay. */
  lemma Swapped(p: string, suffix: string, former: set<string>, newPrefix: string, r: string)
    requires (p in former || p == newPrefix) && newPrefix !in former && forall q :: q in former ==> Apart(p, q)
    requires Renamed(p + suffix, former, newPrefix, r)
    ensures r == newPrefix + suffix
  {
    if p in former {
      RenamedOnly(p, suffix, former, newPrefix, r);
    } else {
      NotRenamed(p, suffix, former, newPrefix, r);
    }
  }

  // A registry under one prefix

  function Tagged(prefix: string, tags: set<string>): set<Identifier> {
    set t | t in tags :: (DOMAIN, prefix + t)
  }

  predicate Foreign(others: set<Identifier>) {
    forall x :: x in others ==> x.0 != DOMAIN
  }

  /** What is registered apart from the prefix: the entities' suffixes, and each device's own and foreign identifiers. */
  datatype Content = Content(suffixes: seq<string>, tags: seq<set<string>>, others: seq<set<Identifier>>)

  /** Everything registered carries the prefix before its suffix. */
  predicate Carries(r: Registry, prefix: string, c: Content) {
    && prefix != "" && |r.entities| == |c.suffixes| && |r.devices| == |c.tags| == |c.others|
    && (forall i :: 0 <= i < |r.entities| ==> r.entities[i] == prefix + c.suffixes[i])
    && (forall i :: 0 <= i < |r.devices| ==> r.devices[i] == Tagged(prefix, c.tags[i]) + c.others[i] && Foreign(c.others[i]))
  }

  predicate UnderSome(id: string, prefixes: set<string>, suffix: string) {
    exists p :: p in prefixes && id == p + suffix
  }

  predicate HasTag(d: set<Identifier>, prefixes: set<string>, tag: string) {
    exists p :: p in prefixes && (DOMAIN, p + tag) in d
  }

  predicate OwnTag(x: Identifier, prefixes: set<string>, tags: set<string>) {
    x.0 == DOMAIN && exists t :: t in tags && UnderSome(x.1, prefixes, t)
  }

  predicate DeviceUnder(d: set<Identifier>, prefixes: set<string>, tags: set<string>, others: set<Identifier>) {
    && Foreign(others) && others <= d
    && (forall t :: t in tags ==> HasTag(d, prefixes, t))
    && (forall x :: x in d ==> x in others || OwnTag(x, prefixes, tags))
  }

  /** Everything registered carries one of the prefixes before its suffix, each identity its own. */
  predicate CarriesSome(r: Registry, prefixes: set<string>, c: Content) {
    && "" !in prefixes && |r.entities| == |c.suffixes| && |r.devices| == |c.tags| == |c.others|
    && (forall i :: 0 <= i < |r.entities| ==> UnderSome(r.entities[i], prefixes, c.suffixes[i]))
    && (forall i :: 0 <= i < |r.devices| ==> DeviceUnder(r.devices[i], prefixes, c.tags[i], c.others[i]))
  }

  lemma CarriesOne(r: Registry, p: string, c: Content)
    requires Carries(r, p, c)
    ensures CarriesSome(r, {p}, c)
  {
    forall i | 0 <= i < |r.entities|
      ensures UnderSome(r.entities[i], {p}, c.suffixes[i])
    {
      assert p in {p};
    }
    forall i | 0 <= i < |r.devices|
      ensures DeviceUnder(r.devices[i], {p}, c.tags[i], c.others[i])
    {
      TaggedUnder(p, c.tags[i], c.others[i]);
    }
  }

  lemma TaggedUnder(p: string, tags: set<string>, others: set<Identifier>)
    requires Foreign(others)
    ensures DeviceUnder(Tagged(p, tags) + others, {p}, tags, others)
  {
    var d := Tagged(p, tags) + others;
    forall t | t in tags
      ensures HasTag(d, {p}, t)
    {
      assert p in {p} && (DOMAIN, p + t) in d;
    }
    forall x | x in d && x !in others
      ensures OwnTag(x, {p}, tags)
    {
      var t :| t in tags && x == (DOMAIN, p + t);
      assert p in {p} && UnderSome(x.1, {p}, t);
    }
  }

  /** Each of the prefixes is a former or the current one, and none can be taken for another. */
  predicate ToldApart(prefixes: set<string>, former: set<string>, newPrefix: string) {
    newPrefix !in former
    && forall p :: p in prefixes ==> (p in former || p == newPrefix) && forall q :: q in former ==> Apart(p, q)
  }

  lemma SwappedFrom(id: string, prefixes: set<string>, suffix: string, former: set<string>, newPrefix: string, r: string)
    requires ToldApart(prefixes, former, newPrefix) && UnderSome(id, prefixes, suffix) && Renamed(id, former, newPrefix, r)
    ensures r == newPrefix + suffix
  {
    var p :| p in prefixes && id == p + suffix;
    Swapped(p, suffix, former, newPrefix, r);
  }

  lemma DeviceSwapped(
    d: set<Identifier>, prefixes: set<string>, tags: set<string>, others: set<Identifier>, former: set<string>,
    newPrefix: string, after: set<Identifier>)
    requires ToldApart(prefixes, former, newPrefix) && DeviceUnder(d, prefixes, tags, others)
    requires RenamedAll(d, former, newPrefix, after)
    ensures after == Tagged(newPrefix, tags) + others
  {
    var rel := Renaming(former, newPrefix);
    forall y | y in after
      ensures y in Tagged(newPrefix, tags) + others
    {
      assert HasSource(d, rel, y);
      var x :| x in d && rel(x, y);
      IdentifierSwapped(prefixes, tags, others, former, newPrefix, x, y);
    }
    forall y | y in Tagged(newPrefix, tags) + others
      ensures y in after
    {
      if y in others {
        ForeignStays(d, y, former, newPrefix, after);
      } else {
        var t :| t in tags && y == (DOMAIN, newPrefix + t);
        TagArrives(d, prefixes, t, former, newPrefix, after);
      }
    }
  }

  lemma ForeignStays(d: set<Identifier>, x: Identifier, former: set<string>, newPrefix: string, after: set<Identifier>)
    requires RenamedAll(d, former, newPrefix, after) && x in d && x.0 != DOMAIN
    ensures x in after
  {
    var rel := Renaming(former, newPrefix);
    assert HasImage(x, rel, after);
    var y :| y in after && rel(x, y);
    assert y == x;
  }

  lemma TagArrives(
    d: set<Identifier>, prefixes: set<string>, t: string, former: set<string>, newPrefix: string, after: set<Identifier>)
    requires ToldApart(prefixes, former, newPrefix) && HasTag(d, prefixes, t) && RenamedAll(d, former, newPrefix, after)
    ensures (DOMAIN, newPrefix + t) in after
  {
    var p :| p in prefixes && (DOMAIN, p + t) in d;
    var x, rel := (DOMAIN, p + t), Renaming(former, newPrefix);
    assert HasImage(x, rel, after);
    var y :| y in after && rel(x, y);
    assert UnderSome(x.1, prefixes, t);
    SwappedFrom(x.1, prefixes, t, former, newPrefix, y.1);
  }

  lemma IdentifierSwapped(
    prefixes: set<string>, tags: set<string>, others: set<Identifier>, former: set<string>, newPrefix: string,
    x: Identifier, y: Identifier)
    requires ToldApart(prefixes, former, newPrefix) && Foreign(others)
    requires (x in others || OwnTag(x, prefixes, tags)) && RenamedIdentifier(x, former, newPrefix, y)
    ensures y in Tagged(newPrefix, tags) + others
  {
    if x !in others {
      var t :| t in tags && UnderSome(x.1, prefixes, t);
      SwappedFrom(x.1, prefixes, t, former, newPrefix, y.1);
    }
  }

  /** A setup whose former prefixes can be told apart moves everything to the current prefix and keeps the rest. */
  lemma SetUpMoves(r: Registry, s: Registry, hash: Hash, prefixes: set<string>, c: Content)
    requires SetUp(r, s, hash) && CarriesSome(r, prefixes, c)
    requires var newPrefix := StackIdOf(r.entry, hash) + "_"; ToldApart(prefixes, OldPrefixes(r.entry, newPrefix), newPrefix)
    ensures Carries(s, StackIdOf(r.entry, hash) + "_", c)
  {
    var newPrefix := StackIdOf(r.entry, hash) + "_";
    var former := OldPrefixes(r.entry, newPrefix);
    forall i | 0 <= i < |s.entities|
      ensures s.entities[i] == newPrefix + c.suffixes[i]
    {
      NotEmpty(r.entities[i], prefixes, c.suffixes[i]);
      SwappedFrom(r.entities[i], prefixes, c.suffixes[i], former, newPrefix, s.entities[i]);
    }
    forall i | 0 <= i < |s.devices|
      ensures s.devices[i] == Tagged(newPrefix, c.tags[i]) + c.others[i]
    {
      DeviceSwapped(r.devices[i], prefixes, c.tags[i], c.others[i], former, newPrefix, s.devices[i]);
    }
  }

  lemma NotEmpty(id: string, prefixes: set<string>, suffix: string)
    requires "" !in prefixes && UnderSome(id, prefixes, suffix)
    ensures id != ""
  {
    var p :| p in prefixes && id == p + suffix;
  }

  // When they can

  /** The topic, its slashes made underscores, begins with the id and a separator. */
  predicate Embeds(topic: string, id: string) {
    id + "_" <= Munged(topic)
  }

  /** Home Assistant's entry ids: no underscore, and not as long as a stack id. */
  predicate PlainEntryId(id: string) {
    '_' !in id && |id| != 16
  }

  lemma OneSegment(a: string, b: string)
    requires '_' !in b && a + "_" <= b + "_"
    ensures a == b
  {
    if |a| < |b| {
      Separates(a, b);
    } else {
      assert |a| == |b|;
      assert a == (a + "_")[..|a|] == (b + "_")[..|a|] == b;
    }
  }

  lemma Separates(a: string, b: string)
    requires a + "_" <= b + "_" && |a| < |b|
    ensures '_' in b
  {
    var s, t := a + "_", b + "_";
    assert s[|a|] == '_' && t[|a|] == s[|a|];
    assert b[|a|] == t[|a|] == '_';
  }

  /** A prefix of a text before a separator is the whole of it, or a prefix of the text. */
  lemma PrefixBefore(p: string, other: string)
    requires p <= other + "_"
    ensures p <= other || p == other + "_"
  {
    if |p| <= |other| {
      assert p == (other + "_")[..|p|] == other[..|p|];
    }
  }

  /** An id without underscores and any other text, each before a separator, are apart unless the text begins with the id
      and a separator. */
  lemma ApartUnlessEmbedded(id: string, other: string)
    requires '_' !in id && !(id + "_" <= other)
    ensures Apart(id + "_", other + "_")
  {
    var p, q := id + "_", other + "_";
    if q <= p {
      OneSegment(other, id);
    } else if p <= q {
      PrefixBefore(p, other);
    }
  }

  lemma StackIdPlain(h: string)
    requires IsStackId(h)
    ensures '_' !in h
  {
  }

  lemma SeparatorIn(h: string, s: string)
    requires h + "_" <= s
    ensures '_' in s
  {
    assert s[|h|] == (h + "_")[|h|] == '_';
  }

  lemma EntryIdApart(entryId: string, h: string)
    requires PlainEntryId(entryId) && IsStackId(h)
    ensures Apart(h + "_", entryId + "_")
  {
    StackIdPlain(h);
    if h + "_" <= entryId {
      SeparatorIn(h, entryId);
    }
    ApartUnlessEmbedded(h, entryId);
  }

  // Runs

  /** The registry after a setup: everything under the identity of the entry's own settings. */
  predicate Settled(r: Registry, hash: Hash, c: Content) {
    r.entry.stackId == Some(StackIdOf(r.entry, hash)) && Carries(r, StackIdOf(r.entry, hash) + "_", c)
  }

  datatype Change = Change(host: string, port: nat, topic: string)

  function Reconfigured(r: Registry, change: Change): Registry {
    r.(entry := Entry(r.entry.entryId, change.host, change.port, change.topic, r.entry.stackId))
  }

  lemma ResettlesAfterChange(r: Registry, change: Change, s: Registry, hash: Hash, c: Content)
    requires Hashes(hash) && PlainEntryId(r.entry.entryId) && Settled(r, hash, c)
    requires !Embeds(change.topic, r.entry.stackId.value)
    requires SetUp(Reconfigured(r, change), s, hash)
    ensures Settled(s, hash, c)
  {
    var h := r.entry.stackId.value;
    StackIdPlain(h);
    EntryIdApart(r.entry.entryId, h);
    ApartUnlessEmbedded(h, Munged(change.topic));
    CarriesOne(r, h + "_", c);
    SetUpMoves(Reconfigured(r, change), s, hash, {h + "_"}, c);
  }

  /** The first setup after an upgrade: each identity is under one or the other of the two older schemes. */
  lemma FirstSetUpSettles(r: Registry, s: Registry, hash: Hash, c: Content)
    requires Hashes(hash) && PlainEntryId(r.entry.entryId) && r.entry.stackId == None
    requires !Embeds(r.entry.topic, r.entry.entryId)
    requires CarriesSome(r, {Munged(r.entry.topic) + "_", r.entry.entryId + "_"}, c)
    requires SetUp(r, s, hash)
    ensures Settled(s, hash, c)
  {
    ApartUnlessEmbedded(r.entry.entryId, Munged(r.entry.topic));
    SetUpMoves(r, s, hash, {Munged(r.entry.topic) + "_", r.entry.entryId + "_"}, c);
  }

  /** rs[0] is settled, and each next registry is the one before, reconfigured and set up again. */
  ghost predicate IsHistory(rs: seq<Registry>, changes: seq<Change>, hash: Hash) {
    && |rs| == |changes| + 1
    && forall k :: 0 <= k < |changes| ==> SetUp(Reconfigured(rs[k], changes[k]), rs[k + 1], hash)
  }

  /** No reconfiguration chooses a topic that begins with the stack id then in use. */
  predicate NoneEmbeds(rs: seq<Registry>, changes: seq<Change>) {
    |rs| == |changes| + 1
    && forall k :: 0 <= k < |changes| ==>
         rs[k].entry.stackId.Some? ==> !Embeds(changes[k].topic, rs[k].entry.stackId.value)
  }

  /** Over every sequence of reconfigurations and setups, every identity keeps its suffix and carries the current
      prefix. */
  lemma {:induction false} HistorySettled(rs: seq<Registry>, changes: seq<Change>, hash: Hash, c: Content)
    requires Hashes(hash) && IsHistory(rs, changes, hash) && NoneEmbeds(rs, changes)
    requires PlainEntryId(rs[0].entry.entryId) && Settled(rs[0], hash, c)
    ensures Settled(rs[|changes|], hash, c) && rs[|changes|].entry.entryId == rs[0].entry.entryId
    decreases |changes|
  {
    if changes != [] {
      var n := |changes| - 1;
      HistorySettled(rs[..n + 1], changes[..n], hash, c);
      ResettlesAfterChange(rs[n], changes[n], rs[n + 1], hash, c);
    }
  }

  lemma SuffixesTell(r: Registry, prefix: string, c: Content, i: nat, j: nat)
    requires Carries(r, prefix, c) && i < |c.suffixes| && j < |c.suffixes|
    ensures r.entities[i] == r.entities[j] <==> c.suffixes[i] == c.suffixes[j]
  {
    assert (prefix + c.suffixes[i])[|prefix|..] == c.suffixes[i];
    assert (prefix + c.suffixes[j])[|prefix|..] == c.suffixes[j];
  }

  /** Over every such sequence, identities that were distinct stay distinct, and equal ones equal. */
  lemma {:induction false} DistinctStayDistinct(
    rs: seq<Registry>, changes: seq<Change>, hash: Hash, c: Content, i: nat, j: nat)
    requires Hashes(hash) && IsHistory(rs, changes, hash) && NoneEmbeds(rs, changes)
    requires PlainEntryId(rs[0].entry.entryId) && Settled(rs[0], hash, c)
    requires i < |rs[0].entities| && j < |rs[0].entities|
    ensures var last := rs[|changes|];
            |last.entities| == |rs[0].entities|
            && (last.entities[i] == last.entities[j] <==> rs[0].entities[i] == rs[0].entities[j])
  {
    HistorySettled(rs, changes, hash, c);
    SuffixesTell(rs[0], StackIdOf(rs[0].entry, hash) + "_", c, i, j);
    SuffixesTell(rs[|changes|], StackIdOf(rs[|changes|].entry, hash) + "_", c, i, j);
  }

  /** Running setup again changes nothing. */
  lemma SetUpAgain(r: Registry, s: Registry, hash: Hash, c: Content)
    requires Hashes(hash) && PlainEntryId(r.entry.entryId) && Settled(r, hash, c)
    requires !Embeds(r.entry.topic, r.entry.stackId.value)
    requires SetUp(r, s, hash)
    ensures s == r
  {
    var change := Change(r.entry.host, r.entry.port, r.entry.topic);
    assert Reconfigured(r, change) == r;
    ResettlesAfterChange(r, change, s, hash, c);
    assert s.entities == r.entities && s.devices == r.devices;
  }

  // Exactly when suffixes are kept

  /** Whatever the suffix and whichever prefix is taken, the renaming keeps the suffix. */
  ghost predicate KeepsSuffixes(h: string, former: set<string>, newPrefix: string) {
    forall suffix, r :: Renamed(h + "_" + suffix, former, newPrefix, r) ==> r == newPrefix + suffix
  }

  /** For an entry registered under stack id h, setup keeps every suffix exactly when the topic, its slashes made
      underscores, does not begin with h and a separator. */
  lemma SuffixesKeptIff(e: Entry, h: string, hash: Hash)
    requires Hashes(hash) && PlainEntryId(e.entryId) && IsStackId(h) && e.stackId == Some(h)
    ensures var newPrefix := StackIdOf(e, hash) + "_";
            KeepsSuffixes(h, OldPrefixes(e, newPrefix), newPrefix) <==> !Embeds(e.topic, h)
  {
    var newPrefix := StackIdOf(e, hash) + "_";
    var former := OldPrefixes(e, newPrefix);
    if Embeds(e.topic, h) {
      EmbeddedLoses(e, h, hash);
    } else {
      StackIdPlain(h);
      EntryIdApart(e.entryId, h);
      ApartUnlessEmbedded(h, Munged(e.topic));
      forall suffix, r | Renamed(h + "_" + suffix, former, newPrefix, r)
        ensures r == newPrefix + suffix
      {
        Swapped(h + "_", suffix, former, newPrefix, r);
      }
    }
  }

  lemma EmbeddedLoses(e: Entry, h: string, hash: Hash)
    requires Hashes(hash) && IsStackId(h) && e.stackId == Some(h) && Embeds(e.topic, h)
    ensures var newPrefix := StackIdOf(e, hash) + "_"; !KeepsSuffixes(h, OldPrefixes(e, newPrefix), newPrefix)
  {
    var newPrefix := StackIdOf(e, hash) + "_";
    var former, q := OldPrefixes(e, newPrefix), Munged(e.topic) + "_";
    var suffix := q[17..];
    var id := h + "_" + suffix;
    assert q == id;
    assert |q| > 17 == |newPrefix| && q in former;
    assert id[|q|..] == "" && newPrefix + "" == newPrefix;
    assert q in former && q <= id && newPrefix == newPrefix + id[|q|..];
    assert Matched(id, former) && Renamed(id, former, newPrefix, newPrefix);
    assert newPrefix != newPrefix + suffix;
  }

  /** A topic that embeds the stack id: whatever comes after it, some suffix is lost. */
  lemma EmbeddingTopic(e: Entry, h: string, rest: string, hash: Hash)
    requires Hashes(hash) && PlainEntryId(e.entryId) && IsStackId(h) && e.stackId == Some(h)
    requires e.topic == h + "/" + rest
    ensures var newPrefix := StackIdOf(e, hash) + "_"; !KeepsSuffixes(h, OldPrefixes(e, newPrefix), newPrefix)
  {
    var m := Munged(e.topic);
    assert m[..|h| + 1] == h + "_" by {
      StackIdPlain(h);
    }
    SuffixesKeptIff(e, h, hash);
  }

  const STACK := "0123456789abcdef"

  lemma EmbeddingTopicExists(hash: Hash)
    requires Hashes(hash)
    ensures IsStackId(STACK)
    ensures var e := Entry("entry", "host", 1883, STACK + "/" + "state", Some(STACK)); var newPrefix := StackIdOf(e, hash) + "_";
            PlainEntryId(e.entryId) && !KeepsSuffixes(STACK, OldPrefixes(e, newPrefix), newPrefix)
  {
    EmbeddingTopic(Entry("entry", "host", 1883, STACK + "/" + "state", Some(STACK)), STACK, "state", hash);
  }
}
