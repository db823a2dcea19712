/**
 The Helm release cache: what was decoded of each release's installed revision,
 kept across collections (HelmCache, and the cache and fetch loop of
 collectHelmFetching).
 */
module HelmCache {
  import opened Basics
  import opened Picking

  /** The storage object of an installed revision, as the metadata list names it. */
  datatype Key = Key(driver: nat, ns: string, object: string, uid: string, rv: string)

  predicate Cacheable(k: Key) {
    k.uid != "" && k.rv != ""
  }

  /** A release's installed revision to report. */
  datatype Item = Item(ns: string, name: string, status: string, revision: nat, key: Key)

  datatype Entry = Entry(chart: string, chartVersion: string, appVersion: string, kubeVersion: string,
                         status: string, apis: seq<string>, decodeErr: string, parseErr: string)

  type Payload = string

  /** The knowledge base's flagged API set, named by its fingerprint. */
  type Flagged = string

  datatype Fetch = Fetched(data: Payload) | Gone | Failed(reason: string)

  datatype Release = Release(ns: string, name: string, entry: Entry, status: string, revision: nat)

  datatype Problem = Problem(ns: string, name: string, reason: string)

  /** What a collection reports, problems by kind and in the order met. */
  datatype Report = Report(releases: seq<Release>, unread: seq<Problem>, undecodable: seq<Problem>, unparsed: seq<Problem>,
                           skipped: seq<(string, string)>)

  const NO_REPORT := Report([], [], [], [], [])

  function Skip(r: Report, t: Item): Report {
    r.(skipped := r.skipped + [(t.ns, t.name)])
  }

  function AddEntry(r: Report, t: Item, e: Entry): Report {
    if e.decodeErr != "" then
      Skip(r.(undecodable := r.undecodable + [Problem(t.ns, t.name, e.decodeErr)]), t)
    else
      var noted := if e.parseErr == "" then r
                   else Skip(r.(unparsed := r.unparsed + [Problem(t.ns, t.name, e.parseErr)]), t);
      noted.(releases := noted.releases +
        [Release(t.ns, t.name, e, if t.status == "" then e.status else t.status, t.revision)])
  }

  /** The decoder: what the inventory keeps of a payload under a flagged set. */
  type Decode = (Payload, Flagged) -> Entry

  function AddFetch(decode: Decode, flagged: Flagged, r: Report, t: Item, f: Fetch): Report {
    match f
    case Fetched(data) => AddEntry(r, t, decode(data, flagged))
    case Gone => r
    case Failed(reason) => Skip(r.(unread := r.unread + [Problem(t.ns, t.name, reason)]), t)
  }

  /** A collection without a cache: every release, to the n-th, is fetched and decoded. */
  function Uncached(decode: Decode, flagged: Flagged, fetch: Item -> Fetch, items: seq<Item>, n: nat): Report
    requires n <= |items|
  {
    if n == 0 then NO_REPORT
    else AddFetch(decode, flagged, Uncached(decode, flagged, fetch, items, n - 1), items[n - 1], fetch(items[n - 1]))
  }

  /* ---------- what a report says of each release ---------- */

  /** What is known of a release's installed revision. */
  datatype Finding = Absent | Unread(reason: string) | Undecodable(reason: string) | Decoded(entry: Entry)

  function Found(decode: Decode, flagged: Flagged, fetch: Item -> Fetch): Item -> Finding {
    (t: Item) =>
      match fetch(t)
      case Gone => Absent
      case Failed(reason) => Unread(reason)
      case Fetched(data) =>
        var e := decode(data, flagged);
        if e.decodeErr != "" then Undecodable(e.decodeErr) else Decoded(e)
  }

  /** A decoded release is reported, with the status the list gives, else its payload's. */
  function ReportedAs(found: Item -> Finding): Item -> Option<Release> {
    (t: Item) =>
      if found(t).Decoded?
      then Some(Release(t.ns, t.name, found(t).entry, if t.status != "" then t.status else found(t).entry.status, t.revision))
      else None
  }

  function UnreadFor(found: Item -> Finding): Item -> Option<Problem> {
    (t: Item) => if found(t).Unread? then Some(Problem(t.ns, t.name, found(t).reason)) else None
  }

  function UndecodableFor(found: Item -> Finding): Item -> Option<Problem> {
    (t: Item) => if found(t).Undecodable? then Some(Problem(t.ns, t.name, found(t).reason)) else None
  }

  /** A decoded release whose manifest did not parse is reported all the same. */
  function UnparsedFor(found: Item -> Finding): Item -> Option<Problem> {
    (t: Item) =>
      if found(t).Decoded? && found(t).entry.parseErr != "" then Some(Problem(t.ns, t.name, found(t).entry.parseErr)) else None
  }

  /** A release is skipped when something of it could not be read. */
  function SkippedAs(found: Item -> Finding): Item -> Option<(string, string)> {
    (t: Item) =>
      if found(t).Unread? || found(t).Undecodable? || (found(t).Decoded? && found(t).entry.parseErr != "")
      then Some((t.ns, t.name)) else None
  }

  /** Each list of the report holds exactly the releases of its kind, in order; one
      gone by the time it is fetched is in none. */
  ghost predicate Reports(found: Item -> Finding, items: seq<Item>, r: Report) {
    && Gives(ReportedAs(found), items, r.releases) && Gives(SkippedAs(found), items, r.skipped)
    && Gives(UnreadFor(found), items, r.unread) && Gives(UndecodableFor(found), items, r.undecodable)
    && Gives(UnparsedFor(found), items, r.unparsed)
  }

  lemma {:induction false} NothingReported(found: Item -> Finding)
    ensures Reports(found, [], NO_REPORT)
  {
    GivesNone(ReportedAs(found));
    GivesNone(SkippedAs(found));
    GivesNone(UnreadFor(found));
    GivesNone(UndecodableFor(found));
    GivesNone(UnparsedFor(found));
  }

  /** What one more release adds to each list. */
  lemma {:induction false} AddsToLists(decode: Decode, flagged: Flagged, fetch: Item -> Fetch, r: Report, t: Item)
    ensures var (after, found) := (AddFetch(decode, flagged, r, t, fetch(t)), Found(decode, flagged, fetch));
            && after.releases == r.releases + AsList(ReportedAs(found)(t))
            && after.skipped == r.skipped + AsList(SkippedAs(found)(t))
            && after.unread == r.unread + AsList(UnreadFor(found)(t))
            && after.undecodable == r.undecodable + AsList(UndecodableFor(found)(t))
            && after.unparsed == r.unparsed + AsList(UnparsedFor(found)(t))
  {
    assert r.releases + [] == r.releases && r.skipped + [] == r.skipped;
    assert r.unread + [] == r.unread && r.undecodable + [] == r.undecodable && r.unparsed + [] == r.unparsed;
  }

  /** What a collection reports is what is known of its releases. */
  lemma {:induction false} UncachedReports(decode: Decode, flagged: Flagged, fetch: Item -> Fetch, items: seq<Item>, n: nat)
    requires n <= |items|
    ensures Reports(Found(decode, flagged, fetch), items[..n], Uncached(decode, flagged, fetch, items, n))
  {
    var found := Found(decode, flagged, fetch);
    if n == 0 {
      NothingReported(found);
    } else {
      var (r, t) := (Uncached(decode, flagged, fetch, items, n - 1), items[n - 1]);
      UncachedReports(decode, flagged, fetch, items, n - 1);
      AddsToLists(decode, flagged, fetch, r, t);
      SliceNext(items, n - 1);
      GivesNext(ReportedAs(found), items[..n - 1], r.releases, t);
      GivesNext(SkippedAs(found), items[..n - 1], r.skipped, t);
      GivesNext(UnreadFor(found), items[..n - 1], r.unread, t);
      GivesNext(UndecodableFor(found), items[..n - 1], r.undecodable, t);
      GivesNext(UnparsedFor(found), items[..n - 1], r.unparsed, t);
    }
  }

  lemma {:induction false} UncachedSame(decode: Decode, flagged: Flagged, f: Item -> Fetch, g: Item -> Fetch,
                                       items: seq<Item>, n: nat)
    requires n <= |items| && forall t :: t in items ==> f(t) == g(t)
    ensures Uncached(decode, flagged, f, items, n) == Uncached(decode, flagged, g, items, n)
  {
    if n != 0 {
      UncachedSame(decode, flagged, f, g, items, n - 1);
    }
  }

  /** The fetch a collection with these entries held stands for: a held release
      reads as its payload, any other as its fetch. */
  function Through(held: set<Key>, payload: Key -> Payload, fetch: Item -> Fetch): Item -> Fetch {
    (t: Item) => if t.key in held then Fetched(payload(t.key)) else fetch(t)
  }

  ghost function KeysOf(items: seq<Item>): set<Key> {
    set t | t in items :: t.key
  }

  /** One collection: its flagged set, its installed revisions, what a fetch of
      each gives now, and the drivers whose list failed. */
  datatype Tick = Tick(flagged: Flagged, items: seq<Item>, fetch: Item -> Fetch, failed: set<nat>)

  ghost predicate FaithfulOne(payload: Key -> Payload, t: Tick, item: Item) {
    Cacheable(item.key) && t.fetch(item).Fetched? ==> t.fetch(item).data == payload(item.key)
  }

  /** A fetch gives a key's payload, where the key identifies one version. */
  ghost predicate Faithful(payload: Key -> Payload, t: Tick) {
    forall i :: 0 <= i < |t.items| ==> FaithfulOne(payload, t, t.items[i])
  }

  class Cache {
    const decode: Decode
    var entries: map<Key, Entry>
    var flagged: Flagged
    ghost const payload: Key -> Payload

    /** Every entry is its payload, decoded under the flagged set in force. */
    ghost predicate Valid()
      reads this
    {
      forall k :: k in entries ==> Cacheable(k) && entries[k] == decode(payload(k), flagged)
    }

    constructor (decode: Decode, ghost payload: Key -> Payload)
      ensures Valid() && entries == map[] && this.decode == decode && this.payload == payload
    {
      this.decode, this.payload := decode, payload;
      entries, flagged := map[], "";
    }

    method Begin(now: Flagged)
      requires Valid()
      modifies this
      ensures Valid() && flagged == now
      ensures entries == if old(flagged) == now then old(entries) else map[]
    {
      if flagged != now {
        entries, flagged := map[], now;
      }
    }

    method Put(k: Key, e: Entry)
      requires Valid() && (Cacheable(k) ==> e == decode(payload(k), flagged))
      modifies this`entries
      ensures Valid() && entries == if Cacheable(k) then old(entries)[k := e] else old(entries)
    {
      if Cacheable(k) {
        entries := entries[k := e];
      }
    }

    /** Drops what was not seen, except under drivers whose list failed. */
    method Prune(seen: set<Key>, failed: set<nat>)
      requires Valid()
      modifies this`entries
      ensures Valid()
      ensures forall k :: k in entries <==> k in old(entries) && (k in seen || k.driver in failed)
    {
      entries := map k | k in entries && (k in seen || k.driver in failed) :: entries[k];
    }

    /** What a collection under this flagged set finds held when it begins. */
    ghost function HeldAt(now: Flagged): set<Key>
      reads this
    {
      if flagged == now then entries.Keys else {}
    }

    /** Reads one release that is not held: fetched, decoded and kept. */
    method ReadMiss(t: Item, now: Flagged, f: Fetch, before: Report) returns (report: Report)
      requires Valid() && flagged == now && t.key !in entries
      requires f.Fetched? && Cacheable(t.key) ==> f.data == payload(t.key)
      modifies this`entries
      ensures Valid() && report == AddFetch(decode, now, before, t, f)
      ensures entries.Keys == old(entries).Keys + (if f.Fetched? && Cacheable(t.key) then {t.key} else {})
    {
      match f
      case Gone => report := before;
      case Failed(reason) => report := Skip(before.(unread := before.unread + [Problem(t.ns, t.name, reason)]), t);
      case Fetched(data) =>
        var e := decode(data, now);
        Put(t.key, e);
        report := AddEntry(before, t, e);
    }

    /** Reports one release, from its entry or its fetch. */
    method VisitOne(item: Item, looked: Looked, t: Tick, asked: Item, before: Report, ghost held: set<Key>)
      returns (report: Report, failed: bool)
      requires Valid() && flagged == t.flagged && FaithfulOne(payload, t, item)
      requires looked.Hit? <==> item.key in held
      requires looked.Hit? ==> looked.entry == decode(payload(item.key), flagged)
      requires looked.Miss? ==> asked == item && item.key !in entries
      modifies this`entries
      ensures Valid() && failed == (item.key !in held && t.fetch(item).Failed?)
      ensures report == AddFetch(decode, t.flagged, before, item, Through(held, payload, t.fetch)(item))
      ensures entries.Keys == old(entries).Keys + KeptOf(t, held, item)
    {
      failed := false;
      if looked.Hit? {
        report := AddEntry(before, item, looked.entry);
      } else {
        var f := t.fetch(asked);
        report := ReadMiss(item, t.flagged, f, before);
        failed := f.Failed?;
      }
    }

    /** The loop over the installed revisions, the fetches in the order of the misses. */
    method Visit(t: Tick, ghost held: set<Key>, hits: seq<Looked>, misses: seq<Item>)
      returns (report: Report, fetched: seq<Item>, seen: set<Key>)
      requires Valid() && flagged == t.flagged && Faithful(payload, t) && entries.Keys == held
      requires forall i :: 0 <= i < |t.items| ==> NewKey(t, held, i)
      requires |hits| == |t.items| && misses == Missing(t.items, held, |t.items|)
      requires forall i :: 0 <= i < |t.items| ==> (hits[i].Hit? <==> t.items[i].key in held)
      requires forall i :: 0 <= i < |t.items| && hits[i].Hit? ==> hits[i].entry == decode(payload(t.items[i].key), flagged)
      modifies this`entries
      ensures Valid()
      ensures report == Uncached(decode, t.flagged, Through(held, payload, t.fetch), t.items, |t.items|)
      ensures fetched == misses
      ensures entries.Keys == held + Kept(t, held, |t.items|) && seen == Seen(t, held, |t.items|)
    {
      report, fetched, seen := NO_REPORT, [], {};
      for i := 0 to |t.items|
        invariant Valid() && fetched == Missing(t.items, held, i)
        invariant report == Uncached(decode, t.flagged, Through(held, payload, t.fetch), t.items, i)
        invariant entries.Keys == held + Kept(t, held, i) && seen == Seen(t, held, i)
      {
        var item := t.items[i];
        assert NewKey(t, held, i);
        var asked := item;
        if hits[i].Miss? {
          NextMiss(t.items, held, i);
          asked := misses[|fetched|];
          fetched := fetched + [asked];
        }
        var failed;
        report, failed := VisitOne(item, hits[i], t, asked, report, held);
        seen := seen + (if failed then {} else {item.key});
        SetSteps(t, held, i);
      }
    }

    /** A collection with the cache: reports what one without it would on
        fetches that read a held release as its payload, fetches each release it
        does not hold once and in order, and keeps no other entry than those of
        the releases read and of drivers whose list failed. */
    method Collect(t: Tick) returns (report: Report, fetched: seq<Item>)
      requires Valid() && Sound(payload, t)
      modifies this
      ensures Valid() && flagged == t.flagged
      ensures report == Uncached(decode, t.flagged, Through(old(HeldAt(t.flagged)), payload, t.fetch), t.items, |t.items|)
      ensures Reports(Found(decode, t.flagged, Through(old(HeldAt(t.flagged)), payload, t.fetch)), t.items, report)
      ensures Gives(NotHeld(old(HeldAt(t.flagged))), t.items, fetched)
      ensures forall k :: k in entries <==>
                k in Read(t, old(HeldAt(t.flagged))) || (k in old(HeldAt(t.flagged)) && k.driver in t.failed)
    {
      ghost var held := HeldAt(t.flagged);
      Begin(t.flagged);
      var hits, misses := Look(t.items);
      forall i | 0 <= i < |t.items|
        ensures NewKey(t, held, i)
      {
        FreshKey(t, held, i);
      }
      var seen;
      report, fetched, seen := Visit(t, held, hits, misses);
      MissingIs(t.items, held, |t.items|);
      UncachedReports(decode, t.flagged, Through(held, payload, t.fetch), t.items, |t.items|);
      Whole(t.items);
      Prune(seen, t.failed);
      forall k
        ensures k in Read(t, held) <==> k in held + Kept(t, held, |t.items|) && k in Seen(t, held, |t.items|)
        ensures k in Kept(t, held, |t.items|) ==> k in Read(t, held)
      {
        KeptAndSeen(t, held, k);
      }
    }

    /** What was found of one release: its entry exactly when it is held. */
    ghost predicate Finds(item: Item, l: Looked)
      reads this
    {
      (l.Hit? <==> item.key in entries) && (l.Hit? ==> l.entry == decode(payload(item.key), flagged))
    }

    method LookOne(item: Item) returns (l: Looked)
      requires Valid()
      ensures Finds(item, l)
    {
      l := if Cacheable(item.key) && item.key in entries then Hit(entries[item.key]) else Miss;
    }

    /** Which releases are held, read before any fetch, and those to fetch. */
    method Look(items: seq<Item>) returns (hits: seq<Looked>, misses: seq<Item>)
      requires Valid()
      ensures |hits| == |items| && misses == Missing(items, entries.Keys, |items|)
      ensures forall i :: 0 <= i < |items| ==> Finds(items[i], hits[i])
    {
      hits, misses := [], [];
      for i := 0 to |items|
        invariant |hits| == i && misses == Missing(items, entries.Keys, i)
        invariant forall j :: 0 <= j < i ==> Finds(items[j], hits[j])
      {
        var l := LookOne(items[i]);
        hits := hits + [l];
        if l.Miss? {
          misses := misses + [items[i]];
        }
      }
    }
  }

  datatype Looked = Hit(entry: Entry) | Miss

  ghost predicate Distinct(items: seq<Item>) {
    forall i, j :: 0 <= i < j < |items| ==> items[i].key != items[j].key
  }

  /** The first n releases' that are not held, in order. */
  ghost function Missing(items: seq<Item>, held: set<Key>, n: nat): seq<Item>
    requires n <= |items|
  {
    if n == 0 then [] else Missing(items, held, n - 1) + (if items[n - 1].key in held then [] else [items[n - 1]])
  }

  ghost function NotHeld(held: set<Key>): Item -> Option<Item> {
    (t: Item) => if t.key in held then None else Some(t)
  }

  lemma {:induction false} MissingStep(items: seq<Item>, held: set<Key>, n: nat)
    requires 0 < n <= |items|
    ensures Missing(items, held, n) == Missing(items, held, n - 1) + AsList(NotHeld(held)(items[n - 1]))
  {
  }

  /** Exactly the releases that are not held, in order. */
  lemma {:induction false} MissingIs(items: seq<Item>, held: set<Key>, n: nat)
    requires n <= |items|
    ensures Gives(NotHeld(held), items[..n], Missing(items, held, n))
  {
    if n == 0 {
      GivesNone(NotHeld(held));
    } else {
      MissingIs(items, held, n - 1);
      SliceNext(items, n - 1);
      MissingStep(items, held, n);
      GivesNext(NotHeld(held), items[..n - 1], Missing(items, held, n - 1), items[n - 1]);
    }
  }

  ghost predicate IsKept(t: Tick, held: set<Key>, item: Item) {
    item.key !in held && Cacheable(item.key) && t.fetch(item).Fetched?
  }

  ghost function KeptOf(t: Tick, held: set<Key>, item: Item): set<Key> {
    if IsKept(t, held, item) then {item.key} else {}
  }

  ghost predicate IsSeen(t: Tick, held: set<Key>, item: Item) {
    item.key in held || !t.fetch(item).Failed?
  }

  /** The keys fetched and kept among the first n releases. */
  ghost function Kept(t: Tick, held: set<Key>, n: nat): set<Key>
    requires n <= |t.items|
  {
    if n == 0 then {} else Kept(t, held, n - 1) + KeptOf(t, held, t.items[n - 1])
  }

  /** The keys seen among them: all but those whose fetch failed. */
  ghost function Seen(t: Tick, held: set<Key>, n: nat): set<Key>
    requires n <= |t.items|
  {
    if n == 0 then {}
    else Seen(t, held, n - 1) + (if IsSeen(t, held, t.items[n - 1]) then {t.items[n - 1].key} else {})
  }

  lemma {:induction false} KeptIs(t: Tick, held: set<Key>, n: nat, k: Key)
    requires n <= |t.items|
    ensures k in Kept(t, held, n) <==> exists i :: 0 <= i < n && t.items[i].key == k && IsKept(t, held, t.items[i])
  {
    if n != 0 {
      KeptIs(t, held, n - 1, k);
    }
  }

  lemma {:induction false} SeenIs(t: Tick, held: set<Key>, n: nat, k: Key)
    requires n <= |t.items|
    ensures k in Seen(t, held, n) <==> exists i :: 0 <= i < n && t.items[i].key == k && IsSeen(t, held, t.items[i])
  {
    if n != 0 {
      SeenIs(t, held, n - 1, k);
    }
  }

  /** The keys of the releases a collection read, and can tell apart. */
  ghost function Read(t: Tick, held: set<Key>): set<Key> {
    set item | item in t.items && (item.key in held || IsKept(t, held, item)) :: item.key
  }

  lemma {:induction false} MissingPrefix(items: seq<Item>, held: set<Key>, i: nat, n: nat)
    requires i <= n <= |items|
    ensures Missing(items, held, i) <= Missing(items, held, n)
  {
    if i != n {
      MissingPrefix(items, held, i, n - 1);
    }
  }

  /** The fetches are consumed in the order of the misses. */
  lemma {:induction false} NextMiss(items: seq<Item>, held: set<Key>, i: nat)
    requires i < |items| && items[i].key !in held
    ensures |Missing(items, held, i)| < |Missing(items, held, |items|)|
    ensures Missing(items, held, |items|)[|Missing(items, held, i)|] == items[i]
  {
    MissingPrefix(items, held, i + 1, |items|);
  }

  lemma {:induction false} SetSteps(t: Tick, held: set<Key>, i: nat)
    requires i < |t.items|
    ensures held + Kept(t, held, i + 1) == held + Kept(t, held, i) + KeptOf(t, held, t.items[i])
    ensures Seen(t, held, i + 1) == Seen(t, held, i) + (if IsSeen(t, held, t.items[i]) then {t.items[i].key} else {})
    ensures t.items[i].key in held ==> Missing(t.items, held, i + 1) == Missing(t.items, held, i)
    ensures t.items[i].key !in held ==> Missing(t.items, held, i + 1) == Missing(t.items, held, i) + [t.items[i]]
  {
  }

  /** The i-th release was not kept on the way to it. */
  ghost predicate NewKey(t: Tick, held: set<Key>, i: nat)
    requires i < |t.items|
  {
    t.items[i].key !in Kept(t, held, i)
  }

  lemma {:induction false} FreshKey(t: Tick, held: set<Key>, i: nat)
    requires i < |t.items| && Distinct(t.items)
    ensures NewKey(t, held, i)
  {
    KeptIs(t, held, i, t.items[i].key);
  }

  lemma {:induction false} KeptAndSeen(t: Tick, held: set<Key>, k: Key)
    requires Distinct(t.items)
    ensures k in Read(t, held) <==> k in held + Kept(t, held, |t.items|) && k in Seen(t, held, |t.items|)
    ensures k in Kept(t, held, |t.items|) ==> k in Read(t, held)
  {
    KeptIs(t, held, |t.items|, k);
    SeenIs(t, held, |t.items|, k);
    if k in Read(t, held) {
      var item :| item in t.items && (item.key in held || IsKept(t, held, item)) && item.key == k;
      var i :| 0 <= i < |t.items| && t.items[i] == item;
      assert IsSeen(t, held, t.items[i]);
    }
  }

  /** One with every fetch succeeding reports what the cache reports. */
  lemma {:induction false} ThroughIsFetch(decode: Decode, payload: Key -> Payload, t: Tick, held: set<Key>)
    requires Faithful(payload, t) && forall k :: k in held ==> Cacheable(k)
    requires forall item :: item in t.items && item.key in held ==> t.fetch(item).Fetched?
    ensures Uncached(decode, t.flagged, Through(held, payload, t.fetch), t.items, |t.items|) ==
            Uncached(decode, t.flagged, t.fetch, t.items, |t.items|)
  {
    UncachedSame(decode, t.flagged, Through(held, payload, t.fetch), t.fetch, t.items, |t.items|);
  }

  ghost predicate AllFetched(t: Tick) {
    forall item :: item in t.items ==> t.fetch(item).Fetched?
  }

  ghost predicate Sound(payload: Key -> Payload, t: Tick) {
    Faithful(payload, t) && Distinct(t.items)
  }

  /** When its fetches succeed, the report is that of collecting without a cache. */
  ghost predicate Agrees(decode: Decode, t: Tick, report: Report) {
    AllFetched(t) ==>
      && report == Uncached(decode, t.flagged, t.fetch, t.items, |t.items|)
      && Reports(Found(decode, t.flagged, t.fetch), t.items, report)
  }

  /** Every collection so far does. */
  ghost predicate AgreesTo(decode: Decode, ticks: seq<Tick>, reports: seq<Report>) {
    |reports| <= |ticks| && forall i :: 0 <= i < |reports| ==> Agrees(decode, ticks[i], reports[i])
  }

  lemma {:induction false} AgreesNext(decode: Decode, ticks: seq<Tick>, reports: seq<Report>, report: Report)
    requires |reports| < |ticks| && AgreesTo(decode, ticks, reports) && Agrees(decode, ticks[|reports|], report)
    ensures AgreesTo(decode, ticks, reports + [report])
  {
    forall i | 0 <= i < |reports + [report]|
      ensures Agrees(decode, ticks[i], (reports + [report])[i])
    {
      assert i < |reports| ==> Agrees(decode, ticks[i], reports[i]);
    }
  }

  /** Over any run of collections, those whose fetches succeed report exactly
      what collecting without a cache reports, whatever the flagged sets, the
      failures and the releases of the collections between them. */
  method Collections(c: Cache, ticks: seq<Tick>) returns (reports: seq<Report>)
    requires c.Valid() && forall i :: 0 <= i < |ticks| ==> Sound(c.payload, ticks[i])
    modifies c
    ensures c.Valid() && |reports| == |ticks| && AgreesTo(c.decode, ticks, reports)
    ensures ticks != [] && ticks[|ticks| - 1].failed == {} ==> |c.entries| <= |ticks[|ticks| - 1].items|
  {
    reports := [];
    for i := 0 to |ticks|
      invariant c.Valid() && |reports| == i && AgreesTo(c.decode, ticks, reports)
      invariant i > 0 && ticks[i - 1].failed == {} ==> |c.entries| <= |ticks[i - 1].items|
    {
      var report := CollectOnce(c, ticks[i]);
      AgreesNext(c.decode, ticks, reports, report);
      reports := reports + [report];
    }
  }

  method CollectOnce(c: Cache, t: Tick) returns (report: Report)
    requires c.Valid() && Sound(c.payload, t)
    modifies c
    ensures c.Valid() && Agrees(c.decode, t, report)
    ensures t.failed == {} ==> |c.entries| <= |t.items|
  {
    ghost var held := c.HeldAt(t.flagged);
    if AllFetched(t) {
      ThroughIsFetch(c.decode, c.payload, t, held);
      UncachedReports(c.decode, t.flagged, t.fetch, t.items, |t.items|);
      Whole(t.items);
    }
    var fetched;
    report, fetched := c.Collect(t);
    if t.failed == {} {
      FewKeys(c.entries, t, held);
    }
  }

  lemma {:induction false} KeysCount(items: seq<Item>)
    ensures |KeysOf(items)| <= |items|
  {
    if items != [] {
      var init, last := items[..|items| - 1], items[|items| - 1];
      KeysCount(init);
      assert items == init + [last];
      assert KeysOf(items) == KeysOf(init) + {last.key};
    }
  }

  lemma {:induction false} Smaller(a: set<Key>, b: set<Key>)
    requires a <= b
    ensures |a| <= |b|
  {
    if a != {} {
      var x :| x in a;
      Smaller(a - {x}, b - {x});
    }
  }

  lemma {:induction false} FewKeys(entries: map<Key, Entry>, t: Tick, held: set<Key>)
    requires forall k :: k in entries ==> k in Read(t, held)
    ensures |entries| <= |t.items|
  {
    KeysCount(t.items);
    Smaller(entries.Keys, KeysOf(t.items));
    assert |entries| == |entries.Keys|;
  }
}
