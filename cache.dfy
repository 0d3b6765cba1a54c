/**
 * What the free-form event source computes, as functions: the collection
 * (shard) names, which collections a fetch reads, how fetched documents are
 * merged into the cache, and how cached events are projected for display.
 * The `FreeForm` module's class is proved against these.
 */
module EventCache {
  import opened Wrappers
  import opened Calendar
  import opened Text
  import opened Events

  const Uncategorized := "Uncategorized"
  const FreeFormId := "FreeForm"
  /** What formatting an unparseable date gives; it only names the collection of such an event. */
  const InvalidDateText := "Invalid date"

  // ---------------------------------------------------------------- shard keys

  /** The collection an event starting on `d` lives in: `<teamId>.<MM-YYYY>`. */
  function MonthCollection(team: string, d: Date): string
    requires ValidDate(d)
  {
    team + "." + MonthLabel(d)
  }

  /** The collection of a stored start date (unparseable dates format as "Invalid date"). */
  function StampCollection(team: string, stamp: Option<Date>): string {
    if IsParsed(stamp) then MonthCollection(team, stamp.value) else team + "." + InvalidDateText
  }

  /** The team's legacy collection of category documents. */
  function CategoriesCollection(team: string): string {
    team + "-categories"
  }

  /** A name of the form `<team>.<something>`: one of the team's month shards. */
  predicate IsShardOf(team: string, name: string) {
    |name| > |team| && name[..|team| + 1] == team + "."
  }

  /** The collections of every month from start's to end's, in order. */
  function MonthCollections(team: string, start: Date, end: Date): (names: seq<string>)
    ensures |names| == |MonthsInRange(start, end)|
    ensures forall i :: 0 <= i < |names| ==> names[i] == team + "." + MonthsInRange(start, end)[i]
  {
    var labels := MonthsInRange(start, end);
    seq(|labels|, i requires 0 <= i < |labels| => team + "." + labels[i])
  }

  /** Two dates share a collection exactly when they lie in the same month of the same year. */
  lemma MonthCollectionSameMonth(team: string, a: Date, b: Date)
    requires ValidDate(a) && ValidDate(b)
    ensures MonthCollection(team, a) == MonthCollection(team, b) <==> a.year == b.year && a.month == b.month
  {
    var na, nb := MonthCollection(team, a), MonthCollection(team, b);
    assert na[|team| + 1..] == MonthLabel(a);
    assert nb[|team| + 1..] == MonthLabel(b);
    MonthLabelSameMonth(a, b);
  }

  /** A month shard is never the legacy collection nor the legacy categories collection. */
  lemma ShardIsNotLegacy(team: string, name: string)
    requires IsShardOf(team, name)
    ensures name != team && name != CategoriesCollection(team)
  {
    assert name[|team|] == '.';
    assert |CategoriesCollection(team)| > |team| ==> CategoriesCollection(team)[|team|] == '-';
  }

  /** Every collection name the event source writes is one of the team's month shards. */
  lemma StampCollectionIsShard(team: string, stamp: Option<Date>)
    ensures IsShardOf(team, StampCollection(team, stamp))
  {
    var name := StampCollection(team, stamp);
    assert name[..|team| + 1] == team + ".";
  }

  /** A fetch of [start, end] names the collection of every date in that range. */
  lemma MonthCollectionsCover(team: string, start: Date, end: Date, d: Date)
    requires ValidDate(start) && ValidDate(end) && ValidDate(d)
    requires OnOrBefore(start, d) && OnOrBefore(d, end)
    ensures MonthCollection(team, d) in MonthCollections(team, start, end)
  {
    MonthsInRangeCovers(start, end, d);
    var labels := MonthsInRange(start, end);
    var i :| 0 <= i < |labels| && labels[i] == MonthLabel(d);
    assert MonthCollections(team, start, end)[i] == MonthCollection(team, d);
  }

  /** A fetch names only month shards of the team. */
  lemma MonthCollectionsAreShards(team: string, start: Date, end: Date)
    ensures forall name :: name in MonthCollections(team, start, end) ==> IsShardOf(team, name)
  {
    var names := MonthCollections(team, start, end);
    forall name | name in names ensures IsShardOf(team, name) {
      var i :| 0 <= i < |names| && names[i] == name;
      assert name[..|team| + 1] == team + ".";
    }
  }

  /** The legacy collection is never among the month collections. */
  lemma MonthCollectionsExcludeLegacy(team: string, start: Date, end: Date)
    ensures team !in MonthCollections(team, start, end)
  {
    MonthCollectionsAreShards(team, start, end);
    if team in MonthCollections(team, start, end) {
      ShardIsNotLegacy(team, team);
    }
  }

  // ---------------------------------------------------------------- fetch memoisation

  /**
   * The collections a fetch queries: those of `names` not yet fetched, each once,
   * in order (the loop over collectionNames that fills collectionsToFetch).
   */
  function ToFetch(names: seq<CollectionName>, fetched: set<CollectionName>): (r: seq<CollectionName>)
    ensures forall x :: x in r <==> x in names && x !in fetched
    ensures forall i, j :: 0 <= i < j < |r| ==> r[i] != r[j]
  {
    if names == [] then []
    else
      var init, last := names[..|names| - 1], names[|names| - 1];
      assert names == init + [last];
      var prev := ToFetch(init, fetched);
      if last in fetched || last in init then prev else prev + [last]
  }

  /** One more name: it is queried unless fetched before or already among the earlier names. */
  lemma ToFetchStep(names: seq<CollectionName>, i: nat, fetched: set<CollectionName>)
    requires i < |names|
    ensures ToFetch(names[..i + 1], fetched) ==
      if names[i] in fetched || names[i] in names[..i] then ToFetch(names[..i], fetched)
      else ToFetch(names[..i], fetched) + [names[i]]
  {
    assert names[..i + 1][..i] == names[..i];
    assert names[..i + 1] == names[..i] + [names[i]];
  }

  /** Names that are all fetched already lead to no query at all. */
  lemma {:induction false} AllFetchedQueriesNothing(names: seq<CollectionName>, fetched: set<CollectionName>)
    requires forall x :: x in names ==> x in fetched
    ensures ToFetch(names, fetched) == []
  {
    if names != [] {
      var init := names[..|names| - 1];
      assert forall x :: x in init ==> x in names;
      AllFetchedQueriesNothing(init, fetched);
    }
  }

  /** Fetching names a second time queries none of them. */
  lemma RefetchQueriesNothing(names: seq<CollectionName>, fetched: set<CollectionName>)
    ensures ToFetch(names, fetched + set x | x in names) == []
  {
    AllFetchedQueriesNothing(names, fetched + set x | x in names);
  }

  // ---------------------------------------------------------------- merging fetched documents

  /** Every cached event is stored under its own id. */
  ghost predicate CacheKeyed(m: map<Id, Event>) {
    forall k :: k in m ==> KeyOf(m[k]) == k
  }

  /** The keys of a list of documents. */
  function KeysOf(docs: seq<Event>): set<Id> {
    set d | d in docs :: KeyOf(d)
  }

  /** `docs` written into the cache one after another, each under its own id. */
  function MergeDocs(m: map<Id, Event>, docs: seq<Event>): map<Id, Event> {
    if docs == [] then m
    else
      var last := docs[|docs| - 1];
      MergeDocs(m, docs[..|docs| - 1])[KeyOf(last) := last]
  }

  /** The merged cache has the old keys and the keys of the merged documents. */
  lemma {:induction false} MergeDocsKeys(m: map<Id, Event>, docs: seq<Event>)
    ensures MergeDocs(m, docs).Keys == m.Keys + KeysOf(docs)
  {
    if docs != [] {
      var init, last := docs[..|docs| - 1], docs[|docs| - 1];
      MergeDocsKeys(m, init);
      assert docs == init + [last];
      assert KeysOf(docs) == KeysOf(init) + {KeyOf(last)};
    }
  }

  /** Merging keeps every cached event under its own id. */
  lemma {:induction false} MergeDocsKeepsKeyed(m: map<Id, Event>, docs: seq<Event>)
    requires CacheKeyed(m)
    ensures CacheKeyed(MergeDocs(m, docs))
  {
    if docs != [] {
      MergeDocsKeepsKeyed(m, docs[..|docs| - 1]);
    }
  }

  /**
   * After a merge an id not among the documents keeps its event, and an id
   * among them holds the last document with that id.
   */
  lemma {:induction false} MergeDocsValues(m: map<Id, Event>, docs: seq<Event>)
    ensures forall k :: k in m && k !in KeysOf(docs) ==> k in MergeDocs(m, docs) && MergeDocs(m, docs)[k] == m[k]
    ensures forall i :: 0 <= i < |docs| && (forall j :: i < j < |docs| ==> KeyOf(docs[j]) != KeyOf(docs[i]))
              ==> KeyOf(docs[i]) in MergeDocs(m, docs) && MergeDocs(m, docs)[KeyOf(docs[i])] == docs[i]
  {
    if docs != [] {
      var init, last := docs[..|docs| - 1], docs[|docs| - 1];
      MergeDocsValues(m, init);
      assert docs == init + [last];
      assert KeysOf(docs) == KeysOf(init) + {KeyOf(last)};
      forall i | 0 <= i < |docs| && (forall j :: i < j < |docs| ==> KeyOf(docs[j]) != KeyOf(docs[i]))
        ensures KeyOf(docs[i]) in MergeDocs(m, docs) && MergeDocs(m, docs)[KeyOf(docs[i])] == docs[i]
      {
        if i < |init| {
          assert init[i] == docs[i];
          assert forall j :: i < j < |init| ==> init[j] == docs[j];
        }
      }
    }
  }

  /** Merging one more document writes it over whatever its id held. */
  lemma MergeDocsStep(m: map<Id, Event>, docs: seq<Event>, d: Event)
    ensures MergeDocs(m, docs + [d]) == MergeDocs(m, docs)[KeyOf(d) := d]
  {
    assert (docs + [d])[..|docs|] == docs;
  }

  /** Merging two lists one after the other is merging their concatenation. */
  lemma {:induction false} MergeDocsAppend(m: map<Id, Event>, a: seq<Event>, b: seq<Event>)
    ensures MergeDocs(MergeDocs(m, a), b) == MergeDocs(m, a + b)
  {
    if b == [] {
      assert a + b == a;
    } else {
      var n := |b| - 1;
      MergeDocsAppend(m, a, b[..n]);
      assert (a + b)[..|a + b| - 1] == a + b[..n];
    }
  }

  /** The documents of the collections a query returned, absent collections skipped. */
  function Flatten(collections: seq<Option<seq<Event>>>): seq<Event> {
    if collections == [] then []
    else
      var last := collections[|collections| - 1];
      Flatten(collections[..|collections| - 1]) + (if last.Some? then last.value else [])
  }

  /** Each document of a returned collection is among the flattened documents. */
  lemma {:induction false} FlattenContains(collections: seq<Option<seq<Event>>>, i: nat, d: Event)
    requires i < |collections| && collections[i].Some? && d in collections[i].value
    ensures d in Flatten(collections)
  {
    var n := |collections| - 1;
    if i < n {
      FlattenContains(collections[..n], i, d);
    }
  }

  /** What the cache holds after a fetch of [start, end]. */
  function FetchedCache(m: map<Id, Event>, fetched: set<CollectionName>,
                        collections: map<CollectionName, seq<Event>>,
                        team: string, start: Date, end: Date): map<Id, Event>
  {
    var queried := ToFetch(MonthCollections(team, start, end), fetched);
    var merged := MergeDocs(m, Flatten(Lookup(collections, queried)));
    if team !in fetched then MergeDocs(merged, DocsIn(collections, team)) else merged
  }

  /** The documents a fetch of [start, end] caches, in the order it caches them. */
  function FetchedDocs(fetched: set<CollectionName>, collections: map<CollectionName, seq<Event>>,
                       team: string, start: Date, end: Date): seq<Event>
  {
    var queried := ToFetch(MonthCollections(team, start, end), fetched);
    Flatten(Lookup(collections, queried)) + (if team !in fetched then DocsIn(collections, team) else [])
  }

  /** A fetch merges its documents into the cache one after another. */
  lemma FetchedCacheIsMerge(m: map<Id, Event>, fetched: set<CollectionName>,
                            collections: map<CollectionName, seq<Event>>,
                            team: string, start: Date, end: Date)
    ensures FetchedCache(m, fetched, collections, team, start, end) == MergeDocs(m, FetchedDocs(fetched, collections, team, start, end))
  {
    var queried := ToFetch(MonthCollections(team, start, end), fetched);
    var read := Flatten(Lookup(collections, queried));
    if team !in fetched {
      MergeDocsAppend(m, read, DocsIn(collections, team));
    } else {
      assert read + [] == read;
    }
  }

  /**
   * After a fetch the cache has the old ids and those of the fetched documents;
   * an id no fetched document has keeps its event, and a fetched document that
   * no later fetched document shares an id with is cached under its id.
   */
  lemma FetchedCacheValues(m: map<Id, Event>, fetched: set<CollectionName>,
                           collections: map<CollectionName, seq<Event>>,
                           team: string, start: Date, end: Date)
    ensures var docs, r := FetchedDocs(fetched, collections, team, start, end), FetchedCache(m, fetched, collections, team, start, end);
            && r.Keys == m.Keys + KeysOf(docs)
            && (forall k :: k in m && k !in KeysOf(docs) ==> r[k] == m[k])
            && (forall i :: 0 <= i < |docs| && (forall j :: i < j < |docs| ==> KeyOf(docs[j]) != KeyOf(docs[i]))
                  ==> r[KeyOf(docs[i])] == docs[i])
  {
    var docs := FetchedDocs(fetched, collections, team, start, end);
    FetchedCacheIsMerge(m, fetched, collections, team, start, end);
    MergeDocsKeys(m, docs);
    MergeDocsValues(m, docs);
  }

  /** A document that is the only one with its id among those merged ends up under its id. */
  lemma {:induction false} MergeDocsUnique(m: map<Id, Event>, docs: seq<Event>, d: Event)
    requires forall e :: e in docs && KeyOf(e) == KeyOf(d) ==> e == d
    requires d in docs || (KeyOf(d) in m && m[KeyOf(d)] == d)
    ensures KeyOf(d) in MergeDocs(m, docs) && MergeDocs(m, docs)[KeyOf(d)] == d
  {
    if docs != [] {
      var init, last := docs[..|docs| - 1], docs[|docs| - 1];
      if KeyOf(last) != KeyOf(d) {
        assert docs == init + [last];
        MergeDocsUnique(m, init, d);
      }
    }
  }

  /** Each flattened document comes from one of the returned collections. */
  lemma {:induction false} FlattenFrom(collections: seq<Option<seq<Event>>>, e: Event)
    requires e in Flatten(collections)
    ensures exists i :: 0 <= i < |collections| && collections[i].Some? && e in collections[i].value
  {
    var n := |collections| - 1;
    var last := collections[n];
    if e !in (if last.Some? then last.value else []) {
      FlattenFrom(collections[..n], e);
      var i :| 0 <= i < n && collections[..n][i].Some? && e in collections[..n][i].value;
      assert collections[i] == collections[..n][i];
    }
  }

  /** A fetch caches nothing but documents of the store. */
  lemma FetchedDocsStored(fetched: set<CollectionName>, collections: map<CollectionName, seq<Event>>,
                          team: string, start: Date, end: Date, e: Event)
    requires e in FetchedDocs(fetched, collections, team, start, end)
    ensures Stored(collections, e)
  {
    var queried := ToFetch(MonthCollections(team, start, end), fetched);
    var answers := Lookup(collections, queried);
    if e in Flatten(answers) {
      FlattenFrom(answers, e);
      var i :| 0 <= i < |answers| && answers[i].Some? && e in answers[i].value;
      assert queried[i] in collections && e in collections[queried[i]];
    } else {
      assert team in collections && e in collections[team];
    }
  }

  /**
   * After a fetch every document of every collection it read is cached under
   * its own id, and it is the one cached there when no other fetched document
   * has that id.
   */
  lemma FetchedCacheHoldsQueried(m: map<Id, Event>, fetched: set<CollectionName>,
                                 collections: map<CollectionName, seq<Event>>,
                                 team: string, start: Date, end: Date, name: CollectionName, d: Event)
    requires name in MonthCollections(team, start, end) && name !in fetched
    requires name in collections && d in collections[name]
    ensures KeyOf(d) in FetchedCache(m, fetched, collections, team, start, end)
    ensures (forall e :: e in FetchedDocs(fetched, collections, team, start, end) && KeyOf(e) == KeyOf(d) ==> e == d)
            ==> FetchedCache(m, fetched, collections, team, start, end)[KeyOf(d)] == d
  {
    var queried := ToFetch(MonthCollections(team, start, end), fetched);
    var i :| 0 <= i < |queried| && queried[i] == name;
    var answers := Lookup(collections, queried);
    FlattenContains(answers, i, d);
    var docs := FetchedDocs(fetched, collections, team, start, end);
    assert d in docs;
    FetchedCacheIsMerge(m, fetched, collections, team, start, end);
    MergeDocsKeys(m, docs);
    assert KeyOf(d) in KeysOf(docs);
    if forall e :: e in docs && KeyOf(e) == KeyOf(d) ==> e == d {
      MergeDocsUnique(m, docs, d);
    }
  }

  /**
   * An event that is cached and is the only document the store holds with its
   * id stays cached under that id across every later fetch.
   */
  lemma FetchedCacheKeepsUnique(m: map<Id, Event>, fetched: set<CollectionName>,
                                collections: map<CollectionName, seq<Event>>,
                                team: string, start: Date, end: Date, d: Event)
    requires KeyOf(d) in m && m[KeyOf(d)] == d
    requires SoleWithId(collections, d)
    ensures KeyOf(d) in FetchedCache(m, fetched, collections, team, start, end)
    ensures FetchedCache(m, fetched, collections, team, start, end)[KeyOf(d)] == d
  {
    var docs := FetchedDocs(fetched, collections, team, start, end);
    forall e | e in docs && KeyOf(e) == KeyOf(d)
      ensures e == d
    {
      FetchedDocsStored(fetched, collections, team, start, end, e);
    }
    FetchedCacheIsMerge(m, fetched, collections, team, start, end);
    MergeDocsUnique(m, docs, d);
  }

  /**
   * The add-then-fetch round trip: an event addEvent cached, which the store
   * holds under its id and nowhere else, is what a later getEvents leaves
   * under that id, its category reduced to a name when its dates parse.
   */
  lemma AddedEventAfterFetch(m: map<Id, Event>, fetched: set<CollectionName>,
                             collections: map<CollectionName, seq<Event>>,
                             team: string, start: Date, end: Date, d: Event)
    requires KeyOf(d) in m && m[KeyOf(d)] == d
    requires SoleWithId(collections, d)
    ensures var cached := FetchedCache(m, fetched, collections, team, start, end);
            && KeyOf(d) in NormalizeShown(cached, cached.Keys)
            && NormalizeShown(cached, cached.Keys)[KeyOf(d)] == if Shown(d) then Normalized(d) else d
  {
    FetchedCacheKeepsUnique(m, fetched, collections, team, start, end, d);
  }

  /** Every id cached after a fetch was cached before or is the id of a stored document. */
  lemma FetchedCacheKeysStored(m: map<Id, Event>, fetched: set<CollectionName>,
                               collections: map<CollectionName, seq<Event>>,
                               team: string, start: Date, end: Date, k: Id)
    requires k in FetchedCache(m, fetched, collections, team, start, end)
    ensures k in m || exists e :: Stored(collections, e) && KeyOf(e) == k
  {
    var docs := FetchedDocs(fetched, collections, team, start, end);
    FetchedCacheIsMerge(m, fetched, collections, team, start, end);
    MergeDocsKeys(m, docs);
    if k !in m {
      var e :| e in docs && KeyOf(e) == k;
      FetchedDocsStored(fetched, collections, team, start, end, e);
    }
  }

  /** A fetch caches no id the store has still to issue, when neither the cache nor the store held one. */
  lemma FetchedCacheFresh(m: map<Id, Event>, fetched: set<CollectionName>,
                          collections: map<CollectionName, seq<Event>>,
                          team: string, start: Date, end: Date, n: nat)
    requires KeysFresh(m, n) && StoreFresh(collections, n)
    ensures KeysFresh(FetchedCache(m, fetched, collections, team, start, end), n)
  {
    forall k | k in FetchedCache(m, fetched, collections, team, start, end)
      ensures !IssuedFrom(k, n)
    {
      FetchedCacheKeysStored(m, fetched, collections, team, start, end, k);
    }
  }

  /**
   * A fetch of [start, end] brings in every document stored in the shard of a
   * month of the range, when that shard was not fetched before.
   */
  lemma StoredEventCached(m: map<Id, Event>, fetched: set<CollectionName>,
                          collections: map<CollectionName, seq<Event>>,
                          team: string, start: Date, end: Date, d: Event)
    requires ValidDate(start) && ValidDate(end) && IsParsed(d.startDate)
    requires OnOrBefore(start, d.startDate.value) && OnOrBefore(d.startDate.value, end)
    requires StampCollection(team, d.startDate) !in fetched
    requires StampCollection(team, d.startDate) in collections && d in collections[StampCollection(team, d.startDate)]
    ensures KeyOf(d) in FetchedCache(m, fetched, collections, team, start, end)
  {
    MonthCollectionsCover(team, start, end, d.startDate.value);
    FetchedCacheHoldsQueried(m, fetched, collections, team, start, end, StampCollection(team, d.startDate), d);
  }

  // ---------------------------------------------------------------- projection for display

  /** The title of a category, plain or structured. */
  function CategoryTitle(c: Category): string {
    match c
    case Name(n) => n
    case Structured(t, _) => t
  }

  /** Whether a category title is added to the known categories: all but "Uncategorized". */
  predicate Registers(title: string) {
    title != Uncategorized
  }

  /** The category an event is shown under: its title, or "Uncategorized" when empty. */
  function CategoryOf(e: Event): (c: string)
    ensures c != ""
    ensures CategoryTitle(e.category) != "" ==> c == CategoryTitle(e.category)
    ensures CategoryTitle(e.category) == "" ==> c == Uncategorized
  {
    var t := CategoryTitle(e.category);
    if t == "" then Uncategorized else t
  }

  /** The event with its category reduced to the plain name it is shown under. */
  function Normalized(e: Event): (r: Event)
    ensures r.id == e.id && r.startDate == e.startDate && r.endDate == e.endDate
    ensures r.title == e.title && r.description == e.description
    ensures r.category == Name(CategoryOf(e)) && CategoryOf(r) == CategoryOf(e)
  {
    e.(category := Name(CategoryOf(e)))
  }

  /** A stored date text that parses to a date. */
  predicate IsParsed(stamp: Option<Date>) {
    stamp.Some? && ValidDate(stamp.value)
  }

  /**
   * The test the source writes, `Date.parse(text)` used as a boolean: also false
   * for the instant 0, which is how 1970-01-01 is stored.
   */
  predicate IsParsedAsWritten(stamp: Option<Date>) {
    IsParsed(stamp) && stamp.value != Epoch
  }

  /** An event whose start and end both parse (others are skipped silently). */
  predicate Shown(e: Event) {
    IsParsed(e.startDate) && IsParsed(e.endDate)
  }

  predicate ShownAsWritten(e: Event) {
    IsParsedAsWritten(e.startDate) && IsParsedAsWritten(e.endDate)
  }

  predicate InWindow(d: Date, calendarStart: Date, calendarEnd: Date) {
    OnOrBefore(calendarStart, d) && OnOrBefore(d, calendarEnd)
  }

  /** Displayed: dates parse, and the start or the end lies in [calendarStart, calendarEnd]. */
  predicate Included(e: Event, calendarStart: Date, calendarEnd: Date) {
    && Shown(e)
    && (InWindow(e.startDate.value, calendarStart, calendarEnd)
        || InWindow(e.endDate.value, calendarStart, calendarEnd))
  }

  /** A display record (FullCalendar EventInput). */
  datatype EventInput = EventInput(
    id: string,
    allDay: bool,
    editable: bool,
    start: Date,
    end: Date,
    title: string,
    color: string,
    category: string,
    description: string,
    eventId: Option<Id>)

  /** The display record of an event: all-day, editable, with an exclusive end one day after its end. */
  function Display(e: Event, generateColor: string -> string): (r: EventInput)
    requires Shown(e)
    ensures r.id == FreeFormId + "." + KeyOf(e) && r.eventId == e.id
    ensures r.allDay && r.editable
    ensures r.start == e.startDate.value && ValidDate(r.end) && PrevDay(r.end) == e.endDate.value
    ensures r.category == CategoryOf(e) && r.color == generateColor(CategoryOf(e))
    ensures r.title == e.title && r.description == e.description
  {
    PrevDayOfNextDay(e.endDate.value);
    var c := CategoryOf(e);
    EventInput(FreeFormId + "." + KeyOf(e), true, true, e.startDate.value, NextDay(e.endDate.value),
               e.title, generateColor(c), c, e.description, e.id)
  }

  /** Per-category summary (IEventCategory). */
  datatype CategorySummary = CategorySummary(color: string, eventCount: nat, subTitle: string, title: string)

  /** The final subtitle rule: a category with more than one event reads "<n> events". */
  function WithCountSubtitle(s: CategorySummary): (r: CategorySummary)
    ensures r.title == s.title && r.color == s.color && r.eventCount == s.eventCount
    ensures s.eventCount > 1 ==> r.subTitle == NatToString(s.eventCount) + " events"
    ensures s.eventCount <= 1 ==> r.subTitle == s.subTitle
  {
    if s.eventCount > 1 then s.(subTitle := NatToString(s.eventCount) + " events") else s
  }

  /** The tally with the final subtitle rule applied to every category. */
  function WithCountSubtitles(tally: map<string, CategorySummary>): map<string, CategorySummary> {
    map c | c in tally :: WithCountSubtitle(tally[c])
  }

  /** The number of display records of category `c`. */
  function CountCategory(inputs: seq<EventInput>, c: string): nat {
    if inputs == [] then 0
    else
      var last := inputs[|inputs| - 1];
      CountCategory(inputs[..|inputs| - 1], c) + (if last.category == c then 1 else 0)
  }

  /** The categories of the display records. */
  function CategoriesShown(inputs: seq<EventInput>): set<string> {
    set x | x in inputs :: x.category
  }

  /**
   * The names every plain object inherits from `Object.prototype`. Looking
   * one of them up in the tally object finds the inherited member, which is
   * truthy, so no own entry is ever made for it.
   */
  const InheritedNames: set<string> := {
    "constructor", "hasOwnProperty", "isPrototypeOf", "propertyIsEnumerable",
    "toLocaleString", "toString", "valueOf", "__defineGetter__", "__defineSetter__",
    "__lookupGetter__", "__lookupSetter__", "__proto__"
  }

  /**
   * The categories the summary lists as written: `Object.keys` of the tally
   * object, which misses every category named after an inherited member.
   */
  function SummaryCategoriesAsWritten(inputs: seq<EventInput>): (r: set<string>)
    ensures forall c :: c in r <==> c in CategoriesShown(inputs) && c !in InheritedNames
  {
    CategoriesShown(inputs) - InheritedNames
  }

  /** Finding: as written, a category named "constructor" has a record but no summary entry. */
  lemma InheritedCategoryDroppedAsWritten(x: EventInput)
    requires x.category == "constructor"
    ensures x.category in CategoriesShown([x]) && x.category !in SummaryCategoriesAsWritten([x])
  {
    assert x in [x];
  }

  /** One more record counts under its own category only. */
  lemma CountCategoryStep(inputs: seq<EventInput>, x: EventInput)
    ensures forall c :: CountCategory(inputs + [x], c) == CountCategory(inputs, c) + (if x.category == c then 1 else 0)
    ensures CategoriesShown(inputs + [x]) == CategoriesShown(inputs) + {x.category}
  {
    assert (inputs + [x])[..|inputs|] == inputs;
    CategoriesShownStep(inputs, x);
  }

  /** One more record adds its category to the categories shown. */
  lemma CategoriesShownStep(inputs: seq<EventInput>, x: EventInput)
    ensures CategoriesShown(inputs + [x]) == CategoriesShown(inputs) + {x.category}
  {
    assert x in inputs + [x];
  }

  /** A category is counted exactly when some record has it. */
  lemma {:induction false} CountCategoryPositive(inputs: seq<EventInput>, c: string)
    ensures CountCategory(inputs, c) > 0 <==> c in CategoriesShown(inputs)
  {
    if inputs != [] {
      var init, last := inputs[..|inputs| - 1], inputs[|inputs| - 1];
      CountCategoryPositive(init, c);
      assert inputs == init + [last];
      CountCategoryStep(init, last);
    }
  }

  /** The cache after the projection: events whose dates parse carry their normalized category. */
  function NormalizeShown(m: map<Id, Event>, ids: set<Id>): map<Id, Event> {
    map k | k in m :: if k in ids && Shown(m[k]) then Normalized(m[k]) else m[k]
  }

  /** Category titles the projection registers: those of parseable events, except "Uncategorized". */
  function RegisteredTitles(m: map<Id, Event>, ids: set<Id>): set<string> {
    set k | k in ids && k in m && Shown(m[k]) && Registers(CategoryTitle(m[k].category))
          :: CategoryTitle(m[k].category)
  }

  function VisibleIds(m: map<Id, Event>, ids: set<Id>, calendarStart: Date, calendarEnd: Date): set<Id> {
    set k | k in ids && k in m && Included(m[k], calendarStart, calendarEnd)
  }

  /** "Uncategorized" is never a registered title. */
  lemma UncategorizedNeverRegistered(m: map<Id, Event>, ids: set<Id>)
    ensures Uncategorized !in RegisteredTitles(m, ids)
  {
  }

  /** Normalizing is idempotent: a second projection changes no cached event. */
  lemma NormalizeShownIdempotent(m: map<Id, Event>)
    ensures NormalizeShown(NormalizeShown(m, m.Keys), m.Keys) == NormalizeShown(m, m.Keys)
  {
    var n := NormalizeShown(m, m.Keys);
    forall k | k in n ensures NormalizeShown(n, m.Keys)[k] == n[k] {
      if Shown(m[k]) {
        assert Normalized(Normalized(m[k])) == Normalized(m[k]);
      }
    }
  }

  /**
   * With the exclusive end of the displayed range (`arg.end`) turned into the
   * inclusive calendarEnd, an event is included iff its start or end lies in
   * [calendarStart, arg.end).
   */
  lemma IncludedWithExclusiveEnd(e: Event, calendarStart: Date, rangeEnd: Date)
    requires ValidDate(calendarStart) && ValidDate(rangeEnd)
    ensures Included(e, calendarStart, PrevDay(rangeEnd)) <==>
      && Shown(e)
      && ((OnOrBefore(calendarStart, e.startDate.value) && Before(e.startDate.value, rangeEnd))
          || (OnOrBefore(calendarStart, e.endDate.value) && Before(e.endDate.value, rangeEnd)))
  {
  }

  /** The inclusion rule shows an event whose end, but not start, lies in the window. */
  lemma EndInWindowIncluded(e: Event, calendarStart: Date, calendarEnd: Date)
    requires Shown(e) && InWindow(e.endDate.value, calendarStart, calendarEnd)
    ensures Included(e, calendarStart, calendarEnd)
  {
  }

  /** An event spanning the whole window with both ends outside it is not shown (the source's policy). */
  lemma SpanningEventExcluded(e: Event, calendarStart: Date, calendarEnd: Date)
    requires Shown(e)
    requires Before(e.startDate.value, calendarStart) && Before(calendarEnd, e.endDate.value)
    ensures !Included(e, calendarStart, calendarEnd)
  {
  }

  /** Finding: as written, an event on 1970-01-01 is skipped although its dates parse. */
  lemma EpochEventHiddenAsWritten()
    ensures var e := Event(Some("e"), "t", "", Some(Epoch), Some(Epoch), Name("c"));
            Included(e, Epoch, Epoch) && !ShownAsWritten(e)
  {
    assert ValidDate(Epoch);
  }

  /** Corrected: every event whose dates parse and whose start lies in the window is displayed. */
  lemma ParsedEventInWindowIncluded(e: Event, calendarStart: Date, calendarEnd: Date)
    requires IsParsed(e.startDate) && IsParsed(e.endDate)
    requires InWindow(e.startDate.value, calendarStart, calendarEnd)
    ensures Included(e, calendarStart, calendarEnd)
  {
  }

  // Steps used by the projection loop.

  lemma NormalizeShownGrow(m: map<Id, Event>, done: set<Id>, id: Id)
    requires id in m && id !in done
    ensures NormalizeShown(m, done + {id}) ==
      NormalizeShown(m, done)[id := if Shown(m[id]) then Normalized(m[id]) else m[id]]
  {
  }

  lemma RegisteredGrow(m: map<Id, Event>, done: set<Id>, id: Id)
    requires id in m && id !in done
    ensures RegisteredTitles(m, done + {id}) ==
      RegisteredTitles(m, done)
      + (if Shown(m[id]) && Registers(CategoryTitle(m[id].category)) then {CategoryTitle(m[id].category)} else {})
  {
  }

  lemma VisibleGrow(m: map<Id, Event>, done: set<Id>, id: Id, calendarStart: Date, calendarEnd: Date)
    requires id in m && id !in done
    ensures VisibleIds(m, done + {id}, calendarStart, calendarEnd) ==
      VisibleIds(m, done, calendarStart, calendarEnd) + (if Included(m[id], calendarStart, calendarEnd) then {id} else {})
  {
  }
}
