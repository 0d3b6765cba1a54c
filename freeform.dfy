/**
 * The free-form event source of the team calendar (FreeFormEventsSource): a
 * cache of the team's events, keyed by id, over the extension data store, in
 * which events live in one collection per team and month.
 */
module FreeForm {
  import opened Wrappers
  import opened Text
  import opened Calendar
  import opened Events
  import opened EventCache
  import opened Migration

  /**
   * What a projection of the ids `ids` displays: one record per event among
   * them that is included in [calendarStart, calendarEnd], each once; `order`
   * is the id behind each record.
   */
  ghost predicate DisplayedAs(m: map<Id, Event>, ids: set<Id>, calendarStart: Date, calendarEnd: Date,
                              generateColor: string -> string, inputs: seq<EventInput>, order: seq<Id>)
  {
    && |inputs| == |order|
    && (forall i, j :: 0 <= i < j < |order| ==> order[i] != order[j])
    && (forall i :: 0 <= i < |order| ==>
          order[i] in VisibleIds(m, ids, calendarStart, calendarEnd)
          && inputs[i] == Display(m[order[i]], generateColor))
    && (forall k :: k in VisibleIds(m, ids, calendarStart, calendarEnd) ==> k in order)
  }

  /**
   * The category counts while the display records `inputs` are tallied: per
   * category its colour, its number of records and, as subtitle, the title of
   * the first of them (the record at index `first`).
   */
  ghost predicate Tallied(inputs: seq<EventInput>, generateColor: string -> string,
                          tally: map<string, CategorySummary>, first: map<string, nat>)
  {
    && tally.Keys == CategoriesShown(inputs)
    && first.Keys == tally.Keys
    && forall c :: c in tally ==> c in first && TallyEntry(inputs, generateColor, c, tally[c], first[c])
  }

  /** The count of category `c`, whose first record is at index `f`. */
  ghost predicate TallyEntry(inputs: seq<EventInput>, generateColor: string -> string, c: string, entry: CategorySummary, f: nat)
  {
    && entry.title == c && entry.color == generateColor(c)
    && entry.eventCount == CountCategory(inputs, c)
    && f < |inputs| && inputs[f].category == c && entry.subTitle == inputs[f].title
  }

  /**
   * What a projection summarizes: one entry per category of the display
   * records, with its colour, its number of records and, as subtitle,
   * "<n> events" or the title of its one record.
   */
  ghost predicate SummarizedAs(inputs: seq<EventInput>, generateColor: string -> string, summary: map<string, CategorySummary>)
  {
    && summary.Keys == CategoriesShown(inputs)
    && forall c :: c in summary ==>
         var s := summary[c];
         && s.title == c && s.color == generateColor(c)
         && s.eventCount == CountCategory(inputs, c)
         && (s.eventCount > 1 ==> s.subTitle == NatToString(s.eventCount) + " events")
         && (s.eventCount == 1 ==> exists i :: 0 <= i < |inputs| && inputs[i].category == c && s.subTitle == inputs[i].title)
  }

  /** Visiting one more id displays its event exactly when it is included. */
  lemma DisplayedGrow(m: map<Id, Event>, done: set<Id>, calendarStart: Date, calendarEnd: Date,
                      generateColor: string -> string, inputs: seq<EventInput>, order: seq<Id>, id: Id)
    requires DisplayedAs(m, done, calendarStart, calendarEnd, generateColor, inputs, order)
    requires id in m && id !in done
    ensures Included(m[id], calendarStart, calendarEnd) ==>
      DisplayedAs(m, done + {id}, calendarStart, calendarEnd, generateColor,
                  inputs + [Display(m[id], generateColor)], order + [id])
    ensures !Included(m[id], calendarStart, calendarEnd) ==>
      DisplayedAs(m, done + {id}, calendarStart, calendarEnd, generateColor, inputs, order)
  {
    VisibleGrow(m, done, id, calendarStart, calendarEnd);
  }

  /** Counting a record of a category not seen yet starts its entry, with the record's title as subtitle. */
  lemma TalliedGrowNew(inputs: seq<EventInput>, generateColor: string -> string,
                       tally: map<string, CategorySummary>, first: map<string, nat>, x: EventInput)
    requires Tallied(inputs, generateColor, tally, first)
    requires x.category !in tally && x.color == generateColor(x.category)
    ensures Tallied(inputs + [x], generateColor,
                    tally[x.category := CategorySummary(x.color, 1, x.title, x.category)], first[x.category := |inputs|])
  {
    var xs, c0 := inputs + [x], x.category;
    var tally', first' := tally[c0 := CategorySummary(x.color, 1, x.title, c0)], first[c0 := |inputs|];
    CategoriesShownStep(inputs, x);
    assert tally'.Keys == tally.Keys + {c0} == first'.Keys;
    forall c | c in tally'
      ensures c in first' && TallyEntry(xs, generateColor, c, tally'[c], first'[c])
    {
      if c == c0 {
        TallyEntryOpen(inputs, generateColor, x);
      } else {
        TallyEntryGrow(inputs, generateColor, c, tally[c], first[c], x);
      }
    }
  }

  /** The entry a record of a category not seen yet opens. */
  lemma TallyEntryOpen(inputs: seq<EventInput>, generateColor: string -> string, x: EventInput)
    requires x.category !in CategoriesShown(inputs) && x.color == generateColor(x.category)
    ensures TallyEntry(inputs + [x], generateColor, x.category, CategorySummary(x.color, 1, x.title, x.category), |inputs|)
  {
    CountCategoryStep(inputs, x);
    CountCategoryPositive(inputs, x.category);
    assert (inputs + [x])[|inputs|] == x;
  }

  /** Counting a record of a category seen before adds one to its count. */
  lemma TalliedGrowExisting(inputs: seq<EventInput>, generateColor: string -> string,
                            tally: map<string, CategorySummary>, first: map<string, nat>, x: EventInput)
    requires Tallied(inputs, generateColor, tally, first)
    requires x.category in tally
    ensures Tallied(inputs + [x], generateColor,
                    tally[x.category := tally[x.category].(eventCount := tally[x.category].eventCount + 1)], first)
  {
    CategoriesShownStep(inputs, x);
    TallyEntriesGrow(inputs, generateColor, tally, first, x);
  }

  /** The entries of TalliedGrowExisting, one category at a time. */
  lemma TallyEntriesGrow(inputs: seq<EventInput>, generateColor: string -> string,
                         tally: map<string, CategorySummary>, first: map<string, nat>, x: EventInput)
    requires forall c :: c in tally ==> c in first && TallyEntry(inputs, generateColor, c, tally[c], first[c])
    requires x.category in tally
    ensures var tally' := tally[x.category := tally[x.category].(eventCount := tally[x.category].eventCount + 1)];
            forall c :: c in tally' ==> c in first && TallyEntry(inputs + [x], generateColor, c, tally'[c], first[c])
  {
    var tally' := tally[x.category := tally[x.category].(eventCount := tally[x.category].eventCount + 1)];
    forall c | c in tally'
      ensures c in first && TallyEntry(inputs + [x], generateColor, c, tally'[c], first[c])
    {
      TallyEntryGrow(inputs, generateColor, c, tally[c], first[c], x);
    }
  }

  /** One more record keeps an entry, its count growing when the record is of its category. */
  lemma TallyEntryGrow(inputs: seq<EventInput>, generateColor: string -> string, c: string, entry: CategorySummary, f: nat,
                       x: EventInput)
    requires TallyEntry(inputs, generateColor, c, entry, f)
    ensures TallyEntry(inputs + [x], generateColor, c,
                       if x.category == c then entry.(eventCount := entry.eventCount + 1) else entry, f)
  {
    CountCategoryStep(inputs, x);
    assert (inputs + [x])[f] == inputs[f];
  }

  /** The finished tally, with the count subtitles, is the summary. */
  lemma TallyToSummary(inputs: seq<EventInput>, generateColor: string -> string,
                       tally: map<string, CategorySummary>, first: map<string, nat>)
    requires Tallied(inputs, generateColor, tally, first)
    ensures SummarizedAs(inputs, generateColor, WithCountSubtitles(tally))
  {
    var summary := WithCountSubtitles(tally);
    forall c | c in summary
      ensures summary[c].eventCount == 1 ==>
        exists i :: 0 <= i < |inputs| && inputs[i].category == c && summary[c].subTitle == inputs[i].title
    {
      assert TallyEntry(inputs, generateColor, c, tally[c], first[c]);
    }
  }

  /**
   * The state of the projection loop once the ids `done` have been visited:
   * the cache `m` and the categories `cats` are those of the original cache
   * `m0` normalized and registered over `done`, the records are those of the
   * included events among `done`, and they are tallied.
   */
  ghost predicate Projected(m0: map<Id, Event>, done: set<Id>, categories0: set<string>,
                            calendarStart: Date, calendarEnd: Date, generateColor: string -> string,
                            m: map<Id, Event>, cats: set<string>, inputs: seq<EventInput>, order: seq<Id>,
                            tally: map<string, CategorySummary>, first: map<string, nat>)
  {
    && m == NormalizeShown(m0, done)
    && cats == categories0 + RegisteredTitles(m0, done)
    && DisplayedAs(m0, done, calendarStart, calendarEnd, generateColor, inputs, order)
    && Tallied(inputs, generateColor, tally, first)
  }

  /** Projecting one more cached event, as the forEach callback does, keeps the loop state. */
  lemma ProjectedStep(m0: map<Id, Event>, done: set<Id>, categories0: set<string>,
                      calendarStart: Date, calendarEnd: Date, generateColor: string -> string,
                      m: map<Id, Event>, cats: set<string>, inputs: seq<EventInput>, order: seq<Id>,
                      tally: map<string, CategorySummary>, first: map<string, nat>, id: Id,
                      m': map<Id, Event>, cats': set<string>, inputs': seq<EventInput>, order': seq<Id>,
                      tally': map<string, CategorySummary>, first': map<string, nat>)
    requires Projected(m0, done, categories0, calendarStart, calendarEnd, generateColor, m, cats, inputs, order, tally, first)
    requires id in m0 && id !in done
    requires var e := m[id];
             && m' == m[id := if Shown(e) then Normalized(e) else e]
             && cats' == cats + (if Shown(e) && Registers(CategoryTitle(e.category)) then {CategoryTitle(e.category)} else {})
             && inputs' == inputs + (if Included(e, calendarStart, calendarEnd) then [Display(e, generateColor)] else [])
    requires order' == order + (if Included(m0[id], calendarStart, calendarEnd) then [id] else [])
    requires Tallied(inputs', generateColor, tally', first')
    ensures Projected(m0, done + {id}, categories0, calendarStart, calendarEnd, generateColor,
                      m', cats', inputs', order', tally', first')
  {
    assert m[id] == m0[id];
    NormalizeShownGrow(m0, done, id);
    RegisteredGrow(m0, done, id);
    DisplayedGrow(m0, done, calendarStart, calendarEnd, generateColor, inputs, order, id);
  }

  /**
   * Once every id is visited, the loop state gives what getEvents promises:
   * the cache stays keyed, "Uncategorized" stays unregistered, and the tally
   * with the count subtitles is the summary.
   */
  lemma ProjectedComplete(m0: map<Id, Event>, categories0: set<string>,
                          calendarStart: Date, calendarEnd: Date, generateColor: string -> string,
                          m: map<Id, Event>, cats: set<string>, inputs: seq<EventInput>, order: seq<Id>,
                          tally: map<string, CategorySummary>, first: map<string, nat>)
    requires CacheKeyed(m0) && Uncategorized !in categories0
    requires Projected(m0, m0.Keys, categories0, calendarStart, calendarEnd, generateColor, m, cats, inputs, order, tally, first)
    ensures CacheKeyed(m) && Uncategorized !in cats
    ensures m == NormalizeShown(m0, m0.Keys)
    ensures cats == categories0 + RegisteredTitles(m0, m0.Keys)
    ensures DisplayedAs(m0, m0.Keys, calendarStart, calendarEnd, generateColor, inputs, order)
    ensures SummarizedAs(inputs, generateColor, WithCountSubtitles(tally))
  {
    TallyToSummary(inputs, generateColor, tally, first);
    UncategorizedNeverRegistered(m0, m0.Keys);
  }

  /** The cached event with the fields updateEvent overwrites. */
  function Revised(e: Event, title: string, startDate: Date, endDate: Date, category: Category, description: string): Event {
    e.(category := category, description := description, endDate := Some(endDate), startDate := Some(startDate), title := title)
  }

  class FreeFormEventsSource {
    var categories: set<string>
    var dataManager: DocumentStore?
    var eventMap: map<Id, Event>
    var fetchedCollections: set<CollectionName>
    var selectedTeamId: string
    var summaryData: map<string, CategorySummary>

    /** Every cached event sits under its own id, and "Uncategorized" is never a registered category. */
    ghost predicate Valid()
      reads this
    {
      && CacheKeyed(eventMap)
      && Uncategorized !in categories
    }

    /** No id the store has still to issue is stored or cached. */
    ghost predicate IdsFresh()
      requires dataManager != null
      reads this, dataManager
    {
      && dataManager.Fresh()
      && KeysFresh(eventMap, dataManager.issued)
    }

    constructor ()
      ensures Valid()
      ensures categories == {} && dataManager == null && eventMap == map[]
      ensures fetchedCollections == {} && selectedTeamId == "" && summaryData == map[]
    {
      categories := {};
      dataManager := null;
      eventMap := map[];
      fetchedCollections := {};
      selectedTeamId := "";
      summaryData := map[];
    }

    /** Switch to a team: clears the cache, the categories and the fetch memo. */
    method Initialize(teamId: string, manager: DocumentStore)
      modifies this
      ensures Valid()
      ensures selectedTeamId == teamId && dataManager == manager
      ensures eventMap == map[] && categories == {} && fetchedCollections == {}
      ensures summaryData == old(summaryData)
      ensures manager.Fresh() ==> IdsFresh()
    {
      selectedTeamId := teamId;
      dataManager := manager;
      eventMap := map[];
      categories := {};
      fetchedCollections := {};
    }

    /** The registered category titles. */
    method GetCategories() returns (r: set<string>)
      requires Valid()
      ensures r == categories && Uncategorized !in r
    {
      r := categories;
    }

    /**
     * addEvent: store a new event in the collection of its start month, register
     * its category title, and cache the document the store returns.
     */
    method AddEvent(title: string, startDate: Date, endDate: Date, category: Category, description: string)
      returns (added: Event)
      requires Valid() && dataManager != null
      requires ValidDate(startDate) && ValidDate(endDate)
      modifies this`categories, this`eventMap, dataManager
      ensures Valid()
      ensures added == WithId(Event(None, title, description, Some(startDate), Some(endDate), Name(CategoryTitle(category))),
                              old(dataManager.issued))
      ensures categories == old(categories) + (if Registers(CategoryTitle(category)) then {CategoryTitle(category)} else {})
      ensures dataManager.collections ==
        old(dataManager.collections)[MonthCollection(selectedTeamId, startDate) :=
          Upsert(DocsIn(old(dataManager.collections), MonthCollection(selectedTeamId, startDate)), added)]
      ensures eventMap == old(eventMap)[KeyOf(added) := added]
      ensures dataManager.issued == old(dataManager.issued) + 1
      ensures old(IdsFresh()) ==> IdsFresh() && KeyOf(added) !in old(eventMap)
      ensures old(IdsFresh()) ==> SoleWithId(dataManager.collections, added)
    {
      ghost var wasFresh := IdsFresh();
      var event := Event(None, title, description, Some(startDate), Some(endDate), category);
      var name := CategoryTitle(event.category);
      event := event.(category := Name(name));
      if Registers(name) {
        categories := categories + {name};
      }
      var collection := selectedTeamId + "." + MonthLabel(startDate);
      added := dataManager.CreateDocument(collection, event);
      eventMap := eventMap[KeyOf(added) := added];
      if wasFresh {
        assert IdsFresh() && KeyOf(added) !in old(eventMap) && SoleWithId(dataManager.collections, added) by {
          CreateKeepsFresh(old(dataManager.collections), old(dataManager.issued), collection, event);
          KeysFreshUpdate(old(eventMap), old(dataManager.issued), dataManager.issued, KeyOf(added), added);
        }
      }
    }

    /** deleteEvent: drop the event from the cache and from the collection of `startDate`'s month. */
    method DeleteEvent(eventId: Id, startDate: Date)
      requires Valid() && dataManager != null && ValidDate(startDate)
      modifies this`eventMap, dataManager`collections
      ensures Valid()
      ensures eventMap == old(eventMap) - {eventId}
      ensures var name := MonthCollection(selectedTeamId, startDate);
              dataManager.collections ==
                if name in old(dataManager.collections)
                then old(dataManager.collections)[name := RemoveId(old(dataManager.collections)[name], eventId)]
                else old(dataManager.collections)
      ensures old(IdsFresh()) ==> IdsFresh()
    {
      if IdsFresh() {
        DeleteKeepsFresh(dataManager.collections, dataManager.issued, selectedTeamId + "." + MonthLabel(startDate), eventId);
      }
      eventMap := eventMap - {eventId};
      dataManager.DeleteDocument(selectedTeamId + "." + MonthLabel(startDate), eventId);
    }

    /**
     * updateEvent: revise the cached event `id`, then either update it in its
     * collection (its month is unchanged) or delete it from its old month's
     * collection and create it in the new one. Fails when `id` is not cached.
     */
    method UpdateEvent(id: Id, title: string, startDate: Date, endDate: Date, category: Category, description: string)
      returns (r: Result<Event, string>)
      requires Valid() && dataManager != null
      requires ValidDate(startDate) && ValidDate(endDate)
      modifies this`eventMap, dataManager
      ensures Valid()
      ensures r.Failure? <==> id !in old(eventMap)
      ensures r.Failure? ==>
        && eventMap == old(eventMap)
        && dataManager.collections == old(dataManager.collections) && dataManager.issued == old(dataManager.issued)
      ensures r.Success? ==>
        var revised := Revised(old(eventMap)[id], title, startDate, endDate, category, description);
        var from := StampCollection(selectedTeamId, old(eventMap)[id].startDate);
        var to := MonthCollection(selectedTeamId, startDate);
        && r.value == (if from == to then revised else WithId(revised, old(dataManager.issued)))
        && eventMap == old(eventMap)[id := revised][KeyOf(r.value) := r.value]
        && dataManager.collections ==
             if from == to then old(dataManager.collections)[to := Upsert(DocsIn(old(dataManager.collections), to), revised)]
             else Move(old(dataManager.collections), from, to, id, r.value)
      ensures dataManager.issued ==
        if r.Success? && old(eventMap)[id].id.None?
           && StampCollection(selectedTeamId, old(eventMap)[id].startDate) != MonthCollection(selectedTeamId, startDate)
        then old(dataManager.issued) + 1 else old(dataManager.issued)
      ensures old(IdsFresh()) ==> IdsFresh()
    {
      ghost var wasFresh := IdsFresh();
      if id !in eventMap {
        return Failure("TypeError: the event is not cached");
      }
      var oldEvent := eventMap[id];
      var oldStartDate := oldEvent.startDate;
      oldEvent := Revised(oldEvent, title, startDate, endDate, category, description);
      assert KeyOf(oldEvent) == id;
      ghost var issued := dataManager.issued;
      if wasFresh {
        KeysFreshUpdate(eventMap, issued, issued, id, oldEvent);
      }
      eventMap := eventMap[id := oldEvent];
      var collectionNameOld := StampCollection(selectedTeamId, oldStartDate);
      var collectionNameNew := selectedTeamId + "." + MonthLabel(startDate);
      var updated;
      if collectionNameOld == collectionNameNew {
        if wasFresh {
          UpdateKeepsFresh(dataManager.collections, issued, collectionNameNew, oldEvent);
        }
        updated := dataManager.UpdateDocument(collectionNameNew, oldEvent);
      } else {
        if wasFresh {
          DeleteKeepsFresh(dataManager.collections, issued, collectionNameOld, KeyOf(oldEvent));
        }
        dataManager.DeleteDocument(collectionNameOld, KeyOf(oldEvent));
        if wasFresh {
          CreateKeepsFresh(dataManager.collections, issued, collectionNameNew, oldEvent);
        }
        updated := dataManager.CreateDocument(collectionNameNew, oldEvent);
      }
      if wasFresh {
        KeysFreshUpdate(eventMap, issued, dataManager.issued, KeyOf(updated), updated);
      }
      eventMap := eventMap[KeyOf(updated) := updated];
      r := Success(updated);
    }

    /**
     * getEvents for the displayed range [rangeStart, rangeEnd) (the end is
     * exclusive): fetch the month collections of [rangeStart, rangeEnd - 1 day]
     * (and, the first time, the legacy collection), then project the whole
     * cache: normalize and register categories, return the display records of
     * the events in the range and publish the per-category summary.
     */
    method GetEvents(rangeStart: Date, rangeEnd: Date, generateColor: string -> string)
      returns (inputs: seq<EventInput>, migration: Option<array<seq<Step>>>, ghost order: seq<Id>)
      requires Valid() && dataManager != null && ValidDate(rangeEnd)
      modifies this`eventMap, this`fetchedCollections, this`categories, this`summaryData
      ensures Valid()
      ensures var calendarEnd := PrevDay(rangeEnd);
              && fetchedCollections == old(fetchedCollections)
                 + (set name | name in MonthCollections(selectedTeamId, rangeStart, calendarEnd)) + {selectedTeamId}
              && var cached := FetchedCache(old(eventMap), old(fetchedCollections), dataManager.collections,
                                            selectedTeamId, rangeStart, calendarEnd);
              && eventMap == NormalizeShown(cached, cached.Keys)
              && categories == old(categories) + RegisteredTitles(cached, cached.Keys)
              && DisplayedAs(cached, cached.Keys, rangeStart, calendarEnd, generateColor, inputs, order)
      ensures SummarizedAs(inputs, generateColor, summaryData)
      ensures migration.Some? <==> selectedTeamId !in old(fetchedCollections) && selectedTeamId in dataManager.collections
      ensures migration.Some? ==>
        && fresh(migration.value)
        && migration.value[..] == Plan(selectedTeamId, dataManager.collections[selectedTeamId],
                                       DocsIn(dataManager.collections, CategoriesCollection(selectedTeamId)))
      ensures old(IdsFresh()) ==> IdsFresh()
    {
      ghost var wasFresh := IdsFresh();
      var calendarStart := rangeStart;
      var calendarEnd := PrevDay(rangeEnd);
      migration := FetchEvents(calendarStart, calendarEnd);
      if wasFresh {
        FetchedCacheFresh(old(eventMap), old(fetchedCollections), dataManager.collections, selectedTeamId,
                          calendarStart, calendarEnd, dataManager.issued);
      }
      inputs, order := ProjectCache(calendarStart, calendarEnd, generateColor);
    }

    /**
     * The callback of getEvents once the fetch is done: over every cached
     * event whose dates parse, normalize its category, register the category
     * title, and, when its start or end lies in [calendarStart, calendarEnd],
     * display it and count it under its category; then publish the summary.
     */
    method ProjectCache(calendarStart: Date, calendarEnd: Date, generateColor: string -> string)
      returns (inputs: seq<EventInput>, ghost order: seq<Id>)
      requires Valid()
      modifies this`eventMap, this`categories, this`summaryData
      ensures Valid()
      ensures eventMap == NormalizeShown(old(eventMap), old(eventMap).Keys)
      ensures categories == old(categories) + RegisteredTitles(old(eventMap), old(eventMap).Keys)
      ensures DisplayedAs(old(eventMap), old(eventMap).Keys, calendarStart, calendarEnd, generateColor, inputs, order)
      ensures SummarizedAs(inputs, generateColor, summaryData)
    {
      ghost var m0 := eventMap;
      var catagoryMap: map<string, CategorySummary>;
      ghost var first: map<string, nat>;
      inputs, catagoryMap, first, order := ProjectEvents(calendarStart, calendarEnd, generateColor);
      ProjectedComplete(m0, old(categories), calendarStart, calendarEnd, generateColor,
                        eventMap, categories, inputs, order, catagoryMap, first);
      summaryData := WithCountSubtitles(catagoryMap);
    }

    /** The forEach of getEvents over the whole cache, leaving the projection and its tally. */
    method ProjectEvents(calendarStart: Date, calendarEnd: Date, generateColor: string -> string)
      returns (inputs: seq<EventInput>, catagoryMap: map<string, CategorySummary>, ghost first: map<string, nat>, ghost order: seq<Id>)
      modifies this`eventMap, this`categories
      ensures Projected(old(eventMap), old(eventMap).Keys, old(categories), calendarStart, calendarEnd, generateColor,
                        eventMap, categories, inputs, order, catagoryMap, first)
    {
      ghost var m0 := eventMap;
      var remaining := eventMap.Keys;
      ghost var done: set<Id> := {};
      catagoryMap := map[];
      first := map[];
      inputs := [];
      order := [];
      while remaining != {}
        invariant remaining + done == m0.Keys && remaining !! done
        invariant Projected(m0, done, old(categories), calendarStart, calendarEnd, generateColor,
                            eventMap, categories, inputs, order, catagoryMap, first)
        decreases remaining
      {
        var id :| id in remaining;
        ghost var m, cats, ins, ord, tally, fst := eventMap, categories, inputs, order, catagoryMap, first;
        inputs, catagoryMap, first := ProjectEvent(id, calendarStart, calendarEnd, generateColor, inputs, catagoryMap, first);
        if Included(m0[id], calendarStart, calendarEnd) {
          order := order + [id];
        }
        ProjectedStep(m0, done, old(categories), calendarStart, calendarEnd, generateColor,
                      m, cats, ins, ord, tally, fst, id, eventMap, categories, inputs, order, catagoryMap, first);
        remaining := remaining - {id};
        done := done + {id};
      }
      assert done == m0.Keys;
    }

    /**
     * The forEach callback of getEvents for one cached event: when its dates
     * parse, normalize its category and register the title; when it is also
     * included, add its display record and count it under its category.
     */
    method ProjectEvent(id: Id, calendarStart: Date, calendarEnd: Date, generateColor: string -> string,
                        inputs: seq<EventInput>, catagoryMap: map<string, CategorySummary>, ghost first: map<string, nat>)
      returns (inputs': seq<EventInput>, catagoryMap': map<string, CategorySummary>, ghost first': map<string, nat>)
      requires id in eventMap && Tallied(inputs, generateColor, catagoryMap, first)
      modifies this`eventMap, this`categories
      ensures var e := old(eventMap)[id];
              && eventMap == old(eventMap)[id := if Shown(e) then Normalized(e) else e]
              && categories == old(categories)
                 + (if Shown(e) && Registers(CategoryTitle(e.category)) then {CategoryTitle(e.category)} else {})
              && inputs' == inputs + (if Included(e, calendarStart, calendarEnd) then [Display(e, generateColor)] else [])
      ensures Tallied(inputs', generateColor, catagoryMap', first')
    {
      inputs', catagoryMap', first' := inputs, catagoryMap, first;
      ghost var e := eventMap[id];
      var event, shown := NormalizeEvent(id);
      if shown {
        var start, end := event.startDate.value, event.endDate.value;
        if (OnOrBefore(calendarStart, start) && OnOrBefore(start, calendarEnd))
           || (OnOrBefore(calendarStart, end) && OnOrBefore(end, calendarEnd)) {
          var category := CategoryTitle(event.category);
          var excludedEndDate := NextDay(end);
          var eventColor := generateColor(category);
          var input := EventInput(FreeFormId + "." + KeyOf(event), true, true, start, excludedEndDate,
                                  event.title, eventColor, category, event.description, event.id);
          assert input == Display(e, generateColor);
          inputs', catagoryMap', first' := TallyRecord(generateColor, inputs, catagoryMap, first, input);
        } else {
          assert !Included(e, calendarStart, calendarEnd);
        }
      }
    }

    /**
     * The first half of the forEach callback of getEvents: when both dates
     * of the cached event parse, register its category title (unless it is
     * "Uncategorized") and replace its category by the plain name it is shown
     * under. Returns the event as cached afterwards and whether its dates parse.
     * It applies the corrected test `Shown`; the source's truthiness test is
     * `EventCache.ShownAsWritten`, which also skips an event on 1970-01-01.
     */
    method NormalizeEvent(id: Id) returns (event: Event, shown: bool)
      requires id in eventMap
      modifies this`eventMap, this`categories
      ensures var e := old(eventMap)[id];
              && shown == Shown(e)
              && event == (if shown then Normalized(e) else e)
              && eventMap == old(eventMap)[id := event]
              && categories == old(categories)
                 + (if shown && Registers(CategoryTitle(e.category)) then {CategoryTitle(e.category)} else {})
    {
      event := eventMap[id];
      shown := IsParsed(event.startDate) && IsParsed(event.endDate);
      if shown {
        var category := CategoryTitle(event.category);
        if Registers(category) {
          categories := categories + {category};
        }
        if category == "" {
          category := Uncategorized;
        }
        event := event.(category := Name(category));
        eventMap := eventMap[id := event];
      }
    }

    /**
     * The second half of the forEach callback: count a display record under
     * its category, starting the entry (with the record's colour and title)
     * when the category is new.
     */
    static method TallyRecord(generateColor: string -> string, inputs: seq<EventInput>,
                              catagoryMap: map<string, CategorySummary>, ghost first: map<string, nat>, input: EventInput)
      returns (inputs': seq<EventInput>, catagoryMap': map<string, CategorySummary>, ghost first': map<string, nat>)
      requires Tallied(inputs, generateColor, catagoryMap, first) && input.color == generateColor(input.category)
      ensures inputs' == inputs + [input]
      ensures Tallied(inputs', generateColor, catagoryMap', first')
    {
      var category := input.category;
      first' := first;
      if category in catagoryMap {
        TalliedGrowExisting(inputs, generateColor, catagoryMap, first, input);
        catagoryMap' := catagoryMap[category := catagoryMap[category].(eventCount := catagoryMap[category].eventCount + 1)];
      } else {
        TalliedGrowNew(inputs, generateColor, catagoryMap, first, input);
        catagoryMap' := catagoryMap[category := CategorySummary(input.color, 1, input.title, category)];
        first' := first[category := |inputs|];
      }
      inputs' := inputs + [input];
    }

    /**
     * fetchEvents: query the month collections of [start, end] not fetched
     * before (each once) and cache their documents; the first time, also cache
     * the documents of the team's legacy collection and plan their migration.
     */
    method FetchEvents(start: Date, end: Date) returns (migration: Option<array<seq<Step>>>)
      requires CacheKeyed(eventMap) && dataManager != null
      modifies this`eventMap, this`fetchedCollections
      ensures CacheKeyed(eventMap)
      ensures fetchedCollections ==
        old(fetchedCollections) + (set name | name in MonthCollections(selectedTeamId, start, end)) + {selectedTeamId}
      ensures eventMap == FetchedCache(old(eventMap), old(fetchedCollections), dataManager.collections, selectedTeamId, start, end)
      ensures migration.Some? <==> selectedTeamId !in old(fetchedCollections) && selectedTeamId in dataManager.collections
      ensures migration.Some? ==>
        && fresh(migration.value)
        && migration.value[..] == Plan(selectedTeamId, dataManager.collections[selectedTeamId],
                                       DocsIn(dataManager.collections, CategoriesCollection(selectedTeamId)))
    {
      var collectionNames := MonthCollections(selectedTeamId, start, end);
      MonthCollectionsExcludeLegacy(selectedTeamId, start, end);
      var collectionsToFetch := MarkToFetch(collectionNames);
      assert selectedTeamId in fetchedCollections <==> selectedTeamId in old(fetchedCollections);
      var collections := dataManager.QueryCollectionsByName(collectionsToFetch);
      CacheCollections(collections);
      MergeDocsKeepsKeyed(old(eventMap), Flatten(collections));
      ghost var merged := eventMap;
      if selectedTeamId !in fetchedCollections {
        migration := FetchLegacy();
        MergeDocsKeepsKeyed(merged, DocsIn(dataManager.collections, selectedTeamId));
      } else {
        migration := None;
      }
      assert eventMap == FetchedCache(old(eventMap), old(fetchedCollections), dataManager.collections, selectedTeamId, start, end);
    }

    /** The loop over collectionNames: pick the names not fetched yet, each once, and mark them fetched. */
    method MarkToFetch(collectionNames: seq<CollectionName>) returns (collectionsToFetch: seq<CollectionName>)
      modifies this`fetchedCollections
      ensures collectionsToFetch == ToFetch(collectionNames, old(fetchedCollections))
      ensures fetchedCollections == old(fetchedCollections) + set x | x in collectionNames
    {
      collectionsToFetch := [];
      var i := 0;
      while i < |collectionNames|
        invariant 0 <= i <= |collectionNames|
        invariant collectionsToFetch == ToFetch(collectionNames[..i], old(fetchedCollections))
        invariant forall x :: x in fetchedCollections <==> x in old(fetchedCollections) || x in collectionNames[..i]
      {
        var collection := collectionNames[i];
        ToFetchStep(collectionNames, i, old(fetchedCollections));
        assert collectionNames[..i + 1] == collectionNames[..i] + [collection];
        if collection !in fetchedCollections {
          collectionsToFetch := collectionsToFetch + [collection];
          fetchedCollections := fetchedCollections + {collection};
        }
        i := i + 1;
      }
      assert collectionNames[..i] == collectionNames;
    }

    /** Cache each document under its id, in order. */
    method CacheDocuments(documents: seq<Event>)
      modifies this`eventMap
      ensures eventMap == MergeDocs(old(eventMap), documents)
    {
      var j := 0;
      while j < |documents|
        invariant 0 <= j <= |documents|
        invariant eventMap == MergeDocs(old(eventMap), documents[..j])
      {
        var doc := documents[j];
        eventMap := eventMap[KeyOf(doc) := doc];
        MergeDocsStep(old(eventMap), documents[..j], doc);
        assert documents[..j + 1] == documents[..j] + [doc];
        j := j + 1;
      }
      assert documents[..j] == documents;
    }

    /** Cache the documents of every returned collection, skipping absent ones. */
    method CacheCollections(collections: seq<Option<seq<Event>>>)
      modifies this`eventMap
      ensures eventMap == MergeDocs(old(eventMap), Flatten(collections))
    {
      var i := 0;
      while i < |collections|
        invariant 0 <= i <= |collections|
        invariant eventMap == MergeDocs(old(eventMap), Flatten(collections[..i]))
      {
        assert collections[..i + 1][..i] == collections[..i];
        ghost var before := Flatten(collections[..i]);
        if collections[i].Some? {
          CacheDocuments(collections[i].value);
          MergeDocsAppend(old(eventMap), before, collections[i].value);
          assert Flatten(collections[..i + 1]) == before + collections[i].value;
        } else {
          assert before + [] == before;
          assert Flatten(collections[..i + 1]) == before;
        }
        i := i + 1;
      }
      assert collections[..i] == collections;
    }

    /**
     * The legacy callback of fetchEvents: mark the legacy collection fetched and,
     * when it exists, cache its documents and plan their migration.
     */
    method FetchLegacy() returns (migration: Option<array<seq<Step>>>)
      requires dataManager != null
      modifies this`eventMap, this`fetchedCollections
      ensures fetchedCollections == old(fetchedCollections) + {selectedTeamId}
      ensures eventMap == MergeDocs(old(eventMap), DocsIn(dataManager.collections, selectedTeamId))
      ensures migration.Some? <==> selectedTeamId in dataManager.collections
      ensures migration.Some? ==>
        && fresh(migration.value)
        && migration.value[..] == Plan(selectedTeamId, dataManager.collections[selectedTeamId],
                                       DocsIn(dataManager.collections, CategoriesCollection(selectedTeamId)))
    {
      var legacy := dataManager.QueryCollectionsByName([selectedTeamId]);
      fetchedCollections := fetchedCollections + {selectedTeamId};
      migration := None;
      if legacy[0].Some? {
        var oldData := legacy[0].value;
        CacheDocuments(oldData);
        var queue := ConvertData(oldData);
        migration := Some(queue);
      }
    }

    /**
     * convertData: plan the migration of the legacy documents `oldData` and of
     * the legacy category documents into at most ten queues, job by job in
     * round-robin order. The queue count is the corrected `Migration.QueueCount`,
     * at least one queue; the source's `min(n, 10)` is zero for an empty legacy
     * collection (`Migration.PlanAsWritten`).
     */
    method ConvertData(oldData: seq<Event>) returns (queue: array<seq<Step>>)
      requires dataManager != null
      ensures fresh(queue)
      ensures queue[..] == Plan(selectedTeamId, oldData, DocsIn(dataManager.collections, CategoriesCollection(selectedTeamId)))
    {
      var size := QueueCount(|oldData|);
      queue := new seq<Step>[size];
      var index := 0;
      while index < size
        invariant 0 <= index <= size
        invariant forall q :: 0 <= q < index ==> queue[q] == []
      {
        queue[index] := [];
        index := index + 1;
      }
      assert Chained(queue[..], []);

      ghost var docJobs := DocJobs(selectedTeamId, oldData);
      var t := 0;
      while t < |oldData|
        invariant 0 <= t <= |oldData|
        invariant Chained(queue[..], docJobs[..t]) && index == NextIndex(docJobs[..t], size)
      {
        var doc := oldData[t];
        index := Enqueue(queue, index, DocJob(selectedTeamId, doc), docJobs[..t]);
        assert docJobs[..t + 1] == docJobs[..t] + [DocJob(selectedTeamId, doc)];
        t := t + 1;
      }
      assert docJobs[..t] == docJobs;

      var answer := dataManager.QueryCollectionsByName([CategoriesCollection(selectedTeamId)]);
      var categoryDocs := if answer[0].Some? then answer[0].value else [];
      ChainCategoryDeletes(queue, index, categoryDocs, docJobs);
      ChainedIsPlan(queue[..], selectedTeamId, oldData, categoryDocs);
    }

    /**
     * The callback of convertData's category query: chain the delete of every
     * legacy category document, continuing the round robin after the jobs `done`.
     */
    method ChainCategoryDeletes(queue: array<seq<Step>>, index: nat, categoryDocs: seq<Event>, ghost done: seq<seq<Step>>)
      requires Chained(queue[..], done) && index == NextIndex(done, queue.Length)
      modifies queue
      ensures Chained(queue[..], done + CategoryJobs(selectedTeamId, categoryDocs))
    {
      ghost var categoryJobs := CategoryJobs(selectedTeamId, categoryDocs);
      ghost var jobs := done;
      var slot := index;
      var j := 0;
      while j < |categoryDocs|
        invariant 0 <= j <= |categoryDocs|
        invariant jobs == done + categoryJobs[..j]
        invariant Chained(queue[..], jobs) && slot == NextIndex(jobs, queue.Length)
      {
        var doc := categoryDocs[j];
        slot := Enqueue(queue, slot, CategoryJob(selectedTeamId, doc), jobs);
        assert categoryJobs[..j + 1] == categoryJobs[..j] + [CategoryJob(selectedTeamId, doc)];
        jobs := jobs + [CategoryJob(selectedTeamId, doc)];
        j := j + 1;
      }
      assert categoryJobs[..j] == categoryJobs;
    }
  }
}
