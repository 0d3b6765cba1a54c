/**
 * Free-form calendar event documents (ICalendarEvent) and the extension data
 * store they are kept in (IExtensionDataManager): named collections of
 * documents, created, updated, deleted and queried by collection name.
 * The store is a foreign, asynchronous service; here it is an in-memory map
 * whose calls complete at once and never fail.
 */
module Events {
  import opened Wrappers
  import opened Calendar
  import opened Text

  type Id = string
  type CollectionName = string

  /** An event's category: a plain name, or a structured {title, id} record. */
  datatype Category = Name(name: string) | Structured(title: string, id: string)

  /**
   * A stored event. `startDate` and `endDate` are the stored ISO-8601 texts,
   * read as dates: None when the text does not parse.
   */
  datatype Event = Event(
    id: Option<Id>,
    title: string,
    description: string,
    startDate: Option<Date>,
    endDate: Option<Date>,
    category: Category)

  /** The property key JavaScript uses for `map[doc.id]`: the id, or "undefined" when there is none. */
  function IdText(id: Option<Id>): string {
    if id.Some? then id.value else "undefined"
  }

  function KeyOf(e: Event): Id {
    IdText(e.id)
  }

  /** `docs` without the documents whose id is `id`, in their order. */
  function RemoveId(docs: seq<Event>, id: Id): (r: seq<Event>)
    ensures |r| <= |docs|
    ensures forall d :: d in r <==> d in docs && KeyOf(d) != id
  {
    if docs == [] then []
    else (if KeyOf(docs[0]) == id then [] else [docs[0]]) + RemoveId(docs[1..], id)
  }

  /** `docs` with `doc` written under its id, replacing the documents that had that id. */
  function Upsert(docs: seq<Event>, doc: Event): (r: seq<Event>)
    ensures doc in r
    ensures forall d :: d in r && KeyOf(d) == KeyOf(doc) ==> d == doc
    ensures forall d :: d in docs && KeyOf(d) != KeyOf(doc) ==> d in r
    ensures forall d :: d in r ==> d == doc || (d in docs && KeyOf(d) != KeyOf(doc))
  {
    RemoveId(docs, KeyOf(doc)) + [doc]
  }

  /** The documents of collection `name`; an absent collection has none. */
  function DocsIn(collections: map<CollectionName, seq<Event>>, name: CollectionName): seq<Event> {
    if name in collections then collections[name] else []
  }

  /** The collections after deleting the document keyed `key` from `from` and then writing `doc` into `to`. */
  function Move(collections: map<CollectionName, seq<Event>>, from: CollectionName, to: CollectionName,
                key: Id, doc: Event): (r: map<CollectionName, seq<Event>>)
    ensures r.Keys == collections.Keys + {to}
    ensures forall name :: name in collections && name != from && name != to ==> r[name] == collections[name]
  {
    var removed := if from in collections then collections[from := RemoveId(collections[from], key)] else collections;
    removed[to := Upsert(DocsIn(removed, to), doc)]
  }

  /**
   * Moving a document between two different collections leaves exactly one
   * copy: none left under its key in the old collection, the new document in
   * the new one.
   */
  lemma MoveLeavesOneCopy(collections: map<CollectionName, seq<Event>>, from: CollectionName, to: CollectionName, doc: Event)
    requires from != to
    ensures var r := Move(collections, from, to, KeyOf(doc), doc);
            && (forall d :: d in DocsIn(r, from) ==> KeyOf(d) != KeyOf(doc))
            && doc in DocsIn(r, to)
            && (forall d :: d in DocsIn(r, to) && KeyOf(d) == KeyOf(doc) ==> d == doc)
  {
  }

  /** What queryCollectionsByName answers: per requested name, the collection if it exists. */
  function Lookup(collections: map<CollectionName, seq<Event>>, names: seq<CollectionName>): (r: seq<Option<seq<Event>>>)
    ensures |r| == |names|
    ensures forall i :: 0 <= i < |names| ==>
      r[i] == if names[i] in collections then Some(collections[names[i]]) else None
  {
    seq(|names|, i requires 0 <= i < |names| =>
      if names[i] in collections then Some(collections[names[i]]) else None)
  }

  /** The document `e` is in some collection of the store. */
  ghost predicate Stored(collections: map<CollectionName, seq<Event>>, e: Event) {
    exists name :: name in collections && e in collections[name]
  }

  /** `d` is the only document of the store with its id. */
  ghost predicate SoleWithId(collections: map<CollectionName, seq<Event>>, d: Event) {
    forall e :: Stored(collections, e) && KeyOf(e) == KeyOf(d) ==> e == d
  }

  /** The id the service gives the `n`-th document created without one. */
  function IssuedId(n: nat): Id {
    "doc-" + NatToString(n)
  }

  /** The service never issues the same id twice. */
  lemma IssuedIdInjective(a: nat, b: nat)
    ensures IssuedId(a) == IssuedId(b) ==> a == b
  {
    if IssuedId(a) == IssuedId(b) {
      assert NatToString(a) == IssuedId(a)[4..] == IssuedId(b)[4..] == NatToString(b);
    }
  }

  /** `id` is one the service issues at its `n`-th creation without an id or at a later one. */
  ghost predicate IssuedFrom(id: Id, n: nat) {
    exists k: nat :: n <= k && id == IssuedId(k)
  }

  /** The id issued at the `n`-th creation is not among those still to be issued afterwards. */
  lemma IssuedIdSpent(n: nat)
    ensures IssuedFrom(IssuedId(n), n) && !IssuedFrom(IssuedId(n), n + 1)
  {
    forall k: nat | n + 1 <= k
      ensures IssuedId(n) != IssuedId(k)
    {
      IssuedIdInjective(n, k);
    }
  }

  /** The document as the service returns it from a create: with an id. */
  function WithId(doc: Event, n: nat): (r: Event)
    ensures r.id.Some?
    ensures r == doc.(id := r.id)
    ensures doc.id.Some? ==> r == doc
    ensures doc.id.None? ==> r.id == Some(IssuedId(n))
  {
    if doc.id.Some? then doc else doc.(id := Some(IssuedId(n)))
  }

  /** No key of `m` is an id the service has still to issue after `n` creations. */
  ghost predicate KeysFresh(m: map<Id, Event>, n: nat) {
    forall k :: k in m ==> !IssuedFrom(k, n)
  }

  /**
   * Writing under a key already present, or under the id just issued, keeps
   * the keys fresh; the id just issued was not a key before.
   */
  lemma KeysFreshUpdate(m: map<Id, Event>, n: nat, n': nat, k: Id, v: Event)
    requires KeysFresh(m, n) && n <= n'
    requires k in m || (k == IssuedId(n) && n' == n + 1)
    ensures KeysFresh(m[k := v], n')
    ensures k == IssuedId(n) ==> k !in m
  {
    IssuedIdSpent(n);
  }

  /** No stored document has an id the service has still to issue after `n` creations. */
  ghost predicate StoreFresh(collections: map<CollectionName, seq<Event>>, n: nat) {
    forall name, d :: name in collections && d in collections[name] ==> !IssuedFrom(KeyOf(d), n)
  }

  /**
   * createDocument keeps the store fresh, provided a document that brings its
   * own id does not bring one still to be issued; a document it gives an id
   * is then the only one with that id.
   */
  lemma CreateKeepsFresh(collections: map<CollectionName, seq<Event>>, n: nat, name: CollectionName, doc: Event)
    requires StoreFresh(collections, n)
    requires doc.id.Some? ==> !IssuedFrom(KeyOf(doc), n)
    ensures var created := WithId(doc, n);
            var after := collections[name := Upsert(DocsIn(collections, name), created)];
            && StoreFresh(after, if doc.id.Some? then n else n + 1)
            && (doc.id.None? ==> SoleWithId(after, created))
  {
    IssuedIdSpent(n);
  }

  /** updateDocument keeps the store fresh when the document's id is not one still to be issued. */
  lemma UpdateKeepsFresh(collections: map<CollectionName, seq<Event>>, n: nat, name: CollectionName, doc: Event)
    requires StoreFresh(collections, n) && !IssuedFrom(KeyOf(doc), n)
    ensures StoreFresh(collections[name := Upsert(DocsIn(collections, name), doc)], n)
  {
  }

  /** deleteDocument keeps the store fresh. */
  lemma DeleteKeepsFresh(collections: map<CollectionName, seq<Event>>, n: nat, name: CollectionName, id: Id)
    requires StoreFresh(collections, n)
    ensures StoreFresh(if name in collections then collections[name := RemoveId(collections[name], id)] else collections, n)
  {
  }

  /** The extension data store: collections of documents by name. */
  class DocumentStore {
    var collections: map<CollectionName, seq<Event>>
    var issued: nat

    /** No stored document has an id the service has still to issue. */
    ghost predicate Fresh()
      reads this
    {
      StoreFresh(collections, issued)
    }

    constructor ()
      ensures collections == map[] && issued == 0
      ensures Fresh()
    {
      collections := map[];
      issued := 0;
    }

    /** createDocument: store `doc` in collection `name`, giving it an id if it has none. */
    method CreateDocument(name: CollectionName, doc: Event) returns (created: Event)
      modifies this
      ensures created == WithId(doc, old(issued))
      ensures collections == old(collections)[name := Upsert(DocsIn(old(collections), name), created)]
      ensures issued == if doc.id.Some? then old(issued) else old(issued) + 1
    {
      created := WithId(doc, issued);
      if doc.id.None? {
        issued := issued + 1;
      }
      collections := collections[name := Upsert(DocsIn(collections, name), created)];
    }

    /** updateDocument: replace the document with `doc`'s id in collection `name`. */
    method UpdateDocument(name: CollectionName, doc: Event) returns (updated: Event)
      modifies this`collections
      ensures updated == doc
      ensures collections == old(collections)[name := Upsert(DocsIn(old(collections), name), doc)]
    {
      updated := doc;
      collections := collections[name := Upsert(DocsIn(collections, name), doc)];
    }

    /** deleteDocument: remove the document with id `id` from collection `name`. */
    method DeleteDocument(name: CollectionName, id: Id)
      modifies this`collections
      ensures collections == if name in old(collections)
                             then old(collections)[name := RemoveId(old(collections)[name], id)]
                             else old(collections)
    {
      if name in collections {
        collections := collections[name := RemoveId(collections[name], id)];
      }
    }

    /** queryCollectionsByName: the named collections, each absent (None) when it does not exist. */
    method QueryCollectionsByName(names: seq<CollectionName>) returns (result: seq<Option<seq<Event>>>)
      ensures result == Lookup(collections, names)
    {
      result := Lookup(collections, names);
    }
  }
}
