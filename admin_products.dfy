/** The admin products store: state {isLoading, productList, error} and the
    twelve reducer cases for the pending, fulfilled and rejected events of the
    fetch-all, add, edit and delete product actions. */
module AdminProducts {
  import opened Lifecycle

  /** A product's `_id`, as the server sends it. */
  type Id = string

  /** Everything in a product record besides its `_id`; the store never looks inside. */
  type Fields(!new)

  /** The body of a failed response, passed on as the rejection payload; never inspected. */
  type ServerError(!new)

  datatype Product = Product(id: Id, fields: Fields)

  /** What a fulfilled action carries under `payload.data`: the whole list for
      fetch-all, the created, updated or deleted record otherwise. */
  datatype Outcome =
    | Fetched(products: seq<Product>)
    | Added(created: Product)
    | Edited(updated: Product)
    | Deleted(removed: Product)

  /** One dispatched lifecycle event. A rejected event carries the rejection
      payload when there is one (None stands for every absent or falsy payload). */
  datatype Event =
    | Pending(kind: Kind)
    | Fulfilled(outcome: Outcome)
    | Rejected(kind: Kind, payload: Option<ServerError>)
  {
    function Action(): Kind {
      match this
      case Pending(k) => k
      case Rejected(k, _) => k
      case Fulfilled(o) =>
        match o
        case Fetched(_) => FetchAll
        case Added(_) => Add
        case Edited(_) => Edit
        case Deleted(_) => Delete
    }

    function Stage(): Stage {
      if Pending? then Started(Action()) else Settled(Action())
    }
  }

  /** The value of the `error` field when it is not null. */
  datatype Failure = Server(body: ServerError) | Message(text: string)

  datatype State = State(isLoading: bool, productList: seq<Product>, error: Option<Failure>)

  function Initial(): (s: State)
    ensures !s.isLoading && s.productList == [] && s.error == None
  {
    State(false, [], None)
  }

  /** The fixed message recorded when a rejection carries no payload. It is
      never empty, so it is never falsy itself. */
  function FallbackMessage(k: Kind): (m: string)
    ensures m != ""
  {
    match k
    case FetchAll => "Failed to fetch products"
    case Add => "Failed to add product"
    case Edit => "Failed to update product"
    case Delete => "Failed to delete product"
  }

  /** `action.payload || <fallback message>` */
  function RejectionError(k: Kind, payload: Option<ServerError>): (f: Failure)
    ensures f.Server? <==> payload.Some?
    ensures f.Server? ==> f.body == payload.value
    ensures f.Message? ==> f.text == FallbackMessage(k) && f.text != ""
  {
    match payload
    case Some(body) => Server(body)
    case None => Message(FallbackMessage(k))
  }

  /** No two products of the list share an `_id`. */
  ghost predicate UniqueIds(list: seq<Product>) {
    forall i, j :: 0 <= i < j < |list| ==> list[i].id != list[j].id
  }

  /** `a` is `b` with some elements dropped, the rest in their original order. */
  ghost predicate IsSubsequence(a: seq<Product>, b: seq<Product>)
    decreases |b|
  {
    a == [] || (b != [] && ((a[0] == b[0] && IsSubsequence(a[1..], b[1..])) || IsSubsequence(a, b[1..])))
  }

  /** The position `findIndex` reports for the first product with this id, or -1. */
  ghost function IndexOfId(list: seq<Product>, id: Id): (r: int)
    ensures -1 <= r < |list|
    ensures r == -1 <==> forall k :: 0 <= k < |list| ==> list[k].id != id
    ensures r != -1 ==> list[r].id == id && forall k :: 0 <= k < r ==> list[k].id != id
  {
    if list == [] then -1
    else if list[0].id == id then 0
    else
      var rest := IndexOfId(list[1..], id);
      assert forall k :: 1 <= k < |list| ==> list[k] == list[1..][k - 1];
      if rest == -1 then -1 else rest + 1
  }

  /** The list that `filter((p) => p._id !== id)` builds. */
  function Without(list: seq<Product>, id: Id): (r: seq<Product>)
    ensures |r| <= |list|
    ensures forall k :: 0 <= k < |r| ==> r[k].id != id
    ensures forall p: Product :: p.id != id ==> multiset(r)[p] == multiset(list)[p]
    ensures forall p :: p in r ==> p in list
    ensures (forall k :: 0 <= k < |list| ==> list[k].id != id) ==> r == list
  {
    if list == [] then []
    else
      var rest := Without(list[1..], id);
      assert list == [list[0]] + list[1..];
      assert multiset(list) == multiset{list[0]} + multiset(list[1..]);
      if list[0].id == id then rest
      else
        assert multiset([list[0]] + rest) == multiset{list[0]} + multiset(rest);
        [list[0]] + rest
  }

  /** How a fulfilled event changes the list. */
  ghost function Merge(list: seq<Product>, o: Outcome): (r: seq<Product>)
    ensures o.Fetched? ==> r == o.products
    ensures o.Added? ==> |r| == |list| + 1 && r[..|list|] == list && r[|list|] == o.created
    ensures o.Edited? ==> |r| == |list| && forall k :: 0 <= k < |list| && r[k] != list[k] ==> r[k] == o.updated
    ensures o.Deleted? ==> |r| <= |list| && forall k :: 0 <= k < |r| ==> r[k].id != o.removed.id
  {
    match o
    case Fetched(products) => products
    case Added(created) => list + [created]
    case Edited(updated) =>
      var index := IndexOfId(list, updated.id);
      if index == -1 then list else list[index := updated]
    case Deleted(removed) => Without(list, removed.id)
  }

  /** The reducer: the state after one event. */
  ghost function Next(s: State, e: Event): (r: State)
    ensures r.isLoading == e.Pending?
    ensures e.Pending? ==> r.error == None
    ensures e.Fulfilled? ==> r.error == s.error
    ensures e.Rejected? ==> r.error.Some?
    ensures e.Pending? || (e.Rejected? && e.kind != FetchAll) ==> r.productList == s.productList
  {
    match e
    case Pending(_) => s.(isLoading := true, error := None)
    case Fulfilled(o) => s.(isLoading := false, productList := Merge(s.productList, o))
    case Rejected(k, payload) =>
      State(false, if k == FetchAll then [] else s.productList, Some(RejectionError(k, payload)))
  }

  /** The state after a sequence of events, applied in order. */
  ghost function Replay(s: State, events: seq<Event>): State
    decreases |events|
  {
    if events == [] then s else Replay(Next(s, events[0]), events[1..])
  }

  function Stages(events: seq<Event>): (t: seq<Stage>)
    ensures |t| == |events| && forall i :: 0 <= i < |events| ==> t[i] == events[i].Stage()
  {
    seq(|events|, i requires 0 <= i < |events| => events[i].Stage())
  }

  /** `productList.findIndex((p) => p._id === id)` */
  method FindIndex(list: seq<Product>, id: Id) returns (index: int)
    ensures -1 <= index < |list|
    ensures index == -1 <==> forall k :: 0 <= k < |list| ==> list[k].id != id
    ensures index != -1 ==> list[index].id == id && forall k :: 0 <= k < index ==> list[k].id != id
    ensures index == IndexOfId(list, id)
  {
    var i := 0;
    while i < |list|
      invariant 0 <= i <= |list|
      invariant forall k :: 0 <= k < i ==> list[k].id != id
    {
      if list[i].id == id {
        return i;
      }
      i := i + 1;
    }
    return -1;
  }

  class ProductsStore {
    var isLoading: bool
    var productList: seq<Product>
    var error: Option<Failure>

    function Snapshot(): State
      reads this
    {
      State(isLoading, productList, error)
    }

    /** The slice's initial state. */
    constructor ()
      ensures !isLoading && productList == [] && error == None
      ensures Snapshot() == Initial()
    {
      isLoading := false;
      productList := [];
      error := None;
    }

    /** Runs the reducer case that handles `e`, updating the fields in place. */
    method Dispatch(e: Event)
      modifies this
      ensures isLoading == e.Pending?
      ensures Snapshot() == Next(old(Snapshot()), e)
    {
      match e {
        case Pending(_) =>
          isLoading := true;
          error := None;
        case Fulfilled(o) =>
          isLoading := false;
          match o {
            case Fetched(products) =>
              productList := products;
            case Added(created) =>
              productList := productList + [created];
            case Edited(updated) =>
              var index := FindIndex(productList, updated.id);
              if index != -1 {
                productList := productList[index := updated];
              }
            case Deleted(removed) =>
              productList := Without(productList, removed.id);
          }
        case Rejected(k, payload) =>
          isLoading := false;
          if k == FetchAll {
            productList := [];
          }
          error := Some(RejectionError(k, payload));
      }
    }
  }

  // ---------------------------------------------------------------------------
  // Properties of the reducer, case by case

  lemma PendingClearsError(s: State, k: Kind)
    ensures var t := Next(s, Pending(k));
      t.isLoading && t.error == None && t.productList == s.productList
  {
  }

  lemma FetchFulfilledReplaces(s: State, products: seq<Product>)
    ensures var t := Next(s, Fulfilled(Fetched(products)));
      !t.isLoading && t.productList == products && t.error == s.error
  {
  }

  lemma FetchRejectedEmpties(s: State, payload: Option<ServerError>)
    ensures var t := Next(s, Rejected(FetchAll, payload));
      && !t.isLoading && t.productList == []
      && t.error == Some(if payload.Some? then Server(payload.value) else Message("Failed to fetch products"))
  {
  }

  lemma AddFulfilledAppends(s: State, created: Product)
    ensures var t := Next(s, Fulfilled(Added(created)));
      && !t.isLoading && t.error == s.error
      && t.productList == s.productList + [created]
      && |t.productList| == |s.productList| + 1
  {
  }

  /** Add makes no duplicate check: appending a record whose id is taken
      breaks uniqueness. */
  lemma AddMayDuplicateId(s: State, created: Product, k: nat)
    requires k < |s.productList| && s.productList[k].id == created.id
    ensures !UniqueIds(Next(s, Fulfilled(Added(created))).productList)
  {
    var t := Next(s, Fulfilled(Added(created))).productList;
    assert t[k].id == t[|s.productList|].id;
  }

  /** Edit replaces the first product with the updated record's id, at the
      same position, and nothing else; with no match the list is unchanged. */
  lemma EditFulfilledReplacesFirstMatch(s: State, updated: Product)
    ensures var t := Next(s, Fulfilled(Edited(updated)));
      && !t.isLoading && t.error == s.error
      && |t.productList| == |s.productList|
      && (forall k :: 0 <= k < |s.productList| && s.productList[k].id == updated.id
            && (forall j :: 0 <= j < k ==> s.productList[j].id != updated.id)
            ==> t.productList == s.productList[k := updated])
      && ((forall k :: 0 <= k < |s.productList| ==> s.productList[k].id != updated.id)
            ==> t.productList == s.productList)
  {
  }

  /** Delete removes every product with the deleted id and keeps every other
      element, as often as it occurred and in its original order. */
  lemma DeleteFulfilledFilters(s: State, removed: Product)
    ensures var t := Next(s, Fulfilled(Deleted(removed)));
      && !t.isLoading && t.error == s.error
      && (forall k :: 0 <= k < |t.productList| ==> t.productList[k].id != removed.id)
      && (forall p: Product :: p.id != removed.id ==> multiset(t.productList)[p] == multiset(s.productList)[p])
      && IsSubsequence(t.productList, s.productList)
      && ((forall k :: 0 <= k < |s.productList| ==> s.productList[k].id != removed.id)
            ==> t.productList == s.productList)
  {
    WithoutIsSubsequence(s.productList, removed.id);
  }

  /** Add, edit and delete rejections leave the list alone and record the
      payload or the action's fallback message. */
  lemma OtherRejectedKeepsList(s: State, k: Kind, payload: Option<ServerError>)
    requires k != FetchAll
    ensures var t := Next(s, Rejected(k, payload));
      && !t.isLoading && t.productList == s.productList
      && t.error == Some(
           if payload.Some? then Server(payload.value)
           else if k == Add then Message("Failed to add product")
           else if k == Edit then Message("Failed to update product")
           else Message("Failed to delete product"))
  {
  }

  // ---------------------------------------------------------------------------
  // The delete filter

  lemma {:induction false} WithoutIsSubsequence(list: seq<Product>, id: Id)
    ensures IsSubsequence(Without(list, id), list)
  {
    if list != [] {
      WithoutIsSubsequence(list[1..], id);
      var r := Without(list, id);
      if list[0].id != id {
        assert r[0] == list[0] && r[1..] == Without(list[1..], id);
      }
    }
  }

  lemma UniqueIdsTail(list: seq<Product>)
    requires UniqueIds(list) && list != []
    ensures UniqueIds(list[1..])
    ensures forall k :: 0 <= k < |list[1..]| ==> list[1..][k].id != list[0].id
  {
    forall i, j | 0 <= i < j < |list| - 1
      ensures list[1..][i].id != list[1..][j].id
    {
      assert list[1..][i] == list[i + 1] && list[1..][j] == list[j + 1];
    }
    forall k | 0 <= k < |list[1..]| ensures list[1..][k].id != list[0].id {
      assert list[1..][k] == list[k + 1];
    }
  }

  lemma UniqueIdsCons(x: Product, rest: seq<Product>)
    requires UniqueIds(rest)
    requires forall k :: 0 <= k < |rest| ==> rest[k].id != x.id
    ensures UniqueIds([x] + rest)
  {
    var r := [x] + rest;
    forall i, j | 0 <= i < j < |r| ensures r[i].id != r[j].id {
      assert r[j] == rest[j - 1];
      if i > 0 {
        assert r[i] == rest[i - 1];
      }
    }
  }

  lemma {:induction false} WithoutKeepsUniqueIds(list: seq<Product>, id: Id)
    requires UniqueIds(list)
    ensures UniqueIds(Without(list, id))
  {
    if list != [] {
      UniqueIdsTail(list);
      WithoutKeepsUniqueIds(list[1..], id);
      if list[0].id != id {
        var rest := Without(list[1..], id);
        forall k | 0 <= k < |rest| ensures rest[k].id != list[0].id {
          assert rest[k] in list[1..];
        }
        UniqueIdsCons(list[0], rest);
      }
    }
  }

  /** With unique ids, deleting an id that is present removes exactly one product. */
  lemma {:induction false} WithoutRemovesOne(list: seq<Product>, k: nat)
    requires UniqueIds(list) && k < |list|
    ensures |Without(list, list[k].id)| == |list| - 1
  {
    var id := list[k].id;
    UniqueIdsTail(list);
    if k > 0 {
      assert list[1..][k - 1] == list[k];
      WithoutRemovesOne(list[1..], k - 1);
      assert list[0].id != id;
    }
  }

  /** Edit and delete keep the ids unique, and so do all pending and rejected
      events; only fetch-all (whatever the server sends) and add can break it. */
  lemma KeepsUniqueIds(s: State, e: Event)
    requires UniqueIds(s.productList)
    requires !(e.Fulfilled? && (e.outcome.Fetched? || e.outcome.Added?))
    ensures UniqueIds(Next(s, e).productList)
  {
    if e.Fulfilled? && e.outcome.Deleted? {
      WithoutKeepsUniqueIds(s.productList, e.outcome.removed.id);
    }
  }

  // ---------------------------------------------------------------------------
  // Traces of events

  /** After any event the loading flag says whether that event was a pending one. */
  lemma {:induction false} ReplayLoading(s: State, events: seq<Event>)
    requires events != []
    decreases |events|
    ensures Replay(s, events).isLoading == events[|events| - 1].Pending?
  {
    if |events| > 1 {
      ReplayLoading(Next(s, events[0]), events[1..]);
    }
  }

  /** With one request in flight at a time, `isLoading` holds exactly while a
      started action has not settled yet. */
  lemma LoadingIffOutstanding(events: seq<Event>)
    requires OneAtATime(Stages(events))
    ensures Replay(Initial(), events).isLoading <==> Unsettled(Stages(events))
  {
    LastStartedIffUnsettled(Stages(events));
    if events != [] {
      ReplayLoading(Initial(), events);
    }
  }

  /** Pending events and rejections of add, edit and delete never touch the list. */
  lemma {:induction false} ListUnchangedWithoutMerge(s: State, events: seq<Event>)
    requires forall i :: 0 <= i < |events| ==>
      events[i].Pending? || (events[i].Rejected? && events[i].kind != FetchAll)
    ensures Replay(s, events).productList == s.productList
    decreases |events|
  {
    if events != [] {
      ListUnchangedWithoutMerge(Next(s, events[0]), events[1..]);
    }
  }
}
