/** The shop address store: state {isLoading, addressList} and the twelve
    reducer cases for the pending, fulfilled and rejected events of the
    fetch-all, add, edit and delete address actions. The state has no error
    field, and only fetch-all touches the list. */
module ShopAddress {
  import opened Lifecycle

  /** Everything in an address record besides its `_id`; never inspected. */
  type Fields(!new)

  /** The response body of a successful add, edit or delete; the reducer ignores it. */
  type Reply(!new)

  datatype Address = Address(id: string, fields: Fields)

  /** What a fulfilled action carries as its payload. */
  datatype Outcome =
    | Fetched(addresses: seq<Address>)
    | Added(addReply: Reply)
    | Edited(editReply: Reply)
    | Deleted(deleteReply: Reply)

  /** One dispatched lifecycle event. The address actions do not pass a
      rejection value on, so a rejected event carries nothing the reducer reads. */
  datatype Event =
    | Pending(kind: Kind)
    | Fulfilled(outcome: Outcome)
    | Rejected(kind: Kind)
  {
    function Action(): Kind {
      match this
      case Pending(k) => k
      case Rejected(k) => k
      case Fulfilled(o) =>
        match o
        case Fetched(_) => FetchAll
        case Added(_) => Add
        case Edited(_) => Edit
        case Deleted(_) => Delete
    }

    function Stage(): Stage {
      if Pending? then Started(Action()) else Settled(Action())
    }
  }

  datatype State = State(isLoading: bool, addressList: seq<Address>)

  function Initial(): (s: State)
    ensures !s.isLoading && s.addressList == []
  {
    State(false, [])
  }

  /** The reducer: the state after one event. */
  ghost function Next(s: State, e: Event): (r: State)
    ensures r.isLoading == e.Pending?
    ensures e.Pending? ==> r.addressList == s.addressList
    ensures e.Fulfilled? && e.outcome.Fetched? ==> r.addressList == e.outcome.addresses
    ensures e == Rejected(FetchAll) ==> r.addressList == []
  {
    match e
    case Pending(_) => s.(isLoading := true)
    case Fulfilled(Fetched(addresses)) => State(false, addresses)
    case Fulfilled(_) => s.(isLoading := false)
    case Rejected(FetchAll) => State(false, [])
    case Rejected(_) => s.(isLoading := false)
  }

  /** The state after a sequence of events, applied in order. */
  ghost function Replay(s: State, events: seq<Event>): State
    decreases |events|
  {
    if events == [] then s else Replay(Next(s, events[0]), events[1..])
  }

  function Stages(events: seq<Event>): (t: seq<Stage>)
    ensures |t| == |events| && forall i :: 0 <= i < |events| ==> t[i] == events[i].Stage()
  {
    seq(|events|, i requires 0 <= i < |events| => events[i].Stage())
  }

  class AddressStore {
    var isLoading: bool
    var addressList: seq<Address>

    function Snapshot(): State
      reads this
    {
      State(isLoading, addressList)
    }

    /** The slice's initial state. */
    constructor ()
      ensures !isLoading && addressList == []
      ensures Snapshot() == Initial()
    {
      isLoading := false;
      addressList := [];
    }

    /** Runs the reducer case that handles `e`, updating the fields in place. */
    method Dispatch(e: Event)
      modifies this
      ensures isLoading == e.Pending?
      ensures Snapshot() == Next(old(Snapshot()), e)
    {
      match e {
        case Pending(_) =>
          isLoading := true;
        case Fulfilled(o) =>
          isLoading := false;
          if o.Fetched? {
            addressList := o.addresses;
          }
        case Rejected(k) =>
          isLoading := false;
          if k == FetchAll {
            addressList := [];
          }
      }
    }
  }

  // ---------------------------------------------------------------------------
  // Properties of the reducer, case by case

  lemma PendingSetsLoading(s: State, k: Kind)
    ensures var t := Next(s, Pending(k));
      t.isLoading && t.addressList == s.addressList
  {
  }

  lemma FetchFulfilledReplaces(s: State, addresses: seq<Address>)
    ensures var t := Next(s, Fulfilled(Fetched(addresses)));
      !t.isLoading && t.addressList == addresses
  {
  }

  lemma FetchRejectedEmpties(s: State)
    ensures var t := Next(s, Rejected(FetchAll));
      !t.isLoading && t.addressList == []
  {
  }

  /** Settling an add, edit or delete, by success or failure, only clears the
      loading flag: the list is not updated even when the server confirms. */
  lemma OtherSettleOnlyClearsLoading(s: State, e: Event)
    requires !e.Pending? && e.Action() != FetchAll
    ensures Next(s, e) == State(false, s.addressList)
  {
  }

  /** Only a settling fetch-all can change the list. */
  lemma ListChangesOnlyOnFetch(s: State, e: Event)
    requires Next(s, e).addressList != s.addressList
    ensures !e.Pending? && e.Action() == FetchAll
  {
  }

  // ---------------------------------------------------------------------------
  // Traces of events

  /** After any event the loading flag says whether that event was a pending one. */
  lemma {:induction false} ReplayLoading(s: State, events: seq<Event>)
    requires events != []
    ensures Replay(s, events).isLoading == events[|events| - 1].Pending?
    decreases |events|
  {
    if |events| > 1 {
      ReplayLoading(Next(s, events[0]), events[1..]);
    }
  }

  /** With one request in flight at a time, `isLoading` holds exactly while a
      started action has not settled yet. */
  lemma LoadingIffOutstanding(events: seq<Event>)
    requires OneAtATime(Stages(events))
    ensures Replay(Initial(), events).isLoading <==> Unsettled(Stages(events))
  {
    LastStartedIffUnsettled(Stages(events));
    if events != [] {
      ReplayLoading(Initial(), events);
    }
  }

  /** The flag is last-write-wins: an add that starts and settles while a
      fetch-all is still in flight clears `isLoading` although the fetch-all
      has not settled. */
  lemma OverlappingAddClearsLoading(s: State, r: Reply)
    ensures var events := [Pending(FetchAll), Pending(Add), Fulfilled(Added(r))];
      !Replay(s, events).isLoading && Unsettled(Stages(events))
  {
    var events := [Pending(FetchAll), Pending(Add), Fulfilled(Added(r))];
    OverlapHidesOutstanding(FetchAll, Add);
    assert Stages(events) == [Started(FetchAll), Started(Add), Settled(Add)];
    ReplayLoading(s, events);
  }

  /** A trace in which no fetch-all settles leaves the list as it was. */
  lemma {:induction false} ListUnchangedWithoutFetch(s: State, events: seq<Event>)
    requires forall i :: 0 <= i < |events| ==> events[i].Pending? || events[i].Action() != FetchAll
    ensures Replay(s, events).addressList == s.addressList
    decreases |events|
  {
    if events != [] {
      ListUnchangedWithoutFetch(Next(s, events[0]), events[1..]);
    }
  }
}
