/** The request lifecycle shared by both stores: every asynchronous action
    (fetch-all, add, edit, delete) dispatches a pending event when it starts
    and exactly one fulfilled or rejected event when it settles. This module
    forgets the payloads and reasons about the order of those events. */
module Lifecycle {

  datatype Option<T> = None | Some(value: T)

  /** The four asynchronous actions each store defines. */
  datatype Kind = FetchAll | Add | Edit | Delete

  /** An event reduced to its lifecycle stage: a pending event starts a
      request, a fulfilled or rejected event settles it. */
  datatype Stage = Started(kind: Kind) | Settled(kind: Kind)

  /** One request outstanding at a time: starts and settlements alternate,
      beginning with a start, and each settlement belongs to the action started
      just before it. */
  ghost predicate OneAtATime(t: seq<Stage>) {
    forall i :: 0 <= i < |t| ==>
      (t[i].Started? <==> i % 2 == 0) && (i % 2 == 1 ==> t[i].kind == t[i - 1].kind)
  }

  /** Some event after position i settles the action started at i. */
  ghost predicate SettledLater(t: seq<Stage>, i: nat)
    requires i < |t|
  {
    exists j :: i < j < |t| && t[j] == Settled(t[i].kind)
  }

  /** Some request has been started and no later event settles that action.
      A settlement is matched to every earlier start of the same action, so
      two overlapping requests of the same action are not told apart: after
      [Started(a), Started(a), Settled(a)] nothing counts as outstanding. This
      is why OverlapHidesOutstanding needs two different actions; under
      OneAtATime the question does not arise. */
  ghost predicate Unsettled(t: seq<Stage>) {
    exists i :: 0 <= i < |t| && t[i].Started? && !SettledLater(t, i)
  }

  /** The most recent event started a request. Both stores' loading flags
      follow this (see ReplayLoading in each store). */
  predicate LastStarted(t: seq<Stage>) {
    |t| > 0 && t[|t| - 1].Started?
  }

  /** With one request at a time, the event after a start settles it. */
  lemma NextEventSettles(t: seq<Stage>, i: nat)
    requires OneAtATime(t) && i < |t| && t[i].Started?
    ensures i + 1 < |t| ==> SettledLater(t, i)
  {
    if i + 1 < |t| {
      assert t[i + 1] == Settled(t[i].kind);
    }
  }

  /** With one request at a time, "the last event was a start" is exactly
      "some request is outstanding". */
  lemma {:induction false} LastStartedIffUnsettled(t: seq<Stage>)
    requires OneAtATime(t)
    ensures LastStarted(t) <==> Unsettled(t)
  {
    if LastStarted(t) {
      assert !SettledLater(t, |t| - 1);
    }
    if Unsettled(t) {
      var i :| 0 <= i < |t| && t[i].Started? && !SettledLater(t, i);
      NextEventSettles(t, i);
      assert i == |t| - 1;
    }
  }

  /** Without the one-at-a-time discipline the last event no longer tells
      whether a request is outstanding: a second action that starts and
      settles while the first is in flight leaves the first unsettled although
      the last event settled something (last write wins). */
  lemma OverlapHidesOutstanding(a: Kind, b: Kind)
    requires a != b
    ensures var t := [Started(a), Started(b), Settled(b)];
      Unsettled(t) && !LastStarted(t) && !OneAtATime(t)
  {
    var t := [Started(a), Started(b), Settled(b)];
    assert !SettledLater(t, 0);
    assert !(t[1].Started? <==> 1 % 2 == 0);
  }
}
