/** Exactly which batches the receiving server takes, for any store and any batch, also ones no reporter would send. */
module ServerAnswers {
  import opened EventDelivery

  /** The highest number known once some events are taken. */
  function Top(known: nat, batch: seq<Event>): (top: nat)
    ensures known <= top
  {
    if batch == [] then known else Max(Top(known, batch[..|batch| - 1]), batch[|batch| - 1].number)
  }

  /** Each event is one the server could have, or follows directly on one of the store or before it in the batch. */
  ghost predicate NoGap(known: nat, batch: seq<Event>) {
    forall i :: 0 <= i < |batch| ==> 1 <= batch[i].number <= Top(known, batch[..i]) + 1
  }

  /** The store afterwards: it goes on from the old one, is numbered without a gap, agrees with every event of the
      batch, and ends with the highest of them. */
  ghost predicate Grown(store: seq<Event>, batch: seq<Event>, grown: seq<Event>) {
    && store <= grown && Numbered(grown) && |grown| == Top(|store|, batch)
    && FromEmitted(batch, grown)
  }

  lemma OneIsTaken(store: seq<Event>, e: Event)
    requires Numbered(store)
    ensures ReceiveOne(store, e)
         == if 1 <= e.number <= |store| then (if store[e.number - 1] == e then Accepted(store) else Rejected)
            else if e.number == |store| + 1 then Accepted(store + [e])
            else Rejected
  {
    MaxSeqOfNumbered(store);
    if 1 <= e.number <= |store| {
      assert store[e.number - 1].number == e.number;
    }
    if e in store {
      var i :| 0 <= i < |store| && store[i] == e;
      assert e.number == i + 1;
    }
  }

  lemma NoGapSnoc(known: nat, front: seq<Event>, e: Event)
    ensures NoGap(known, front + [e]) <==> NoGap(known, front) && 1 <= e.number <= Top(known, front) + 1
  {
    var all := front + [e];
    assert forall i :: 0 <= i < |front| ==> all[..i] == front[..i] && all[i] == front[i];
    assert all[..|front|] == front && all[|front|] == e;
    if NoGap(known, all) {
      forall i | 0 <= i < |front|
        ensures 1 <= front[i].number <= Top(known, front[..i]) + 1
      {
        assert all[..i] == front[..i];
      }
    }
  }

  lemma FromSnoc(front: seq<Event>, e: Event, grown: seq<Event>)
    ensures FromEmitted(front + [e], grown)
       <==> FromEmitted(front, grown) && 1 <= e.number <= |grown| && grown[e.number - 1] == e
  {
    var all := front + [e];
    assert all[|front|] == e && forall i :: 0 <= i < |front| ==> all[i] == front[i];
    if FromEmitted(all, grown) {
      forall i | 0 <= i < |front|
        ensures 1 <= front[i].number <= |grown| && grown[front[i].number - 1] == front[i]
      {
        assert all[i] == front[i];
      }
    }
  }

  lemma TopSnoc(known: nat, front: seq<Event>, e: Event)
    ensures Top(known, front + [e]) == Max(Top(known, front), e.number)
  {
    assert (front + [e])[..|front|] == front;
  }

  lemma KnownGrows(store: seq<Event>, front: seq<Event>, e: Event, grown: seq<Event>)
    requires Grown(store, front, grown) && 1 <= e.number <= |grown| && grown[e.number - 1] == e
    ensures Grown(store, front + [e], grown)
  {
    FromSnoc(front, e, grown);
    TopSnoc(|store|, front, e);
  }

  lemma NumberedSnoc(grown: seq<Event>, e: Event)
    requires Numbered(grown) && e.number == |grown| + 1
    ensures Numbered(grown + [e])
  {
  }

  lemma NewGrows(store: seq<Event>, front: seq<Event>, e: Event, grown: seq<Event>)
    requires Grown(store, front, grown) && e.number == |grown| + 1
    ensures Grown(store, front + [e], grown + [e])
  {
    NumberedSnoc(grown, e);
    FromMore(front, grown, grown + [e]);
    FromSnoc(front, e, grown + [e]);
    TopSnoc(|store|, front, e);
  }

  lemma TakenGrows(store: seq<Event>, front: seq<Event>, e: Event, grown: seq<Event>)
    requires Grown(store, front, grown) && ReceiveOne(grown, e).Accepted?
    ensures 1 <= e.number <= |grown| + 1
    ensures Grown(store, front + [e], ReceiveOne(grown, e).store)
  {
    OneIsTaken(grown, e);
    if 1 <= e.number <= |grown| {
      KnownGrows(store, front, e, grown);
    } else {
      NewGrows(store, front, e, grown);
    }
  }

  /** Whatever is taken is taken without a gap and without contradicting the store. */
  lemma {:induction false} TakenIsGrown(store: seq<Event>, batch: seq<Event>)
    requires Numbered(store) && Receive(store, batch).Accepted?
    ensures NoGap(|store|, batch) && Grown(store, batch, Receive(store, batch).store)
    decreases |batch|
  {
    if batch != [] {
      var front, e := batch[..|batch| - 1], batch[|batch| - 1];
      assert front + [e] == batch;
      ReceiveLast(store, batch);
      TakenIsGrown(store, front);
      TakenGrows(store, front, e, Receive(store, front).store);
      NoGapSnoc(|store|, front, e);
    }
  }

  lemma FromFewer(batch: seq<Event>, grown: seq<Event>, top: nat)
    requires FromEmitted(batch, grown) && top <= |grown|
    requires forall i :: 0 <= i < |batch| ==> batch[i].number <= top
    ensures FromEmitted(batch, grown[..top])
  {
  }

  lemma LastIsTaken(grown: seq<Event>, top: nat, e: Event)
    requires Numbered(grown) && top <= |grown| && 1 <= e.number <= top + 1 && |grown| == Max(top, e.number)
    requires grown[e.number - 1] == e
    ensures ReceiveOne(grown[..top], e) == Accepted(grown)
  {
    OneIsTaken(grown[..top], e);
    if e.number <= top {
      assert grown[..top] == grown;
    } else {
      assert grown[..top] + [e] == grown;
    }
  }

  lemma FrontGrown(store: seq<Event>, front: seq<Event>, e: Event, grown: seq<Event>)
    requires Grown(store, front + [e], grown)
    ensures Top(|store|, front) <= |grown| == Max(Top(|store|, front), e.number)
    ensures Grown(store, front, grown[..Top(|store|, front)])
    ensures 1 <= e.number <= |grown| && grown[e.number - 1] == e
  {
    FromSnoc(front, e, grown);
    TopSnoc(|store|, front, e);
    TopBounds(|store|, front);
    FromFewer(front, grown, Top(|store|, front));
  }

  lemma {:induction false} TopBounds(known: nat, batch: seq<Event>)
    ensures forall i :: 0 <= i < |batch| ==> batch[i].number <= Top(known, batch)
  {
    if batch != [] {
      TopBounds(known, batch[..|batch| - 1]);
    }
  }

  lemma {:induction false} GrownIsTaken(store: seq<Event>, batch: seq<Event>, grown: seq<Event>)
    requires NoGap(|store|, batch) && Grown(store, batch, grown)
    ensures Receive(store, batch) == Accepted(grown)
    decreases |batch|
  {
    if batch == [] {
      assert store == grown;
    } else {
      var front, e := batch[..|batch| - 1], batch[|batch| - 1];
      assert front + [e] == batch;
      FrontGrown(store, front, e, grown);
      NoGapSnoc(|store|, front, e);
      LastIsTaken(grown, Top(|store|, front), e);
      GrownIsTaken(store, front, grown[..Top(|store|, front)]);
      ReceiveSnoc(store, front, grown[..Top(|store|, front)], e, Accepted(grown));
    }
  }

  /** A post is taken exactly if it holds 1 to 100 events, leaves no gap and contradicts nothing known, and then the
      store grows by just what is new; otherwise nothing of it is taken. */
  lemma TakenExactlyWhen(store: seq<Event>, posted: seq<Event>)
    requires Numbered(store)
    ensures forall grown :: Answered(store, posted) == Accepted(grown)
                       <==> 1 <= |posted| <= 100 && NoGap(|store|, posted) && Grown(store, posted, grown)
  {
    forall grown | Answered(store, posted) == Accepted(grown)
      ensures NoGap(|store|, posted) && Grown(store, posted, grown)
    {
      TakenIsGrown(store, posted);
    }
    forall grown | 1 <= |posted| <= 100 && NoGap(|store|, posted) && Grown(store, posted, grown)
      ensures Answered(store, posted) == Accepted(grown)
    {
      GrownIsTaken(store, posted, grown);
    }
  }

  lemma TakenAgrees(store: seq<Event>, posted: seq<Event>, i: nat)
    requires Numbered(store) && Receive(store, posted).Accepted? && i < |posted| && 1 <= posted[i].number <= |store|
    ensures store[posted[i].number - 1] == posted[i]
  {
    TakenIsGrown(store, posted);
    assert Receive(store, posted).store[posted[i].number - 1] == posted[i];
  }

  /** In particular an event is never replaced: another one under a known number spoils the whole batch. */
  lemma ContradictionIsRefused(store: seq<Event>, posted: seq<Event>, i: nat)
    requires Numbered(store) && i < |posted|
    requires 1 <= posted[i].number <= |store| && store[posted[i].number - 1] != posted[i]
    ensures Answered(store, posted) == Rejected
  {
    if Receive(store, posted).Accepted? {
      TakenAgrees(store, posted, i);
    }
  }
}
