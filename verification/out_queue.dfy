/** The bounded outbound queue: a full queue drops the message being sent. */
module OutQueues {
  import opened Wire

  /** What gets into the queue of `msgs`, offered after `n` earlier messages;
      `lost` holds the indices of the offers that found it full (or closed). */
  function SurvivorsFrom(n: nat, msgs: seq<Message>, lost: set<nat>): seq<Message> {
    if msgs == [] then []
    else
      SurvivorsFrom(n, msgs[..|msgs| - 1], lost) +
      if n + |msgs| - 1 in lost then [] else [msgs[|msgs| - 1]]
  }

  function Survivors(msgs: seq<Message>, lost: set<nat>): seq<Message> {
    SurvivorsFrom(0, msgs, lost)
  }

  lemma {:induction false} SurvivorsConcat(a: seq<Message>, b: seq<Message>, lost: set<nat>)
    ensures Survivors(a + b, lost) == Survivors(a, lost) + SurvivorsFrom(|a|, b, lost)
  {
    if b == [] {
      assert a + b == a;
    } else {
      assert (a + b)[..|a + b| - 1] == a + b[..|b| - 1];
      SurvivorsConcat(a, b[..|b| - 1], lost);
    }
  }

  lemma {:induction false} SurvivorsOfAll(msgs: seq<Message>)
    ensures Survivors(msgs, {}) == msgs
  {
    if msgs != [] {
      SurvivorsOfAll(msgs[..|msgs| - 1]);
    }
  }

  lemma {:induction false} SurvivorsAreSent(msgs: seq<Message>, lost: set<nat>)
    ensures forall m :: m in Survivors(msgs, lost) ==> m in msgs
    ensures |Survivors(msgs, lost)| <= |msgs|
  {
    if msgs != [] {
      SurvivorsAreSent(msgs[..|msgs| - 1], lost);
    }
  }

  lemma {:induction false} NoneLost(msgs: seq<Message>, lost: set<nat>)
    requires forall i: nat :: i < |msgs| ==> i !in lost
    ensures Survivors(msgs, lost) == msgs
  {
    if msgs != [] {
      NoneLost(msgs[..|msgs| - 1], lost);
    }
  }

  lemma SurvivorsOfOne(m: Message, lost: set<nat>)
    ensures Survivors([m], lost) == if 0 in lost then [] else [m]
  {
    assert [m][..0] == [] && Survivors([], lost) == [];
  }

  class OutQueue {
    const lost: set<nat>
    var frames: seq<Message>
    var offered: seq<Message>

    ghost predicate Valid()
      reads this
    {
      frames == Survivors(offered, lost)
    }

    constructor (lost: set<nat>)
      ensures Valid() && this.lost == lost && offered == []
    {
      this.lost := lost;
      frames, offered := [], [];
    }

    method TrySend(m: Message) returns (ok: bool)
      requires Valid()
      modifies this
      ensures Valid() && offered == old(offered) + [m]
      ensures ok <==> |old(offered)| !in lost
      ensures frames == if ok then old(frames) + [m] else old(frames)
    {
      ok := |offered| !in lost;
      if ok {
        frames := frames + [m];
      }
      assert (offered + [m])[..|offered|] == offered;
      offered := offered + [m];
    }
  }
}
