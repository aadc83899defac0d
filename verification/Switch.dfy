/** Moving from one branch to another as a run of disconnections and connections. */
module Switch {
  import opened Common
  import opened ChainTypes
  import opened Connect
  import opened ChainRun

  function Step(testnet: bool, n: NodeDb, e: Event): (r: Outcome<NodeDb>)
    requires n.chain != []
    ensures r.Ok? ==> r.value.chain != []
  {
    match e
    case Attach(env, block, best) =>
      var s :- ConnectBlock(Site(env, n.chain + [block], best), n.s);
      Ok(NodeDb(n.chain + [block], s))
    case Detach =>
      if |n.chain| == 1 then Rejected
      else
        var s :- DisconnectBlock(testnet, n.chain, n.s);
        Ok(NodeDb(n.chain[..|n.chain| - 1], s))
  }

  function PlayFrom(testnet: bool, n: NodeDb, events: seq<Event>): (r: Outcome<NodeDb>)
    requires n.chain != []
    ensures r.Ok? ==> r.value.chain != []
  {
    if events == [] then Ok(n)
    else
      var m :- PlayFrom(testnet, n, events[..|events| - 1]);
      Step(testnet, m, events[|events| - 1])
  }

  /** A run continues from where an earlier run stopped. */
  lemma {:induction false} PlayContinues(genesis: StoredBlock, testnet: bool, before: seq<Event>, events: seq<Event>)
    requires Play(genesis, testnet, before).Ok?
    ensures Play(genesis, testnet, before + events) == PlayFrom(testnet, Play(genesis, testnet, before).value, events)
  {
    hide ConnectBlock, DisconnectBlock;
    if events == [] {
      assert before + events == before;
    } else {
      PlayContinues(genesis, testnet, before, events[..|events| - 1]);
      assert (before + events)[..|before + events| - 1] == before + events[..|events| - 1];
    }
  }

  /** Once a step is refused the whole run is. */
  lemma {:induction false} RefusedStays(testnet: bool, n: NodeDb, events: seq<Event>, k: nat)
    requires n.chain != [] && k <= |events| && PlayFrom(testnet, n, events[..k]).Rejected?
    ensures PlayFrom(testnet, n, events).Rejected?
    decreases |events|
  {
    hide Step;
    if k == |events| {
      assert events[..k] == events;
    } else {
      var front := events[..|events| - 1];
      assert front[..k] == events[..k];
      RefusedStays(testnet, n, front, k);
    }
  }

  lemma NextStep(testnet: bool, n: NodeDb, events: seq<Event>, k: nat)
    requires n.chain != [] && k < |events| && PlayFrom(testnet, n, events[..k]).Ok?
    ensures PlayFrom(testnet, n, events[..k + 1]) == Step(testnet, PlayFrom(testnet, n, events[..k]).value, events[k])
    ensures Step(testnet, PlayFrom(testnet, n, events[..k]).value, events[k]).Rejected? ==>
              PlayFrom(testnet, n, events).Rejected?
  {
    hide Step;
    assert events[..k + 1][..k] == events[..k];
    if PlayFrom(testnet, n, events[..k + 1]).Rejected? {
      RefusedStays(testnet, n, events, k + 1);
    }
  }

  /** The steps from one branch to another with which it shares its first `shared` blocks:
      disconnect down to the last common block, then connect upwards. */
  function SwitchEvents(from: Chain, shared: nat, to: Chain, env: Env, best: int): (events: seq<Event>)
    requires shared <= |from| && shared <= |to|
    ensures |events| == |from| - shared + |to| - shared
  {
    seq(|from| - shared, _ => Detach)
      + seq(|to| - shared, i requires 0 <= i < |to| - shared => Attach(env, to[shared + i], best))
  }
}
