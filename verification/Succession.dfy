/** Who can follow whom in the history of a name (src/namecoin.cpp, src/main.cpp). */
module Succession {
  import opened Common
  import opened ScriptCode
  import opened NameScript
  import opened ChainTypes
  import opened NameRules
  import opened Connect
  import opened Undo
  import opened ChainRun
  import opened TxLog
  import opened Owner
  import opened ScriptMachine
  import opened EvalScript
  import opened NamePrefix
  import opened Spending
  import opened NameSigning
  import NameDecisions

  // ----- what an entry needs -----

  /** Input `j` of `tx` spends an output of `prev` whose script is a name script with first argument
      `arg`, past the lock-in height with a signature that holds. */
  ghost predicate Takes(g: Signing, site: Site, prev: Tx, tx: Tx, j: nat, arg: Bytes) {
    && j < |tx.vin| && tx.vin[j].hash == prev.txid && tx.vin[j].n < |prev.vout|
    && IsNameScript(prev.vout[tx.vin[j].n].scriptPubKey)
    && ParseNameScript(prev.vout[tx.vin[j].n].scriptPubKey).args[0] == arg
    && (PastLockin(site) ==> SignatureHolds(g, prev, tx, j))
  }

  /** The transaction spends an output on `name` of the transaction to which the entry points. */
  ghost predicate Updates(g: Signing, site: Site, log: seq<Logged>, last: NameIndex, tx: Tx, name: Name) {
    exists m: nat, j: nat :: m < |log| && log[m].pos == last.txPos && Takes(g, site, log[m].tx, tx, j, name)
  }

  /** The transaction is a name_firstupdate that pays the network fee and opens a commitment to its
      random value followed by `name`, made at least twelve blocks earlier, by spending the output
      that carries it. */
  ghost predicate Claims(g: Signing, site: Site, log: seq<Logged>, tx: Tx, name: Name)
    requires site.Valid()
  {
    && DecodeNameTx(tx, true).op == OP_NAME_FIRSTUPDATE && |DecodeNameTx(tx, true).args| >= 3
    && NameNetFee(tx.vout) >= NetworkFee(site.env.testnet, site.Height())
    && exists m: nat, j: nat, commitment: Bytes ::
         && m < |log| && Takes(g, site, log[m].tx, tx, j, commitment)
         && site.Height() - log[m].height >= 12
         && NameDecisions.Committed(commitment) == site.env.hash160(DecodeNameTx(tx, true).args[1] + name)
  }

  /** Why the transaction may add the next entry to the history: it updates the last one, if that has
      not expired, and claims the name otherwise. */
  ghost predicate MayFollow(g: Signing, site: Site, log: seq<Logged>, history: seq<NameIndex>, tx: Tx, name: Name) {
    && site.Valid()
    && if history != [] && site.Height() - history[|history| - 1].nHeight < 36000
       then Updates(g, site, log, history[|history| - 1], tx, name)
       else Claims(g, site, log, tx, name)
  }

  // ----- one transaction -----

  /** What the hook has seen before it records a transaction past the fork: an update, or else a
      claim. */
  lemma RecordedMeans(site: Site, names: map<Name, seq<NameIndex>>, tx: Tx, a: Inputs, name: Name)
    returns (j: nat, update: bool)
    requires site.Valid() && |a.scripts| == |a.prevPos| && NameDecision(site, names, tx, a) == Ok(Some(name))
    requires PostLibcoinFork(site.env.testnet, site.Height())
    ensures j < |a.scripts| && IsNameScript(a.scripts[j])
    ensures update ==>
              && ParseNameScript(a.scripts[j]).args[0] == name && LastEntryIs(History(names, name), a.prevPos[j])
              && RelativeDepth(site.path, a.prevPos[j], ExpirationDepth(site.Height())) >= 0
    ensures !update ==>
              && DecodeNameTx(tx, true).op == OP_NAME_FIRSTUPDATE && |DecodeNameTx(tx, true).args| >= 3
              && NameNetFee(tx.vout) >= NetworkFee(site.env.testnet, site.Height())
              && NameDecisions.Committed(ParseNameScript(a.scripts[j]).args[0])
                   == site.env.hash160(DecodeNameTx(tx, true).args[1] + name)
              && RelativeDepth(site.path, a.prevPos[j], MIN_FIRSTUPDATE_DEPTH) < 0
              && (NameHeight(names, name) >= 0 ==> !Unexpired(NameHeight(names, name), site.Height()))
  {
    hide ScanScripts, ParseNameScript, RelativeDepth, NetworkFee, NameNetFee, HasNameOutput, CommitmentMatches;
    StrictScanExact(a.scripts, |a.scripts|);
    j := ScanScripts(true, a.scripts, |a.scripts|).index;
    update := DecodeNameTx(tx, true).op == OP_NAME_UPDATE;
    if !update {
      NameDecisions.CommitmentExact(site.env.hash160, ParseNameScript(a.scripts[j]).args[0],
                                    DecodeNameTx(tx, true).args[1], name);
    }
  }

  /** What input `j` of a connected transaction takes. */
  lemma InputTakes(g: Signing, site: Site, txs: map<Hash, TxIndex>, tx: Tx, j: nat, log: seq<Logged>) returns (m: nat)
    requires j < |tx.vin| && SpendInputs(site, txs, tx, |tx.vin|).Ok?
    requires IndexOf(txs, log) && FilesExact(site.env, log) && VerifiesBy(site.env, g)
    requires IsNameScript(SpendInputs(site, txs, tx, |tx.vin|).value.scripts[j])
    ensures var a := SpendInputs(site, txs, tx, |tx.vin|).value;
            && m < |log| && log[m].pos == a.prevPos[j]
            && Takes(g, site, log[m].tx, tx, j, ParseNameScript(a.scripts[j]).args[0])
  {
    hide SpendInputs, IndexOf, ParseNameScript, IsNameScript, LockinHeight, Verifies;
    m := SpentScript(site, txs, tx, |tx.vin|, j, log);
    if PastLockin(site) {
      InputsVerified(site, txs, tx, |tx.vin|, j);
      var prev := site.env.disk[log[m].pos];
      assert prev == log[m].tx && SignatureHolds(g, prev, tx, j);
    }
  }

  /** The last entry of a history, if the walk over the branch finds its transaction, has not
      expired. */
  lemma BackUnexpired(site: Site, names: map<Name, seq<NameIndex>>, log: seq<Logged>, m: nat, name: Name)
    requires site.Valid() && DistinctPlaces(site.path) && LogInPlace(site.path, log)
    requires EntriesLogged(names, log) && DistinctPositions(log)
    requires m < |log| && LastEntryIs(History(names, name), log[m].pos)
    requires RelativeDepth(site.path, log[m].pos, ExpirationDepth(site.Height())) >= 0
    ensures var h := History(names, name); Unexpired(h[|h| - 1].nHeight, site.Height())
  {
    BackHeight(names, log, name, m);
    hide RelativeDepth, EntriesLogged, DistinctPositions, DistinctPlaces;
    var h := History(names, name);
    ExpiryTestsComplementary(site, h[|h| - 1]);
  }

  /** Whatever is recorded past the fork may follow what is there. */
  lemma RecordedMayFollow(g: Signing, site: Site, c: Connected, tx: Tx, log: seq<Logged>, name: Name)
    requires site.Valid() && RecordedName(site, c, tx) == Some(name) && PostLibcoinFork(site.env.testnet, site.Height())
    requires IndexOf(c.s.txs, log) && EntriesLogged(c.s.names, log) && DistinctPositions(log)
    requires FilesExact(site.env, log) && VerifiesBy(site.env, g)
    requires DistinctPlaces(site.path) && LogInPlace(site.path, log)
    ensures MayFollow(g, site, log, History(c.s.names, name), tx, name)
  {
    hide IndexOf, FilesExact, VerifiesBy, SpendInputs, NameDecision, ParseNameScript, EntriesLogged, DistinctPositions,
         DistinctPlaces, LogInPlace, DecodeNameTx, NetworkFee, NameNetFee, RelativeDepth, NameDecisions.Committed,
         Takes;
    var a := SpendInputs(site, c.s.txs, tx, |tx.vin|).value;
    var j, update := RecordedMeans(site, c.s.names, tx, a, name);
    var m := InputTakes(g, site, c.s.txs, tx, j, log);
    if update {
      BackUnexpired(site, c.s.names, log, m, name);
    } else {
      DepthExact(site, log, m, MIN_FIRSTUPDATE_DEPTH);
      var commitment := ParseNameScript(a.scripts[j]).args[0];
      assert Takes(g, site, log[m].tx, tx, j, commitment);
    }
  }

  // ----- whole histories -----

  /** Entry `i` of the history is that of a logged transaction that could follow the entries
      before it, at the site where its block was connected. */
  ghost predicate Follows(g: Signing, sites: seq<Site>, log: seq<Logged>, history: seq<NameIndex>, i: nat, name: Name)
    requires i < |history|
  {
    && 1 <= history[i].nHeight <= |sites|
    && exists k: nat ::
         && k < |log| && log[k].pos == history[i].txPos && log[k].height == history[i].nHeight
         && MayFollow(g, sites[history[i].nHeight - 1], log, history[..i], log[k].tx, name)
  }

  /** So does every entry made past the fork. */
  ghost predicate Succeed(g: Signing, testnet: bool, sites: seq<Site>, log: seq<Logged>,
                          names: map<Name, seq<NameIndex>>)
  {
    forall name: Name, i: nat ::
      i < |History(names, name)| && PostLibcoinFork(testnet, History(names, name)[i].nHeight) ==>
      Follows(g, sites, log, History(names, name), i, name)
  }

  lemma MayFollowLonger(g: Signing, site: Site, log: seq<Logged>, longer: seq<Logged>, history: seq<NameIndex>, tx: Tx,
                        name: Name)
    requires MayFollow(g, site, log, history, tx, name) && log <= longer
    ensures MayFollow(g, site, longer, history, tx, name)
  {
    hide Takes, DecodeNameTx, NameDecisions.Committed, NetworkFee, NameNetFee, Unexpired;
    if history != [] && site.Height() - history[|history| - 1].nHeight < 36000 {
      var m: nat, j: nat :|
        m < |log| && log[m].pos == history[|history| - 1].txPos && Takes(g, site, log[m].tx, tx, j, name);
      assert longer[m] == log[m];
    } else {
      var m: nat, j: nat, commitment: Bytes :|
        && m < |log| && Takes(g, site, log[m].tx, tx, j, commitment)
        && site.Height() - log[m].height >= 12
        && NameDecisions.Committed(commitment) == site.env.hash160(DecodeNameTx(tx, true).args[1] + name);
      assert longer[m] == log[m];
    }
  }

  lemma FollowsLonger(g: Signing, sites: seq<Site>, log: seq<Logged>, longer: seq<Logged>,
                      history: seq<NameIndex>, extended: seq<NameIndex>, i: nat, name: Name)
    requires i < |history| && Follows(g, sites, log, history, i, name) && log <= longer && history <= extended
    ensures Follows(g, sites, longer, extended, i, name)
  {
    hide MayFollow;
    assert extended[..i] == history[..i];
    var k: nat :| k < |log| && log[k].pos == history[i].txPos && log[k].height == history[i].nHeight
                  && MayFollow(g, sites[history[i].nHeight - 1], log, history[..i], log[k].tx, name);
    assert longer[k] == log[k];
    MayFollowLonger(g, sites[history[i].nHeight - 1], log, longer, history[..i], log[k].tx, name);
  }

  /** Connecting a transaction keeps the property. */
  lemma TxKeepsSuccession(g: Signing, sites: seq<Site>, site: Site, c: Connected, tx: Tx, pos: DiskTxPos,
                          log: seq<Logged>)
    requires site.Valid() && ConnectTx(site, c, tx, pos).Ok?
    requires 1 <= site.Height() <= |sites| && sites[site.Height() - 1] == site
    requires Bookkeeping(site.env.testnet, log, c.s, site.Height()) && FilesExact(site.env, log)
             && VerifiesBy(site.env, g)
    requires DistinctPlaces(site.path) && LogInPlace(site.path, log)
    requires Succeed(g, site.env.testnet, sites, log, c.s.names)
    ensures Succeed(g, site.env.testnet, sites, log + [Logged(tx, pos, site.Height())],
                    ConnectTx(site, c, tx, pos).value.s.names)
  {
    hide Follows, MayFollow, IndexOf, FilesExact, VerifiesBy, DistinctPlaces, LogInPlace, EntriesLogged,
         DistinctPositions, OneNameScript, PostLibcoinFork, ConnectTx, RecordedName, StoredValue, Ruled;
    var e := Logged(tx, pos, site.Height());
    var after: map<Name, seq<NameIndex>> := ConnectTx(site, c, tx, pos).value.s.names;
    ConnectTxNames(site, c, tx, pos);
    forall name: Name, i: nat | i < |History(after, name)|
                                && PostLibcoinFork(site.env.testnet, History(after, name)[i].nHeight)
      ensures Follows(g, sites, log + [e], History(after, name), i, name)
    {
      var h := History(c.s.names, name);
      if i < |h| {
        assert h <= History(after, name);
        FollowsLonger(g, sites, log, log + [e], h, History(after, name), i, name);
      } else {
        RecordedMayFollow(g, site, c, tx, log, name);
        NewFollows(g, sites, site, log, h, History(after, name), e, name);
      }
    }
  }

  lemma NewFollows(g: Signing, sites: seq<Site>, site: Site, log: seq<Logged>, h: seq<NameIndex>,
                   longer: seq<NameIndex>, e: Logged, name: Name)
    requires 1 <= e.height <= |sites| && sites[e.height - 1] == site && MayFollow(g, site, log, h, e.tx, name)
    requires |longer| == |h| + 1 && longer[..|h|] == h && longer[|h|].txPos == e.pos && longer[|h|].nHeight == e.height
    ensures Follows(g, sites, log + [e], longer, |h|, name)
  {
    MayFollowLonger(g, site, log, log + [e], h, e.tx, name);
    hide MayFollow;
    assert (log + [e])[|log|] == e;
  }

  // ----- one block, a branch, a run -----

  lemma {:induction false} BlockKeepsSuccession(g: Signing, sites: seq<Site>, site: Site, before: Indexes,
                                                prefix: Chain, i: nat)
    requires BlockStart(site, before, prefix) && i <= |Tip(site.path).block.vtx|
    requires 1 <= site.Height() <= |sites| && sites[site.Height() - 1] == site && VerifiesBy(site.env, g)
    requires DistinctPlaces(site.path) && LogInPlace(site.path, MidLog(prefix, site.path, i))
    requires Succeed(g, site.env.testnet, sites, Log(prefix), before.names)
    ensures ConnectTxs(site, before, i).Ok?
    ensures Succeed(g, site.env.testnet, sites, MidLog(prefix, site.path, i), ConnectTxs(site, before, i).value.s.names)
  {
    hide ConnectTx, Succeed, VerifiesBy, DistinctPlaces, Bookkeeping, FilesExact, Unrecorded, BlockStart;
    MidBookkeeping(site, before, prefix, i);
    if i == 0 {
      assert MidLog(prefix, site.path, 0) == Log(prefix);
    } else {
      MidLogPrefix(prefix, site.path, i - 1, i);
      BlockKeepsSuccession(g, sites, site, before, prefix, i - 1);
      MidFacts(site, before, prefix, i - 1);
      MidLogNext(prefix, site.path, i - 1);
      MidBookkeeping(site, before, prefix, i - 1);
      hide MidLog, LogInPlace;
      TxKeepsSuccession(g, sites, site, ConnectTxs(site, before, i - 1).value, Tip(site.path).block.vtx[i - 1],
                        TxPos(Tip(site.path), i - 1), MidLog(prefix, site.path, i - 1));
    }
  }

  /** The checks of all sites are those of `g`. */
  ghost predicate SitesVerify(g: Signing, sites: seq<Site>) {
    forall k :: 0 <= k < |sites| ==> VerifiesBy(sites[k].env, g)
  }

  lemma NothingToFollow(g: Signing, testnet: bool, sites: seq<Site>, log: seq<Logged>)
    ensures Succeed(g, testnet, sites, log, EMPTY.names)
  {
  }

  /** On every accepted branch, each entry that a name got past the fork is that of a transaction
      that updates the entry before it, if that had not expired, by spending its name output, and
      that claims the name otherwise, by opening a commitment; past the lock-in height with a
      signature for the output spent. */
  lemma {:induction false} BuiltSuccession(g: Signing, all: seq<Site>, sites: seq<Site>, testnet: bool, chain: Chain,
                                           s: Indexes)
    requires Built(sites, testnet, chain, s) && SitesExact(sites, Log(chain)) && SitesVerify(g, sites) && sites <= all
    ensures Succeed(g, testnet, all, Log(chain), s.names)
    decreases |sites|
  {
    hide ConnectBlock, ConnectTxs, Succeed, VerifiesBy, FilesExact, Bookkeeping, BlockStart, Built, Build, FreshBlock,
         OwnersThroughout, OwnersAtBack, AllReadAsRecorded, DistinctPlaces, LogInPlace;
    if sites == [] {
      BuiltOnNothing(testnet, chain, s);
      NothingToFollow(g, testnet, all, Log(chain));
    } else {
      BuiltSplit(sites, testnet, chain, s);
      var front, prefix, site := sites[..|sites| - 1], chain[..|chain| - 1], sites[|sites| - 1];
      var before, n := Build(front).value, |Tip(chain).block.vtx|;
      assert Log(chain) == MidLog(prefix, chain, n) && Log(prefix) <= Log(chain);
      assert FilesExact(site.env, Log(chain));
      SitesExactFront(sites, Log(prefix), Log(chain));
      hide MidLog, SitesExact, Log;
      BuiltSuccession(g, all, front, testnet, prefix, before);
      OwnersBuilt(front, testnet, prefix, before);
      BuiltStart(sites, testnet, chain, s);
      PlacesDistinct(sites, testnet, chain, s);
      LogPlaced(chain);
      BlockKeepsSuccession(g, all, site, before, prefix, n);
    }
  }

  /** Every name output of the transaction pays to the address. */
  ghost predicate NameOutputsPay(tx: Tx, op: NameOp, hash160: Bytes) {
    forall n :: 0 <= n < |tx.vout| && IsNameScript(tx.vout[n].scriptPubKey) ==>
      tx.vout[n].scriptPubKey == Prefix(op) + AddressScript(hash160)
  }

  lemma TakenByKey(g: Signing, site: Site, prev: Tx, tx: Tx, j: nat, name: Name, op: NameOp, hash160: Bytes)
    requires Takes(g, site, prev, tx, j, name) && PastLockin(site) && NameOutputsPay(prev, op, hash160)
    requires op.Pushable(MAX_ELEMENT_SIZE) && |hash160| <= MAX_ELEMENT_SIZE
    ensures SignedByOwner(g, tx, op, hash160)
  {
    hide ParseNameScript, IsNameScript, Verifies, Supplies, Prefix, AddressScript, LockinHeight;
    assert prev.vout[tx.vin[j].n].scriptPubKey == Prefix(op) + AddressScript(hash160);
    NameOutputSpent(g.crypto(tx, j), op, g.scriptSig(tx, j), hash160);
  }

  /** On every accepted branch, an entry made past the fork and the lock-in height before the entry
      below it expires is that of a transaction signed by the key to which the name output below
      pays. */
  lemma ChangedByItsKey(g: Signing, sites: seq<Site>, testnet: bool, chain: Chain, s: Indexes, name: Name, i: nat,
                        m: nat, op: NameOp, hash160: Bytes)
    requires Built(sites, testnet, chain, s) && SitesExact(sites, Log(chain)) && SitesVerify(g, sites)
    requires 0 < i < |History(s.names, name)|
    requires var h := History(s.names, name);
             && PostLibcoinFork(testnet, h[i].nHeight) && h[i].nHeight - h[i - 1].nHeight < 36000
             && (1 <= h[i].nHeight <= |sites| ==> PastLockin(sites[h[i].nHeight - 1]))
             && m < |Log(chain)| && Log(chain)[m].pos == h[i - 1].txPos
    requires NameOutputsPay(Log(chain)[m].tx, op, hash160) && op.Pushable(MAX_ELEMENT_SIZE)
             && |hash160| <= MAX_ELEMENT_SIZE
    ensures exists k: nat ::
              && k < |Log(chain)| && Log(chain)[k].pos == History(s.names, name)[i].txPos
              && SignedByOwner(g, Log(chain)[k].tx, op, hash160)
  {
    hide Built, SitesExact, SitesVerify, PastLockin, NameOutputsPay, SignedByOwner, Takes, Log, Claims,
         IndexOf, EntriesLogged, OwnersThroughout, OwnersAtBack, AllReadAsRecorded, Succeed, PostLibcoinFork;
    var log, h := Log(chain), History(s.names, name);
    BuiltSuccession(g, sites, sites, testnet, chain, s);
    EntryFollows(g, testnet, sites, log, s.names, name, i);
    OwnersBuilt(sites, testnet, chain, s);
    AlongHeights(sites, testnet, chain, s);
    var site := sites[h[i].nHeight - 1];
    var k: nat :| k < |log| && log[k].pos == h[i].txPos && MayFollow(g, site, log, h[..i], log[k].tx, name);
    assert h[..i][i - 1] == h[i - 1] && site.Height() == h[i].nHeight;
    var n: nat, j: nat :| n < |log| && log[n].pos == h[i - 1].txPos && Takes(g, site, log[n].tx, log[k].tx, j, name);
    SameEntry(log, n, m);
    TakenByKey(g, site, log[n].tx, log[k].tx, j, name, op, hash160);
  }

  lemma EntryFollows(g: Signing, testnet: bool, sites: seq<Site>, log: seq<Logged>, names: map<Name, seq<NameIndex>>,
                     name: Name, i: nat)
    requires Succeed(g, testnet, sites, log, names) && i < |History(names, name)|
    requires PostLibcoinFork(testnet, History(names, name)[i].nHeight)
    ensures Follows(g, sites, log, History(names, name), i, name)
  {
  }

  /** The site of a block has its height. */
  lemma AlongHeights(sites: seq<Site>, testnet: bool, chain: Chain, s: Indexes)
    requires Built(sites, testnet, chain, s)
    ensures forall k :: 0 <= k < |sites| ==> sites[k].Valid() && sites[k].Height() == k + 1
  {
    hide Build;
  }

  ghost predicate EnvsVerify(g: Signing, log: seq<Logged>, events: seq<Event>) {
    forall i ::
      0 <= i < |events| && events[i].Attach? ==> VerifiesBy(events[i].env, g) && FilesExact(events[i].env, log)
  }

  lemma SitesVerifyFrom(g: Signing, log: seq<Logged>, sites: seq<Site>, events: seq<Event>)
    requires SitesFrom(sites, events) && EnvsVerify(g, log, events)
    ensures SitesVerify(g, sites) && SitesExact(sites, log)
  {
    hide VerifiesBy, FilesExact;
    forall k | 0 <= k < |sites| ensures VerifiesBy(sites[k].env, g) && FilesExact(sites[k].env, log) {
      assert AttachedIn(sites[k], events);
      var i :| 0 <= i < |events| && events[i] == Attach(sites[k].env, Tip(sites[k].path), sites[k].best);
    }
  }

  lemma SameSuccession(g: Signing, testnet: bool, sites: seq<Site>, log: seq<Logged>, a: map<Name, seq<NameIndex>>,
                       b: map<Name, seq<NameIndex>>)
    requires SameHistories(a, b) && Succeed(g, testnet, sites, log, b)
    ensures Succeed(g, testnet, sites, log, a)
  {
    hide Follows, PostLibcoinFork;
    forall name ensures History(a, name) == History(b, name) {}
  }

  /** So it is after any run, reorganizations included, with the connections that the run made of the
      blocks on the branch reached. */
  lemma RunSuccession(g: Signing, genesis: StoredBlock, testnet: bool, events: seq<Event>) returns (sites: seq<Site>)
    requires Regular(genesis, testnet, events) && Play(genesis, testnet, events).Ok?
    requires EnvsVerify(g, Log(Play(genesis, testnet, events).value.chain), events)
    ensures SitesFrom(sites, events) && Along(sites, testnet, Play(genesis, testnet, events).value.chain)
    ensures var n := Play(genesis, testnet, events).value; Succeed(g, testnet, sites, Log(n.chain), n.s.names)
  {
    hide Play, Regular, EnvsVerify, SitesVerify, SitesExact, SitesFrom, Succeed, Build, Log, SameHistories;
    var n := Play(genesis, testnet, events).value;
    sites := RunIsStraight(genesis, testnet, events);
    var s := Build(sites).value;
    SitesVerifyFrom(g, Log(n.chain), sites, events);
    BuiltSuccession(g, sites, sites, testnet, n.chain, s);
    SameSuccession(g, testnet, sites, Log(n.chain), n.s.names, s.names);
  }
}
