/** The block files, as bytes, hold what the chain logic assumes of them (src/main.h, src/main.cpp). */
module BlockFiles {
  import opened Common
  import opened ChainTypes
  import opened Connect
  import opened TxLog
  import opened ChainRun
  import opened Owner
  import opened Rescan
  import opened NameValues
  import Wire

  type Files = map<nat, Bytes>

  /** CTransaction::ReadFromDisk: what stands at the offset of a position. */
  function ReadAt(hash: Bytes -> Hash, files: Files, pos: DiskTxPos): Option<Tx> {
    if pos.nFile !in files || pos.nTxPos > |files[pos.nFile]| then None
    else match Wire.ReadTx(files[pos.nFile][pos.nTxPos..])
      case Rejected => None
      case Ok((t, _)) => Some(Wire.Meaning(hash, t))
  }

  /** The environment reads transactions from these files. */
  ghost predicate ReadsFrom(env: Env, hash: Bytes -> Hash, files: Files) {
    forall pos :: pos in env.disk ==> ReadAt(hash, files, pos) == Some(env.disk[pos])
  }

  /** The block was written at its place. */
  ghost predicate StoredIn(hash: Bytes -> Hash, files: Files, b: StoredBlock, w: Wire.Block) {
    && Wire.ValidBlock(w) && Wire.Describes(hash, b.block, w) && b.nFile in files
    && b.nBlockPos + |Wire.WriteBlock(w)| <= |files[b.nFile]|
    && files[b.nFile][b.nBlockPos..b.nBlockPos + |Wire.WriteBlock(w)|] == Wire.WriteBlock(w)
  }

  /** Reading at a recorded position gives the transaction, as the chain logic sees it. */
  lemma StoredReads(hash: Bytes -> Hash, files: Files, b: StoredBlock, w: Wire.Block, i: nat)
    requires StoredIn(hash, files, b, w) && i < |b.block.vtx|
    ensures ReadAt(hash, files, TxPos(b, i)) == Some(b.block.vtx[i])
  {
    hide Wire.ReadTx, Wire.WriteBlock, Wire.ValidBlock, Wire.Meaning;
    Wire.PositionReadsBack(hash, files[b.nFile], b, w, i);
  }

  /** When every block of a chain was written at its place, an environment that reads from the
      files finds the transactions of the chain at their recorded positions. */
  lemma {:induction false} ChainOnFile(hash: Bytes -> Hash, files: Files, env: Env, chain: Chain, ws: seq<Wire.Block>)
    requires |ws| == |chain| && forall k :: 0 <= k < |chain| ==> StoredIn(hash, files, chain[k], ws[k])
    requires ReadsFrom(env, hash, files)
    ensures FilesExact(env, Log(chain))
    decreases |chain|
  {
    hide StoredIn, ReadAt, TxPos;
    if |chain| > 1 {
      var prefix, n, b := chain[..|chain| - 1], |Tip(chain).block.vtx|, Tip(chain);
      ChainOnFile(hash, files, env, prefix, ws[..|chain| - 1]);
      forall k | 0 <= k < |Log(chain)| && Log(chain)[k].pos in env.disk
        ensures env.disk[Log(chain)[k].pos] == Log(chain)[k].tx
      {
        if k < |Log(prefix)| {
          assert Log(chain)[k] == Log(prefix)[k];
        } else {
          var i := k - |Log(prefix)|;
          BlockLogEntry(chain, n, i);
          assert StoredIn(hash, files, chain[|chain| - 1], ws[|chain| - 1]);
          StoredReads(hash, files, b, ws[|chain| - 1], i);
        }
      }
    }
  }

  // ----- what environments find in the files -----

  /** The position of one of the block's transactions. */
  ghost predicate RecordedIn(b: StoredBlock, pos: DiskTxPos) {
    exists i :: 0 <= i < |b.block.vtx| && pos == TxPos(b, i)
  }

  ghost predicate Stored(hash: Bytes -> Hash, files: Files, b: StoredBlock) {
    exists w :: StoredIn(hash, files, b, w)
  }

  /** The files hold the given blocks, and `disk` is what they give at the positions recorded for
      the transactions of these blocks. */
  ghost predicate ReadsBlocks(disk: map<DiskTxPos, Tx>, hash: Bytes -> Hash, files: Files, blocks: set<StoredBlock>) {
    && (forall b :: b in blocks ==> Stored(hash, files, b))
    && (forall pos :: pos in disk <==> exists b :: b in blocks && RecordedIn(b, pos))
    && (forall pos :: pos in disk ==> ReadAt(hash, files, pos) == Some(disk[pos]))
  }

  lemma ReadsBack(disk: map<DiskTxPos, Tx>, hash: Bytes -> Hash, files: Files, blocks: set<StoredBlock>, b: StoredBlock,
                  i: nat)
    requires ReadsBlocks(disk, hash, files, blocks) && b in blocks && i < |b.block.vtx|
    ensures TxPos(b, i) in disk && disk[TxPos(b, i)] == b.block.vtx[i]
  {
    hide StoredIn, ReadAt, TxPos;
    assert RecordedIn(b, TxPos(b, i));
    assert Stored(hash, files, b);
    var w :| StoredIn(hash, files, b, w);
    StoredReads(hash, files, b, w, i);
  }

  /** Files that hold more blocks, whatever else changed in them, give the same transactions. */
  lemma SameReadings(disk: map<DiskTxPos, Tx>, files: Files, blocks: set<StoredBlock>,
                     later: map<DiskTxPos, Tx>, laterFiles: Files, more: set<StoredBlock>, hash: Bytes -> Hash)
    requires ReadsBlocks(disk, hash, files, blocks) && ReadsBlocks(later, hash, laterFiles, more) && blocks <= more
    ensures forall pos :: pos in disk ==> pos in later && later[pos] == disk[pos]
  {
    hide Stored, TxPos, ReadAt, StoredIn;
    forall pos | pos in disk ensures pos in later && later[pos] == disk[pos] {
      var b :| b in blocks && RecordedIn(b, pos);
      var i: nat :| i < |b.block.vtx| && pos == TxPos(b, i);
      ReadsBack(disk, hash, files, blocks, b, i);
      ReadsBack(later, hash, laterFiles, more, b, i);
    }
  }

  /** Everything above genesis of the chain is among the blocks. */
  ghost predicate Covers(blocks: set<StoredBlock>, chain: Chain) {
    forall k :: 1 <= k < |chain| ==> chain[k] in blocks
  }

  lemma {:induction false} CoveredHolds(src: Source, hash: Bytes -> Hash, files: Files, blocks: set<StoredBlock>,
                                        chain: Chain)
    requires ReadsBlocks(src.disk, hash, files, blocks) && Covers(blocks, chain)
    ensures Holds(src, Log(chain))
    decreases |chain|
  {
    hide ReadsBlocks, TxPos;
    if |chain| > 1 {
      var prefix, n := chain[..|chain| - 1], |Tip(chain).block.vtx|;
      CoveredHolds(src, hash, files, blocks, prefix);
      forall k | 0 <= k < |Log(chain)|
        ensures Log(chain)[k].pos in src.disk && src.disk[Log(chain)[k].pos] == Log(chain)[k].tx
      {
        if k < |Log(prefix)| {
          assert Log(chain)[k] == Log(prefix)[k];
        } else {
          BlockLogEntry(chain, n, k - |Log(prefix)|);
          ReadsBack(src.disk, hash, files, blocks, Tip(chain), k - |Log(prefix)|);
        }
      }
    }
  }

  /** The site reads blocks from files, its own block among them, and all of them are among those
      of the world. */
  ghost predicate SiteReads(site: Site, src: Source, hash: Bytes -> Hash, blocks: set<StoredBlock>) {
    && site.Valid() && site.env.testnet == src.testnet && site.env.hash160 == src.hash160
    && exists files, own :: ReadsBlocks(site.env.disk, hash, files, own) && Tip(site.path) in own && own <= blocks
  }

  lemma SiteFromFiles(site: Site, src: Source, hash: Bytes -> Hash, files: Files, blocks: set<StoredBlock>)
    requires ReadsBlocks(src.disk, hash, files, blocks) && SiteReads(site, src, hash, blocks)
    ensures Agrees(src, site, map[]) && OwnBlockOnFile(site)
  {
    hide ReadsBlocks, TxPos;
    var siteFiles, own :| ReadsBlocks(site.env.disk, hash, siteFiles, own) && Tip(site.path) in own && own <= blocks;
    SameReadings(site.env.disk, siteFiles, own, src.disk, files, blocks, hash);
    forall i | 0 <= i < |Tip(site.path).block.vtx|
      ensures OnFile(site.env, TxPos(Tip(site.path), i), Tip(site.path).block.vtx[i])
    {
      ReadsBack(site.env.disk, hash, siteFiles, own, Tip(site.path), i);
    }
  }

  /** The hypotheses about files of the statements on name values hold for block files as bytes:
      every environment reads the blocks written so far, the one being connected among them. */
  lemma WorldFromFiles(src: Source, hash: Bytes -> Hash, files: Files, blocks: set<StoredBlock>, sites: seq<Site>,
                       chain: Chain)
    requires ReadsBlocks(src.disk, hash, files, blocks) && Covers(blocks, chain)
    requires forall k :: 0 <= k < |sites| ==> SiteReads(sites[k], src, hash, blocks)
    ensures Holds(src, Log(chain)) && SitesAgree(src, sites) && SitesExact(sites, Log(chain))
    ensures forall k :: 0 <= k < |sites| ==> OwnBlockOnFile(sites[k])
  {
    hide ReadsBlocks, SiteReads, Agrees, OwnBlockOnFile, Log, Covers, FilesExact, Holds;
    CoveredHolds(src, hash, files, blocks, chain);
    forall k | 0 <= k < |sites| ensures Agrees(src, sites[k], map[]) && OwnBlockOnFile(sites[k]) {
      SiteFromFiles(sites[k], src, hash, files, blocks);
    }
    HoldsExact(src, sites, Log(chain));
  }

  /** The rescan from block files as bytes rebuilds the index of the hook exactly under the two
      conditions on coinbases and values. */
  lemma RescanFromFiles(src: Source, hash: Bytes -> Hash, files: Files, blocks: set<StoredBlock>, sites: seq<Site>,
                        chain: Chain, s: Indexes)
    requires Built(sites, src.testnet, chain, s) && src.txs == s.txs && 0 !in s.txs
    requires ReadsBlocks(src.disk, hash, files, blocks) && Covers(blocks, chain)
    requires forall k :: 0 <= k < |sites| ==> SiteReads(sites[k], src, hash, blocks)
    ensures SamePlaces(true, s.names, Reconstruct(src, Log(chain)))
            <==> CoinbasesSilent(src.testnet, Log(chain))
                 && SameValueByBothRules(src.testnet, sites, Log(chain), s.names)
  {
    hide *;
    WorldFromFiles(src, hash, files, blocks, sites, chain);
    RescanValuesExact(src, sites, src.testnet, chain, s);
  }
}
