/** The two databases and their shared, nested transactions (src/db.h). */
module TxDb {
  import opened Common
  import opened ChainTypes

  /** A "blockindex" record (CDiskBlockIndex); hash 0 stands for no block. */
  datatype DiskBlockIndex = DiskBlockIndex(hashPrev: Hash, hashNext: Hash, nFile: nat, nBlockPos: nat, nHeight: nat,
                                           nBits: nat)

  /** Contents of blkindex.dat and nameindex.dat. */
  datatype DbData = DbData(
    txs: map<Hash, TxIndex>,
    blocks: map<Hash, DiskBlockIndex>,
    hashBestChain: Option<Hash>,
    bestInvalidWork: nat,
    names: map<Name, seq<NameIndex>>)

  function IndexesOf(d: DbData): Indexes {
    Indexes(d.txs, d.names)
  }

  /** The Berkeley environment: `store[0]` is what is committed, `store[k]` what the k-th of
      the nested open transactions sees.  A transaction handle is its number. */
  class DbEnv {
    var store: seq<DbData>

    ghost predicate Valid()
      reads this
    {
      store != []
    }

    constructor (d: DbData)
      ensures store == [d]
    {
      store := [d];
    }

    method Begin() returns (txn: nat)
      requires Valid()
      modifies this
      ensures Valid() && store == old(store) + [old(store)[|old(store)| - 1]] && txn == |old(store)|
    {
      txn := |store|;
      store := store + [store[|store| - 1]];
    }

    /** Commits the innermost transaction into its parent. */
    method Commit(txn: nat)
      requires Valid() && 0 < txn == |store| - 1
      modifies this
      ensures Valid() && store == old(store)[..txn - 1] + [old(store)[txn]]
    {
      store := store[..txn - 1] + [store[txn]];
    }

    method Abort(txn: nat)
      requires Valid() && 0 < txn == |store| - 1
      modifies this
      ensures Valid() && store == old(store)[..txn]
    {
      store := store[..txn];
    }
  }

  /** One database handle: its stack of open transactions, and which of them it owns. */
  class CDB {
    var vTxn: seq<nat>
    var ownTxn: seq<bool>

    ghost predicate Valid()
      reads this
    {
      |vTxn| == |ownTxn|
    }

    constructor ()
      ensures Valid() && vTxn == []
    {
      vTxn, ownTxn := [], [];
    }

    /** The current transaction; 0 is none (autocommit). */
    function GetTxn(): nat
      reads this
    {
      if vTxn == [] then 0 else vTxn[|vTxn| - 1]
    }

    /** Starts a transaction of its own, or joins the given one. */
    method TxnBegin(env: DbEnv, ptxn: Option<nat>)
      requires Valid() && env.Valid()
      modifies this, env
      ensures Valid()
      ensures match ptxn
              case Some(txn) =>
                env.store == old(env.store) && vTxn == old(vTxn) + [txn] && ownTxn == old(ownTxn) + [false]
              case None =>
                && env.store == old(env.store) + [old(env.store)[|old(env.store)| - 1]]
                && vTxn == old(vTxn) + [|old(env.store)|] && ownTxn == old(ownTxn) + [true]
    {
      var txn;
      match ptxn {
        case Some(t) => txn := t;
        case None => txn := env.Begin();
      }
      vTxn := vTxn + [txn];
      ownTxn := ownTxn + [ptxn.None?];
    }

    method TxnCommit(env: DbEnv) returns (ok: bool)
      requires Valid() && env.Valid()
      requires vTxn != [] && ownTxn[|ownTxn| - 1] ==> 0 < vTxn[|vTxn| - 1] == |env.store| - 1
      modifies this, env
      ensures Valid() && ok == (old(vTxn) != [])
      ensures !ok ==> vTxn == old(vTxn) && ownTxn == old(ownTxn) && env.store == old(env.store)
      ensures ok ==> vTxn == old(vTxn)[..|old(vTxn)| - 1] && ownTxn == old(ownTxn)[..|old(ownTxn)| - 1]
      ensures ok ==> env.store == if old(ownTxn)[|old(ownTxn)| - 1]
                                  then old(env.store)[..|old(env.store)| - 2] + [old(env.store)[|old(env.store)| - 1]]
                                  else old(env.store)
    {
      if vTxn == [] {
        return false;
      }
      if ownTxn[|ownTxn| - 1] {
        env.Commit(vTxn[|vTxn| - 1]);
      }
      vTxn := vTxn[..|vTxn| - 1];
      ownTxn := ownTxn[..|ownTxn| - 1];
      return true;
    }

    method TxnAbort(env: DbEnv) returns (ok: bool)
      requires Valid() && env.Valid()
      requires vTxn != [] && ownTxn[|ownTxn| - 1] ==> 0 < vTxn[|vTxn| - 1] == |env.store| - 1
      modifies this, env
      ensures Valid() && ok == (old(vTxn) != [])
      ensures !ok ==> vTxn == old(vTxn) && ownTxn == old(ownTxn) && env.store == old(env.store)
      ensures ok ==> vTxn == old(vTxn)[..|old(vTxn)| - 1] && ownTxn == old(ownTxn)[..|old(ownTxn)| - 1]
      ensures ok ==>
          env.store == if old(ownTxn)[|old(ownTxn)| - 1] then old(env.store)[..|old(env.store)| - 1] else old(env.store)
    {
      if vTxn == [] {
        return false;
      }
      if ownTxn[|ownTxn| - 1] {
        env.Abort(vTxn[|vTxn| - 1]);
      }
      vTxn := vTxn[..|vTxn| - 1];
      ownTxn := ownTxn[..|ownTxn| - 1];
      return true;
    }
  }

  /** Both databases under one transaction at a time. */
  class DatabaseSet {
    const env: DbEnv
    const txDb: CDB
    const nameDb: CDB

    /** The name database always runs in the transaction database's transactions and owns none
        of them; they are exactly the open ones. */
    ghost predicate Valid()
      reads this, env, txDb, nameDb
    {
      && env.Valid() && txDb.Valid() && nameDb.Valid() && txDb != nameDb
      && |env.store| == |txDb.vTxn| + 1
      && nameDb.vTxn == txDb.vTxn
      && (forall k :: 0 <= k < |txDb.vTxn| ==> txDb.vTxn[k] == k + 1 && txDb.ownTxn[k] && !nameDb.ownTxn[k])
    }

    ghost function Frame(): set<object> {
      {env, txDb, nameDb}
    }

    constructor (env: DbEnv)
      requires |env.store| == 1
      ensures Valid() && this.env == env && txDb.vTxn == []
      ensures fresh(this) && fresh(txDb) && fresh(nameDb)
    {
      this.env := env;
      txDb := new CDB();
      nameDb := new CDB();
    }

    /** What reads through this set see. */
    function View(): DbData
      reads env
      requires env.Valid()
    {
      env.store[|env.store| - 1]
    }

    method TxnBegin()
      requires Valid()
      modifies Frame()
      ensures Valid() && env.store == old(env.store) + [old(View())]
    {
      txDb.TxnBegin(env, None);
      nameDb.TxnBegin(env, Some(txDb.GetTxn()));
    }

    /** Publishes the innermost transaction of both databases at once. */
    method TxnCommit() returns (ok: bool)
      requires Valid()
      modifies Frame()
      ensures Valid() && ok == (|old(env.store)| > 1)
      ensures env.store == if ok then old(env.store)[..|old(env.store)| - 2] + [old(View())] else old(env.store)
    {
      ok := nameDb.TxnCommit(env);
      if ok {
        ok := txDb.TxnCommit(env);
      }
    }

    /** Forgets the innermost transaction of both databases; without one it does nothing. */
    method TxnAbort() returns (ok: bool)
      requires Valid()
      modifies Frame()
      ensures Valid() && ok == (|old(env.store)| > 1)
      ensures env.store == if ok then old(env.store)[..|old(env.store)| - 1] else old(env.store)
    {
      ok := nameDb.TxnAbort(env);
      if ok {
        ok := txDb.TxnAbort(env);
      }
    }

    /** Every write goes to the current transaction and nowhere else. */
    method Write(d: DbData)
      requires Valid()
      modifies env
      ensures Valid() && env.store == old(env.store)[..|old(env.store)| - 1] + [d]
    {
      env.store := env.store[..|env.store| - 1] + [d];
    }

    method WriteTxIndex(hash: Hash, t: TxIndex)
      requires Valid()
      modifies env
      ensures Valid()
              && env.store == old(env.store)[..|old(env.store)| - 1] + [old(View()).(txs := old(View()).txs[hash := t])]
    {
      Write(View().(txs := View().txs[hash := t]));
    }

    method EraseTxIndex(hash: Hash)
      requires Valid()
      modifies env
      ensures Valid()
              && env.store == old(env.store)[..|old(env.store)| - 1] + [old(View()).(txs := old(View()).txs - {hash})]
    {
      Write(View().(txs := View().txs - {hash}));
    }

    method WriteName(name: Name, v: seq<NameIndex>)
      requires Valid()
      modifies env
      ensures Valid()
              && env.store
                   == old(env.store)[..|old(env.store)| - 1] + [old(View()).(names := old(View()).names[name := v])]
    {
      Write(View().(names := View().names[name := v]));
    }

    method WriteBlockIndex(hash: Hash, b: DiskBlockIndex)
      requires Valid()
      modifies env
      ensures Valid()
              && env.store
                   == old(env.store)[..|old(env.store)| - 1] + [old(View()).(blocks := old(View()).blocks[hash := b])]
    {
      Write(View().(blocks := View().blocks[hash := b]));
    }

    method WriteHashBestChain(hash: Hash)
      requires Valid()
      modifies env
      ensures Valid()
              && env.store == old(env.store)[..|old(env.store)| - 1] + [old(View()).(hashBestChain := Some(hash))]
    {
      Write(View().(hashBestChain := Some(hash)));
    }

    method WriteBestInvalidWork(work: nat)
      requires Valid()
      modifies env
      ensures Valid() && env.store == old(env.store)[..|old(env.store)| - 1] + [old(View()).(bestInvalidWork := work)]
    {
      Write(View().(bestInvalidWork := work));
    }
  }
}
