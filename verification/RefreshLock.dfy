/** Concurrent refresh transactions at the level of their statements: SELECT ... FOR UPDATE, the checks, the
    two writes and the commit of any number of transactions may interleave in any order, with rollbacks
    anywhere and with other transactions changing rows nobody has locked. */
module RefreshLock {
  import opened Base
  import opened Store
  import Flows

  type TxId = nat

  datatype Outcome = Rotated(successor: TokenHash) | Refused | ReplayFound | RolledBack

  datatype Phase =
    | Waiting                                       // FOR UPDATE issued, lock not granted yet
    | Holding                                       // lock granted
    | Seen(row: RefreshRow)                         // row read
    | Passed(row: RefreshRow)                       // every check passed
    | Flagged(row: RefreshRow)                      // revoked = true written, uncommitted
    | Staged(row: RefreshRow, successor: TokenHash, expires: Time) // successor inserted, uncommitted
    | Replay(row: RefreshRow)                       // the row was already revoked
    | Family(row: RefreshRow, rows: set<TokenHash>) // session-wide update written, uncommitted
    | Finished(outcome: Outcome)

  datatype Tx = Tx(token: TokenHash, phase: Phase)

  /** `rows` is the committed table; `ever` are the hashes it or a transaction ever held. */
  datatype Db = Db(rows: map<TokenHash, RefreshRow>, locks: map<TokenHash, TxId>, txs: map<TxId, Tx>, ever: set<TokenHash>)

  datatype Action =
    | Begin(tx: TxId, token: TokenHash)
    | Acquire(tx: TxId)
    | Read(tx: TxId)
    | Check(tx: TxId, accepted: bool)
    | Revoke(tx: TxId)
    | Insert(tx: TxId, successor: TokenHash, expires: Time)
    | Commit(tx: TxId)
    | RevokeFamily(tx: TxId)
    | CommitFamily(tx: TxId)
    | Rollback(tx: TxId)
    | Other(after: map<TokenHash, RefreshRow>)

  function FamilyOf(rows: map<TokenHash, RefreshRow>, session: SessionId): set<TokenHash> {
    set h | h in rows && rows[h].session == session && !rows[h].revoked
  }

  /** A commit of some other transaction: it needs the lock of every row it touches, never clears `revoked`,
      and inserts under new hashes only. */
  ghost predicate Elsewhere(db: Db, after: map<TokenHash, RefreshRow>) {
    && (forall h | h in db.locks && h in db.rows :: h in after && after[h] == db.rows[h])
    && (forall h | h in after && h in db.rows :: after[h] == db.rows[h].(revoked := after[h].revoked) && (db.rows[h].revoked ==> after[h].revoked))
    && (forall h | h in after && h !in db.rows :: h !in db.ever)
  }

  ghost predicate Enabled(db: Db, a: Action) {
    match a
    case Begin(tx, _) => tx !in db.txs
    case Acquire(tx) => tx in db.txs && db.txs[tx].phase.Waiting? && db.txs[tx].token !in db.locks
    case Read(tx) => tx in db.txs && db.txs[tx].phase.Holding? && db.txs[tx].token in db.rows
    case Check(tx, _) => tx in db.txs && db.txs[tx].phase.Seen?
    case Revoke(tx) => tx in db.txs && db.txs[tx].phase.Passed?
    case Insert(tx, successor, _) => tx in db.txs && db.txs[tx].phase.Flagged? && successor !in db.ever
    case Commit(tx) => tx in db.txs && db.txs[tx].phase.Staged?
    case RevokeFamily(tx) =>
      && tx in db.txs && db.txs[tx].phase.Replay?
      && forall h | h in FamilyOf(db.rows, db.txs[tx].phase.row.session) :: h in db.locks ==> db.locks[h] == tx
    case CommitFamily(tx) => tx in db.txs && db.txs[tx].phase.Family?
    case Rollback(tx) => tx in db.txs && !db.txs[tx].phase.Finished?
    case Other(after) => Elsewhere(db, after)
  }

  function To(db: Db, tx: TxId, phase: Phase): Db
    requires tx in db.txs
  {
    db.(txs := db.txs[tx := db.txs[tx].(phase := phase)])
  }

  /** The end of a transaction: its locks go. */
  function End(db: Db, tx: TxId, outcome: Outcome): Db
    requires tx in db.txs
  {
    To(db, tx, Finished(outcome)).(locks := map h | h in db.locks && db.locks[h] != tx :: db.locks[h])
  }

  function Successor(row: RefreshRow, expires: Time): RefreshRow {
    RefreshRow(row.user, row.client, row.session, Some(expires), false)
  }

  ghost function Next(db: Db, a: Action): Db
    requires Enabled(db, a)
  {
    match a
    case Begin(tx, token) => db.(txs := db.txs[tx := Tx(token, Waiting)])
    case Acquire(tx) =>
      if db.txs[tx].token !in db.rows then End(db, tx, Refused)
      else To(db, tx, Holding).(locks := db.locks[db.txs[tx].token := tx])
    case Read(tx) => To(db, tx, Seen(db.rows[db.txs[tx].token]))
    case Check(tx, accepted) =>
      var row := db.txs[tx].phase.row;
      if row.revoked then To(db, tx, Replay(row)) else if accepted then To(db, tx, Passed(row)) else End(db, tx, Refused)
    case Revoke(tx) => To(db, tx, Flagged(db.txs[tx].phase.row))
    case Insert(tx, successor, expires) =>
      To(db, tx, Staged(db.txs[tx].phase.row, successor, expires)).(ever := db.ever + {successor})
    case Commit(tx) =>
      var p := db.txs[tx].phase;
      End(db, tx, Rotated(p.successor)).(rows := WithRotation(db.rows, db.txs[tx].token, p.row, p.successor, p.expires))
    case RevokeFamily(tx) =>
      var row := db.txs[tx].phase.row;
      var rows := FamilyOf(db.rows, row.session);
      To(db, tx, Family(row, rows)).(locks := map h | h in db.locks.Keys + rows :: if h in rows then tx else db.locks[h])
    case CommitFamily(tx) => End(db, tx, ReplayFound).(rows := Revoked(db.rows, db.txs[tx].phase.rows))
    case Rollback(tx) => End(db, tx, RolledBack)
    case Other(after) => db.(rows := after, ever := db.ever + after.Keys)
  }

  /** The buffered writes of a rotation: by primary key, whatever the table says at commit. */
  function WithRotation(rows: map<TokenHash, RefreshRow>, token: TokenHash, row: RefreshRow, successor: TokenHash, expires: Time): map<TokenHash, RefreshRow> {
    rows[token := row.(revoked := true)][successor := Successor(row, expires)]
  }

  // -------------------------------------------------------------------- the invariant

  predicate HasRow(p: Phase) {
    p.Seen? || p.Passed? || p.Flagged? || p.Staged? || p.Replay? || p.Family?
  }

  /** A transaction that holds its lock has read the committed row, and one that passed the checks read it
      unrevoked. */
  ghost predicate TxOk(t: TxId, db: Db)
    requires t in db.txs
  {
    var tx := db.txs[t];
    && (tx.phase.Holding? || HasRow(tx.phase) ==> tx.token in db.locks && db.locks[tx.token] == t)
    && (HasRow(tx.phase) ==> tx.token in db.rows && db.rows[tx.token] == tx.phase.row)
    && (tx.phase.Passed? || tx.phase.Flagged? || tx.phase.Staged? ==> !tx.phase.row.revoked)
    && (tx.phase.Replay? || tx.phase.Family? ==> tx.phase.row.revoked)
    && (tx.phase.Staged? ==> tx.phase.successor in db.ever && tx.phase.successor !in db.rows)
    && (tx.phase.Family? ==> forall h | h in tx.phase.rows ::
          h in db.locks && db.locks[h] == t && h in db.rows && db.rows[h].session == tx.phase.row.session)
    && (tx.phase.Finished? && tx.phase.outcome.Rotated? ==>
        tx.token in db.ever && (tx.token in db.rows ==> db.rows[tx.token].revoked))
  }

  ghost predicate LockOk(h: TokenHash, db: Db)
    requires h in db.locks
  {
    h in db.rows && db.locks[h] in db.txs && !db.txs[db.locks[h]].phase.Finished?
  }

  predicate Won(db: Db, t: TxId, h: TokenHash) {
    t in db.txs && db.txs[t].token == h && db.txs[t].phase.Finished? && db.txs[t].phase.outcome.Rotated?
  }

  ghost predicate BothWon(a: TxId, b: TxId, h: TokenHash, db: Db) {
    Won(db, a, h) && Won(db, b, h)
  }

  ghost predicate SameSuccessor(a: TxId, b: TxId, db: Db) {
    && a in db.txs && b in db.txs && db.txs[a].phase.Staged? && db.txs[b].phase.Staged?
    && db.txs[a].phase.successor == db.txs[b].phase.successor
  }

  /** A staged successor would bring back a token that was already rotated. */
  ghost predicate Reborn(t: TxId, w: TxId, db: Db) {
    t in db.txs && db.txs[t].phase.Staged? && Won(db, w, db.txs[t].phase.successor)
  }

  ghost predicate Ok(db: Db) {
    && db.rows.Keys <= db.ever
    && (forall t {:trigger TxOk(t, db)} | t in db.txs :: TxOk(t, db))
    && (forall h {:trigger LockOk(h, db)} | h in db.locks :: LockOk(h, db))
    && (forall a, b {:trigger SameSuccessor(a, b, db)} | SameSuccessor(a, b, db) :: a == b)
    && (forall a, b, h {:trigger BothWon(a, b, h, db)} | BothWon(a, b, h, db) :: a == b)
    && (forall t, w {:trigger Reborn(t, w, db)} :: !Reborn(t, w, db))
  }

  // -------------------------------------------------------------- each action keeps it

  /** A transaction moves on; nothing else changes. */
  lemma MoveKeeps(db: Db, tx: TxId, phase: Phase)
    requires Ok(db) && tx in db.txs && !phase.Finished? && !phase.Staged? && TxOk(tx, To(db, tx, phase))
    ensures Ok(To(db, tx, phase))
  {
    var after := To(db, tx, phase);
    forall t | t in after.txs
      ensures TxOk(t, after)
    {
      if t != tx { assert TxOk(t, db); }
    }
    forall h | h in after.locks
      ensures LockOk(h, after)
    {
      assert LockOk(h, db);
    }
    forall a, b | SameSuccessor(a, b, after)
      ensures a == b
    {
      assert SameSuccessor(a, b, db);
    }
    forall a, b, h | BothWon(a, b, h, after)
      ensures a == b
    {
      assert BothWon(a, b, h, db);
    }
    forall t, w
      ensures !Reborn(t, w, after)
    {
      assert !Reborn(t, w, db);
    }
  }

  lemma BeginKeeps(db: Db, tx: TxId, token: TokenHash)
    requires Ok(db) && tx !in db.txs
    ensures Ok(db.(txs := db.txs[tx := Tx(token, Waiting)]))
  {
    var after := db.(txs := db.txs[tx := Tx(token, Waiting)]);
    forall t | t in after.txs
      ensures TxOk(t, after)
    {
      if t != tx { assert TxOk(t, db); }
    }
    forall h | h in after.locks
      ensures LockOk(h, after)
    {
      assert LockOk(h, db);
    }
    forall a, b | SameSuccessor(a, b, after)
      ensures a == b
    {
      assert SameSuccessor(a, b, db);
    }
    forall a, b, h | BothWon(a, b, h, after)
      ensures a == b
    {
      assert BothWon(a, b, h, db);
    }
    forall t, w
      ensures !Reborn(t, w, after)
    {
      assert !Reborn(t, w, db);
    }
  }

  /** Ending without a rotation. */
  lemma EndKeeps(db: Db, tx: TxId, outcome: Outcome)
    requires Ok(db) && tx in db.txs && !db.txs[tx].phase.Finished? && !outcome.Rotated?
    ensures Ok(End(db, tx, outcome))
  {
    var after := End(db, tx, outcome);
    forall t | t in after.txs
      ensures TxOk(t, after)
    {
      if t != tx { assert TxOk(t, db); }
    }
    forall h | h in after.locks
      ensures LockOk(h, after)
    {
      assert LockOk(h, db);
    }
    forall a, b | SameSuccessor(a, b, after)
      ensures a == b
    {
      assert SameSuccessor(a, b, db);
    }
    forall a, b, h | BothWon(a, b, h, after)
      ensures a == b
    {
      assert BothWon(a, b, h, db);
    }
    forall t, w
      ensures !Reborn(t, w, after)
    {
      assert !Reborn(t, w, db);
    }
  }

  /** More locks for a running transaction, taken from nobody. */
  lemma LocksKeep(db: Db, tx: TxId, locks: map<TokenHash, TxId>)
    requires Ok(db) && tx in db.txs && !db.txs[tx].phase.Finished?
    requires forall h | h in db.locks :: h in locks && locks[h] == db.locks[h]
    requires forall h | h in locks && h !in db.locks :: locks[h] == tx && h in db.rows
    ensures Ok(db.(locks := locks))
  {
    var after := db.(locks := locks);
    forall t | t in after.txs
      ensures TxOk(t, after)
    {
      assert TxOk(t, db);
    }
    forall h | h in locks
      ensures LockOk(h, after)
    {
      if h in db.locks { assert LockOk(h, db); }
    }
    forall a, b | SameSuccessor(a, b, after)
      ensures a == b
    {
      assert SameSuccessor(a, b, db);
    }
    forall a, b, h | BothWon(a, b, h, after)
      ensures a == b
    {
      assert BothWon(a, b, h, db);
    }
    forall t, w
      ensures !Reborn(t, w, after)
    {
      assert !Reborn(t, w, db);
    }
  }

  lemma AcquireKeeps(db: Db, tx: TxId)
    requires Ok(db) && Enabled(db, Acquire(tx))
    ensures Ok(Next(db, Acquire(tx)))
  {
    var token := db.txs[tx].token;
    if token in db.rows {
      var mid := db.(locks := db.locks[token := tx]);
      LocksKeep(db, tx, mid.locks);
      MoveKeeps(mid, tx, Holding);
    } else {
      EndKeeps(db, tx, Refused);
    }
  }

  lemma InsertKeeps(db: Db, tx: TxId, successor: TokenHash, expires: Time)
    requires Ok(db) && Enabled(db, Insert(tx, successor, expires))
    ensures Ok(Next(db, Insert(tx, successor, expires)))
  {
    var after := Next(db, Insert(tx, successor, expires));
    assert TxOk(tx, db);
    forall t | t in db.txs
      ensures db.txs[t].phase.Staged? ==> db.txs[t].phase.successor != successor
      ensures Won(db, t, db.txs[t].token) ==> db.txs[t].token != successor
    {
      assert TxOk(t, db);
    }
    forall t | t in after.txs
      ensures TxOk(t, after)
    {
      if t != tx { assert TxOk(t, db); }
    }
    forall h | h in after.locks
      ensures LockOk(h, after)
    {
      assert LockOk(h, db);
    }
    forall a, b | SameSuccessor(a, b, after)
      ensures a == b
    {
      if a != tx && b != tx { assert SameSuccessor(a, b, db); }
    }
    forall a, b, h | BothWon(a, b, h, after)
      ensures a == b
    {
      assert BothWon(a, b, h, db);
    }
    forall t, w
      ensures !Reborn(t, w, after)
    {
      assert !Reborn(t, w, db);
    }
  }

  lemma FamilyKeeps(db: Db, tx: TxId)
    requires Ok(db) && Enabled(db, RevokeFamily(tx))
    ensures Ok(Next(db, RevokeFamily(tx)))
  {
    var row := db.txs[tx].phase.row;
    var rows := FamilyOf(db.rows, row.session);
    var locks := map h | h in db.locks.Keys + rows :: if h in rows then tx else db.locks[h];
    LocksKeep(db, tx, locks);
    assert TxOk(tx, db);
    MoveKeeps(db.(locks := locks), tx, Family(row, rows));
  }

  /** The committed table changes, but no locked row does, and `revoked` never goes back. */
  lemma TableKeeps(db: Db, after: map<TokenHash, RefreshRow>)
    requires Ok(db) && Elsewhere(db, after)
    ensures Ok(db.(rows := after, ever := db.ever + after.Keys))
  {
    var next := db.(rows := after, ever := db.ever + after.Keys);
    forall t | t in next.txs
      ensures TxOk(t, next)
    {
      assert TxOk(t, db);
    }
    forall h | h in next.locks
      ensures LockOk(h, next)
    {
      assert LockOk(h, db);
    }
    forall a, b | SameSuccessor(a, b, next)
      ensures a == b
    {
      assert SameSuccessor(a, b, db);
    }
    forall a, b, h | BothWon(a, b, h, next)
      ensures a == b
    {
      assert BothWon(a, b, h, db);
    }
    forall t, w
      ensures !Reborn(t, w, next)
    {
      assert !Reborn(t, w, db);
    }
  }

  lemma FamilyCommitKeeps(db: Db, tx: TxId)
    requires Ok(db) && Enabled(db, CommitFamily(tx))
    ensures Ok(Next(db, CommitFamily(tx)))
  {
    var mid := End(db, tx, ReplayFound);
    var rows := db.txs[tx].phase.rows;
    assert TxOk(tx, db);
    EndKeeps(db, tx, ReplayFound);
    TableKeeps(mid, Revoked(db.rows, rows));
    assert mid.ever + Revoked(db.rows, rows).Keys == mid.ever;
  }

  /** At commit the row is still there, still unrevoked, and nobody has rotated it. */
  lemma CommitFacts(db: Db, tx: TxId)
    requires Ok(db) && Enabled(db, Commit(tx))
    ensures var token, p := db.txs[tx].token, db.txs[tx].phase;
            && token in db.rows && db.rows[token] == p.row && !p.row.revoked && token in db.locks && db.locks[token] == tx
            && p.successor !in db.rows && p.successor in db.ever && p.successor != token
    ensures forall t :: !Won(db, t, db.txs[tx].token)
    ensures forall t | t in db.txs && t != tx && db.txs[t].phase.Staged? :: db.txs[t].phase.successor != db.txs[tx].phase.successor
  {
    assert TxOk(tx, db);
    forall t
      ensures !Won(db, t, db.txs[tx].token)
    {
      if t in db.txs { assert TxOk(t, db); }
    }
    forall t | t in db.txs && t != tx && db.txs[t].phase.Staged?
      ensures db.txs[t].phase.successor != db.txs[tx].phase.successor
    {
      assert SameSuccessor(t, tx, db) ==> t == tx;
    }
  }

  lemma CommitKeeps(db: Db, tx: TxId)
    requires Ok(db) && Enabled(db, Commit(tx))
    ensures Ok(Next(db, Commit(tx)))
  {
    var after := Next(db, Commit(tx));
    var token := db.txs[tx].token;
    CommitFacts(db, tx);
    forall t | t in after.txs
      ensures TxOk(t, after)
    {
      if t != tx {
        assert TxOk(t, db);
        assert !Reborn(tx, t, db);
      }
    }
    forall h | h in after.locks
      ensures LockOk(h, after)
    {
      assert LockOk(h, db);
    }
    forall a, b | SameSuccessor(a, b, after)
      ensures a == b
    {
      assert SameSuccessor(a, b, db);
    }
    forall a, b, h | BothWon(a, b, h, after)
      ensures a == b
    {
      if a != tx && b != tx { assert BothWon(a, b, h, db); }
      assert !Won(db, a, token) && !Won(db, b, token);
    }
    forall t, w
      ensures !Reborn(t, w, after)
    {
      assert !Reborn(t, w, db);
      if t in db.txs { assert TxOk(t, db); }
    }
  }

  lemma NextKeeps(db: Db, a: Action)
    requires Ok(db) && Enabled(db, a)
    ensures Ok(Next(db, a))
  {
    match a {
      case Begin(tx, token) => BeginKeeps(db, tx, token);
      case Acquire(tx) => AcquireKeeps(db, tx);
      case Read(tx) => assert TxOk(tx, db); MoveKeeps(db, tx, Seen(db.rows[db.txs[tx].token]));
      case Check(tx, accepted) =>
        var row := db.txs[tx].phase.row;
        assert TxOk(tx, db);
        if row.revoked { MoveKeeps(db, tx, Replay(row)); }
        else if accepted { MoveKeeps(db, tx, Passed(row)); }
        else { EndKeeps(db, tx, Refused); }
      case Revoke(tx) => assert TxOk(tx, db); MoveKeeps(db, tx, Flagged(db.txs[tx].phase.row));
      case Insert(tx, successor, expires) => InsertKeeps(db, tx, successor, expires);
      case Commit(tx) => CommitKeeps(db, tx);
      case RevokeFamily(tx) => FamilyKeeps(db, tx);
      case CommitFamily(tx) => FamilyCommitKeeps(db, tx);
      case Rollback(tx) => EndKeeps(db, tx, RolledBack);
      case Other(after) => TableKeeps(db, after);
    }
  }

  // ----------------------------------------------------------------------------- runs

  ghost predicate IsRun(db: Db, actions: seq<Action>)
    decreases |actions|
  {
    actions == [] || (Enabled(db, actions[0]) && IsRun(Next(db, actions[0]), actions[1..]))
  }

  ghost function After(db: Db, actions: seq<Action>): Db
    requires IsRun(db, actions)
    decreases |actions|
  {
    if actions == [] then db else After(Next(db, actions[0]), actions[1..])
  }

  /** Any committed table, no transaction running. */
  ghost function Quiet(rows: map<TokenHash, RefreshRow>, ever: set<TokenHash>): Db {
    Db(rows, map[], map[], ever)
  }

  lemma {:induction false} RunKeeps(db: Db, actions: seq<Action>)
    requires Ok(db) && IsRun(db, actions)
    ensures Ok(After(db, actions))
    decreases |actions|
  {
    if actions != [] {
      NextKeeps(db, actions[0]);
      RunKeeps(Next(db, actions[0]), actions[1..]);
    }
  }

  /** Under every interleaving at most one transaction rotates a given token; and once one has, every
      transaction that holds the row, now or later, has read it as revoked, so none of them can go on to
      rotate it. */
  lemma OneWinner(rows: map<TokenHash, RefreshRow>, ever: set<TokenHash>, actions: seq<Action>, h: TokenHash)
    requires rows.Keys <= ever && IsRun(Quiet(rows, ever), actions)
    ensures var db := After(Quiet(rows, ever), actions);
            && (forall a, b | Won(db, a, h) && Won(db, b, h) :: a == b)
            && (forall a, b | Won(db, a, h) && b in db.txs && db.txs[b].token == h && HasRow(db.txs[b].phase) ::
                  db.txs[b].phase.row.revoked && !db.txs[b].phase.Passed? && !db.txs[b].phase.Flagged? && !db.txs[b].phase.Staged?)
            && (forall a, b | Won(db, a, h) && b in db.txs && db.txs[b].token == h && Enabled(db, Read(b)) ::
                  Next(db, Read(b)).txs[b].phase.row.revoked)
  {
    var db := After(Quiet(rows, ever), actions);
    RunKeeps(Quiet(rows, ever), actions);
    forall a, b | Won(db, a, h) && Won(db, b, h)
      ensures a == b
    {
      assert BothWon(a, b, h, db);
    }
    forall a, b | Won(db, a, h) && b in db.txs && db.txs[b].token == h && HasRow(db.txs[b].phase)
      ensures db.txs[b].phase.row.revoked && !db.txs[b].phase.Passed? && !db.txs[b].phase.Flagged? && !db.txs[b].phase.Staged?
    {
      assert TxOk(a, db) && TxOk(b, db);
    }
    forall a, b | Won(db, a, h) && b in db.txs && db.txs[b].token == h && Enabled(db, Read(b))
      ensures Next(db, Read(b)).txs[b].phase.row.revoked
    {
      assert TxOk(a, db);
    }
  }

  // --------------------------------------------------------------------- refinement

  /** The refresh decision on the token table alone, in one step. */
  function AtomicRefresh(rows: map<TokenHash, RefreshRow>, token: TokenHash, accepted: bool, successor: TokenHash, expires: Time):
    (map<TokenHash, RefreshRow>, bool)
  {
    if token !in rows then (rows, false)
    else if rows[token].revoked then (Revoked(rows, RowsOfSession(rows, rows[token].session)), false)
    else if !accepted then (rows, false)
    else (Revoked(rows, {token})[successor := Successor(rows[token], expires)], true)
  }

  /** Every action but the commits and the other transactions leaves the committed table alone; the commit of
      a rotation is the atomic refresh, taken on the table of that moment; a refusal is an atomic refusal. */
  lemma LockedRefines(db: Db, a: Action)
    requires Ok(db) && Enabled(db, a)
    ensures !a.Commit? && !a.CommitFamily? && !a.Other? ==> Next(db, a).rows == db.rows
    ensures a.Commit? ==>
              var tx := db.txs[a.tx];
              (Next(db, a).rows, true) == AtomicRefresh(db.rows, tx.token, true, tx.phase.successor, tx.phase.expires)
    ensures !a.Begin? && !a.Rollback? && !a.Other? && Next(db, a).txs[a.tx].phase == Finished(Refused) ==>
              forall successor, expires :: AtomicRefresh(db.rows, db.txs[a.tx].token, false, successor, expires) == (db.rows, false)
  {
    if a.Commit? {
      CommitFacts(db, a.tx);
      var token, row := db.txs[a.tx].token, db.txs[a.tx].phase.row;
      assert Revoked(db.rows, {token}) == db.rows[token := row.(revoked := true)];
    } else if a.Check? {
      assert TxOk(a.tx, db);
    }
  }

  /** The commit of a detected replay revokes every row of the session that was unrevoked when its update
      ran, leaves the presented row as the atomic refresh would, and is the atomic refresh exactly when its
      update covers the rows of the session that are unrevoked at commit. */
  lemma ReplayCommit(db: Db, t: TxId)
    requires Ok(db) && Enabled(db, CommitFamily(t))
    ensures var tx, rows := db.txs[t], Next(db, CommitFamily(t)).rows;
            var (atomic, success) := AtomicRefresh(db.rows, tx.token, true, tx.token, 0);
            && !success && tx.token in rows && rows[tx.token] == atomic[tx.token]
            && (forall h | h in tx.phase.rows :: h in rows && rows[h].revoked)
            && (rows == atomic <==> FamilyOf(db.rows, tx.phase.row.session) <= tx.phase.rows)
  {
    var tx := db.txs[t];
    assert TxOk(t, db);
    RevokedEqual(db.rows, tx.phase.rows, tx.phase.row.session);
  }

  lemma RevokedEqual(rows: map<TokenHash, RefreshRow>, which: set<TokenHash>, session: SessionId)
    requires forall h | h in which :: h in rows && rows[h].session == session
    ensures Revoked(rows, which) == Revoked(rows, RowsOfSession(rows, session)) <==> FamilyOf(rows, session) <= which
  {
    var a, b := Revoked(rows, which), Revoked(rows, RowsOfSession(rows, session));
    if a == b {
      forall h | h in FamilyOf(rows, session)
        ensures h in which
      {
        assert h in b && b[h].revoked && a[h].revoked;
      }
    }
  }

  // --------------------------------------------------- between the update and the commit

  predicate ByOther(a: Action, t: TxId) {
    a.Other? || a.tx != t
  }

  /** No action of the stretch belongs to `t`. */
  predicate WithoutTx(actions: seq<Action>, t: TxId) {
    forall i | 0 <= i < |actions| :: ByOther(actions[i], t)
  }

  /** A hash that stood for `row`: it stands for that row, perhaps revoked since, or for nothing any more. */
  ghost predicate OldRow(db: Db, h: TokenHash, row: RefreshRow) {
    && h in db.ever
    && (forall x | x in db.txs && db.txs[x].phase.Staged? :: db.txs[x].phase.successor != h)
    && (h in db.rows ==> db.rows[h] == row.(revoked := db.rows[h].revoked) && (row.revoked ==> db.rows[h].revoked))
  }

  lemma RowIsOld(db: Db, h: TokenHash)
    requires Ok(db) && h in db.rows
    ensures OldRow(db, h, db.rows[h])
  {
    forall x | x in db.txs && db.txs[x].phase.Staged?
      ensures db.txs[x].phase.successor != h
    {
      assert TxOk(x, db);
    }
  }

  lemma OldRowStep(db: Db, a: Action, h: TokenHash, row: RefreshRow)
    requires Ok(db) && Enabled(db, a) && OldRow(db, h, row)
    ensures OldRow(Next(db, a), h, row)
  {
    if a.Commit? { CommitFacts(db, a.tx); }
  }

  lemma {:induction false} OldRowRun(db: Db, actions: seq<Action>, h: TokenHash, row: RefreshRow)
    requires Ok(db) && IsRun(db, actions) && OldRow(db, h, row)
    ensures OldRow(After(db, actions), h, row)
    decreases |actions|
  {
    if actions != [] {
      NextKeeps(db, actions[0]);
      OldRowStep(db, actions[0], h, row);
      OldRowRun(Next(db, actions[0]), actions[1..], h, row);
    }
  }

  lemma OthersLeaveTx(db: Db, a: Action, t: TxId)
    requires Enabled(db, a) && ByOther(a, t) && t in db.txs
    ensures t in Next(db, a).txs && Next(db, a).txs[t] == db.txs[t]
  {
  }

  lemma {:induction false} TxWaits(db: Db, actions: seq<Action>, t: TxId)
    requires IsRun(db, actions) && WithoutTx(actions, t) && t in db.txs
    ensures t in After(db, actions).txs && After(db, actions).txs[t] == db.txs[t]
    decreases |actions|
  {
    if actions != [] {
      OthersLeaveTx(db, actions[0], t);
      TxWaits(Next(db, actions[0]), actions[1..], t);
    }
  }

  /** A row of the session that was not there when the update ran. */
  ghost predicate Joined(before: Db, db: Db, h: TokenHash, session: SessionId) {
    h in db.rows && h !in before.rows && db.rows[h].session == session
  }

  /** Under every interleaving between the update of a detected replay and its commit, the commit is the
      atomic refresh of that moment exactly when every row that joined the session since is revoked again. */
  lemma ReplayRefines(db: Db, t: TxId, between: seq<Action>)
    requires Ok(db) && Enabled(db, RevokeFamily(t))
    requires IsRun(Next(db, RevokeFamily(t)), between) && WithoutTx(between, t)
    ensures var later := After(Next(db, RevokeFamily(t)), between);
            && Enabled(later, CommitFamily(t))
            && var token, session := later.txs[t].token, later.txs[t].phase.row.session;
               var rows := Next(later, CommitFamily(t)).rows;
               && (forall h | h in FamilyOf(db.rows, session) :: h in rows && rows[h].revoked)
               && ((rows, false) == AtomicRefresh(later.rows, token, true, token, 0) <==>
                   forall h | Joined(db, later, h, session) :: later.rows[h].revoked)
  {
    var mid := Next(db, RevokeFamily(t));
    var later := After(mid, between);
    var session := db.txs[t].phase.row.session;
    NextKeeps(db, RevokeFamily(t));
    RunKeeps(mid, between);
    TxWaits(mid, between, t);
    ReplayCommit(later, t);
    forall h | h in db.rows && h in later.rows
      ensures later.rows[h] == db.rows[h].(revoked := later.rows[h].revoked) && (db.rows[h].revoked ==> later.rows[h].revoked)
    {
      RowIsOld(mid, h);
      OldRowRun(mid, between, h, db.rows[h]);
    }
    FamilyLater(db.rows, later.rows, session);
  }

  lemma FamilyLater(before: map<TokenHash, RefreshRow>, after: map<TokenHash, RefreshRow>, session: SessionId)
    requires forall h | h in before && h in after :: after[h] == before[h].(revoked := after[h].revoked) && (before[h].revoked ==> after[h].revoked)
    ensures FamilyOf(after, session) <= FamilyOf(before, session) <==>
            forall h | h in after && h !in before && after[h].session == session :: after[h].revoked
  {
    if forall h | h in after && h !in before && after[h].session == session :: after[h].revoked {
      forall h | h in FamilyOf(after, session)
        ensures h in FamilyOf(before, session)
      {
        assert h in before;
      }
    }
    if FamilyOf(after, session) <= FamilyOf(before, session) {
      forall h | h in after && h !in before && after[h].session == session
        ensures after[h].revoked
      {
        assert h !in FamilyOf(before, session);
      }
    }
  }

  /** A commit of another kind of transaction that adds a row to the session. */
  ghost predicate Adds(db: Db, a: Action, session: SessionId) {
    a.Other? && exists h :: h in a.after && h !in db.rows && a.after[h].session == session
  }

  ghost predicate NothingAdded(db: Db, actions: seq<Action>, session: SessionId)
    requires IsRun(db, actions)
    decreases |actions|
  {
    actions == [] || (!Adds(db, actions[0], session) && NothingAdded(Next(db, actions[0]), actions[1..], session))
  }

  /** While the update's locks are held no rotation adds a row to the session: its presented row would have to
      be one of the locked ones. */
  lemma RotationsStayOut(db: Db, a: Action, t: TxId)
    requires Ok(db) && Enabled(db, a) && ByOther(a, t) && t in db.txs && db.txs[t].phase.Family?
    requires FamilyOf(db.rows, db.txs[t].phase.row.session) <= db.txs[t].phase.rows
    requires !Adds(db, a, db.txs[t].phase.row.session)
    ensures t in Next(db, a).txs && Next(db, a).txs[t] == db.txs[t]
    ensures FamilyOf(Next(db, a).rows, db.txs[t].phase.row.session) <= db.txs[t].phase.rows
  {
    OthersLeaveTx(db, a, t);
    var session, rows := db.txs[t].phase.row.session, db.txs[t].phase.rows;
    forall h | h in FamilyOf(Next(db, a).rows, session)
      ensures h in rows
    {
      if a.Commit? {
        assert TxOk(t, db);
        CommitFacts(db, a.tx);
        assert db.txs[a.tx].token in FamilyOf(db.rows, db.txs[a.tx].phase.row.session);
      }
      assert h in db.rows ==> h in FamilyOf(db.rows, session);
    }
  }

  lemma {:induction false} RotationsStayOutRun(db: Db, actions: seq<Action>, t: TxId)
    requires Ok(db) && IsRun(db, actions) && WithoutTx(actions, t) && t in db.txs && db.txs[t].phase.Family?
    requires FamilyOf(db.rows, db.txs[t].phase.row.session) <= db.txs[t].phase.rows
    requires NothingAdded(db, actions, db.txs[t].phase.row.session)
    ensures FamilyOf(After(db, actions).rows, db.txs[t].phase.row.session) <= db.txs[t].phase.rows
    decreases |actions|
  {
    if actions != [] {
      NextKeeps(db, actions[0]);
      RotationsStayOut(db, actions[0], t);
      RotationsStayOutRun(Next(db, actions[0]), actions[1..], t);
    }
  }

  /** However many refreshes interleave, a detected replay commits atomically unless a transaction that is not a
      refresh adds a row to the session between its update and its commit. */
  lemma ReplayAtomicAmongRefreshes(db: Db, t: TxId, between: seq<Action>)
    requires Ok(db) && Enabled(db, RevokeFamily(t))
    requires IsRun(Next(db, RevokeFamily(t)), between) && WithoutTx(between, t)
    requires NothingAdded(Next(db, RevokeFamily(t)), between, db.txs[t].phase.row.session)
    ensures var later := After(Next(db, RevokeFamily(t)), between);
            && Enabled(later, CommitFamily(t))
            && var token := later.txs[t].token;
               (Next(later, CommitFamily(t)).rows, false) == AtomicRefresh(later.rows, token, true, token, 0)
  {
    var mid := Next(db, RevokeFamily(t));
    NextKeeps(db, RevokeFamily(t));
    RunKeeps(mid, between);
    TxWaits(mid, between, t);
    RotationsStayOutRun(mid, between, t);
    ReplayCommit(After(mid, between), t);
  }

  /** The failing family is not empty: a code exchanged in the session between the two statements survives. */
  lemma LateGrantSurvives(presented: RefreshRow, late: RefreshRow, h: TokenHash, g: TokenHash)
    requires presented.revoked && !late.revoked && late.session == presented.session && h != g
    ensures var db := Replaying(presented, h);
            var between := [Action.Other(db.rows[g := late])];
            && Ok(db) && Enabled(db, RevokeFamily(1)) && IsRun(Next(db, RevokeFamily(1)), between) && WithoutTx(between, 1)
            && var later := After(Next(db, RevokeFamily(1)), between);
               Enabled(later, CommitFamily(1)) && g in Next(later, CommitFamily(1)).rows && !Next(later, CommitFamily(1)).rows[g].revoked
  {
    var db := Replaying(presented, h);
    ReplayingRun(presented, h);
    var mid := Next(db, RevokeFamily(1));
    assert FamilyOf(db.rows, presented.session) == {};
    var a := Action.Other(db.rows[g := late]);
    assert Enabled(mid, a);
    assert [a][1..] == [] && IsRun(Next(mid, a), []);
    assert After(mid, [a]) == Next(mid, a);
  }

  /** A transaction that presented the revoked row and found that out. */
  ghost function Replaying(presented: RefreshRow, h: TokenHash): Db {
    Db(map[h := presented], map[h := 1], map[1 := Tx(h, Replay(presented))], {h})
  }

  /** It is reached from a quiet database by beginning, locking, reading and checking. */
  lemma ReplayingRun(presented: RefreshRow, h: TokenHash)
    requires presented.revoked
    ensures var actions := [Begin(1, h), Acquire(1), Read(1), Check(1, true)];
            IsRun(Quiet(map[h := presented], {h}), actions) && After(Quiet(map[h := presented], {h}), actions) == Replaying(presented, h)
    ensures Ok(Replaying(presented, h))
  {
    var a0, a1, a2, a3: Action := Begin(1, h), Acquire(1), Read(1), Check(1, true);
    var d0 := Quiet(map[h := presented], {h});
    var d1 := Next(d0, a0);
    var d2 := Next(d1, a1);
    var d3 := Next(d2, a2);
    var d4 := Next(d3, a3);
    assert d4 == Replaying(presented, h);
    assert [a0, a1, a2, a3][1..] == [a1, a2, a3] && [a1, a2, a3][1..] == [a2, a3] && [a2, a3][1..] == [a3] && [a3][1..] == [];
    assert IsRun(d4, []) && After(d4, []) == d4;
    assert IsRun(d3, [a3]) && After(d3, [a3]) == d4;
    assert IsRun(d2, [a2, a3]) && After(d2, [a2, a3]) == d4;
    assert IsRun(d1, [a1, a2, a3]) && After(d1, [a1, a2, a3]) == d4;
    RunKeeps(d0, [a0, a1, a2, a3]);
  }

  /** The other checks of a refresh, given that the row is there and unrevoked. */
  predicate Accepts(s: State, r: Flows.RefreshRequest) {
    var h := Hmac(r.raw);
    && h in s.refresh && r.clientId in s.clients
    && (s.refresh[h].expires.Some? ==> s.now <= s.refresh[h].expires.value)
    && s.refresh[h].client == s.clients[r.clientId].key
    && s.refresh[h].user in s.users && s.refresh[h].session in s.sessions && s.users[s.refresh[h].user].enabled
  }

  /** The refresh handler of the state machine is that atomic refresh on its token table. */
  lemma HandlerIsAtomic(s: State, r: Flows.RefreshRequest, newRaw: string)
    requires r.raw != "" && r.clientId != "" && Flows.ClientError(s, r.clientId, r.secret).None?
    ensures var (t, result) := Flows.Refresh(s, r, newRaw);
            (t.refresh, result.Issued?) == AtomicRefresh(s.refresh, Hmac(r.raw), Accepts(s, r), Hmac(newRaw), s.now + REFRESH_TTL)
  {
  }
}
