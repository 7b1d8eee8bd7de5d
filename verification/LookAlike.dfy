/** A cell of another program that looks like a token account: an approval that was never granted
    commits on it, because it approves what the cell already shows. */
module LookAlike {
  import opened Types
  import opened State
  import opened Instruction
  import opened Spec
  import opened Sums
  import opened Invariant
  import opened Actions
  import opened Exactness
  import opened Runs
  import opened Witness

  /** Owned by key 12, with key 13 as delegate of seven tokens. */
  const SHOWN: Account := Account(Key(10), Key(12), 9, Some(Key(13)), Initialized, None, 7, None)

  /** The look-alike 20 belongs to program 9; 12 and 13 are wallets. Nothing is the token program's. */
  function Street(): Ledger {
    map[Key(12) := Wallet(1), Key(13) := Wallet(1), Key(20) := Cell(1, Key(9), AccountData(SHOWN))]
  }

  function ApproveList(): seq<Meta> {
    [Meta(Key(20), false), Meta(Key(13), false), Meta(Key(12), true)]
  }

  lemma StreetCells()
    ensures var l := Street();
      && l.Keys == {Key(12), Key(13), Key(20)} && |l| <= 3
      && l[Key(12)] == Wallet(1) && l[Key(20)] == Cell(1, Key(9), AccountData(SHOWN))
      && forall k | k in l :: !Owned(TheEnv(), l, k) && l[k].lamports == 1
  {
    KeysDiffer(1, 0);
    KeysDiffer(1, 9);
    KeysDiffer(12, 13);
    KeysDiffer(12, 20);
    assert Street().Keys == {Key(12), Key(13), Key(20)};
    assert |Street()| == |Street().Keys| <= 3;
  }

  lemma StreetIsReachable()
    ensures Reachable(TheEnv(), Street())
  {
    TheEnvIsValid();
    StreetCells();
    TotalAtMost(TheEnv(), Lamports, Street());
    assert Genesis(TheEnv(), Street());
    assert After(TheEnv(), Street(), []) == Street();
  }

  /** What the instruction asks for. */
  function Asked(): Action {
    SetDelegate(Key(20), Meta(Key(12), true), [], Some(Grant(Key(13), 7)), None)
  }

  lemma ApprovalAsks()
    ensures Present(Street(), ApproveList()) && ActionOf(TheEnv(), ApproveList(), Approve(7)) == Some(Asked())
  {
    StreetCells();
    assert ApproveList()[3..] == [];
  }

  lemma ApprovalEchoes()
    ensures Echoes(TheEnv(), Street(), Asked()) && !Enabled(TheEnv(), Street(), Asked())
  {
    StreetCells();
    KeysDiffer(1, 0);
  }

  /** The owner signs, and the approval of seven tokens for key 13 commits on a cell the program does
      not own. No such action was granted, and nothing changes. */
  lemma EchoCommits()
    ensures var env, l, accts := TheEnv(), Street(), ApproveList();
      && Reachable(env, l) && Commits(env, l, accts, Approve(7), l)
      && !Owned(env, l, Key(20)) && Done(env, l, Program(accts, Approve(7))).None?
  {
    StreetIsReachable();
    ReachableInv(TheEnv(), Street());
    StreetCells();
    ApprovalAsks();
    ApprovalEchoes();
    CommitsExactly(TheEnv(), Street(), ApproveList(), Approve(7), Street());
  }
}
