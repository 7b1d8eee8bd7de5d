/** Keys and an environment for the concrete ledgers. */
module Witness {
  import opened Types
  import opened State
  import opened Sums

  function Key(n: u8): Pubkey {
    Pubkey(seq(32, i => n))
  }

  lemma KeysDiffer(m: u8, n: u8)
    requires m != n
    ensures Key(m) != Key(n)
  {
    assert Key(m).bytes[0] == m && Key(n).bytes[0] == n;
  }

  /** The program is key 1, the native mint 2, the system program 0, the incinerator 3, the rent
      sysvar 4; every record costs one lamport. */
  function TheEnv(): Env {
    Env(Key(1), Key(2), Key(0), Key(3), Key(4), len => 1)
  }

  lemma TheEnvIsValid()
    ensures TheEnv().Valid()
  {
    KeysDiffer(1, 0);
    KeysDiffer(0, 3);
  }

  /** A cell of the system program without data. */
  function Wallet(lamports: u64): Cell {
    Cell(lamports, Key(0), Opaque([]))
  }

  /** Cells that weigh at most one each. */
  lemma {:induction false} TotalAtMost(env: Env, q: Measure, l: Ledger)
    requires forall k | k in l :: Weight(env, q, l[k]) <= 1
    ensures Total(env, q, l) <= |l|
    decreases |l|
  {
    if |l| != 0 {
      var k :| k in l;
      TotalSplit(env, q, l, k);
      TotalAtMost(env, q, l - {k});
    }
  }
}
