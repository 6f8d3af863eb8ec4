/** Keys of transfer tasks, and the open files behind them. */
module Transfer {

  const TEN_BILLION := 10_000_000_000
  const INT32_MIN := -0x8000_0000
  const INT32_MAX := 0x7fff_ffff
  const INT64_MAX := 0x7fff_ffff_ffff_ffff

  predicate IsInt32(n: int) {
    INT32_MIN <= n <= INT32_MAX
  }

  /** userid*GetTenBillion()+timestamp, which the code computes in 64 bits. */
  function TaskKey(userid: int, timestamp: int): int {
    userid * TEN_BILLION + timestamp
  }

  /** Different (user, timestamp) pairs have different keys. */
  lemma KeyInjective(u: int, t: int, v: int, w: int)
    requires IsInt32(t) && IsInt32(w)
    requires TaskKey(u, t) == TaskKey(v, w)
    ensures u == v && t == w
  {}

  /** Exactly the user ids up to 922337203 have keys that fit in 64 bits with every timestamp. */
  lemma KeyFitsIff(userid: nat)
    ensures (forall t :: IsInt32(t) ==> -INT64_MAX - 1 <= TaskKey(userid, t) <= INT64_MAX) <==> userid <= 922337203
  {
    if userid > 922337203 {
      assert IsInt32(0) && IsInt32(INT32_MAX) && IsInt32(INT32_MIN);
      assert TaskKey(userid, INT32_MAX) > INT64_MAX;
    }
  }
}
