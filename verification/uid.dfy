/** The process-wide widget-id generator of `utils/uid.rs`.
    The original keeps a `static mut COUNTER: usize`, starting at 0, that
    `gen_uid` bumps before returning it. Here the counter is an explicit
    state value threaded through every constructor that mints an id. */
module Uid {
  import opened Ints

  /** The generator state: the value of `COUNTER`, i.e. the last id handed out. */
  datatype UidGen = UidGen(counter: nat)

  /** The state at process start. */
  const Initial: UidGen := UidGen(0)

  /** `id` has already been handed out by a generator in state `g`:
      ids are handed out as 1, 2, 3, ... so these are exactly 1..counter. */
  predicate Issued(g: UidGen, id: nat) {
    1 <= id <= g.counter
  }

  /** The counter can still be bumped without overflowing `usize`. */
  predicate CanGen(g: UidGen) {
    g.counter < USIZE_MAX
  }

  /** `gen_uid`: increments the counter and returns its new value.
      The id is fresh (never handed out before), non-zero, and afterwards
      the issued ids are exactly the old ones plus this one. */
  function GenUid(g: UidGen): (r: (nat, UidGen))
    requires CanGen(g)
    ensures r.0 == g.counter + 1 && r.1.counter == r.0
    ensures r.0 != 0 && IsUsize(r.0)
    ensures !Issued(g, r.0) && Issued(r.1, r.0)
    ensures forall id: nat :: Issued(r.1, id) <==> Issued(g, id) || id == r.0
  {
    var c := g.counter + 1;
    (c, UidGen(c))
  }

  /** The very first id of the process is 1. */
  lemma FirstUidIsOne()
    ensures GenUid(Initial).0 == 1
  {
  }

  /** Mints `n` ids in a row, as `n` successive calls of `gen_uid` do. */
  function GenMany(g: UidGen, n: nat): (r: (seq<nat>, UidGen))
    requires g.counter + n <= USIZE_MAX
    ensures |r.0| == n && r.1.counter == g.counter + n
    decreases n
  {
    if n == 0 then ([], g)
    else
      var (id, g1) := GenUid(g);
      var (rest, g2) := GenMany(g1, n - 1);
      ([id] + rest, g2)
  }

  /** Successive calls return strictly increasing ids, each greater than
      every id issued before the first call; hence any two calls differ. */
  lemma {:induction false} GenManyIncreasing(g: UidGen, n: nat)
    requires g.counter + n <= USIZE_MAX
    ensures forall i, j :: 0 <= i < j < n ==> GenMany(g, n).0[i] < GenMany(g, n).0[j]
    ensures forall i :: 0 <= i < n ==> !Issued(g, GenMany(g, n).0[i])
    ensures forall i :: 0 <= i < n ==> Issued(GenMany(g, n).1, GenMany(g, n).0[i])
    decreases n
  {
    if n > 0 {
      var (id, g1) := GenUid(g);
      GenManyIncreasing(g1, n - 1);
      var ids := GenMany(g, n).0;
      assert ids == [id] + GenMany(g1, n - 1).0;
      forall i | 0 <= i < n
        ensures ids[i] >= id
      {
        if i > 0 {
          assert ids[i] == GenMany(g1, n - 1).0[i - 1];
        }
      }
    }
  }

  /** A mutable wrapper around the generator, closer in shape to the
      original's global counter. */
  class UidCounter {
    var state: UidGen

    constructor ()
      ensures state == Initial
    {
      state := Initial;
    }

    method Gen() returns (id: nat)
      requires CanGen(state)
      modifies this
      ensures id == old(state.counter) + 1 && state.counter == id
    {
      var r := GenUid(state);
      id := r.0;
      state := r.1;
    }
  }
}
