/** The types the other modules share. */
module Wrappers {
  type Bytes = seq<bv8>

  datatype Option<+T> = None | Some(value: T)

  datatype Result<+T, +E> = Ok(value: T) | Err(error: E) {
    predicate IsFailure() {
      Err?
    }

    function PropagateFailure<U>(): Result<U, E>
      requires Err?
    {
      Err(error)
    }

    function Extract(): T
      requires Ok?
    {
      value
    }
  }
}

/** Facts about collections that several modules lean on. */
module Collections {
  lemma Regroup<T>(a: seq<T>, b: seq<T>, c: seq<T>)
    ensures (a + b) + c == a + (b + c)
  {
  }

  lemma PickOne<T>(s: set<T>) returns (x: T)
    requires s != {}
    ensures x in s
  {
    x :| x in s;
  }

  lemma {:induction false} LeastExists(s: set<int>)
    requires s != {}
    ensures exists m :: m in s && forall x <- s :: m <= x
  {
    var m := PickOne(s);
    if s != {m} {
      LeastExists(s - {m});
      var n :| n in s - {m} && forall x <- s - {m} :: n <= x;
      var least := if m < n then m else n;
      assert forall x <- s :: x == m || x in s - {m};
      assert least in s && forall x <- s :: least <= x;
    }
  }

  function Least(s: set<int>): (m: int)
    requires s != {}
    ensures m in s && forall x <- s :: m <= x
  {
    LeastExists(s);
    var m :| m in s && forall x <- s :: m <= x;
    m
  }

  /** The ids a sequence hands out are new to the table and to each other. */
  ghost predicate FreshIds(keys: set<int>, newIds: nat -> int) {
    && (forall k: nat :: newIds(k) !in keys)
    && (forall k: nat, l: nat :: newIds(k) == newIds(l) ==> k == l)
  }

  /** From the `n`-th on, the sequence's ids are not in the table. */
  ghost predicate UnusedFrom(keys: set<int>, newIds: nat -> int, n: nat) {
    forall k: nat :: k >= n ==> newIds(k) !in keys
  }
}
