/** The optional value used for Rust's `Option` and for every partial reader below. */
module Wrappers {

  datatype Option<+T> = None | Some(value: T) {

    predicate IsFailure() {
      None?
    }

    function PropagateFailure<U>(): Option<U>
      requires None?
    {
      None
    }

    function Extract(): T
      requires Some?
    {
      value
    }
  }
}

/** Facts about sequence concatenation, stated once for any element type
    so that the proofs about long rendered texts need not rediscover them. */
module Sequences {

  lemma AppendAssoc<T>(a: seq<T>, b: seq<T>, c: seq<T>)
    ensures (a + b) + c == a + (b + c)
  {
  }

  lemma DropAppend<T>(a: seq<T>, b: seq<T>)
    ensures a <= a + b
    ensures (a + b)[|a|..] == b
  {
  }

  lemma Regroup<T>(a: seq<T>, b: seq<T>, c: seq<T>, d: seq<T>, e: seq<T>)
    ensures a + b + c + d + e == a + (b + (c + (d + e)))
  {
    AppendAssoc(a + b + c, d, e);
    AppendAssoc(a + b, c, d + e);
    AppendAssoc(a, b, c + (d + e));
  }

  /** A left-nested chain appended to `x` is `x` followed by its pieces. */
  lemma Flatten3<T>(x: seq<T>, b1: seq<T>, b2: seq<T>, b3: seq<T>)
    ensures x + (b1 + b2 + b3) == x + b1 + b2 + b3
  {
    AppendAssoc(x, b1 + b2, b3);
    AppendAssoc(x, b1, b2);
  }

  lemma Flatten4<T>(x: seq<T>, b1: seq<T>, b2: seq<T>, b3: seq<T>, b4: seq<T>)
    ensures x + (b1 + b2 + b3 + b4) == x + b1 + b2 + b3 + b4
  {
    AppendAssoc(x, b1 + b2 + b3, b4);
    Flatten3(x, b1, b2, b3);
  }

  lemma Flatten5<T>(x: seq<T>, b1: seq<T>, b2: seq<T>, b3: seq<T>, b4: seq<T>, b5: seq<T>)
    ensures x + (b1 + b2 + b3 + b4 + b5) == x + b1 + b2 + b3 + b4 + b5
  {
    AppendAssoc(x, b1 + b2 + b3 + b4, b5);
    Flatten4(x, b1, b2, b3, b4);
  }

  lemma Flatten7<T>(x: seq<T>, b1: seq<T>, b2: seq<T>, b3: seq<T>, b4: seq<T>, b5: seq<T>, b6: seq<T>, b7: seq<T>)
    ensures x + (b1 + b2 + b3 + b4 + b5 + b6 + b7) == x + b1 + b2 + b3 + b4 + b5 + b6 + b7
  {
    AppendAssoc(x, b1 + b2 + b3 + b4 + b5 + b6, b7);
    AppendAssoc(x, b1 + b2 + b3 + b4 + b5, b6);
    Flatten5(x, b1, b2, b3, b4, b5);
  }

  lemma PrefixSnoc<T>(s: seq<T>, j: nat)
    requires j < |s|
    ensures s[..j + 1] == s[..j] + [s[j]]
  {
  }
}
