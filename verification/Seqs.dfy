/** Regrouping of concatenations, stated once for the sequences the other modules take apart. */
module Seqs {

  lemma Associative<T>(a: seq<T>, b: seq<T>, c: seq<T>)
    ensures a + (b + c) == (a + b) + c
  {
  }

  lemma Regroup<T>(a: seq<T>, b: seq<T>, c: seq<T>, d: seq<T>)
    ensures a + b + (c + d) == a + (b + c) + d
  {
  }

  lemma TakeOut<T>(a: seq<T>, b: seq<T>, c: seq<T>, d: seq<T>)
    ensures a + (b + c) + d == a + b + (c + d)
    ensures a + c + d == a + (c + d)
  {
  }

  lemma TakeOutSecond<T>(a: seq<T>, o: seq<T>, q: seq<T>, c: seq<T>, d: seq<T>)
    ensures a + (o + q) + c + d == (a + o) + q + (c + d)
    ensures a + o + c + d == (a + o) + (c + d)
  {
  }

  lemma MoveFront<T>(a: seq<T>, q: seq<T>)
    requires q != []
    ensures a + [q[0]] + q[1..] == a + q
  {
  }

  /** Two concatenations with the same first part are equal exactly when the rests are. */
  lemma CancelFront<T>(c: seq<T>, x: seq<T>, y: seq<T>, z: seq<T>)
    ensures c + x == (c + y) + z <==> x == y + z
  {
    Associative(c, y, z);
    assert (c + x)[|c|..] == x && (c + (y + z))[|c|..] == y + z;
  }

  /** Two concatenations with the same last part are equal exactly when the fronts are. */
  lemma CancelBack<T>(x: seq<T>, y: seq<T>, z: seq<T>, t: seq<T>)
    ensures x + t == y + (z + t) <==> x == y + z
  {
    Associative(y, z, t);
    if x + t == (y + z) + t {
      assert |x| == |y + z|;
      assert (x + t)[..|x|] == x && ((y + z) + t)[..|x|] == y + z;
    }
  }
}
